/** The doclet phase of the generator: `parseBegin` (configuration and the global
    container), `newDoclet` (the inclusion filter, shaping, dispatch by kind and
    registration) and the path trimming of `setSourceInfo`. */
module Ingest {
  import opened Optional
  import opened JsText
  import opened Doclets
  import opened Registry
  import opened Handlers
  import Grouping

  // ---------------------------------------------------------------------------
  // parseBegin
  // ---------------------------------------------------------------------------

  /** The uid of the global container before any package name is applied. */
  const BaseGlobalUid: string := "global"

  /** `config.repo.url` after `parseBegin`: `.git` is appended to a non-empty url
      that does not already end with it. */
  function WithGitSuffix(url: string): (r: string)
    ensures url != "" ==> EndsWith(r, ".git")
    ensures url == "" || EndsWith(url, ".git") ==> r == url
    ensures |url| <= |r| && r[..|url|] == url
  {
    if url != "" && !EndsWith(url, ".git") then
      var r := url + ".git";
      assert r[|r| - 4..] == ".git";
      r
    else url
  }

  /** Applying the suffixing twice is the same as once. */
  lemma WithGitSuffixIdempotent(url: string)
    ensures WithGitSuffix(WithGitSuffix(url)) == WithGitSuffix(url)
  {
  }

  /** `config.repo` after `parseBegin`: an absent repository stays absent; a present
      one keeps its branch and has its url suffixed. */
  function NormalizeRepo(repo: Option<Repo>): (r: Option<Repo>)
    ensures r.None? <==> repo.None?
    ensures r.Some? ==> r.value.branch == repo.value.branch && r.value.url == WithGitSuffix(repo.value.url)
    ensures r.Some? && repo.value.url != "" ==> EndsWith(r.value.url, ".git")
  {
    match repo
    case None => None
    case Some(rp) => Some(rp.(url := WithGitSuffix(rp.url)))
  }

  /** Normalising a normalised repository changes nothing. */
  lemma NormalizeRepoIdempotent(repo: Option<Repo>)
    ensures NormalizeRepo(NormalizeRepo(repo)) == NormalizeRepo(repo)
  {
    if repo.Some? {
      WithGitSuffixIdempotent(repo.value.url);
    }
  }

  /** The global container pushed onto `items` by `parseBegin`; it is not put in `itemsMap`. */
  function GlobalItem(globalUid: string): Item {
    Item(globalUid, globalUid, None, "GLOBAL", "GLOBAL", None, Class, None, [], None, None)
  }

  /** `parseBegin` after the configuration is read: `packageName` is the package's
      `name` field (`""` when no package file is configured or it has no name). */
  function Begin(packageName: string): (st: State)
    ensures Valid(st)
    ensures packageName == "" ==> st.uidPrefix == "" && st.globalUid == BaseGlobalUid
    ensures packageName != "" ==> st.uidPrefix == packageName + "."
    ensures st.globalUid == st.uidPrefix + BaseGlobalUid
    ensures Snapshot(st) == [GlobalItem(st.globalUid)]
    ensures st.itemsMap == map[]
  {
    var globalUid := if packageName != "" then packageName + "." + BaseGlobalUid else BaseGlobalUid;
    var prefix := if packageName != "" then packageName + "." else "";
    State([GlobalItem(globalUid)], [0], map[], prefix, globalUid)
  }

  // ---------------------------------------------------------------------------
  // setSourceInfo
  // ---------------------------------------------------------------------------

  /** The declaring file relative to `env.pwd`, before trimming: the first occurrence
      of `pwd + '\'` is removed from the directory and the file name is appended. */
  function RelativePath(pwd: string, dir: string, filename: string): string {
    ReplaceFirst(dir, pwd + "\\", "") + "\\" + filename
  }

  /** The source path of a class: with more than two backslash-separated pieces the
      first two are dropped. */
  function SourcePath(pwd: string, dir: string, filename: string): (r: string)
    ensures var p := RelativePath(pwd, dir, filename);
      && (|Split(p, '\\')| <= 2 ==> r == p)
      && (|Split(p, '\\')| > 2 ==> p == Split(p, '\\')[0] + "\\" + (Split(p, '\\')[1] + "\\" + r))
  {
    var p := RelativePath(pwd, dir, filename);
    var parts := Split(p, '\\');
    if |parts| > 2 then
      DropTwo(p, '\\');
      Join(parts[2..], "\\")
    else p
  }

  /** A string with more than two pieces is its first two pieces, each followed by the
      separator, then the join of the rest. */
  lemma DropTwo(p: string, c: char)
    requires |Split(p, c)| > 2
    ensures p == Split(p, c)[0] + [c] + (Split(p, c)[1] + [c] + Join(Split(p, c)[2..], [c]))
  {
    var parts := Split(p, c);
    SplitHead(p, c);
    var r1 := p[IndexOf(p, c) + 1..];
    SplitHead(r1, c);
    var r2 := r1[IndexOf(r1, c) + 1..];
    assert Split(r1, c)[0] == parts[1];
    assert Split(r2, c) == parts[2..];
    JoinSplit(r2, c);
  }

  /** When the directory lies under the working directory the prefix is what goes. */
  lemma RelativePathUnderPwd(pwd: string, dir: string, filename: string)
    requires pwd + "\\" <= dir
    ensures RelativePath(pwd, dir, filename) == dir[|pwd| + 1..] + "\\" + filename
  {
    ReplaceFirstLeading(dir, pwd + "\\");
  }

  /** `setSourceInfo`: with a repository configured, the item's `source` records its id,
      the trimmed path (also as the remote path), the doclet's line and the repository's
      branch and url; without one, nothing is set. */
  function SourceInfo(cfg: Config, id: string, d: Doclet): (r: Option<Source>)
    ensures r.None? <==> cfg.repo.None?
    ensures r.Some? ==> && r.value.id == id
                        && r.value.path == SourcePath(cfg.pwd, d.meta.path, d.meta.filename)
                        && r.value.startLine == d.meta.lineno
                        && r.value.remote == Remote(cfg.repo.value.branch, r.value.path, cfg.repo.value.url)
  {
    match cfg.repo
    case None => None
    case Some(repo) =>
      var path := SourcePath(cfg.pwd, d.meta.path, d.meta.filename);
      Some(Source(id, path, d.meta.lineno, Remote(repo.branch, path, repo.url)))
  }

  // ---------------------------------------------------------------------------
  // newDoclet: the inclusion filter
  // ---------------------------------------------------------------------------

  /** Why a doclet is dropped, in the order the filter tests the reasons. */
  datatype DropReason =
    | UnknownOwner      // `memberof` is not a registered uid and the doclet is not a class
    | UnrecognizedKind  // no handler for the kind
    | Unexported        // a free non-class whose code name does not start with `exports`
    | InnerMember       // a member with inner scope
    | Private           // `access` is `private`
    | Underscore        // the name starts with `_`
    | Undocumented      // `undocumented` is true
    | NoLongname        // empty or absent `longname`

  function Rank(reason: DropReason): nat {
    match reason
    case UnknownOwner => 0
    case UnrecognizedKind => 1
    case Unexported => 2
    case InnerMember => 3
    case Private => 4
    case Underscore => 5
    case Undocumented => 6
    case NoLongname => 7
  }

  /** The condition under which `reason` applies to `d`. */
  predicate Holds(reason: DropReason, st: State, d: Doclet) {
    match reason
    case UnknownOwner => d.memberof.Some? && st.uidPrefix + d.memberof.value !in st.itemsMap && d.kind != "class"
    case UnrecognizedKind => KindOf(d.kind).None?
    case Unexported =>
      d.memberof.None? && d.kind != "class" && !(d.meta.codeName.Some? && "exports" <= d.meta.codeName.value)
    case InnerMember => d.kind == "member" && d.scope == "inner"
    case Private => d.access == "private"
    case Underscore => |d.name| > 0 && d.name[0] == '_'
    case Undocumented => d.undocumented
    case NoLongname => d.longname == ""
  }

  /** Some drop condition holds. */
  predicate Dropped(st: State, d: Doclet) {
    || Holds(UnknownOwner, st, d) || Holds(UnrecognizedKind, st, d) || Holds(Unexported, st, d)
    || Holds(InnerMember, st, d) || Holds(Private, st, d) || Holds(Underscore, st, d)
    || Holds(Undocumented, st, d) || Holds(NoLongname, st, d)
  }

  /** The ordered chain of early returns at the top of `newDoclet`: the first
      reason that applies, or `None` when the doclet is kept. */
  function Filter(st: State, d: Doclet): (r: Option<DropReason>)
    ensures r.None? <==> !Dropped(st, d)
    ensures r.Some? ==> Holds(r.value, st, d)
    ensures r.Some? ==> forall e: DropReason :: Rank(e) < Rank(r.value) ==> !Holds(e, st, d)
  {
    if d.memberof.Some? && st.uidPrefix + d.memberof.value !in st.itemsMap && d.kind != "class" then Some(UnknownOwner)
    else if KindOf(d.kind).None? then Some(UnrecognizedKind)
    else if d.memberof.None? && d.kind != "class"
            && !(d.meta.codeName.Some? && IndexOfSub(d.meta.codeName.value, "exports") == 0) then
      assert d.meta.codeName.Some? ==> ("exports" <= d.meta.codeName.value <==> OccursAt(d.meta.codeName.value, "exports", 0));
      Some(Unexported)
    else if d.kind == "member" && d.scope == "inner" then Some(InnerMember)
    else if d.access == "private" then Some(Private)
    else if |d.name| > 0 && d.name[0] == '_' then Some(Underscore)
    else if d.undocumented then Some(Undocumented)
    else if d.longname == "" then Some(NoLongname)
    else
      assert d.meta.codeName.Some? ==> ("exports" <= d.meta.codeName.value <==> OccursAt(d.meta.codeName.value, "exports", 0));
      None
  }

  // ---------------------------------------------------------------------------
  // newDoclet: shaping
  // ---------------------------------------------------------------------------

  /** The segment that anchors free functions and members under the global container. */
  function GlobalSegment(d: Doclet): string {
    if d.memberof.None? && d.kind != "class" then "_global." else ""
  }

  function UidOf(st: State, d: Doclet): string {
    st.uidPrefix + GlobalSegment(d) + d.longname
  }

  /** An included doclet has a longname, so its uid is not empty. */
  lemma IncludedUid(st: State, d: Doclet)
    requires !Dropped(st, d)
    ensures d.longname != "" && UidOf(st, d) != ""
  {
    assert !Holds(NoLongname, st, d);
  }

  /** `parent`: the prefixed owner, for a non-class doclet with a non-empty `memberof`. */
  function ParentOf(st: State, d: Doclet): Option<string> {
    if d.memberof.Some? && d.memberof.value != "" && d.kind != "class" then Some(st.uidPrefix + d.memberof.value)
    else None
  }

  /** The summary `newDoclet` gives an item: the converted `description` when that is
      non-empty, otherwise the converted `summary`. */
  function DocletSummary(cfg: Config, prefix: string, d: Doclet): Option<string> {
    Some(if Truthy(d.description) then cfg.convert(d.description, prefix) else cfg.convert(d.summary, prefix))
  }

  /** The item built from an included doclet before the kind handler runs; the
      handler sets `kind` and `syntax`. */
  function BaseItem(cfg: Config, st: State, d: Doclet): (item: Item)
    ensures item.uid == UidOf(st, d) && item.id == item.uid
    ensures item.parent == ParentOf(st, d)
    ensures item.name == d.name
    ensures item.fullName == (if Truthy(item.parent) then item.parent.value + "." else st.uidPrefix) + d.name
    ensures item.summary == DocletSummary(cfg, st.uidPrefix, d)
    ensures item.source == if d.kind == "class" then SourceInfo(cfg, item.uid, d) else None
    ensures item.tags == d.tags
    ensures item.children == []
  {
    var uid := UidOf(st, d);
    var parent := ParentOf(st, d);
    Item(
      uid := uid,
      id := uid,
      parent := parent,
      name := d.name,
      fullName := (if Truthy(parent) then parent.value + "." else st.uidPrefix) + d.name,
      summary := DocletSummary(cfg, st.uidPrefix, d),
      kind := Member,
      syntax := None,
      children := [],
      source := if d.kind == "class" then SourceInfo(cfg, uid, d) else None,
      tags := d.tags)
  }

  /** The item `newDoclet` hands to `addItem` for an included doclet. */
  function Shaped(cfg: Config, st: State, d: Doclet): (item: Item)
    requires WellFormed(d) && KindOf(d.kind).Some?
    ensures item.uid == UidOf(st, d) && item.parent == ParentOf(st, d)
    ensures d.kind != "class" ==> item.syntax.Some?
    ensures d.kind == "member" ==> item.kind == Member && item.syntax.value.content == d.name
    ensures d.kind == "function" ==> item.kind == Function
    ensures d.kind == "function" ==> item.name == d.name + ParamSuffix(d.params)
    ensures d.kind == "function" ==> item.syntax.value.content == "function " + item.name
    ensures d.kind == "class" ==> item.kind == Class && item.children == [UidOf(st, d) + ".#ctor"]
    ensures d.kind == "class" ==> item.parent.None? && item.fullName == st.uidPrefix + d.name
    ensures d.kind == "member" ==> item.name == d.name
    ensures item.summary == if d.kind == "class" && Truthy(d.classdesc)
                            then Some(cfg.convert(d.classdesc, st.uidPrefix))
                            else DocletSummary(cfg, st.uidPrefix, d)
    ensures item.source == if d.kind == "class" then SourceInfo(cfg, UidOf(st, d), d) else None
    ensures item.source.Some? <==> d.kind == "class" && cfg.repo.Some?
    ensures item.tags == d.tags
  {
    var base := BaseItem(cfg, st, d);
    match KindOf(d.kind).value
    case MemberKind => HandleMember(base, d)
    case FunctionKind => HandleFunction(cfg, st.uidPrefix, base, d)
    case ClassKind => HandleClass(cfg, st.uidPrefix, base, d).0
  }

  /** The constructor item synthesised for a class doclet. */
  function ShapedCtor(cfg: Config, st: State, d: Doclet): (ctor: Item)
    requires WellFormed(d) && d.kind == "class"
    ensures ctor.uid == UidOf(st, d) + ".#ctor" && ctor.parent == Some(UidOf(st, d))
    ensures ctor.kind == Constructor && ctor.syntax.Some?
    ensures ctor.name == d.name + ParamSuffix(d.params)
    ensures ctor.syntax.value.content == "new " + ctor.name
    ensures ctor.summary == Some(cfg.convert(d.description, st.uidPrefix))
  {
    HandleClass(cfg, st.uidPrefix, BaseItem(cfg, st, d), d).1
  }

  /** When `addItem` keeps the existing record instead of an included doclet's item: the
      uid is registered, and either that record has a non-empty summary or the doclet's
      converted summary (its `classdesc`'s for a class that has one) is empty. */
  lemma ShapedKept(cfg: Config, st: State, d: Doclet)
    requires Valid(st) && WellFormed(d) && KindOf(d.kind).Some?
    ensures KeepsExisting(st, Shaped(cfg, st, d)) <==>
              && UidOf(st, d) in st.itemsMap
              && (|| Truthy(View(st)[UidOf(st, d)].summary)
                  || (if d.kind == "class" && Truthy(d.classdesc) then cfg.convert(d.classdesc, st.uidPrefix)
                      else DocletSummary(cfg, st.uidPrefix, d).value) == "")
  {
  }

  /** The uids an included doclet registers: its own, and its constructor's for a class. */
  function NewUids(st: State, d: Doclet): set<string> {
    if d.kind == "class" then {UidOf(st, d), UidOf(st, d) + ".#ctor"} else {UidOf(st, d)}
  }

  /** The state after the owner's `children` gained the new uid. */
  function WithChildLink(cfg: Config, st: State, d: Doclet): (r: State)
    requires Valid(st) && Filter(st, d).None?
    ensures Valid(r)
    ensures r.items == st.items && r.itemsMap == st.itemsMap
    ensures r.uidPrefix == st.uidPrefix && r.globalUid == st.globalUid
    ensures forall k :: k in st.itemsMap ==> View(r)[k].summary == View(st)[k].summary
    ensures ParentOf(st, d).None? ==> r == st
    ensures ParentOf(st, d).Some? ==>
              var p := ParentOf(st, d).value;
              && p in st.itemsMap
              && View(r) == View(st)[p := View(st)[p].(children := View(st)[p].children + [UidOf(st, d)])]
  {
    match ParentOf(st, d)
    case None => st
    case Some(p) => AddChild(st, p, UidOf(st, d))
  }

  /** `newDoclet`. */
  function NewDoclet(cfg: Config, st: State, d: Doclet): (r: State)
    requires Valid(st) && (!Dropped(st, d) ==> WellFormed(d))
    ensures Valid(r)
    ensures r.uidPrefix == st.uidPrefix && r.globalUid == st.globalUid
    ensures Dropped(st, d) ==> r == st
  {
    if Filter(st, d).Some? then st
    else
      var st1 := WithChildLink(cfg, st, d);
      var item := Shaped(cfg, st, d);
      if d.kind == "class" then
        Register(Register(st1, ShapedCtor(cfg, st, d)), item)
      else
        Register(st1, item)
  }

  /** A kept doclet registers exactly its own uid and, for a class, its constructor's. */
  lemma NewDocletKeys(cfg: Config, st: State, d: Doclet)
    requires Valid(st) && WellFormed(d) && !Dropped(st, d)
    ensures NewDoclet(cfg, st, d).itemsMap.Keys == st.itemsMap.Keys + NewUids(st, d)
  {
    if d.kind == "class" {
      ClassDocletKeys(cfg, st, d);
    } else {
      OtherDocletKeys(cfg, st, d);
    }
  }

  lemma ClassDocletKeys(cfg: Config, st: State, d: Doclet)
    requires Valid(st) && WellFormed(d) && !Dropped(st, d) && d.kind == "class"
    ensures NewDoclet(cfg, st, d).itemsMap.Keys == st.itemsMap.Keys + NewUids(st, d)
  {
  }

  lemma OtherDocletKeys(cfg: Config, st: State, d: Doclet)
    requires Valid(st) && WellFormed(d) && !Dropped(st, d) && d.kind != "class"
    ensures NewDoclet(cfg, st, d).itemsMap.Keys == st.itemsMap.Keys + NewUids(st, d)
  {
  }

  /** A kept doclet's item replaces the uid's entry unless the existing record is the
      more informative one; a class's constructor likewise. */
  lemma NewDocletRegisters(cfg: Config, st: State, d: Doclet)
    requires Valid(st) && WellFormed(d) && !Dropped(st, d)
    ensures !KeepsExisting(st, Shaped(cfg, st, d)) ==>
              View(NewDoclet(cfg, st, d))[UidOf(st, d)] == Shaped(cfg, st, d)
    ensures KeepsExisting(st, Shaped(cfg, st, d)) && d.kind != "class" ==>
              View(NewDoclet(cfg, st, d)) == View(WithChildLink(cfg, st, d))
    ensures d.kind == "class" && !KeepsExisting(st, ShapedCtor(cfg, st, d)) ==>
              View(NewDoclet(cfg, st, d))[UidOf(st, d) + ".#ctor"] == ShapedCtor(cfg, st, d)
  {
    if d.kind == "class" {
      ClassDocletRegisters(cfg, st, d);
    } else {
      OtherDocletRegisters(cfg, st, d);
    }
  }

  lemma OtherDocletRegisters(cfg: Config, st: State, d: Doclet)
    requires Valid(st) && WellFormed(d) && !Dropped(st, d) && d.kind != "class"
    ensures !KeepsExisting(st, Shaped(cfg, st, d)) ==>
              View(NewDoclet(cfg, st, d))[UidOf(st, d)] == Shaped(cfg, st, d)
    ensures KeepsExisting(st, Shaped(cfg, st, d)) ==>
              View(NewDoclet(cfg, st, d)) == View(WithChildLink(cfg, st, d))
  {
    KeepsExistingSummaries(WithChildLink(cfg, st, d), st, Shaped(cfg, st, d));
    OtherDocletStored(cfg, st, d);
  }

  /** For a non-class doclet the state handed to `addItem` is the linked one. */
  lemma OtherDocletStored(cfg: Config, st: State, d: Doclet)
    requires Valid(st) && WellFormed(d) && !Dropped(st, d) && d.kind != "class"
    ensures NewDoclet(cfg, st, d) == Register(WithChildLink(cfg, st, d), Shaped(cfg, st, d))
  {
  }

  lemma ClassDocletRegisters(cfg: Config, st: State, d: Doclet)
    requires Valid(st) && WellFormed(d) && !Dropped(st, d) && d.kind == "class"
    ensures !KeepsExisting(st, Shaped(cfg, st, d)) ==>
              View(NewDoclet(cfg, st, d))[UidOf(st, d)] == Shaped(cfg, st, d)
    ensures !KeepsExisting(st, ShapedCtor(cfg, st, d)) ==>
              View(NewDoclet(cfg, st, d))[UidOf(st, d) + ".#ctor"] == ShapedCtor(cfg, st, d)
  {
    ClassItemRegisters(cfg, st, d);
    ClassCtorRegisters(cfg, st, d);
  }

  lemma ClassItemRegisters(cfg: Config, st: State, d: Doclet)
    requires Valid(st) && WellFormed(d) && !Dropped(st, d) && d.kind == "class"
    ensures !KeepsExisting(st, Shaped(cfg, st, d)) ==>
              View(NewDoclet(cfg, st, d))[UidOf(st, d)] == Shaped(cfg, st, d)
  {
    var item := Shaped(cfg, st, d);
    var ctor := ShapedCtor(cfg, st, d);
    assert |ctor.uid| > |item.uid|;
    KeepsExistingOther(st, ctor, item);
    ClassDocletStored(cfg, st, d);
  }

  lemma ClassCtorRegisters(cfg: Config, st: State, d: Doclet)
    requires Valid(st) && WellFormed(d) && !Dropped(st, d) && d.kind == "class"
    ensures !KeepsExisting(st, ShapedCtor(cfg, st, d)) ==>
              View(NewDoclet(cfg, st, d))[UidOf(st, d) + ".#ctor"] == ShapedCtor(cfg, st, d)
  {
    var item := Shaped(cfg, st, d);
    var ctor := ShapedCtor(cfg, st, d);
    assert |ctor.uid| > |item.uid|;
    ClassDocletStored(cfg, st, d);
  }

  /** For a class doclet nothing is linked: the constructor is stored, then the class. */
  lemma ClassDocletStored(cfg: Config, st: State, d: Doclet)
    requires Valid(st) && WellFormed(d) && !Dropped(st, d) && d.kind == "class"
    ensures NewDoclet(cfg, st, d) == Register(Register(st, ShapedCtor(cfg, st, d)), Shaped(cfg, st, d))
  {
  }

  /** The owner's `children` end with the new uid, whether or not `addItem` keeps the
      owner's existing record, unless the doclet names itself as its owner and its own
      item replaces that record. */
  lemma NewDocletLinksChild(cfg: Config, st: State, d: Doclet)
    requires Valid(st) && WellFormed(d) && !Dropped(st, d) && ParentOf(st, d).Some?
    ensures var p := ParentOf(st, d).value;
            && p in st.itemsMap
            && (p != UidOf(st, d) || KeepsExisting(st, Shaped(cfg, st, d)) ==>
                  View(NewDoclet(cfg, st, d))[p].children == View(st)[p].children + [UidOf(st, d)])
  {
    var st1 := WithChildLink(cfg, st, d);
    var item := Shaped(cfg, st, d);
    OtherDocletStored(cfg, st, d);
    KeepsExistingSummaries(st1, st, item);
  }

  /** The group an included doclet's item joins: its prefixed owner when it names one,
      the global container otherwise (classes never name an owner). */
  lemma ShapedParent(cfg: Config, st: State, d: Doclet)
    requires WellFormed(d) && KindOf(d.kind).Some?
    ensures Grouping.ParentId(Shaped(cfg, st, d), st.globalUid)
            == if d.memberof.Some? && d.memberof.value != "" && d.kind != "class"
               then st.uidPrefix + d.memberof.value else st.globalUid
  {
  }

  /** A class doclet with fresh uids puts the class at the front of `items` and its
      constructor at the back: the constructor is registered first, the class second. */
  lemma ClassBeforeCtor(cfg: Config, st: State, d: Doclet)
    requires Valid(st) && WellFormed(d) && !Dropped(st, d) && d.kind == "class"
    requires UidOf(st, d) !in st.itemsMap && UidOf(st, d) + ".#ctor" !in st.itemsMap
    ensures Snapshot(NewDoclet(cfg, st, d)) == [Shaped(cfg, st, d)] + Snapshot(st) + [ShapedCtor(cfg, st, d)]
  {
    var ctor := ShapedCtor(cfg, st, d);
    assert |ctor.uid| > |UidOf(st, d)|;
    ClassDocletStored(cfg, st, d);
    RegisterFreshPair(st, ctor, Shaped(cfg, st, d));
  }

  /** Every doclet that passes the filter, in the state it arrives in, is well formed:
      the handlers only ever see such doclets. */
  predicate Ingestible(cfg: Config, st: State, ds: seq<Doclet>)
    requires Valid(st)
    decreases |ds|
  {
    |ds| == 0
    || ((!Dropped(st, ds[0]) ==> WellFormed(ds[0])) && Ingestible(cfg, NewDoclet(cfg, st, ds[0]), ds[1..]))
  }

  /** A stream of well-formed doclets is always admissible. */
  lemma {:induction false} WellFormedIngestible(cfg: Config, st: State, ds: seq<Doclet>)
    requires Valid(st) && forall i :: 0 <= i < |ds| ==> WellFormed(ds[i])
    ensures Ingestible(cfg, st, ds)
    decreases |ds|
  {
    if |ds| > 0 {
      WellFormedIngestible(cfg, NewDoclet(cfg, st, ds[0]), ds[1..]);
    }
  }

  /** `newDoclet` over a stream of doclets, in arrival order. */
  function IngestAll(cfg: Config, st: State, ds: seq<Doclet>): (r: State)
    requires Valid(st)
    requires Ingestible(cfg, st, ds)
    ensures Valid(r)
    ensures r.uidPrefix == st.uidPrefix && r.globalUid == st.globalUid
    ensures st.itemsMap.Keys <= r.itemsMap.Keys
    decreases |ds|
  {
    if |ds| == 0 then st
    else IngestAll(cfg, NewDoclet(cfg, st, ds[0]), ds[1..])
  }

  /** The `parseBegin` container is still in `items`, unchanged, and nothing else there or
      in the map carries the global uid. */
  ghost predicate GlobalIntact(st: State)
    requires Valid(st)
  {
    && st.globalUid == st.uidPrefix + BaseGlobalUid
    && st.globalUid !in st.itemsMap
    && SoleWithUid(Snapshot(st), st.globalUid, GlobalItem(st.globalUid))
  }

  lemma BeginIntact(packageName: string)
    ensures GlobalIntact(Begin(packageName))
  {
    var st := Begin(packageName);
    assert Snapshot(st)[0] == GlobalItem(st.globalUid);
  }

  /** A constructor uid ends in `.#ctor`, so it is never the global uid. */
  lemma CtorUidNotGlobal(st: State, d: Doclet)
    requires st.globalUid == st.uidPrefix + BaseGlobalUid
    ensures UidOf(st, d) + ".#ctor" != st.globalUid
  {
    var c := UidOf(st, d) + ".#ctor";
    if |c| == |st.globalUid| {
      assert c[|c| - 1] == 'r';
      assert st.globalUid[|c| - 1] == 'l';
    }
  }

  /** A doclet claims the global uid when, prefix aside, its uid is `global`: a class, or a
      doclet with a `memberof`, whose longname is `global`. */
  predicate ClaimsGlobalUid(d: Doclet) {
    GlobalSegment(d) + d.longname == BaseGlobalUid
  }

  /** Only a doclet that claims the global uid gets it. */
  lemma UidNotGlobal(st: State, d: Doclet)
    requires st.globalUid == st.uidPrefix + BaseGlobalUid && !ClaimsGlobalUid(d)
    ensures UidOf(st, d) != st.globalUid
  {
    var p := st.uidPrefix;
    assert (p + (GlobalSegment(d) + d.longname))[|p|..] == GlobalSegment(d) + d.longname;
    assert (p + BaseGlobalUid)[|p|..] == BaseGlobalUid;
  }

  /** `newDoclet` for a doclet that does not claim the global uid leaves the container alone. */
  lemma NewDocletIntact(cfg: Config, st: State, d: Doclet)
    requires Valid(st) && (!Dropped(st, d) ==> WellFormed(d)) && GlobalIntact(st)
    requires !ClaimsGlobalUid(d)
    ensures GlobalIntact(NewDoclet(cfg, st, d))
  {
    UidNotGlobal(st, d);
    if !Dropped(st, d) {
      var gu := st.globalUid;
      var x := GlobalItem(gu);
      if d.kind == "class" {
        var ctor := ShapedCtor(cfg, st, d);
        ClassDocletStored(cfg, st, d);
        CtorUidNotGlobal(st, d);
        RegisterKeepsSole(st, ctor, gu, x);
        RegisterKeepsSole(Register(st, ctor), Shaped(cfg, st, d), gu, x);
      } else {
        var st1 := WithChildLink(cfg, st, d);
        if ParentOf(st, d).Some? {
          AddChildKeepsSole(st, ParentOf(st, d).value, UidOf(st, d), gu, x);
        }
        assert SoleWithUid(Snapshot(st1), gu, x);
        OtherDocletStored(cfg, st, d);
        RegisterKeepsSole(st1, Shaped(cfg, st, d), gu, x);
      }
    }
  }

  /** Over a stream in which no doclet claims the global uid, the container survives intact. */
  lemma {:induction false} IngestAllIntact(cfg: Config, st: State, ds: seq<Doclet>)
    requires Valid(st) && Ingestible(cfg, st, ds) && GlobalIntact(st)
    requires forall i :: 0 <= i < |ds| ==> !ClaimsGlobalUid(ds[i])
    ensures GlobalIntact(IngestAll(cfg, st, ds))
    decreases |ds|
  {
    if |ds| > 0 {
      NewDocletIntact(cfg, st, ds[0]);
      assert forall i :: 0 <= i < |ds[1..]| ==> ds[1..][i] == ds[i + 1];
      IngestAllIntact(cfg, NewDoclet(cfg, st, ds[0]), ds[1..]);
    }
  }

  /** Over a run from `parseBegin` in which no doclet claims the global uid, the container
      stays intact. */
  lemma BeginRunIntact(cfg: Config, packageName: string, ds: seq<Doclet>)
    requires Ingestible(cfg, Begin(packageName), ds)
    requires forall i :: 0 <= i < |ds| ==> !ClaimsGlobalUid(ds[i])
    ensures GlobalIntact(IngestAll(cfg, Begin(packageName), ds))
  {
    BeginIntact(packageName);
    IngestAllIntact(cfg, Begin(packageName), ds);
  }
}
