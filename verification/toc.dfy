/** The second half of `serializeToc`: output file names, the emission loop over the
    groups, the table of contents and its ordering (`sortFn`). */
module Toc {
  import opened Optional
  import opened JsText
  import opened Doclets
  import opened Registry
  import opened Grouping
  import opened Ingest

  // ---------------------------------------------------------------------------
  // File names
  // ---------------------------------------------------------------------------

  const OutputFileExt: string := ".yml"

  /** Dashing blanks moves no dot. */
  lemma DashifyDots(s: string)
    ensures '.' in s <==> '.' in Dashify(s)
    ensures '.' in s ==> IndexOf(Dashify(s), '.') == IndexOf(s, '.')
  {
    var d := Dashify(s);
    assert forall i :: 0 <= i < |s| ==> (s[i] == '.' <==> d[i] == '.');
    if '.' in s {
      var k := IndexOf(s, '.');
      assert '.' !in d[..k] by {
        forall i | 0 <= i < k ensures d[..k][i] != '.' { assert s[..k][i] == s[i]; }
      }
      IndexOfAt(d, '.', k);
    }
  }

  /** Dashing blanks commutes with taking a suffix. */
  lemma DashifySuffix(s: string, k: nat)
    requires k <= |s|
    ensures Dashify(s)[k..] == Dashify(s[k..])
  {
  }

  /** The document name of group `id`: blanks become dashes, `.yml` is appended, and
      when the result has more than two dot-separated pieces the first piece and its
      dot are dropped (`split('.').splice(1).join('.')`). */
  function FileName(id: string): string {
    var full := Dashify(id) + OutputFileExt;
    var parts := Split(full, '.');
    if |parts| > 2 then Join(parts[1..], ".") else full
  }

  lemma FileNameDotless(id: string)
    requires '.' !in id
    ensures FileName(id) == Dashify(id) + OutputFileExt
  {
    var d := Dashify(id);
    var full := d + OutputFileExt;
    DashifyDots(id);
    assert full[..|d|] == d;
    IndexOfAt(full, '.', |d|);
    assert full[|d| + 1..] == "yml";
    SplitAtFirst(full, '.');
    SplitNoSeparator("yml", '.');
    assert |Split(full, '.')| == 2;
  }

  lemma FileNameDotted(id: string)
    requires '.' in id
    ensures FileName(id) == Dashify(id[IndexOf(id, '.') + 1..]) + OutputFileExt
  {
    var d := Dashify(id);
    DashifyDots(id);
    DropStemHead(d);
    DashifySuffix(id, IndexOf(id, '.') + 1);
  }

  /** A dotted stem with the extension splits into more than two pieces, and dropping
      the first leaves what follows the stem's first dot, with the extension. */
  lemma DropStemHead(d: string)
    requires '.' in d
    ensures |Split(d + OutputFileExt, '.')| > 2
    ensures Join(Split(d + OutputFileExt, '.')[1..], ".") == d[IndexOf(d, '.') + 1..] + OutputFileExt
  {
    FirstDotWithExt(d);
    ThreePieces(d + OutputFileExt, '.');
    DropFirstPiece(d + OutputFileExt, '.');
  }

  /** Appending the extension keeps the first dot of a dotted stem, and a dot still
      follows it. */
  lemma FirstDotWithExt(d: string)
    requires '.' in d
    ensures IndexOf(d + OutputFileExt, '.') == IndexOf(d, '.')
    ensures (d + OutputFileExt)[IndexOf(d, '.') + 1..] == d[IndexOf(d, '.') + 1..] + OutputFileExt
    ensures '.' in (d + OutputFileExt)[IndexOf(d, '.') + 1..]
  {
    var k := IndexOf(d, '.');
    var full := d + OutputFileExt;
    assert full[..k] == d[..k];
    IndexOfAt(full, '.', k);
    var rest := full[k + 1..];
    assert rest[|rest| - 4] == '.';
  }

  /** The document name keeps a dotless id whole and otherwise keeps what follows its
      first dot. */
  lemma FileNameShape(id: string)
    ensures '.' !in id ==> FileName(id) == Dashify(id) + OutputFileExt
    ensures '.' in id ==> FileName(id) == Dashify(id[IndexOf(id, '.') + 1..]) + OutputFileExt
  {
    if '.' in id {
      FileNameDotted(id);
    } else {
      FileNameDotless(id);
    }
  }

  /** Either way the document name ends in `.yml` and holds no blank. */
  lemma FileNameClean(id: string)
    ensures EndsWith(FileName(id), OutputFileExt)
    ensures forall i :: 0 <= i < |FileName(id)| ==> !Blank(FileName(id)[i])
  {
    FileNameShape(id);
    if '.' in id {
      NameWithStem(FileName(id), Dashify(id[IndexOf(id, '.') + 1..]));
    } else {
      NameWithStem(FileName(id), Dashify(id));
    }
  }

  lemma NameWithStem(name: string, stem: string)
    requires name == stem + OutputFileExt
    requires forall i :: 0 <= i < |stem| ==> !Blank(stem[i])
    ensures EndsWith(name, OutputFileExt)
    ensures forall i :: 0 <= i < |name| ==> !Blank(name[i])
  {
    assert name[|stem|..] == OutputFileExt;
  }

  // ---------------------------------------------------------------------------
  // Ordering: `sortFn` and the sort
  // ---------------------------------------------------------------------------

  /** An entry of the table of contents; `items` is present on namespace nodes only. */
  datatype TocNode = TocNode(uid: string, name: string, items: Option<seq<TocNode>>)

  /** `sortFn`: the global entry last, the rest by upper-cased name. */
  function Cmp(a: TocNode, b: TocNode, globalUid: string): int {
    if a.uid == globalUid then 1
    else if b.uid == globalUid then -1
    else if LexLess(ToUpper(a.name), ToUpper(b.name)) then -1
    else if LexLess(ToUpper(b.name), ToUpper(a.name)) then 1
    else 0
  }

  predicate LexLeq(a: string, b: string) {
    a == b || LexLess(a, b)
  }

  /** Between two non-global entries `sortFn` is the order of upper-cased names. */
  lemma CmpNames(a: TocNode, b: TocNode, globalUid: string)
    requires a.uid != globalUid && b.uid != globalUid
    ensures Cmp(a, b, globalUid) <= 0 <==> LexLeq(ToUpper(a.name), ToUpper(b.name))
  {
    var x, y := ToUpper(a.name), ToUpper(b.name);
    LexLessTotal(x, y);
    LexLessIrreflexive(x);
    if LexLess(x, y) && LexLess(y, x) {
      LexLessTransitive(x, y, x);
    }
  }

  /** `sortFn` is transitive; no precondition is needed because a global left operand
      never compares as `<= 0`. */
  lemma CmpTransitive(a: TocNode, b: TocNode, c: TocNode, globalUid: string)
    requires Cmp(a, b, globalUid) <= 0 && Cmp(b, c, globalUid) <= 0
    ensures Cmp(a, c, globalUid) <= 0
  {
    if c.uid != globalUid {
      CmpNames(a, b, globalUid);
      CmpNames(b, c, globalUid);
      CmpNames(a, c, globalUid);
      var x, y, z := ToUpper(a.name), ToUpper(b.name), ToUpper(c.name);
      if LexLess(x, y) && LexLess(y, z) { LexLessTransitive(x, y, z); }
    }
  }

  /** Unless both entries are global, `sortFn` is antisymmetric. */
  lemma CmpFlip(a: TocNode, b: TocNode, globalUid: string)
    requires !(a.uid == globalUid && b.uid == globalUid)
    ensures Cmp(a, b, globalUid) >= 0 ==> Cmp(b, a, globalUid) <= 0
  {
  }

  /** Every pair in order agrees with `sortFn`. */
  predicate Sorted(s: seq<TocNode>, globalUid: string) {
    forall i, j :: 0 <= i < j < |s| ==> Cmp(s[i], s[j], globalUid) <= 0
  }

  /** `sortFn` is a consistent comparator only when no two entries are global. */
  predicate AtMostOneGlobal(s: seq<TocNode>, globalUid: string) {
    forall i, j :: 0 <= i < j < |s| && s[i].uid == globalUid ==> s[j].uid != globalUid
  }

  /** What "sorted by `sortFn`" means: the global entry is last, and the others are
      in ascending order of upper-cased name. */
  lemma SortedMeaning(s: seq<TocNode>, globalUid: string)
    requires Sorted(s, globalUid)
    ensures forall i :: 0 <= i < |s| && s[i].uid == globalUid ==> i == |s| - 1
    ensures forall i, j :: 0 <= i < j < |s| && s[i].uid != globalUid && s[j].uid != globalUid ==>
              LexLeq(ToUpper(s[i].name), ToUpper(s[j].name))
  {
    forall i | 0 <= i < |s| && s[i].uid == globalUid
      ensures i == |s| - 1
    {
      assert i < |s| - 1 ==> Cmp(s[i], s[|s| - 1], globalUid) <= 0;
    }
    forall i, j | 0 <= i < j < |s| && s[i].uid != globalUid && s[j].uid != globalUid
      ensures LexLeq(ToUpper(s[i].name), ToUpper(s[j].name))
    {
      CmpNames(s[i], s[j], globalUid);
    }
  }

  /** Insert `x` after every entry it does not sort before (stable insertion). */
  function Insert(s: seq<TocNode>, x: TocNode, globalUid: string): (r: seq<TocNode>)
    ensures multiset(r) == multiset(s) + multiset{x}
    ensures |r| == |s| + 1
  {
    if |s| == 0 then [x]
    else if Cmp(x, s[0], globalUid) < 0 then [x] + s
    else
      assert s == [s[0]] + s[1..];
      [s[0]] + Insert(s[1..], x, globalUid)
  }

  /** An entry that sorts no later than every entry of a sorted list may head it. */
  lemma SortedCons(a: TocNode, t: seq<TocNode>, globalUid: string)
    requires Sorted(t, globalUid)
    requires forall j :: 0 <= j < |t| ==> Cmp(a, t[j], globalUid) <= 0
    ensures Sorted([a] + t, globalUid)
  {
    var r := [a] + t;
    forall i, j | 0 <= i < j < |r| ensures Cmp(r[i], r[j], globalUid) <= 0 {
      if i > 0 { assert r[i] == t[i - 1] && r[j] == t[j - 1]; }
      else { assert r[j] == t[j - 1]; }
    }
  }

  /** Every entry of an insertion is the inserted one or an entry of the list. */
  lemma InsertFrom(s: seq<TocNode>, x: TocNode, globalUid: string, j: nat)
    requires j < |s| + 1
    ensures var y := Insert(s, x, globalUid)[j]; y == x || exists k :: 0 <= k < |s| && s[k] == y
  {
    var t := Insert(s, x, globalUid);
    assert t[j] in multiset(t);
  }

  lemma {:induction false} InsertSorted(s: seq<TocNode>, x: TocNode, globalUid: string)
    requires Sorted(s, globalUid)
    requires x.uid == globalUid ==> forall i :: 0 <= i < |s| ==> s[i].uid != globalUid
    ensures Sorted(Insert(s, x, globalUid), globalUid)
  {
    if |s| > 0 {
      if Cmp(x, s[0], globalUid) < 0 {
        forall j | 0 <= j < |s| ensures Cmp(x, s[j], globalUid) <= 0 {
          if j > 0 { CmpTransitive(x, s[0], s[j], globalUid); }
        }
        SortedCons(x, s, globalUid);
      } else {
        CmpFlip(x, s[0], globalUid);
        var tail := s[1..];
        assert Sorted(tail, globalUid);
        InsertSorted(tail, x, globalUid);
        var t := Insert(tail, x, globalUid);
        forall j | 0 <= j < |t| ensures Cmp(s[0], t[j], globalUid) <= 0 {
          InsertFrom(tail, x, globalUid, j);
          if t[j] != x {
            var k :| 0 <= k < |tail| && tail[k] == t[j];
            assert s[k + 1] == t[j];
          }
        }
        SortedCons(s[0], t, globalUid);
      }
    }
  }

  /** `Array.prototype.sort(sortFn)`, as a stable insertion sort. */
  function SortToc(s: seq<TocNode>, globalUid: string): (r: seq<TocNode>)
    ensures multiset(r) == multiset(s)
    ensures |r| == |s|
  {
    if |s| == 0 then []
    else
      assert s == s[..|s| - 1] + [s[|s| - 1]];
      Insert(SortToc(s[..|s| - 1], globalUid), s[|s| - 1], globalUid)
  }

  /** With at most one global entry the sort's result is sorted. */
  lemma {:induction false} SortTocSorted(s: seq<TocNode>, globalUid: string)
    requires AtMostOneGlobal(s, globalUid)
    ensures Sorted(SortToc(s, globalUid), globalUid)
  {
    if |s| > 0 {
      var front, x := s[..|s| - 1], s[|s| - 1];
      assert AtMostOneGlobal(front, globalUid);
      SortTocSorted(front, globalUid);
      var sf := SortToc(front, globalUid);
      if x.uid == globalUid {
        forall i | 0 <= i < |sf| ensures sf[i].uid != globalUid {
          assert sf[i] in multiset(front);
          var k :| 0 <= k < |front| && front[k] == sf[i];
          assert s[k] == front[k];
        }
      }
      InsertSorted(sf, x, globalUid);
    }
  }

  // ---------------------------------------------------------------------------
  // Emission: the loop over the groups
  // ---------------------------------------------------------------------------

  /** A document written to the output directory. */
  datatype OutFile = OutFile(name: string, group: Group)

  /** The loop's progress: the documents written, the entries collected under each
      namespace node, the entries collected at the root, and whether the loop threw. */
  datatype Emission = Emission(files: seq<OutFile>, nsItems: map<string, seq<TocNode>>, root: seq<TocNode>, failed: bool)

  /** Every group the loop visits exists and starts with its class item, and every
      namespace assignment names a namespace key. */
  predicate Ready(g: Grouping) {
    && (forall i :: 0 <= i < |g.ids| ==> g.ids[i] in g.classes && |g.classes[g.ids[i]].items| > 0)
    && (forall i, j :: 0 <= i < j < |g.ids| ==> g.ids[i] != g.ids[j])
    && (forall k :: k in g.classNs ==> g.classNs[k] in g.nsKeys)
  }

  lemma CoherentReady(g: Grouping, globalUid: string)
    requires Coherent(g, globalUid)
    ensures Ready(g)
  {
    assert forall i :: 0 <= i < |g.ids| ==> g.ids[i] in g.classes;
  }

  /** The group `id` is written to a document. */
  predicate Written(g: Grouping, globalUid: string, id: string) {
    && id in g.classes && |g.classes[id].items| > 0
    && Retained(id, g.classes[id].items, globalUid)
  }

  /** Writing group `id` throws: its namespace key is the global uid, whose namespace
      node the ToC loop skipped, so `classToNamespaceMap[id].toc` is undefined. */
  predicate Throws(g: Grouping, globalUid: string, id: string) {
    Written(g, globalUid, id) && id in g.classNs && g.classNs[id] == globalUid
  }

  /** `Grouping.Uids` for ToC nodes (see `Grouping.RefUids` on why it is not shared). */
  function TocUids(s: seq<TocNode>): (r: seq<string>)
    ensures |r| == |s|
    ensures forall i :: 0 <= i < |s| ==> r[i] == s[i].uid
  {
    seq(|s|, i requires 0 <= i < |s| => s[i].uid)
  }

  /** The namespace nodes pushed before the loop: every key but the global uid, empty. */
  function InitialNs(nsKeys: seq<string>, globalUid: string): (m: map<string, seq<TocNode>>)
    ensures forall ns :: ns in m <==> ns in nsKeys && ns != globalUid
    ensures forall ns :: ns in m ==> m[ns] == []
  {
    map ns | ns in nsKeys && ns != globalUid :: []
  }

  /** The document written for group `id`: named after the uid, holding the finished group. */
  function Document(g: Grouping, id: string): OutFile
    requires id in g.classes
  {
    OutFile(FileName(id), FinishGroup(id, g.classes[id], g.fileMap))
  }

  /** The documents for the first `m` groups in key order: one for each group that is written. */
  function Documents(g: Grouping, globalUid: string, m: nat): seq<OutFile>
    requires m <= |g.ids|
  {
    if m == 0 then []
    else
      var id := g.ids[m - 1];
      Documents(g, globalUid, m - 1) + (if Written(g, globalUid, id) then [Document(g, id)] else [])
  }

  /** Those documents are exactly the documents of the written groups among the first `m`. */
  lemma {:induction false} DocumentsHas(g: Grouping, globalUid: string, m: nat)
    requires m <= |g.ids|
    ensures forall i :: 0 <= i < m && Written(g, globalUid, g.ids[i]) ==> Document(g, g.ids[i]) in Documents(g, globalUid, m)
    ensures forall f :: f in Documents(g, globalUid, m) ==>
              exists i :: 0 <= i < m && Written(g, globalUid, g.ids[i]) && f == Document(g, g.ids[i])
  {
    if m > 0 {
      DocumentsHas(g, globalUid, m - 1);
    }
  }

  /** How many of the first `n` groups the loop visits: all of them, or those up to and
      including the first that throws. */
  function Visited(g: Grouping, globalUid: string, n: nat): (m: nat)
    requires n <= |g.ids|
    ensures m <= n
    decreases n
  {
    if n == 0 then 0
    else
      var v := Visited(g, globalUid, n - 1);
      if v == n - 1 && (n == 1 || !Throws(g, globalUid, g.ids[n - 2])) then n else v
  }

  /** Without a throwing group the loop visits every group; otherwise it stops right
      after the first one that throws. */
  lemma {:induction false} VisitedFirstThrow(g: Grouping, globalUid: string, n: nat)
    requires n <= |g.ids|
    ensures (forall i :: 0 <= i < n ==> !Throws(g, globalUid, g.ids[i])) ==> Visited(g, globalUid, n) == n
    ensures (exists i :: 0 <= i < n && Throws(g, globalUid, g.ids[i])) ==>
              var m := Visited(g, globalUid, n);
              && 0 < m && Throws(g, globalUid, g.ids[m - 1])
              && forall j :: 0 <= j < m - 1 ==> !Throws(g, globalUid, g.ids[j])
    decreases n
  {
    if n > 0 {
      VisitedFirstThrow(g, globalUid, n - 1);
    }
  }

  /** One iteration of the loop: a written group's document is added, and its entry
      joins its namespace node, or the root list when it has no namespace; the loop
      throws when that namespace has no node. */
  function EmitStep(g: Grouping, globalUid: string, e: Emission, id: string): (r: Emission)
    requires id in g.classes && |g.classes[id].items| > 0
    ensures r.nsItems.Keys == e.nsItems.Keys
    ensures r.failed <==> e.failed || (Written(g, globalUid, id) && id in g.classNs && g.classNs[id] !in e.nsItems)
    ensures (forall i :: 0 <= i < |e.root| ==> e.root[i].items.None?) ==>
              forall i :: 0 <= i < |r.root| ==> r.root[i].items.None?
    ensures forall f :: f in r.files ==> f in e.files || (f.name == FileName(id) && f.group.id == id && Written(g, globalUid, id))
    ensures r.files == if !e.failed && Written(g, globalUid, id) then e.files + [Document(g, id)] else e.files
    ensures r.root == if !e.failed && Written(g, globalUid, id) && id !in g.classNs
                      then e.root + [TocNode(id, g.classes[id].items[0].name, None)] else e.root
    ensures r.nsItems == if !e.failed && Written(g, globalUid, id) && id in g.classNs && g.classNs[id] in e.nsItems
                         then e.nsItems[g.classNs[id] := e.nsItems[g.classNs[id]] + [TocNode(id, g.classes[id].items[0].name, None)]]
                         else e.nsItems
  {
    if e.failed then e
    else
      if !Retained(id, g.classes[id].items, globalUid) then e
      else
        var grp := FinishGroup(id, g.classes[id], g.fileMap);
        var files := e.files + [OutFile(FileName(id), grp)];
        var node := TocNode(id, g.classes[id].items[0].name, None);
        if id in g.classNs then
          var ns := g.classNs[id];
          if ns !in e.nsItems then e.(files := files, failed := true)
          else e.(files := files, nsItems := e.nsItems[ns := e.nsItems[ns] + [node]])
        else e.(files := files, root := e.root + [node])
  }

  /** The loop over the first `n` groups, in key order. */
  function EmitAll(g: Grouping, globalUid: string, n: nat): (e: Emission)
    requires Ready(g) && n <= |g.ids|
    ensures e.nsItems.Keys == InitialNs(g.nsKeys, globalUid).Keys
    ensures e.failed <==> exists i :: 0 <= i < n && Throws(g, globalUid, g.ids[i])
    ensures forall i :: 0 <= i < |e.root| ==> e.root[i].items.None?
    ensures forall f :: f in e.files ==> f.name == FileName(f.group.id) && Written(g, globalUid, f.group.id)
  {
    if n == 0 then Emission([], InitialNs(g.nsKeys, globalUid), [], false)
    else
      var prev := EmitAll(g, globalUid, n - 1);
      var id := g.ids[n - 1];
      ThrowsPrefix(g, globalUid, n);
      EmitStep(g, globalUid, prev, id)
  }

  /** The documents written in the first `n` iterations are those of the groups visited. */
  ghost predicate FilesSoFar(g: Grouping, globalUid: string, n: nat, e: Emission)
    requires n <= |g.ids|
  {
    e.files == Documents(g, globalUid, Visited(g, globalUid, n))
  }

  /** The loop writes the documents of the groups it visits, in key order, the one
      that throws included. */
  lemma {:induction false} EmitAllFiles(g: Grouping, globalUid: string, n: nat)
    requires Ready(g) && n <= |g.ids|
    ensures FilesSoFar(g, globalUid, n, EmitAll(g, globalUid, n))
    decreases n, 1
  {
    if n == 0 {
      FilesStart(g, globalUid);
    } else {
      FilesInduct(g, globalUid, n);
    }
  }

  lemma {:induction false} FilesInduct(g: Grouping, globalUid: string, n: nat)
    requires Ready(g) && 0 < n <= |g.ids|
    ensures FilesSoFar(g, globalUid, n, EmitAll(g, globalUid, n))
    decreases n, 0
  {
    EmitAllFiles(g, globalUid, n - 1);
    FilesStep(g, globalUid, n);
  }

  lemma FilesStart(g: Grouping, globalUid: string)
    requires Ready(g)
    ensures FilesSoFar(g, globalUid, 0, EmitAll(g, globalUid, 0))
  {
  }

  /** One iteration keeps the written documents equal to those of the visited groups. */
  lemma FilesStep(g: Grouping, globalUid: string, n: nat)
    requires Ready(g) && 0 < n <= |g.ids|
    requires FilesSoFar(g, globalUid, n - 1, EmitAll(g, globalUid, n - 1))
    ensures FilesSoFar(g, globalUid, n, EmitAll(g, globalUid, n))
  {
    EmitAllStepFiles(g, globalUid, n);
    if EmitAll(g, globalUid, n - 1).failed {
      VisitedThrown(g, globalUid, n);
    } else {
      VisitedClear(g, globalUid, n);
      DocumentsSnoc(g, globalUid, n);
    }
  }

  /** The documents after one more iteration: the visited group's is added unless the
      loop has already thrown. */
  lemma EmitAllStepFiles(g: Grouping, globalUid: string, n: nat)
    requires Ready(g) && 0 < n <= |g.ids|
    ensures var prev := EmitAll(g, globalUid, n - 1);
            EmitAll(g, globalUid, n).files
            == if !prev.failed && Written(g, globalUid, g.ids[n - 1]) then prev.files + [Document(g, g.ids[n - 1])] else prev.files
    ensures EmitAll(g, globalUid, n - 1).failed <==> exists i :: 0 <= i < n - 1 && Throws(g, globalUid, g.ids[i])
  {
    EmitAllSnoc(g, globalUid, n);
  }

  lemma DocumentsSnoc(g: Grouping, globalUid: string, n: nat)
    requires 0 < n <= |g.ids|
    ensures Documents(g, globalUid, n) == Documents(g, globalUid, n - 1)
              + (if Written(g, globalUid, g.ids[n - 1]) then [Document(g, g.ids[n - 1])] else [])
  {
  }

  lemma EmitAllSnoc(g: Grouping, globalUid: string, n: nat)
    requires Ready(g) && 0 < n <= |g.ids|
    ensures EmitAll(g, globalUid, n) == EmitStep(g, globalUid, EmitAll(g, globalUid, n - 1), g.ids[n - 1])
  {
  }

  /** After the loop has thrown, no further group is visited. */
  lemma VisitedThrown(g: Grouping, globalUid: string, n: nat)
    requires 0 < n <= |g.ids|
    requires exists i :: 0 <= i < n - 1 && Throws(g, globalUid, g.ids[i])
    ensures Visited(g, globalUid, n) == Visited(g, globalUid, n - 1)
  {
    VisitedFirstThrow(g, globalUid, n - 1);
  }

  /** Before the loop has thrown, every group so far is visited, the next one too. */
  lemma VisitedClear(g: Grouping, globalUid: string, n: nat)
    requires 0 < n <= |g.ids|
    requires !exists i :: 0 <= i < n - 1 && Throws(g, globalUid, g.ids[i])
    ensures Visited(g, globalUid, n - 1) == n - 1 && Visited(g, globalUid, n) == n
  {
    VisitedFirstThrow(g, globalUid, n - 1);
  }

  /** The loop has thrown by group `n` exactly when it had by group `n - 1` or group `n` throws. */
  lemma ThrowsPrefix(g: Grouping, globalUid: string, n: nat)
    requires 0 < n <= |g.ids|
    ensures (exists i :: 0 <= i < n && Throws(g, globalUid, g.ids[i]))
            <==> (exists i :: 0 <= i < n - 1 && Throws(g, globalUid, g.ids[i])) || Throws(g, globalUid, g.ids[n - 1])
  {
  }

  predicate DistinctUids(s: seq<TocNode>) {
    forall i, j :: 0 <= i < j < |s| ==> s[i].uid != s[j].uid
  }

  /** The entry for a new uid keeps a list's uids distinct. */
  lemma AppendDistinct(s: seq<TocNode>, node: TocNode)
    requires DistinctUids(s) && node.uid !in TocUids(s)
    ensures DistinctUids(s + [node])
    ensures TocUids(s + [node]) == TocUids(s) + [node.uid]
  {
    forall i | 0 <= i < |s| ensures s[i].uid != node.uid {
      assert TocUids(s)[i] == s[i].uid;
    }
  }

  lemma NotEarlier(g: Grouping, n: nat)
    requires Ready(g) && 0 < n <= |g.ids|
    ensures g.ids[..n] == g.ids[..n - 1] + [g.ids[n - 1]]
    ensures g.ids[n - 1] !in g.ids[..n - 1]
  {
    assert g.ids[..n] == g.ids[..n - 1] + [g.ids[n - 1]];
  }

  /** The root entries after the first `n` groups come from distinct groups among
      them; when the loop did not throw they are exactly the written groups without
      a namespace. */
  ghost predicate RootEntries(g: Grouping, globalUid: string, n: nat, e: Emission)
    requires n <= |g.ids|
  {
    && DistinctUids(e.root)
    && (forall id :: id in TocUids(e.root) ==> id in g.ids[..n])
    && (!e.failed ==> forall id ::
          id in TocUids(e.root) <==> id in g.ids[..n] && Written(g, globalUid, id) && id !in g.classNs)
  }

  lemma {:induction false} EmitAllRoot(g: Grouping, globalUid: string, n: nat)
    requires Ready(g) && n <= |g.ids|
    ensures RootEntries(g, globalUid, n, EmitAll(g, globalUid, n))
  {
    if n > 0 {
      EmitAllRoot(g, globalUid, n - 1);
      EmitStepRoot(g, globalUid, n, EmitAll(g, globalUid, n - 1));
    }
  }

  lemma EmitStepRoot(g: Grouping, globalUid: string, n: nat, prev: Emission)
    requires Ready(g) && 0 < n <= |g.ids|
    requires RootEntries(g, globalUid, n - 1, prev)
    ensures RootEntries(g, globalUid, n, EmitStep(g, globalUid, prev, g.ids[n - 1]))
  {
    NotEarlier(g, n);
    var id := g.ids[n - 1];
    if !prev.failed && Written(g, globalUid, id) && id !in g.classNs {
      EmitStepRootGrows(g, globalUid, n, prev);
    } else {
      EmitStepRootKeeps(g, globalUid, n, prev);
    }
  }

  /** The entry of a written group without a namespace joins the root list. */
  lemma EmitStepRootGrows(g: Grouping, globalUid: string, n: nat, prev: Emission)
    requires Ready(g) && 0 < n <= |g.ids|
    requires g.ids[..n] == g.ids[..n - 1] + [g.ids[n - 1]] && g.ids[n - 1] !in g.ids[..n - 1]
    requires RootEntries(g, globalUid, n - 1, prev)
    requires !prev.failed && Written(g, globalUid, g.ids[n - 1]) && g.ids[n - 1] !in g.classNs
    ensures RootEntries(g, globalUid, n, EmitStep(g, globalUid, prev, g.ids[n - 1]))
  {
    var id := g.ids[n - 1];
    assert id !in TocUids(prev.root);
    AppendDistinct(prev.root, TocNode(id, g.classes[id].items[0].name, None));
  }

  /** Any other step leaves the root list as it was. */
  lemma EmitStepRootKeeps(g: Grouping, globalUid: string, n: nat, prev: Emission)
    requires Ready(g) && 0 < n <= |g.ids|
    requires g.ids[..n] == g.ids[..n - 1] + [g.ids[n - 1]] && g.ids[n - 1] !in g.ids[..n - 1]
    requires RootEntries(g, globalUid, n - 1, prev)
    requires !(!prev.failed && Written(g, globalUid, g.ids[n - 1]) && g.ids[n - 1] !in g.classNs)
    ensures RootEntries(g, globalUid, n, EmitStep(g, globalUid, prev, g.ids[n - 1]))
  {
    var id := g.ids[n - 1];
    var r := EmitStep(g, globalUid, prev, id);
    assert r.root == prev.root;
    if !r.failed {
      assert !prev.failed;
      forall x
        ensures x in TocUids(prev.root) <==>
                  x in g.ids[..n] && Written(g, globalUid, x) && x !in g.classNs
      {
        if x == id { assert id !in TocUids(prev.root); }
      }
    }
  }

  /** The entries under namespace node `ns` after the first `n` groups come from
      distinct groups among them; when the loop did not throw they are exactly the
      written groups assigned to `ns`. */
  ghost predicate NsEntries(g: Grouping, globalUid: string, n: nat, e: Emission, ns: string)
    requires n <= |g.ids| && ns in e.nsItems
  {
    && DistinctUids(e.nsItems[ns])
    && (forall id :: id in TocUids(e.nsItems[ns]) ==> id in g.ids[..n])
    && (!e.failed ==> forall id ::
          id in TocUids(e.nsItems[ns]) <==>
            id in g.ids[..n] && Written(g, globalUid, id) && id in g.classNs && g.classNs[id] == ns)
  }

  lemma {:induction false} EmitAllNs(g: Grouping, globalUid: string, n: nat)
    requires Ready(g) && n <= |g.ids|
    ensures forall ns :: ns in EmitAll(g, globalUid, n).nsItems ==> NsEntries(g, globalUid, n, EmitAll(g, globalUid, n), ns)
  {
    if n > 0 {
      EmitAllNs(g, globalUid, n - 1);
      var prev := EmitAll(g, globalUid, n - 1);
      forall ns | ns in prev.nsItems
        ensures NsEntries(g, globalUid, n, EmitStep(g, globalUid, prev, g.ids[n - 1]), ns)
      {
        EmitStepNs(g, globalUid, n, prev, ns);
      }
    }
  }

  lemma EmitStepNs(g: Grouping, globalUid: string, n: nat, prev: Emission, ns: string)
    requires Ready(g) && 0 < n <= |g.ids| && ns in prev.nsItems
    requires NsEntries(g, globalUid, n - 1, prev, ns)
    ensures ns in EmitStep(g, globalUid, prev, g.ids[n - 1]).nsItems
    ensures NsEntries(g, globalUid, n, EmitStep(g, globalUid, prev, g.ids[n - 1]), ns)
  {
    NotEarlier(g, n);
    var id := g.ids[n - 1];
    if !prev.failed && Written(g, globalUid, id) && id in g.classNs && g.classNs[id] == ns {
      EmitStepNsGrows(g, globalUid, n, prev, ns);
    } else {
      EmitStepNsKeeps(g, globalUid, n, prev, ns);
    }
  }

  /** The entry of a written group joins its namespace's list. */
  lemma EmitStepNsGrows(g: Grouping, globalUid: string, n: nat, prev: Emission, ns: string)
    requires Ready(g) && 0 < n <= |g.ids| && ns in prev.nsItems
    requires g.ids[..n] == g.ids[..n - 1] + [g.ids[n - 1]] && g.ids[n - 1] !in g.ids[..n - 1]
    requires NsEntries(g, globalUid, n - 1, prev, ns)
    requires !prev.failed && Written(g, globalUid, g.ids[n - 1])
    requires g.ids[n - 1] in g.classNs && g.classNs[g.ids[n - 1]] == ns
    ensures ns in EmitStep(g, globalUid, prev, g.ids[n - 1]).nsItems
    ensures NsEntries(g, globalUid, n, EmitStep(g, globalUid, prev, g.ids[n - 1]), ns)
  {
    var id := g.ids[n - 1];
    var before := prev.nsItems[ns];
    assert id !in TocUids(before);
    AppendDistinct(before, TocNode(id, g.classes[id].items[0].name, None));
  }

  /** Any other step leaves the namespace's list as it was. */
  lemma EmitStepNsKeeps(g: Grouping, globalUid: string, n: nat, prev: Emission, ns: string)
    requires Ready(g) && 0 < n <= |g.ids| && ns in prev.nsItems
    requires g.ids[..n] == g.ids[..n - 1] + [g.ids[n - 1]] && g.ids[n - 1] !in g.ids[..n - 1]
    requires NsEntries(g, globalUid, n - 1, prev, ns)
    requires !(!prev.failed && Written(g, globalUid, g.ids[n - 1])
               && g.ids[n - 1] in g.classNs && g.classNs[g.ids[n - 1]] == ns)
    ensures ns in EmitStep(g, globalUid, prev, g.ids[n - 1]).nsItems
    ensures NsEntries(g, globalUid, n, EmitStep(g, globalUid, prev, g.ids[n - 1]), ns)
  {
    var id := g.ids[n - 1];
    var r := EmitStep(g, globalUid, prev, id);
    var before := prev.nsItems[ns];
    assert r.nsItems[ns] == before;
    if !r.failed {
      assert !prev.failed;
      forall x
        ensures x in TocUids(before) <==>
                  x in g.ids[..n] && Written(g, globalUid, x) && x in g.classNs && g.classNs[x] == ns
      {
        if x == id { assert id !in TocUids(before); }
      }
    }
  }

  // ---------------------------------------------------------------------------
  // The table of contents and the whole pass
  // ---------------------------------------------------------------------------

  /** The namespace nodes in key order, skipping the global uid. */
  function NsNodes(nsKeys: seq<string>, globalUid: string, m: map<string, seq<TocNode>>): (r: seq<TocNode>)
    requires forall i :: 0 <= i < |nsKeys| && nsKeys[i] != globalUid ==> nsKeys[i] in m
    ensures forall i :: 0 <= i < |r| ==> r[i].uid != globalUid && r[i].uid in m && r[i].items == Some(m[r[i].uid])
  {
    if |nsKeys| == 0 then []
    else
      (if nsKeys[0] == globalUid then [] else [TocNode(nsKeys[0], nsKeys[0], Some(m[nsKeys[0]]))])
      + NsNodes(nsKeys[1..], globalUid, m)
  }

  /** Every namespace key but the global uid gets a node. */
  lemma {:induction false} NsNodesCover(nsKeys: seq<string>, globalUid: string, m: map<string, seq<TocNode>>)
    requires forall i :: 0 <= i < |nsKeys| && nsKeys[i] != globalUid ==> nsKeys[i] in m
    ensures forall i :: 0 <= i < |nsKeys| && nsKeys[i] != globalUid ==> nsKeys[i] in TocUids(NsNodes(nsKeys, globalUid, m))
  {
    if |nsKeys| > 0 {
      var head := if nsKeys[0] == globalUid then [] else [TocNode(nsKeys[0], nsKeys[0], Some(m[nsKeys[0]]))];
      var rest := NsNodes(nsKeys[1..], globalUid, m);
      NsNodesCover(nsKeys[1..], globalUid, m);
      assert NsNodes(nsKeys, globalUid, m) == head + rest;
      var all := TocUids(head + rest);
      assert all == TocUids(head) + TocUids(rest);
      forall i | 0 <= i < |nsKeys| && nsKeys[i] != globalUid
        ensures nsKeys[i] in all
      {
        if i == 0 {
          assert all[0] == nsKeys[0];
        } else {
          assert nsKeys[i] == nsKeys[1..][i - 1];
          assert nsKeys[i] in TocUids(rest);
        }
      }
    }
  }

  /** The second-level sort: each node's `items`, when present, sorted. */
  function SortChildren(s: seq<TocNode>, globalUid: string): (r: seq<TocNode>)
    ensures |r| == |s|
    ensures forall i :: 0 <= i < |s| ==> r[i].uid == s[i].uid && r[i].name == s[i].name
    ensures forall i :: 0 <= i < |s| ==> (r[i].items.Some? <==> s[i].items.Some?)
    ensures forall i :: 0 <= i < |s| && s[i].items.Some? ==> r[i].items.value == SortToc(s[i].items.value, globalUid)
  {
    seq(|s|, i requires 0 <= i < |s| =>
      s[i].(items := if s[i].items.Some? then Some(SortToc(s[i].items.value, globalUid)) else None))
  }

  /** What `serializeToc` produces: the documents written, and `toc.yml`'s list unless the loop threw. */
  datatype Output = Output(files: seq<OutFile>, toc: Option<seq<TocNode>>)

  function Serialize(g: Grouping, globalUid: string): (out: Output)
    requires Ready(g)
    ensures out.toc.None? <==> exists i :: 0 <= i < |g.ids| && Throws(g, globalUid, g.ids[i])
    ensures forall f :: f in out.files ==> f.name == FileName(f.group.id) && Written(g, globalUid, f.group.id)
  {
    var e := EmitAll(g, globalUid, |g.ids|);
    if e.failed then Output(e.files, None)
    else Output(e.files, Some(SortChildren(SortToc(Unsorted(g, globalUid, e), globalUid), globalUid)))
  }

  /** The documents are those of the groups the loop visits, in key order, the throwing
      group's included; when nothing throws, every written group has its document. */
  lemma SerializeDocuments(g: Grouping, globalUid: string)
    requires Ready(g)
    ensures Serialize(g, globalUid).files == Documents(g, globalUid, Visited(g, globalUid, |g.ids|))
    ensures Serialize(g, globalUid).toc.Some? ==> Serialize(g, globalUid).files == Documents(g, globalUid, |g.ids|)
  {
    EmitAllFiles(g, globalUid, |g.ids|);
    assert FilesSoFar(g, globalUid, |g.ids|, EmitAll(g, globalUid, |g.ids|));
    VisitedFirstThrow(g, globalUid, |g.ids|);
  }

  /** The root list before sorting: the namespace nodes, then the groups without a namespace. */
  function Unsorted(g: Grouping, globalUid: string, e: Emission): seq<TocNode>
    requires forall i :: 0 <= i < |g.nsKeys| && g.nsKeys[i] != globalUid ==> g.nsKeys[i] in e.nsItems
  {
    NsNodes(g.nsKeys, globalUid, e.nsItems) + e.root
  }

  /** The unsorted root list holds at most one global entry, and each node with
      entries carries its namespace's collected list. */
  lemma UnsortedShape(g: Grouping, globalUid: string)
    requires Ready(g)
    ensures AtMostOneGlobal(Unsorted(g, globalUid, EmitAll(g, globalUid, |g.ids|)), globalUid)
    ensures forall i :: 0 <= i < |Unsorted(g, globalUid, EmitAll(g, globalUid, |g.ids|))| ==>
              var x := Unsorted(g, globalUid, EmitAll(g, globalUid, |g.ids|))[i];
              x.items.Some? ==> x.uid in EmitAll(g, globalUid, |g.ids|).nsItems
                                && x.items.value == EmitAll(g, globalUid, |g.ids|).nsItems[x.uid]
  {
    var e := EmitAll(g, globalUid, |g.ids|);
    EmitAllRoot(g, globalUid, |g.ids|);
    NsNodesThenRoot(g.nsKeys, globalUid, e.nsItems, e.root);
  }

  /** Namespace nodes never carry the global uid, and entries carry none of their own. */
  lemma NsNodesThenRoot(nsKeys: seq<string>, globalUid: string, m: map<string, seq<TocNode>>, root: seq<TocNode>)
    requires forall i :: 0 <= i < |nsKeys| && nsKeys[i] != globalUid ==> nsKeys[i] in m
    requires DistinctUids(root) && forall i :: 0 <= i < |root| ==> root[i].items.None?
    ensures AtMostOneGlobal(NsNodes(nsKeys, globalUid, m) + root, globalUid)
    ensures forall i :: 0 <= i < |NsNodes(nsKeys, globalUid, m) + root| ==>
              var x := (NsNodes(nsKeys, globalUid, m) + root)[i];
              x.items.Some? ==> x.uid in m && x.items.value == m[x.uid]
  {
    var ns := NsNodes(nsKeys, globalUid, m);
    var pre := ns + root;
    forall i, j | 0 <= i < j < |pre| && pre[i].uid == globalUid
      ensures pre[j].uid != globalUid
    {
      assert pre[i] == root[i - |ns|] && pre[j] == root[j - |ns|];
    }
    assert forall k :: |ns| <= k < |pre| ==> pre[k] == root[k - |ns|];
  }

  /** `sortFn` reads only the uid and the name, which the second-level sort keeps. */
  lemma SortChildrenKeepsOrder(s: seq<TocNode>, globalUid: string)
    requires Sorted(s, globalUid)
    ensures Sorted(SortChildren(s, globalUid), globalUid)
  {
    var r := SortChildren(s, globalUid);
    forall i, j | 0 <= i < j < |r| ensures Cmp(r[i], r[j], globalUid) <= 0 {
      assert Cmp(r[i], r[j], globalUid) == Cmp(s[i], s[j], globalUid);
    }
  }

  /** When `toc.yml` is written, its root list is sorted by `sortFn` and so is the
      entry list of every namespace node. */
  lemma SerializeSorted(g: Grouping, globalUid: string)
    requires Ready(g)
    ensures Serialize(g, globalUid).toc.Some? ==> Sorted(Serialize(g, globalUid).toc.value, globalUid)
    ensures Serialize(g, globalUid).toc.Some? ==>
              forall i :: 0 <= i < |Serialize(g, globalUid).toc.value| && Serialize(g, globalUid).toc.value[i].items.Some? ==>
                Sorted(Serialize(g, globalUid).toc.value[i].items.value, globalUid)
  {
    var e := EmitAll(g, globalUid, |g.ids|);
    if !e.failed {
      SerializeToc(g, globalUid);
      var pre := Unsorted(g, globalUid, e);
      UnsortedShape(g, globalUid);
      EmitAllNs(g, globalUid, |g.ids|);
      forall i | 0 <= i < |pre| && pre[i].items.Some?
        ensures AtMostOneGlobal(pre[i].items.value, globalUid)
      {
        assert NsEntries(g, globalUid, |g.ids|, e, pre[i].uid);
      }
      BothSorts(pre, globalUid);
    }
  }

  /** The root sort followed by the second-level sort leaves the root list sorted and
      each entry list sorted, when no list holds two global entries. */
  lemma BothSorts(pre: seq<TocNode>, globalUid: string)
    requires AtMostOneGlobal(pre, globalUid)
    requires forall i :: 0 <= i < |pre| && pre[i].items.Some? ==> AtMostOneGlobal(pre[i].items.value, globalUid)
    ensures Sorted(SortChildren(SortToc(pre, globalUid), globalUid), globalUid)
    ensures forall i :: 0 <= i < |SortChildren(SortToc(pre, globalUid), globalUid)|
                        && SortChildren(SortToc(pre, globalUid), globalUid)[i].items.Some? ==>
              Sorted(SortChildren(SortToc(pre, globalUid), globalUid)[i].items.value, globalUid)
  {
    SortTocSorted(pre, globalUid);
    var sorted := SortToc(pre, globalUid);
    SortChildrenKeepsOrder(sorted, globalUid);
    var toc := SortChildren(sorted, globalUid);
    forall i | 0 <= i < |toc| && toc[i].items.Some?
      ensures Sorted(toc[i].items.value, globalUid)
    {
      assert sorted[i] in multiset(pre);
      var k :| 0 <= k < |pre| && pre[k] == sorted[i];
      SortTocSorted(pre[k].items.value, globalUid);
    }
  }

  /** The root sort and the second-level sort lose no entry. */
  lemma SortedRootHas(pre: seq<TocNode>, globalUid: string, k: nat)
    requires k < |pre|
    ensures pre[k].uid in TocUids(SortChildren(SortToc(pre, globalUid), globalUid))
  {
    var t := SortToc(pre, globalUid);
    assert pre[k] in multiset(t);
    var i :| 0 <= i < |t| && t[i] == pre[k];
    assert TocUids(SortChildren(t, globalUid))[i] == pre[k].uid;
  }

  /** A node with entries keeps them, sorted, through both sorts. */
  lemma SortedNodeHas(pre: seq<TocNode>, globalUid: string, k: nat)
    requires k < |pre| && pre[k].items.Some?
    ensures exists i :: 0 <= i < |SortChildren(SortToc(pre, globalUid), globalUid)|
              && SortChildren(SortToc(pre, globalUid), globalUid)[i].uid == pre[k].uid
              && SortChildren(SortToc(pre, globalUid), globalUid)[i].items == Some(SortToc(pre[k].items.value, globalUid))
  {
    var t := SortToc(pre, globalUid);
    assert pre[k] in multiset(t);
    var i :| 0 <= i < |t| && t[i] == pre[k];
    assert SortChildren(t, globalUid)[i].items == Some(SortToc(pre[k].items.value, globalUid));
  }

  /** The list `toc.yml` holds, when it is written. */
  lemma SerializeToc(g: Grouping, globalUid: string)
    requires Ready(g) && Serialize(g, globalUid).toc.Some?
    ensures forall i :: 0 <= i < |g.nsKeys| && g.nsKeys[i] != globalUid ==> g.nsKeys[i] in EmitAll(g, globalUid, |g.ids|).nsItems
    ensures Serialize(g, globalUid).toc.value
            == SortChildren(SortToc(Unsorted(g, globalUid, EmitAll(g, globalUid, |g.ids|)), globalUid), globalUid)
  {
  }

  lemma SortTocHas(s: seq<TocNode>, globalUid: string, k: nat)
    requires k < |s|
    ensures s[k].uid in TocUids(SortToc(s, globalUid))
  {
    var t := SortToc(s, globalUid);
    assert s[k] in multiset(t);
    var i :| 0 <= i < |t| && t[i] == s[k];
    assert TocUids(t)[i] == s[k].uid;
  }

  /** When `toc.yml` is written, every written group without a namespace has a root entry. */
  lemma SerializeListsRoot(g: Grouping, globalUid: string, id: string)
    requires Ready(g) && Serialize(g, globalUid).toc.Some?
    requires id in g.ids && Written(g, globalUid, id) && id !in g.classNs
    ensures id in TocUids(Serialize(g, globalUid).toc.value)
  {
    var e := EmitAll(g, globalUid, |g.ids|);
    EmitAllRoot(g, globalUid, |g.ids|);
    RootEntriesAll(g, globalUid, e, id);
    SerializeToc(g, globalUid);
    RootNodeHas(NsNodes(g.nsKeys, globalUid, e.nsItems), e.root, globalUid, id);
  }

  /** After the whole loop, the root entries are the written groups without a namespace. */
  lemma RootEntriesAll(g: Grouping, globalUid: string, e: Emission, id: string)
    requires !e.failed && RootEntries(g, globalUid, |g.ids|, e)
    requires id in g.ids && Written(g, globalUid, id) && id !in g.classNs
    ensures id in TocUids(e.root)
  {
    assert g.ids[..|g.ids|] == g.ids;
  }

  /** A root entry survives both sorts. */
  lemma RootNodeHas(nsNodes: seq<TocNode>, root: seq<TocNode>, globalUid: string, id: string)
    requires id in TocUids(root)
    ensures id in TocUids(SortChildren(SortToc(nsNodes + root, globalUid), globalUid))
  {
    var k :| 0 <= k < |root| && TocUids(root)[k] == id;
    var pre := nsNodes + root;
    assert pre[|nsNodes| + k] == root[k];
    SortedRootHas(pre, globalUid, |nsNodes| + k);
  }

  /** When `toc.yml` is written, each namespace key but the global uid has a node
      carrying its collected entries, sorted. */
  lemma NamespaceNodeInToc(g: Grouping, globalUid: string, ns: string)
    requires Ready(g) && Serialize(g, globalUid).toc.Some?
    requires ns in g.nsKeys && ns != globalUid
    ensures ns in EmitAll(g, globalUid, |g.ids|).nsItems
    ensures exists i :: 0 <= i < |Serialize(g, globalUid).toc.value|
              && Serialize(g, globalUid).toc.value[i].uid == ns
              && Serialize(g, globalUid).toc.value[i].items
                 == Some(SortToc(EmitAll(g, globalUid, |g.ids|).nsItems[ns], globalUid))
  {
    var e := EmitAll(g, globalUid, |g.ids|);
    SerializeToc(g, globalUid);
    NsNodeHas(g.nsKeys, globalUid, e.nsItems, e.root, ns);
  }

  /** Each namespace key but the global uid has a node in the unsorted root list,
      which carries its collected entries. */
  lemma NsNodeHas(nsKeys: seq<string>, globalUid: string, m: map<string, seq<TocNode>>, root: seq<TocNode>, ns: string)
    requires forall i :: 0 <= i < |nsKeys| && nsKeys[i] != globalUid ==> nsKeys[i] in m
    requires ns in nsKeys && ns != globalUid
    ensures ns in m
    ensures exists i :: 0 <= i < |SortChildren(SortToc(NsNodes(nsKeys, globalUid, m) + root, globalUid), globalUid)|
              && SortChildren(SortToc(NsNodes(nsKeys, globalUid, m) + root, globalUid), globalUid)[i].uid == ns
              && SortChildren(SortToc(NsNodes(nsKeys, globalUid, m) + root, globalUid), globalUid)[i].items == Some(SortToc(m[ns], globalUid))
  {
    var nsNodes := NsNodes(nsKeys, globalUid, m);
    NsNodesCover(nsKeys, globalUid, m);
    var k :| 0 <= k < |nsNodes| && TocUids(nsNodes)[k] == ns;
    var pre := nsNodes + root;
    assert pre[k] == nsNodes[k];
    SortedNodeHas(pre, globalUid, k);
  }

  /** When the loop did not throw, a written group with a namespace is among that
      namespace's collected entries. */
  lemma CollectedUnderNamespace(g: Grouping, globalUid: string, id: string)
    requires Ready(g) && !EmitAll(g, globalUid, |g.ids|).failed
    requires id in g.ids && Written(g, globalUid, id) && id in g.classNs
    ensures g.classNs[id] in g.nsKeys && g.classNs[id] != globalUid
    ensures g.classNs[id] in EmitAll(g, globalUid, |g.ids|).nsItems
    ensures id in TocUids(EmitAll(g, globalUid, |g.ids|).nsItems[g.classNs[id]])
  {
    var e := EmitAll(g, globalUid, |g.ids|);
    var ns := g.classNs[id];
    var j :| 0 <= j < |g.ids| && g.ids[j] == id;
    assert !Throws(g, globalUid, g.ids[j]);
    assert ns in e.nsItems;
    EmitAllNs(g, globalUid, |g.ids|);
    NsEntriesAll(g, globalUid, e, ns, id);
  }

  /** After the whole loop, the namespace's entries are its written groups. */
  lemma NsEntriesAll(g: Grouping, globalUid: string, e: Emission, ns: string, id: string)
    requires ns in e.nsItems && !e.failed && NsEntries(g, globalUid, |g.ids|, e, ns)
    requires id in g.ids && Written(g, globalUid, id) && id in g.classNs && g.classNs[id] == ns
    ensures id in TocUids(e.nsItems[ns])
  {
    assert g.ids[..|g.ids|] == g.ids;
  }

  /** When `toc.yml` is written, every written group with a namespace is listed under
      that namespace's node. */
  lemma SerializeListsNs(g: Grouping, globalUid: string, id: string)
    requires Ready(g) && Serialize(g, globalUid).toc.Some?
    requires id in g.ids && Written(g, globalUid, id) && id in g.classNs
    ensures exists i :: 0 <= i < |Serialize(g, globalUid).toc.value|
              && Serialize(g, globalUid).toc.value[i].uid == g.classNs[id]
              && Serialize(g, globalUid).toc.value[i].items.Some?
              && id in TocUids(Serialize(g, globalUid).toc.value[i].items.value)
  {
    var e := EmitAll(g, globalUid, |g.ids|);
    CollectedUnderNamespace(g, globalUid, id);
    var ns := g.classNs[id];
    NamespaceNodeInToc(g, globalUid, ns);
    var entries := e.nsItems[ns];
    var m :| 0 <= m < |entries| && TocUids(entries)[m] == id;
    SortTocHas(entries, globalUid, m);
  }

  /** A class doclet with fresh uids: its group is collected, and the constructor
      registered with it is the group's last member. */
  lemma CtorJoinsClass(cfg: Config, st: State, d: Doclet)
    requires Valid(st) && WellFormed(d) && !Dropped(st, d) && d.kind == "class"
    requires UidOf(st, d) !in st.itemsMap && UidOf(st, d) + ".#ctor" !in st.itemsMap
    ensures var g := Collect(Snapshot(NewDoclet(cfg, st, d)), st.globalUid);
            && UidOf(st, d) in g.classes
            && var group := g.classes[UidOf(st, d)].items;
               |group| > 1 && group[|group| - 1] == ShapedCtor(cfg, st, d)
  {
    var ctor := ShapedCtor(cfg, st, d);
    IncludedUid(st, d);
    ClassBeforeCtor(cfg, st, d);
    CollectLastMember(Shaped(cfg, st, d), Snapshot(st), ctor, st.globalUid);
  }

  /** `serializeToc` over the registered items. */
  function Complete(st: State): (out: Output)
    requires Valid(st)
    ensures out.toc.None? <==>
              var g := Collect(Snapshot(st), st.globalUid);
              exists i :: 0 <= i < |g.ids| && Throws(g, st.globalUid, g.ids[i])
    ensures forall f :: f in out.files ==>
              f.name == FileName(f.group.id) && Written(Collect(Snapshot(st), st.globalUid), st.globalUid, f.group.id)
  {
    var g := Collect(Snapshot(st), st.globalUid);
    CoherentReady(g, st.globalUid);
    Serialize(g, st.globalUid)
  }

  /** The documents `serializeToc` writes are exactly those of the groups visited
      before the first throw, up to and including the throwing one; all of them when
      `toc.yml` is produced. */
  lemma CompleteDocuments(st: State)
    requires Valid(st)
    ensures var g := Collect(Snapshot(st), st.globalUid);
            Complete(st).files == Documents(g, st.globalUid, Visited(g, st.globalUid, |g.ids|))
    ensures var g := Collect(Snapshot(st), st.globalUid);
            Complete(st).toc.Some? ==> Complete(st).files == Documents(g, st.globalUid, |g.ids|)
  {
    var g := Collect(Snapshot(st), st.globalUid);
    CoherentReady(g, st.globalUid);
    SerializeDocuments(g, st.globalUid);
  }

  /** Before any doclet arrives only the global group exists, holding just the global
      container with no children. */
  lemma BeginGroups(packageName: string)
    ensures var st := Begin(packageName);
            var g := Collect(Snapshot(st), st.globalUid);
            && g.classes.Keys == {st.globalUid}
            && g.classes[st.globalUid].items == [GlobalItem(st.globalUid)]
  {
    var st := Begin(packageName);
    var gu := st.globalUid;
    var items := Snapshot(st);
    assert ClassUids(items) == {gu} by {
      assert items[0].kind == Class && items[0].uid == gu;
    }
    CollectGroup(items, gu, gu);
    assert Owned(items, gu, gu) == [];
  }

  /** A grouping none of whose groups is written produces no document and a `toc.yml`. */
  lemma NothingWritten(g: Grouping, globalUid: string)
    requires Ready(g) && forall i :: 0 <= i < |g.ids| ==> !Written(g, globalUid, g.ids[i])
    ensures Serialize(g, globalUid).toc.Some? && Serialize(g, globalUid).files == []
  {
    SerializeDocuments(g, globalUid);
    DocumentsHas(g, globalUid, Visited(g, globalUid, |g.ids|));
  }

  /** Before any doclet arrives nothing is written and `toc.yml` is produced: the global
      group is dropped for having no children. */
  lemma BeginWritesNothing(packageName: string)
    ensures Complete(Begin(packageName)).toc.Some? && Complete(Begin(packageName)).files == []
  {
    var st := Begin(packageName);
    var gu := st.globalUid;
    var g := Collect(Snapshot(st), gu);
    BeginGroups(packageName);
    CoherentReady(g, gu);
    assert forall i :: 0 <= i < |g.ids| ==> !Written(g, gu, g.ids[i]) by {
      assert !Written(g, gu, gu);
    }
    NothingWritten(g, gu);
  }

  /** While the `parseBegin` container is the only item with the global uid, the global
      group exists and is written exactly when some function or member is grouped under
      it: the container brings no children of its own. */
  lemma GlobalWrittenIff(items: seq<Item>, globalUid: string)
    requires SoleWithUid(items, globalUid, GlobalItem(globalUid))
    ensures globalUid in Collect(items, globalUid).classes
    ensures Written(Collect(items, globalUid), globalUid, globalUid) <==> Owned(items, globalUid, globalUid) != []
  {
    var j :| 0 <= j < |items| && items[j] == GlobalItem(globalUid);
    assert globalUid in ClassUids(items);
    LastClassAtFound(items, globalUid);
    CollectGroup(items, globalUid, globalUid);
  }

  /** Every document name the pass produces ends in `.yml` and has no blank. */
  lemma FileNamesShaped(files: seq<OutFile>)
    requires forall f :: f in files ==> f.name == FileName(f.group.id)
    ensures forall f :: f in files ==>
              EndsWith(f.name, OutputFileExt) && forall i :: 0 <= i < |f.name| ==> !Blank(f.name[i])
  {
    forall f | f in files
      ensures EndsWith(f.name, OutputFileExt) && forall i :: 0 <= i < |f.name| ==> !Blank(f.name[i])
    {
      FileNameClean(f.group.id);
    }
  }

  /** The configuration after `parseBegin`: the repository url is suffixed. */
  function Normalized(cfg: Config): Config {
    cfg.(repo := NormalizeRepo(cfg.repo))
  }

  /** The registry after `parseBegin` and `newDoclet` for each doclet in arrival order,
      under the configuration as `parseBegin` left it. */
  function Ingested(cfg: Config, packageName: string, ds: seq<Doclet>): (st: State)
    requires Ingestible(cfg, Begin(packageName), ds)
    ensures Valid(st) && st.globalUid == Begin(packageName).globalUid
  {
    IngestAll(cfg, Begin(packageName), ds)
  }

  /** The whole run: `parseBegin`, `newDoclet` for each doclet, then `serializeToc`.
      Every document name ends in `.yml` and holds no blank. */
  function Generate(cfg: Config, packageName: string, ds: seq<Doclet>): (out: Output)
    requires Ingestible(Normalized(cfg), Begin(packageName), ds)
    ensures forall f :: f in out.files ==>
              EndsWith(f.name, OutputFileExt) && forall i :: 0 <= i < |f.name| ==> !Blank(f.name[i])
  {
    var out := Complete(Ingested(Normalized(cfg), packageName, ds));
    FileNamesShaped(out.files);
    out
  }

  /** The run's documents are those of the groups collected from the ingested registry,
      in group order, up to the first throw. */
  lemma GenerateDocuments(cfg: Config, packageName: string, ds: seq<Doclet>)
    requires Ingestible(Normalized(cfg), Begin(packageName), ds)
    ensures var st := Ingested(Normalized(cfg), packageName, ds);
            var g := Collect(Snapshot(st), st.globalUid);
            && Generate(cfg, packageName, ds).files == Documents(g, st.globalUid, Visited(g, st.globalUid, |g.ids|))
            && (Generate(cfg, packageName, ds).toc.Some? ==>
                  Generate(cfg, packageName, ds).files == Documents(g, st.globalUid, |g.ids|))
  {
    CompleteDocuments(Ingested(Normalized(cfg), packageName, ds));
  }
}
