/** The records the generator consumes (doclets from the documentation
    extractor) and produces (items of the reference model). */
module Doclets {
  import opened Optional

  // ---------------------------------------------------------------------------
  // Input: doclets
  // ---------------------------------------------------------------------------

  /** A doclet's `type` record: the list of type names written in the comment. */
  datatype TypeExpr = TypeExpr(names: seq<string>)

  /** One entry of a doclet's `params` or `returns` list. */
  datatype Tag = Tag(name: string, typeExpr: Option<TypeExpr>, description: Option<string>, optional: Option<bool>)

  /** A doclet's `meta` record; `codeName` is `meta.code.name` when it is a string. */
  datatype Meta = Meta(path: string, filename: string, lineno: int, codeName: Option<string>)

  /** A documented declaration as the extractor reports it. Fields whose absence the
      generator only tests for truthiness or compares with a constant are strings, with
      `""` standing for absent (`longname`, `scope`, `access`); `undocumented` is false
      when absent. `returnTags` (the `returns` list) and `params` keep the difference between absent and empty. */
  datatype Doclet = Doclet(
    kind: string,
    longname: string,
    name: string,
    memberof: Option<string>,
    scope: string,
    access: string,
    undocumented: bool,
    description: Option<string>,
    summary: Option<string>,
    classdesc: Option<string>,
    params: Option<seq<Tag>>,
    returnTags: Option<seq<Tag>>,
    typeExpr: Option<TypeExpr>,
    meta: Meta,
    tags: Option<seq<string>>)

  /** The doclet kinds the generator has a handler for (its `typeMap`). */
  datatype Kind = MemberKind | FunctionKind | ClassKind

  function KindOf(kind: string): Option<Kind> {
    if kind == "member" then Some(MemberKind)
    else if kind == "function" then Some(FunctionKind)
    else if kind == "class" then Some(ClassKind)
    else None
  }

  /** The fields the handlers index into are non-empty: for a function or a class (whose
      constructor goes through the function handler) the `returns` list (`returnTags`), and
      for a member the type's name list. Other kinds are not constrained. */
  predicate WellFormed(d: Doclet) {
    && ((d.kind == "function" || d.kind == "class") && d.returnTags.Some? ==> |d.returnTags.value| > 0)
    && (d.kind == "member" && d.typeExpr.Some? ==> |d.typeExpr.value.names| > 0)
  }

  // ---------------------------------------------------------------------------
  // Output: items of the reference model
  // ---------------------------------------------------------------------------

  datatype ItemKind = Class | Constructor | Function | Member

  /** One entry of `syntax.parameters`; `types` holds the resolved type names. */
  datatype Param = Param(id: string, types: Option<seq<string>>, description: string, optional: Option<bool>)

  /** `syntax.return`. */
  datatype Return = Return(types: Option<seq<string>>, description: Option<string>, optional: Option<bool>)

  /** `syntax`: present on constructors, functions and members. */
  datatype Syntax = Syntax(parameters: Option<seq<Param>>, ret: Option<Return>, content: string)

  datatype Remote = Remote(branch: string, path: string, repo: string)

  /** `source`: the declaring file of a class, when a repository is configured. */
  datatype Source = Source(id: string, path: string, startLine: int, remote: Remote)

  /** An item of the reference model. `children` is the list of child uids; the empty
      list also stands for an absent `children` field. */
  datatype Item = Item(
    uid: string,
    id: string,
    parent: Option<string>,
    name: string,
    fullName: string,
    summary: Option<string>,
    kind: ItemKind,
    syntax: Option<Syntax>,
    children: seq<string>,
    source: Option<Source>,
    tags: Option<seq<string>>)

  /** `x` occurs in `s` and is the only value there that carries uid `u`. */
  predicate SoleWithUid(s: seq<Item>, u: string, x: Item) {
    && x.uid == u
    && x in s
    && forall i :: 0 <= i < |s| && s[i].uid == u ==> s[i] == x
  }

  /** Adding a value with another uid at either end keeps `x` the only value with uid `u`. */
  lemma SoleAtEnds(s: seq<Item>, item: Item, u: string, x: Item)
    requires SoleWithUid(s, u, x) && item.uid != u
    ensures SoleWithUid([item] + s, u, x) && SoleWithUid(s + [item], u, x)
  {
    var j :| 0 <= j < |s| && s[j] == x;
    assert ([item] + s)[j + 1] == x;
    assert (s + [item])[j] == x;
  }

  /** Replacing a last value that does not carry `u` keeps `x` the only value with uid `u`. */
  lemma SoleOverLast(s: seq<Item>, item: Item, u: string, x: Item)
    requires SoleWithUid(s, u, x) && item.uid != u && |s| > 0 && s[|s| - 1].uid != u
    ensures SoleWithUid(s[..|s| - 1] + [item], u, x)
  {
    var t := s[..|s| - 1] + [item];
    var j :| 0 <= j < |s| && s[j] == x;
    assert j < |s| - 1;
    assert t[j] == x;
    forall i | 0 <= i < |t| && t[i].uid == u
      ensures t[i] == x
    {
      assert i < |s| - 1 && t[i] == s[i];
    }
  }

  // ---------------------------------------------------------------------------
  // Run configuration
  // ---------------------------------------------------------------------------

  /** The link-syntax converter of the documentation module: text and uid prefix to text. */
  type Converter = (Option<string>, string) -> string

  /** `config.repo`: remote repository locator (`""` for an absent url or branch). */
  datatype Repo = Repo(url: string, branch: string)

  /** What the generator reads from its environment: the repository configuration,
      the working directory (`env.pwd`) and the link converter. */
  datatype Config = Config(repo: Option<Repo>, pwd: string, convert: Converter)
}
