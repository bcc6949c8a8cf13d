/** The kind handlers: `handleClass`, `handleFunction` (with `handleParameterType`)
    and `handleMember`. Each takes the item shaped from a doclet and sets its type
    and syntax. */
module Handlers {
  import opened Optional
  import opened JsText
  import opened Doclets

  /** `builtInTypes`: lower-cased names of the JavaScript global types. */
  const BuiltInTypes: seq<string> := [
    "array", "arraybuffer", "asyncfunction", "atomics", "boolean", "dataview", "date", "error",
    "evalerror", "float32array", "float64array", "function", "generator", "generatorfunction",
    "infinity", "int16array", "int32array", "int8array", "internalerror", "intl",
    "intl.collator", "intl.datetimeformat", "intl.numberformat", "iterator", "json", "map",
    "math", "nan", "number", "object", "parallelarray", "promise", "proxy", "rangeerror",
    "referenceerror", "reflect", "regexp", "simd", "simd.bool16x8", "simd.bool32x4",
    "simd.bool64x2", "simd.bool8x16", "simd.float32x4", "simd.float64x2", "simd.int16x8",
    "simd.int32x4", "simd.int8x16", "simd.uint16x8", "simd.uint32x4", "simd.uint8x16", "set",
    "sharedarraybuffer", "stopiteration", "string", "symbol", "syntaxerror", "typeerror",
    "typedarray", "urierror", "uint16array", "uint32array", "uint8array", "uint8clampedarray",
    "weakmap", "weakset", "undefined"]

  /** `list.indexOf(x)` on an array of strings: the first position of `x`, or -1. */
  function Position(list: seq<string>, x: string): (r: int)
    ensures -1 <= r < |list|
    ensures r == -1 <==> x !in list
    ensures 0 <= r ==> list[r] == x
  {
    if |list| == 0 then -1
    else if list[0] == x then 0
    else
      var k := Position(list[1..], x);
      assert x in list <==> x in list[1..];
      if k == -1 then -1 else k + 1
  }

  /** A type name is built in when its lower-cased form is on the list. */
  predicate IsBuiltIn(name: string) {
    Position(BuiltInTypes, ToLower(name)) != -1
  }

  /** The name-by-name part of `handleParameterType`. */
  function ResolveNames(prefix: string, names: seq<string>): (r: seq<string>)
    ensures |r| == |names|
    ensures forall i :: 0 <= i < |names| && IsBuiltIn(names[i]) ==> r[i] == names[i]
    ensures forall i :: 0 <= i < |names| && !IsBuiltIn(names[i]) ==> r[i] == prefix + names[i]
  {
    seq(|names|, i requires 0 <= i < |names| => ResolveName(prefix, names[i]))
  }

  /** One name of `handleParameterType`. */
  function ResolveName(prefix: string, name: string): string {
    if IsBuiltIn(name) then name else prefix + name
  }

  /** `handleParameterType`: an absent type stays absent. */
  function ResolveTypes(prefix: string, t: Option<TypeExpr>): (r: Option<seq<string>>)
    ensures r.None? <==> t.None?
    ensures t.Some? ==> r.value == ResolveNames(prefix, t.value.names)
  {
    match t
    case None => None
    case Some(te) => Some(ResolveNames(prefix, te.names))
  }

  /** With no package name configured the prefix is empty and resolution changes nothing. */
  lemma {:induction false} ResolveNamesEmptyPrefix(names: seq<string>)
    ensures ResolveNames("", names) == names
  {
    var r := ResolveNames("", names);
    forall i | 0 <= i < |names|
      ensures r[i] == names[i]
    {
      assert "" + names[i] == names[i];
    }
  }

  /** The names of a tag list, in order. */
  function NamesOf(tags: seq<Tag>): (r: seq<string>)
    ensures |r| == |tags|
    ensures forall i :: 0 <= i < |tags| ==> r[i] == tags[i].name
  {
    seq(|tags|, i requires 0 <= i < |tags| => tags[i].name)
  }

  /** The ids of the parameters whose name has no `.` (nested option properties such
      as `opts.size` are left out), in declared order. */
  function TopLevelNames(tags: seq<Tag>): (r: seq<string>)
    ensures |r| <= |tags|
    ensures forall x :: x in r ==> '.' !in x
    ensures forall i :: 0 <= i < |tags| && '.' !in tags[i].name ==> tags[i].name in r
    ensures forall x :: x in r ==> x in NamesOf(tags)
  {
    if |tags| == 0 then []
    else if IndexOf(tags[0].name, '.') < 0 then [tags[0].name] + TopLevelNames(tags[1..])
    else TopLevelNames(tags[1..])
  }

  /** Filtering distributes over concatenation, so the declared order is kept. */
  lemma {:induction false} TopLevelNamesAppend(a: seq<Tag>, b: seq<Tag>)
    ensures TopLevelNames(a + b) == TopLevelNames(a) + TopLevelNames(b)
  {
    if |a| == 0 {
      assert a + b == b;
    } else {
      assert (a + b)[0] == a[0];
      assert (a + b)[1..] == a[1..] + b;
      TopLevelNamesAppend(a[1..], b);
    }
  }

  /** `'(' + params.join(', ') + ')'` over the top-level parameter ids. */
  function ParamSuffix(params: Option<seq<Tag>>): string {
    "(" + Join(TopLevelNames(params.GetOr([])), ", ") + ")"
  }

  /** One entry of `syntax.parameters`. */
  function ConvertParam(cfg: Config, prefix: string, p: Tag): Param {
    Param(p.name, ResolveTypes(prefix, p.typeExpr), cfg.convert(p.description, prefix), p.optional)
  }

  function ConvertParams(cfg: Config, prefix: string, tags: seq<Tag>): (r: seq<Param>)
    ensures |r| == |tags|
    ensures forall i :: 0 <= i < |tags| ==> r[i].id == tags[i].name
    ensures forall i :: 0 <= i < |tags| ==> r[i].types == ResolveTypes(prefix, tags[i].typeExpr)
    ensures forall i :: 0 <= i < |tags| ==>
              r[i].description == cfg.convert(tags[i].description, prefix) && r[i].optional == tags[i].optional
  {
    seq(|tags|, i requires 0 <= i < |tags| => ConvertParam(cfg, prefix, tags[i]))
  }

  /** `handleFunction`, for a `function` doclet and for the constructor of a class. */
  function HandleFunction(cfg: Config, prefix: string, item: Item, d: Doclet): (r: Item)
    requires WellFormed(d) && (d.kind == "function" || d.kind == "class")
    ensures r.kind == (if d.kind == "function" then Function else Constructor)
    ensures r.name == item.name + ParamSuffix(d.params)
    ensures r.fullName == item.fullName + ParamSuffix(d.params)
    ensures r.syntax.Some?
    ensures r.syntax.value.content == (if r.kind == Function then "function " else "new ") + r.name
    ensures r.syntax.value.parameters.Some? <==> d.params.Some?
    ensures d.params.Some? ==> |r.syntax.value.parameters.value| == |d.params.value|
    ensures d.params.Some? ==> forall i :: 0 <= i < |d.params.value| ==>
              && r.syntax.value.parameters.value[i].id == d.params.value[i].name
              && r.syntax.value.parameters.value[i].types == ResolveTypes(prefix, d.params.value[i].typeExpr)
              && r.syntax.value.parameters.value[i].description == cfg.convert(d.params.value[i].description, prefix)
              && r.syntax.value.parameters.value[i].optional == d.params.value[i].optional
    ensures r.syntax.value.ret.Some? <==> d.returnTags.Some?
    ensures d.returnTags.Some? ==> r.syntax.value.ret.value.types == ResolveTypes(prefix, d.returnTags.value[0].typeExpr)
    ensures d.returnTags.Some? ==>
              && r.syntax.value.ret.value.description == Some(cfg.convert(d.returnTags.value[0].description, prefix))
              && r.syntax.value.ret.value.optional == d.returnTags.value[0].optional
    ensures r.uid == item.uid && r.id == item.id && r.parent == item.parent && r.summary == item.summary
    ensures r.children == item.children && r.source == item.source && r.tags == item.tags
  {
    var kind := if d.kind == "function" then Function else Constructor;
    var params := if d.params.Some? then Some(ConvertParams(cfg, prefix, d.params.value)) else None;
    var suffix := ParamSuffix(d.params);
    var name := item.name + suffix;
    var ret :=
      if d.returnTags.Some? then
        var t := d.returnTags.value[0];
        Some(Return(ResolveTypes(prefix, t.typeExpr), Some(cfg.convert(t.description, prefix)), t.optional))
      else None;
    var content := (if kind == Function then "function " else "new ") + name;
    item.(kind := kind, name := name, fullName := item.fullName + suffix, syntax := Some(Syntax(params, ret, content)))
  }

  /** `handleMember`: the declared type's first name, NOT prefixed, becomes the return type. */
  function HandleMember(item: Item, d: Doclet): (r: Item)
    requires WellFormed(d) && d.kind == "member"
    ensures r.kind == Member
    ensures r.syntax.Some? && r.syntax.value.content == item.name
    ensures r.syntax.value.parameters.None?
    ensures r.syntax.value.ret.Some? <==> d.typeExpr.Some?
    ensures d.typeExpr.Some? ==> r.syntax.value.ret.value.types == Some([d.typeExpr.value.names[0]])
    ensures d.typeExpr.Some? ==>
              r.syntax.value.ret.value.description.None? && r.syntax.value.ret.value.optional.None?
    ensures r.uid == item.uid && r.id == item.id && r.parent == item.parent && r.summary == item.summary
    ensures r.name == item.name && r.fullName == item.fullName
    ensures r.children == item.children && r.source == item.source && r.tags == item.tags
  {
    var ret := if d.typeExpr.Some? then Some(Return(Some([d.typeExpr.value.names[0]]), None, None)) else None;
    item.(kind := Member, syntax := Some(Syntax(None, ret, item.name)))
  }

  /** `handleClass`: the class item and the constructor item synthesised for it,
      as the pair (class, constructor). */
  function HandleClass(cfg: Config, prefix: string, item: Item, d: Doclet): (r: (Item, Item))
    requires WellFormed(d) && d.kind == "class"
    ensures r.0.kind == Class && r.1.kind == Constructor
    ensures r.1.uid == item.uid + ".#ctor" && r.1.id == item.id + ".#ctor"
    ensures r.1.parent == Some(item.uid)
    ensures r.0.children == [r.1.uid]
    ensures r.1.name == item.name + ParamSuffix(d.params)
    ensures r.1.fullName == item.fullName + "." + item.name + ParamSuffix(d.params)
    ensures r.1.syntax.Some? && r.1.syntax.value.content == "new " + r.1.name
    ensures r.1.children == [] && r.1.source.None? && r.1.tags.None?
    ensures r.1.summary == Some(cfg.convert(d.description, prefix))
    ensures r.0.summary == if Truthy(d.classdesc) then Some(cfg.convert(d.classdesc, prefix)) else item.summary
    ensures r.0.uid == item.uid && r.0.id == item.id && r.0.parent == item.parent
    ensures r.0.name == item.name && r.0.fullName == item.fullName && r.0.syntax == item.syntax
    ensures r.0.source == item.source && r.0.tags == item.tags
  {
    var summary := if Truthy(d.classdesc) then Some(cfg.convert(d.classdesc, prefix)) else item.summary;
    var ctor := Item(
      uid := item.uid + ".#ctor",
      id := item.id + ".#ctor",
      parent := Some(item.uid),
      name := item.name,
      fullName := item.fullName + "." + item.name,
      summary := Some(cfg.convert(d.description, prefix)),
      kind := Constructor,
      syntax := None,
      children := [],
      source := None,
      tags := None);
    var ctor' := HandleFunction(cfg, prefix, ctor, d);
    (item.(kind := Class, summary := summary, children := [ctor'.uid]), ctor')
  }
}
