/** The first pass of `serializeToc`: items are partitioned into class groups in
    registration order, `fileMap` records which group's document holds each uid,
    classes are assigned namespace keys, and each group's cross-references are
    computed from the type names its members mention. */
module Grouping {
  import opened Optional
  import opened JsText
  import opened Doclets

  /** A class group under construction: the class item first, then its members in
      registration order; `refs` holds the keys of `referenceMap` in insertion order. */
  datatype Acc = Acc(items: seq<Item>, refs: seq<string>)

  /** The pass's working maps. JavaScript objects enumerate string keys in insertion
      order, so `ids` and `nsKeys` keep the key order of `classes` and `namespaceMap`. */
  datatype Grouping = Grouping(
    ids: seq<string>,
    classes: map<string, Acc>,
    fileMap: map<string, string>,
    nsKeys: seq<string>,
    classNs: map<string, string>)

  const Empty: Grouping := Grouping([], map[], map[], [], map[])

  // ---------------------------------------------------------------------------
  // Namespaces, owners and mentioned types
  // ---------------------------------------------------------------------------

  /** The namespace key of a class uid: the text before its last `.`, when that dot is
      not the first character. */
  function NamespaceKey(uid: string): (ns: Option<string>)
    ensures ns.None? <==> forall i :: 0 < i < |uid| ==> uid[i] != '.'
    ensures ns.Some? ==> && 0 < |ns.value| < |uid|
                         && uid[|ns.value|] == '.'
                         && uid[..|ns.value|] == ns.value
                         && '.' !in uid[|ns.value| + 1..]
  {
    var k := LastIndexOf(uid, '.');
    if k > 0 then
      Some(uid[..k])
    else
      assert forall i :: 0 < i < |uid| ==> uid[i] != '.' by {
        forall i | 0 < i < |uid| ensures uid[i] != '.' {
          if k == 0 { assert uid[k + 1..][i - 1] == uid[i]; }
        }
      }
      None
  }

  /** The group a non-class item belongs to: `item.parent || globalUid`. */
  function ParentId(item: Item, globalUid: string): string {
    if Truthy(item.parent) then item.parent.value else globalUid
  }

  /** The type names an item's parameters mention, in order. */
  function ParamTypeNames(ps: seq<Param>): seq<string> {
    if |ps| == 0 then [] else ps[0].types.GetOr([]) + ParamTypeNames(ps[1..])
  }

  /** The type names an item mentions: parameter types, then return types. */
  function TypeNames(item: Item): seq<string> {
    match item.syntax
    case None => []
    case Some(sx) =>
      ParamTypeNames(sx.parameters.GetOr([]))
      + (match sx.ret case None => [] case Some(rt) => rt.types.GetOr([]))
  }

  /** Every type name some item of `items` mentions. */
  function Mentioned(items: seq<Item>): set<string> {
    if |items| == 0 then {}
    else Mentioned(items[..|items| - 1]) + Elements(TypeNames(items[|items| - 1]))
  }

  function Elements(s: seq<string>): (r: set<string>)
    ensures forall t :: t in r <==> t in s
  {
    set i | 0 <= i < |s| :: s[i]
  }

  /** `referenceMap[t] = true` for each `t` of `ts`, keeping key order. */
  function AddRefs(refs: seq<string>, ts: seq<string>): (r: seq<string>)
    ensures forall t :: t in r <==> t in refs || t in ts
    ensures refs <= r
    decreases |ts|
  {
    if |ts| == 0 then refs
    else AddRefs(if ts[0] in refs then refs else refs + [ts[0]], ts[1..])
  }

  /** The uids of a sequence of items, in order. */
  function Uids(items: seq<Item>): (r: seq<string>)
    ensures |r| == |items|
    ensures forall i :: 0 <= i < |items| ==> r[i] == items[i].uid
  {
    seq(|items|, i requires 0 <= i < |items| => items[i].uid)
  }

  // ---------------------------------------------------------------------------
  // The pass over the items
  // ---------------------------------------------------------------------------

  /** Group keys are registered once, in order, and namespace keys likewise. */
  ghost predicate KeysOk(g: Grouping) {
    && (forall i, j :: 0 <= i < j < |g.ids| ==> g.ids[i] != g.ids[j])
    && (forall k :: k in g.classes <==> k in g.ids)
    && (forall i, j :: 0 <= i < j < |g.nsKeys| ==> g.nsKeys[i] != g.nsKeys[j])
  }

  /** Each group starts with its class item. */
  ghost predicate HeadsOk(g: Grouping) {
    forall k :: k in g.classes ==>
      && |g.classes[k].items| >= 1
      && g.classes[k].items[0].kind == Class
      && g.classes[k].items[0].uid == k
  }

  /** After the head, a group holds only non-class items owned by it. */
  ghost predicate MembersOk(g: Grouping, globalUid: string) {
    forall k, i :: k in g.classes && 1 <= i < |g.classes[k].items| ==>
      g.classes[k].items[i].kind != Class && ParentId(g.classes[k].items[i], globalUid) == k
  }

  /** A group's `referenceMap` keys are exactly the type names its members mention. */
  ghost predicate RefsOk(g: Grouping) {
    forall k :: k in g.classes && |g.classes[k].items| >= 1 ==>
      forall t :: t in g.classes[k].refs <==> t in Mentioned(g.classes[k].items[1..])
  }

  /** `fileMap` and the namespace assignment point only at known groups and namespaces. */
  ghost predicate LinksOk(g: Grouping) {
    && (forall k :: k in g.fileMap ==> g.fileMap[k] in g.classes)
    && (forall k :: k in g.classNs ==> k in g.classes && g.classNs[k] in g.nsKeys)
  }

  /** The global container's children end with the uids of its members, in order. */
  ghost predicate GlobalChildrenOk(g: Grouping, globalUid: string) {
    globalUid in g.classes && |g.classes[globalUid].items| >= 1 ==>
      var gi := g.classes[globalUid].items;
      && |gi| - 1 <= |gi[0].children|
      && gi[0].children[|gi[0].children| - (|gi| - 1)..] == Uids(gi[1..])
  }

  /** What the pass maintains. */
  ghost predicate Coherent(g: Grouping, globalUid: string) {
    && KeysOk(g) && HeadsOk(g) && MembersOk(g, globalUid) && RefsOk(g)
    && LinksOk(g) && GlobalChildrenOk(g, globalUid)
  }

  /** The `case 'Class'` arm: a fresh group (replacing any earlier one with this uid),
      its namespace, and `fileMap[uid] = uid`. */
  function ClassStep(g: Grouping, item: Item): Grouping {
    var uid := item.uid;
    var ns := NamespaceKey(uid);
    Grouping(
      ids := if uid in g.classes then g.ids else g.ids + [uid],
      classes := g.classes[uid := Acc([item], [])],
      fileMap := g.fileMap[uid := uid],
      nsKeys := if ns.Some? && ns.value !in g.nsKeys then g.nsKeys + [ns.value] else g.nsKeys,
      classNs := if ns.Some? then g.classNs[uid := ns.value] else g.classNs)
  }

  /** The `case 'Constructor' / 'Function' / 'Member'` arm: the item joins its owner's
      group when that group exists, its types are marked in the group's `referenceMap`,
      and a member of the global group is appended to the global item's children. */
  function MemberStep(g: Grouping, item: Item, globalUid: string): Grouping
    requires HeadsOk(g)
  {
    var p := ParentId(item, globalUid);
    if p !in g.classes then g
    else
      var acc := g.classes[p];
      var head := if p == globalUid then acc.items[0].(children := acc.items[0].children + [item.uid])
                  else acc.items[0];
      g.(classes := g.classes[p := Acc([head] + acc.items[1..] + [item], AddRefs(acc.refs, TypeNames(item)))],
         fileMap := g.fileMap[item.uid := p])
  }

  /** One iteration of `items.forEach` in `serializeToc`. */
  function Step(g: Grouping, item: Item, globalUid: string): (r: Grouping)
    requires HeadsOk(g)
    ensures g.classes.Keys <= r.classes.Keys
    ensures r.classes.Keys <= g.classes.Keys + (if item.kind == Class then {item.uid} else {})
    ensures item.kind == Class ==> && item.uid in r.classes && item.uid in r.fileMap
                                   && r.classes[item.uid] == Acc([item], []) && r.fileMap[item.uid] == item.uid
    ensures item.kind != Class && ParentId(item, globalUid) !in g.classes ==> r == g
    ensures item.kind != Class && ParentId(item, globalUid) in g.classes ==>
              var p := ParentId(item, globalUid);
              && r.fileMap == g.fileMap[item.uid := p]
              && |r.classes[p].items| >= 1
              && r.classes[p].items[1..] == g.classes[p].items[1..] + [item]
              && (forall k :: k in g.classes && k != p ==> r.classes[k] == g.classes[k])
  {
    if item.kind == Class then ClassStep(g, item) else
      var r := MemberStep(g, item, globalUid);
      assert ParentId(item, globalUid) in g.classes ==>
        r.classes[ParentId(item, globalUid)].items[1..] == g.classes[ParentId(item, globalUid)].items[1..] + [item];
      r
  }

  lemma ClassStepCoherent(g: Grouping, item: Item, globalUid: string)
    requires Coherent(g, globalUid) && item.kind == Class
    ensures Coherent(ClassStep(g, item), globalUid)
  {
    ClassStepKeys(g, item);
    ClassStepHeads(g, item);
    ClassStepMembers(g, item, globalUid);
    ClassStepRefs(g, item);
    ClassStepLinks(g, item);
    ClassStepGlobal(g, item, globalUid);
  }

  lemma ClassStepKeys(g: Grouping, item: Item)
    requires KeysOk(g)
    ensures KeysOk(ClassStep(g, item))
  {
    var r := ClassStep(g, item);
    if item.uid !in g.classes {
      AppendFresh(g.ids, item.uid);
    }
    var ns := NamespaceKey(item.uid);
    if ns.Some? && ns.value !in g.nsKeys {
      AppendFresh(g.nsKeys, ns.value);
    }
  }

  /** Appending a new key keeps the keys distinct. */
  lemma AppendFresh(s: seq<string>, x: string)
    requires forall i, j :: 0 <= i < j < |s| ==> s[i] != s[j]
    requires x !in s
    ensures forall i, j :: 0 <= i < j < |s + [x]| ==> (s + [x])[i] != (s + [x])[j]
  {
  }

  lemma ClassStepHeads(g: Grouping, item: Item)
    requires HeadsOk(g) && item.kind == Class
    ensures HeadsOk(ClassStep(g, item))
  {
  }

  lemma ClassStepMembers(g: Grouping, item: Item, globalUid: string)
    requires MembersOk(g, globalUid)
    ensures MembersOk(ClassStep(g, item), globalUid)
  {
  }

  lemma ClassStepRefs(g: Grouping, item: Item)
    requires RefsOk(g)
    ensures RefsOk(ClassStep(g, item))
  {
    assert [item][1..] == [] && Mentioned([]) == {};
  }

  lemma ClassStepLinks(g: Grouping, item: Item)
    requires LinksOk(g)
    ensures LinksOk(ClassStep(g, item))
  {
  }

  lemma ClassStepGlobal(g: Grouping, item: Item, globalUid: string)
    requires GlobalChildrenOk(g, globalUid)
    ensures GlobalChildrenOk(ClassStep(g, item), globalUid)
  {
  }

  /** The group the member arm appends to, before and after. */
  lemma MemberStepGroup(g: Grouping, item: Item, globalUid: string)
    requires HeadsOk(g) && ParentId(item, globalUid) in g.classes
    ensures var p := ParentId(item, globalUid);
            var before := g.classes[p].items;
            var after := MemberStep(g, item, globalUid).classes[p].items;
            && |after| == |before| + 1
            && after[0].kind == Class && after[0].uid == p
            && after[1..] == before[1..] + [item]
            && after[0].children == if p == globalUid then before[0].children + [item.uid] else before[0].children
  {
    var p := ParentId(item, globalUid);
    var after := MemberStep(g, item, globalUid).classes[p].items;
    assert after[1..] == g.classes[p].items[1..] + [item];
  }

  /** The member arm touches only the owner's group. */
  lemma MemberStepOthers(g: Grouping, item: Item, globalUid: string, k: string)
    requires HeadsOk(g) && k != ParentId(item, globalUid)
    ensures var r := MemberStep(g, item, globalUid);
            k in r.classes <==> k in g.classes
    ensures k in g.classes ==> MemberStep(g, item, globalUid).classes[k] == g.classes[k]
  {
  }

  lemma MemberStepKeys(g: Grouping, item: Item, globalUid: string)
    requires HeadsOk(g) && KeysOk(g)
    ensures KeysOk(MemberStep(g, item, globalUid))
  {
  }

  lemma MemberStepHeads(g: Grouping, item: Item, globalUid: string)
    requires HeadsOk(g)
    ensures HeadsOk(MemberStep(g, item, globalUid))
  {
    var p := ParentId(item, globalUid);
    if p in g.classes {
      MemberStepGroup(g, item, globalUid);
      forall k | k in g.classes && k != p
        ensures MemberStep(g, item, globalUid).classes[k] == g.classes[k]
      {
        MemberStepOthers(g, item, globalUid, k);
      }
    }
  }

  lemma MemberStepMembers(g: Grouping, item: Item, globalUid: string)
    requires HeadsOk(g) && MembersOk(g, globalUid) && item.kind != Class
    ensures MembersOk(MemberStep(g, item, globalUid), globalUid)
  {
    var p := ParentId(item, globalUid);
    if p in g.classes {
      var r := MemberStep(g, item, globalUid);
      MemberStepGroup(g, item, globalUid);
      forall k, i | k in r.classes && 1 <= i < |r.classes[k].items|
        ensures r.classes[k].items[i].kind != Class && ParentId(r.classes[k].items[i], globalUid) == k
      {
        if k == p {
          var after := r.classes[p].items;
          assert after[i] == after[1..][i - 1];
        } else {
          MemberStepOthers(g, item, globalUid, k);
        }
      }
    }
  }

  lemma MemberStepLinks(g: Grouping, item: Item, globalUid: string)
    requires HeadsOk(g) && LinksOk(g)
    ensures LinksOk(MemberStep(g, item, globalUid))
  {
  }

  /** The member arm keeps `referenceMap` equal to the mentioned types. */
  lemma MemberStepRefs(g: Grouping, item: Item, globalUid: string)
    requires HeadsOk(g) && RefsOk(g)
    ensures RefsOk(MemberStep(g, item, globalUid))
  {
    var p := ParentId(item, globalUid);
    if p in g.classes {
      var r := MemberStep(g, item, globalUid);
      MemberStepGroup(g, item, globalUid);
      var before := g.classes[p].items[1..];
      var after := r.classes[p].items[1..];
      assert after[..|after| - 1] == before;
      assert Mentioned(after) == Mentioned(before) + Elements(TypeNames(item));
      forall k | k in r.classes && |r.classes[k].items| >= 1
        ensures forall t :: t in r.classes[k].refs <==> t in Mentioned(r.classes[k].items[1..])
      {
        if k != p { MemberStepOthers(g, item, globalUid, k); }
      }
    }
  }

  /** Appending to a sequence extends each of its suffixes by the same element. */
  lemma SuffixSnoc<T>(c: seq<T>, x: T, n: nat)
    requires n <= |c|
    ensures (c + [x])[|c + [x]| - (n + 1)..] == c[|c| - n..] + [x]
  {
  }

  lemma UidsSnoc(items: seq<Item>, item: Item)
    ensures Uids(items + [item]) == Uids(items) + [item.uid]
  {
  }

  lemma GlobalChildrenStep(before: seq<Item>, after: seq<Item>, item: Item)
    requires |before| >= 1 && |before| - 1 <= |before[0].children|
    requires before[0].children[|before[0].children| - (|before| - 1)..] == Uids(before[1..])
    requires |after| == |before| + 1 && after[1..] == before[1..] + [item]
    requires after[0].children == before[0].children + [item.uid]
    ensures |after| - 1 <= |after[0].children|
    ensures after[0].children[|after[0].children| - (|after| - 1)..] == Uids(after[1..])
  {
    SuffixSnoc(before[0].children, item.uid, |before| - 1);
    UidsSnoc(before[1..], item);
  }

  /** The member arm keeps the global container's children in step with its members. */
  lemma MemberStepGlobal(g: Grouping, item: Item, globalUid: string)
    requires HeadsOk(g) && GlobalChildrenOk(g, globalUid)
    ensures GlobalChildrenOk(MemberStep(g, item, globalUid), globalUid)
  {
    if ParentId(item, globalUid) != globalUid {
      MemberStepGlobalElsewhere(g, item, globalUid);
    } else if globalUid in g.classes {
      MemberStepGlobalOwn(g, item, globalUid);
    }
  }

  lemma MemberStepGlobalOwn(g: Grouping, item: Item, globalUid: string)
    requires HeadsOk(g) && GlobalChildrenOk(g, globalUid)
    requires ParentId(item, globalUid) == globalUid && globalUid in g.classes
    ensures GlobalChildrenOk(MemberStep(g, item, globalUid), globalUid)
  {
    MemberStepGroup(g, item, globalUid);
    var before := g.classes[globalUid].items;
    var after := MemberStep(g, item, globalUid).classes[globalUid].items;
    GlobalChildrenStep(before, after, item);
  }

  lemma MemberStepGlobalElsewhere(g: Grouping, item: Item, globalUid: string)
    requires HeadsOk(g) && GlobalChildrenOk(g, globalUid)
    requires ParentId(item, globalUid) != globalUid
    ensures GlobalChildrenOk(MemberStep(g, item, globalUid), globalUid)
  {
    MemberStepOthers(g, item, globalUid, globalUid);
  }

  /** The member arm appends to one group; the global container's children grow by
      exactly the appended uid. */
  lemma MemberStepCoherent(g: Grouping, item: Item, globalUid: string)
    requires Coherent(g, globalUid) && item.kind != Class
    ensures Coherent(MemberStep(g, item, globalUid), globalUid)
  {
    MemberStepKeys(g, item, globalUid);
    MemberStepHeads(g, item, globalUid);
    MemberStepMembers(g, item, globalUid);
    MemberStepRefs(g, item, globalUid);
    MemberStepLinks(g, item, globalUid);
    MemberStepGlobal(g, item, globalUid);
  }

  lemma StepCoherent(g: Grouping, item: Item, globalUid: string)
    requires Coherent(g, globalUid)
    ensures Coherent(Step(g, item, globalUid), globalUid)
  {
    if item.kind == Class { ClassStepCoherent(g, item, globalUid); }
    else { MemberStepCoherent(g, item, globalUid); }
  }

  /** The uids of the class items of `items`. */
  function ClassUids(items: seq<Item>): set<string> {
    set i | 0 <= i < |items| && items[i].kind == Class :: items[i].uid
  }

  lemma ClassUidsSnoc(items: seq<Item>)
    requires |items| > 0
    ensures var last := items[|items| - 1];
            ClassUids(items) == ClassUids(items[..|items| - 1]) + (if last.kind == Class then {last.uid} else {})
  {
    var front := items[..|items| - 1];
    assert forall i :: 0 <= i < |front| ==> front[i] == items[i];
  }

  /** The whole pass, in registration order. */
  function Collect(items: seq<Item>, globalUid: string): (g: Grouping)
    ensures Coherent(g, globalUid)
    ensures g.classes.Keys == ClassUids(items)
    decreases |items|
  {
    if |items| == 0 then Empty
    else
      var prev := Collect(items[..|items| - 1], globalUid);
      var last := items[|items| - 1];
      ClassUidsSnoc(items);
      StepCoherent(prev, last, globalUid);
      Step(prev, last, globalUid)
  }

  /** The position of the last class item with uid `k`, or -1 when there is none. */
  function LastClassAt(items: seq<Item>, k: string): (r: int)
    ensures -1 <= r < |items|
    ensures r >= 0 ==> items[r].kind == Class && items[r].uid == k
    decreases |items|
  {
    if |items| == 0 then -1
    else if items[|items| - 1].kind == Class && items[|items| - 1].uid == k then |items| - 1
    else LastClassAt(items[..|items| - 1], k)
  }

  /** No class item after that position has uid `k`. */
  lemma {:induction false} LastClassAtIsLast(items: seq<Item>, k: string)
    ensures forall j :: LastClassAt(items, k) < j < |items| ==> !(items[j].kind == Class && items[j].uid == k)
    decreases |items|
  {
    if |items| > 0 {
      var front := items[..|items| - 1];
      LastClassAtIsLast(front, k);
      assert forall j :: 0 <= j < |front| ==> front[j] == items[j];
    }
  }

  /** There is a last class item with uid `k` exactly when some class item has it. */
  lemma {:induction false} LastClassAtFound(items: seq<Item>, k: string)
    ensures LastClassAt(items, k) >= 0 <==> k in ClassUids(items)
    decreases |items|
  {
    if |items| > 0 {
      ClassUidsSnoc(items);
      LastClassAtFound(items[..|items| - 1], k);
    }
  }

  /** The non-class items of `s` that name `k` as their group, in order. */
  function OwnedIn(s: seq<Item>, k: string, globalUid: string): (r: seq<Item>)
    ensures |r| <= |s|
    ensures forall i :: 0 <= i < |r| ==> r[i].kind != Class && ParentId(r[i], globalUid) == k
    decreases |s|
  {
    if |s| == 0 then []
    else
      var x := s[|s| - 1];
      OwnedIn(s[..|s| - 1], k, globalUid) + (if x.kind != Class && ParentId(x, globalUid) == k then [x] else [])
  }

  /** The members group `k` gathers: the items naming `k` as their group that come after
      the last class item with uid `k`. Members registered before it, or before an
      earlier class item it replaced, are not among them. */
  function Owned(items: seq<Item>, k: string, globalUid: string): seq<Item> {
    OwnedIn(items[LastClassAt(items, k) + 1..], k, globalUid)
  }

  /** The head a group ends with: the last class item with uid `k`; the global container's
      `children` have also gained the uids of its members. */
  function Head(items: seq<Item>, k: string, globalUid: string): Item
    requires LastClassAt(items, k) >= 0
  {
    var c := items[LastClassAt(items, k)];
    if k == globalUid then c.(children := c.children + Uids(Owned(items, k, globalUid))) else c
  }

  /** Group `k` exists exactly when some class item has uid `k`, and then it is that
      item (the last one) followed by exactly the members registered after it. */
  lemma CollectGroup(items: seq<Item>, globalUid: string, k: string)
    ensures k in Collect(items, globalUid).classes <==> k in ClassUids(items)
    ensures k in Collect(items, globalUid).classes ==>
              && LastClassAt(items, k) >= 0
              && Collect(items, globalUid).classes[k].items == [Head(items, k, globalUid)] + Owned(items, k, globalUid)
  {
    var g := Collect(items, globalUid);
    if k in g.classes {
      CollectMembers(items, globalUid, k);
      CollectHead(items, globalUid, k);
      HeadThenRest(g.classes[k].items);
    }
  }

  lemma HeadThenRest<T>(s: seq<T>)
    requires |s| > 0
    ensures s == [s[0]] + s[1..]
  {
  }

  lemma OwnedInSnoc(t: seq<Item>, x: Item, k: string, globalUid: string)
    ensures OwnedIn(t + [x], k, globalUid)
            == OwnedIn(t, k, globalUid) + (if x.kind != Class && ParentId(x, globalUid) == k then [x] else [])
  {
    assert (t + [x])[..|t|] == t;
  }

  /** A group opened by a class and closed by a member it owns: the member is the
      group's last. */
  lemma CollectLastMember(cls: Item, mid: seq<Item>, member: Item, globalUid: string)
    requires cls.kind == Class && member.kind != Class && ParentId(member, globalUid) == cls.uid
    ensures cls.uid in Collect([cls] + mid + [member], globalUid).classes
    ensures var group := Collect([cls] + mid + [member], globalUid).classes[cls.uid].items;
            |group| > 1 && group[|group| - 1] == member
  {
    var items := [cls] + mid + [member];
    assert items[0] == cls;
    assert cls.uid in ClassUids(items);
    assert items[|items| - 1] == member;
    OwnedSnoc(items, cls.uid, globalUid);
    CollectGroup(items, globalUid, cls.uid);
  }

  /** Appending one item to the stretch after the last class item with uid `k`. */
  lemma OwnedSnoc(items: seq<Item>, k: string, globalUid: string)
    requires |items| > 0
    requires !(items[|items| - 1].kind == Class && items[|items| - 1].uid == k)
    ensures var last := items[|items| - 1];
            Owned(items, k, globalUid) == Owned(items[..|items| - 1], k, globalUid)
              + (if last.kind != Class && ParentId(last, globalUid) == k then [last] else [])
  {
    var front := items[..|items| - 1];
    var l := LastClassAt(items, k);
    LastClassAtSnoc(items, k);
    SliceSnoc(items, l + 1);
    OwnedInSnoc(front[l + 1..], items[|items| - 1], k, globalUid);
  }

  lemma LastClassAtSnoc(items: seq<Item>, k: string)
    requires |items| > 0
    requires !(items[|items| - 1].kind == Class && items[|items| - 1].uid == k)
    ensures LastClassAt(items, k) == LastClassAt(items[..|items| - 1], k)
  {
  }

  lemma SliceSnoc<T>(s: seq<T>, i: nat)
    requires i < |s|
    ensures s[i..] == s[..|s| - 1][i..] + [s[|s| - 1]]
  {
  }

  lemma CollectSnoc(items: seq<Item>, globalUid: string)
    requires |items| > 0
    ensures Coherent(Collect(items[..|items| - 1], globalUid), globalUid)
    ensures Collect(items, globalUid) == Step(Collect(items[..|items| - 1], globalUid), items[|items| - 1], globalUid)
  {
  }

  /** Apart from a class item that replaces it, one step leaves group `k` alone or
      appends one member to it. */
  lemma StepGroupMembers(g: Grouping, item: Item, globalUid: string, k: string)
    requires HeadsOk(g) && !(item.kind == Class && item.uid == k)
    requires k in Step(g, item, globalUid).classes
    ensures k in g.classes
    ensures Step(g, item, globalUid).classes[k].items[1..]
            == g.classes[k].items[1..] + (if item.kind != Class && ParentId(item, globalUid) == k then [item] else [])
  {
    if item.kind == Class {
      assert Step(g, item, globalUid) == ClassStep(g, item);
    } else if ParentId(item, globalUid) == k {
      MemberStepGroup(g, item, globalUid);
    } else {
      MemberStepOthers(g, item, globalUid, k);
    }
  }

  lemma StepGroupHead(g: Grouping, item: Item, globalUid: string, k: string)
    requires HeadsOk(g) && !(item.kind == Class && item.uid == k)
    requires k in Step(g, item, globalUid).classes
    ensures k in g.classes
    ensures var h := g.classes[k].items[0];
            Step(g, item, globalUid).classes[k].items[0]
            == if item.kind != Class && ParentId(item, globalUid) == k && k == globalUid
               then h.(children := h.children + [item.uid]) else h
  {
    if item.kind == Class {
      assert Step(g, item, globalUid) == ClassStep(g, item);
    } else if ParentId(item, globalUid) == k {
      MemberStepGroup(g, item, globalUid);
    } else {
      MemberStepOthers(g, item, globalUid, k);
    }
  }

  lemma {:induction false} CollectMembers(items: seq<Item>, globalUid: string, k: string)
    requires k in Collect(items, globalUid).classes
    ensures Collect(items, globalUid).classes[k].items[1..] == Owned(items, k, globalUid)
    decreases |items|
  {
    var front := items[..|items| - 1];
    CollectSnoc(items, globalUid);
    var prev := Collect(front, globalUid);
    if items[|items| - 1].kind == Class && items[|items| - 1].uid == k {
      FreshGroup(items, globalUid, k, prev);
    } else {
      StepGroupMembers(prev, items[|items| - 1], globalUid, k);
      CollectMembers(front, globalUid, k);
      MembersStep(items, globalUid, k, prev);
    }
  }

  /** A class item with uid `k` at the end starts group `k` afresh. */
  lemma FreshGroup(items: seq<Item>, globalUid: string, k: string, prev: Grouping)
    requires |items| > 0 && HeadsOk(prev)
    requires items[|items| - 1].kind == Class && items[|items| - 1].uid == k
    ensures LastClassAt(items, k) >= 0
    ensures k in Step(prev, items[|items| - 1], globalUid).classes
    ensures Step(prev, items[|items| - 1], globalUid).classes[k].items[1..] == Owned(items, k, globalUid)
    ensures Step(prev, items[|items| - 1], globalUid).classes[k].items[0] == Head(items, k, globalUid)
  {
    var last := items[|items| - 1];
    assert items[LastClassAt(items, k) + 1..] == [];
    assert Uids([]) == [];
    assert last.children + [] == last.children;
  }

  lemma MembersStep(items: seq<Item>, globalUid: string, k: string, prev: Grouping)
    requires |items| > 0 && HeadsOk(prev)
    requires !(items[|items| - 1].kind == Class && items[|items| - 1].uid == k)
    requires k in prev.classes && prev.classes[k].items[1..] == Owned(items[..|items| - 1], k, globalUid)
    requires k in Step(prev, items[|items| - 1], globalUid).classes
    requires var last := items[|items| - 1];
             Step(prev, last, globalUid).classes[k].items[1..]
             == prev.classes[k].items[1..] + (if last.kind != Class && ParentId(last, globalUid) == k then [last] else [])
    ensures Step(prev, items[|items| - 1], globalUid).classes[k].items[1..] == Owned(items, k, globalUid)
  {
    OwnedSnoc(items, k, globalUid);
  }

  lemma {:induction false} CollectHead(items: seq<Item>, globalUid: string, k: string)
    requires k in Collect(items, globalUid).classes
    ensures LastClassAt(items, k) >= 0
    ensures Collect(items, globalUid).classes[k].items[0] == Head(items, k, globalUid)
    decreases |items|
  {
    var front := items[..|items| - 1];
    CollectSnoc(items, globalUid);
    var prev := Collect(front, globalUid);
    if items[|items| - 1].kind == Class && items[|items| - 1].uid == k {
      FreshGroup(items, globalUid, k, prev);
    } else {
      StepGroupHead(prev, items[|items| - 1], globalUid, k);
      CollectHead(front, globalUid, k);
      HeadStep(items, globalUid, k, prev);
    }
  }

  lemma HeadStep(items: seq<Item>, globalUid: string, k: string, prev: Grouping)
    requires |items| > 0 && HeadsOk(prev)
    requires !(items[|items| - 1].kind == Class && items[|items| - 1].uid == k)
    requires LastClassAt(items[..|items| - 1], k) >= 0
    requires k in prev.classes && prev.classes[k].items[0] == Head(items[..|items| - 1], k, globalUid)
    requires k in Step(prev, items[|items| - 1], globalUid).classes
    requires var last := items[|items| - 1];
             var h := prev.classes[k].items[0];
             Step(prev, last, globalUid).classes[k].items[0]
             == if last.kind != Class && ParentId(last, globalUid) == k && k == globalUid
                then h.(children := h.children + [last.uid]) else h
    ensures LastClassAt(items, k) >= 0
    ensures Step(prev, items[|items| - 1], globalUid).classes[k].items[0] == Head(items, k, globalUid)
  {
    var last := items[|items| - 1];
    if last.kind != Class && ParentId(last, globalUid) == k {
      HeadSnoc(items, globalUid, k);
    } else {
      HeadKeeps(items, globalUid, k);
    }
  }

  /** A step that adds no member to group `k` leaves its head as it was. */
  lemma HeadKeeps(items: seq<Item>, globalUid: string, k: string)
    requires |items| > 0
    requires var last := items[|items| - 1];
             !(last.kind == Class && last.uid == k) && !(last.kind != Class && ParentId(last, globalUid) == k)
    requires LastClassAt(items[..|items| - 1], k) >= 0
    ensures LastClassAt(items, k) >= 0
    ensures Head(items, k, globalUid) == Head(items[..|items| - 1], k, globalUid)
  {
    var front := items[..|items| - 1];
    LastClassAtSnoc(items, k);
    OwnedSnoc(items, k, globalUid);
    assert Owned(items, k, globalUid) == Owned(front, k, globalUid);
    assert items[LastClassAt(items, k)] == front[LastClassAt(front, k)];
  }

  /** A head's record, apart from `children`, does not depend on later members, and its
      `children` grow by the appended member's uid. */
  lemma HeadSnoc(items: seq<Item>, globalUid: string, k: string)
    requires |items| > 0
    requires var last := items[|items| - 1];
             last.kind != Class && ParentId(last, globalUid) == k
    requires LastClassAt(items[..|items| - 1], k) >= 0
    ensures LastClassAt(items, k) >= 0
    ensures var front := items[..|items| - 1];
            var h := Head(front, k, globalUid);
            Head(items, k, globalUid) == if k == globalUid then h.(children := h.children + [items[|items| - 1].uid]) else h
  {
    var front := items[..|items| - 1];
    var last := items[|items| - 1];
    OwnedSnoc(items, k, globalUid);
    UidsSnoc(Owned(front, k, globalUid), last);
    assert items[LastClassAt(items, k)] == front[LastClassAt(front, k)];
  }

  /** A non-class item whose owner is not the uid of any class item is in no group:
      its owner's group never exists. */
  lemma OrphanExcluded(items: seq<Item>, globalUid: string, x: Item)
    requires x.kind != Class && ParentId(x, globalUid) !in ClassUids(items)
    ensures forall k :: k in Collect(items, globalUid).classes ==> x !in Collect(items, globalUid).classes[k].items
  {
    var g := Collect(items, globalUid);
    forall k, i | k in g.classes && 0 <= i < |g.classes[k].items|
      ensures g.classes[k].items[i] != x
    {
      if i > 0 {
        assert ParentId(g.classes[k].items[i], globalUid) == k;
      }
    }
  }

  // ---------------------------------------------------------------------------
  // References and the finished groups
  // ---------------------------------------------------------------------------

  datatype Reference = Reference(uid: string, name: string, fullName: string, isExternal: bool)

  /** The reference name: the text after the FIRST `.`, or the whole uid. */
  function LocalName(r: string): (n: string)
    ensures '.' !in r ==> n == r
    ensures '.' in r ==> && |n| < |r|
                         && r[|r| - |n|..] == n
                         && r[|r| - |n| - 1] == '.'
                         && '.' !in r[..|r| - |n| - 1]
  {
    var k := IndexOf(r, '.');
    if k == -1 then r else r[k + 1..]
  }

  /** The references of group `id`: the keys of its `referenceMap` that `fileMap`
      places in another group's document, in key order. */
  function References(id: string, refs: seq<string>, fileMap: map<string, string>): (out: seq<Reference>)
    ensures forall x :: x in out ==> && x.uid in fileMap && fileMap[x.uid] != id
                                     && !x.isExternal && x.fullName == x.uid && x.name == LocalName(x.uid)
    ensures forall t :: t in RefUids(out) <==> t in refs && t in fileMap && fileMap[t] != id
  {
    if |refs| == 0 then []
    else
      var t := refs[0];
      var rest := References(id, refs[1..], fileMap);
      var f := if t in fileMap then Some(fileMap[t]) else None;
      if f.Some? && f.value != id then
        var x := Reference(t, LocalName(t), t, f.None?);
        InCons(refs);
        RefUidsCons(x, rest);
        [x] + rest
      else
        InCons(refs);
        rest
  }

  lemma InCons(s: seq<string>)
    requires |s| > 0
    ensures forall t :: t in s <==> t == s[0] || t in s[1..]
  {
    assert s == [s[0]] + s[1..];
  }

  lemma RefUidsCons(x: Reference, rest: seq<Reference>)
    ensures forall t :: t in RefUids([x] + rest) <==> t == x.uid || t in RefUids(rest)
  {
    assert RefUids([x] + rest) == [x.uid] + RefUids(rest);
  }

  /** `Uids` for references: the three element types share no supertype, and a projection
      taking the field as a function value would put a lambda into every trigger. */
  function RefUids(out: seq<Reference>): (r: seq<string>)
    ensures |r| == |out|
    ensures forall i :: 0 <= i < |out| ==> r[i] == out[i].uid
  {
    seq(|out|, i requires 0 <= i < |out| => out[i].uid)
  }

  /** A group as written to its document; an empty reference list is absent. */
  datatype Group = Group(id: string, items: seq<Item>, references: Option<seq<Reference>>)

  function FinishGroup(id: string, acc: Acc, fileMap: map<string, string>): (grp: Group)
    ensures grp.id == id && grp.items == acc.items
    ensures grp.references.Some? ==> |grp.references.value| > 0
    ensures grp.references.None? ==> forall t :: t in acc.refs && t in fileMap ==> fileMap[t] == id
    ensures grp.references.Some? ==> grp.references.value == References(id, acc.refs, fileMap)
  {
    var refs := References(id, acc.refs, fileMap);
    if |refs| == 0 then
      assert RefUids(refs) == [];
      Group(id, acc.items, None)
    else Group(id, acc.items, Some(refs))
  }

  /** A group is written unless it is the global container with no children. */
  predicate Retained(id: string, items: seq<Item>, globalUid: string)
    requires |items| > 0
  {
    !(id == globalUid && |items[0].children| == 0)
  }

  /** The global group is written whenever some free function or member was grouped under it. */
  lemma GlobalRetainedWithMembers(items: seq<Item>, globalUid: string)
    requires globalUid in Collect(items, globalUid).classes
    requires |Collect(items, globalUid).classes[globalUid].items| > 1
    ensures var g := Collect(items, globalUid);
            Retained(globalUid, g.classes[globalUid].items, globalUid)
  {
  }

  /** No group refers to its own document; with a class uid that `fileMap` still maps
      to its own group, no reference names the group's own uid. */
  lemma NoSelfReference(g: Grouping, globalUid: string, id: string)
    requires Coherent(g, globalUid) && id in g.classes
    requires id in g.fileMap && g.fileMap[id] == id
    ensures var grp := FinishGroup(id, g.classes[id], g.fileMap);
            grp.references.Some? ==> forall x :: x in grp.references.value ==> x.uid != id && g.fileMap[x.uid] != id
  {
  }
}
