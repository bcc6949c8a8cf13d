/** The item table (`items` and `itemsMap`) and registration (`addItem`).

    In the generator an item is a JavaScript object held by reference in both the
    registration sequence and the uid map, and a later doclet appends to its parent's
    `children` through the map, which the sequence sees too. The state therefore keeps
    the objects in `heap` and lets `items` and `itemsMap` hold addresses into it. */
module Registry {
  import opened Optional
  import opened Doclets

  datatype State = State(
    heap: seq<Item>,
    items: seq<nat>,
    itemsMap: map<string, nat>,
    uidPrefix: string,
    globalUid: string)

  /** Every address is allocated, and the map sends each uid to an object with that
      uid which is still in the registration sequence. */
  predicate Valid(st: State) {
    && (forall i :: 0 <= i < |st.items| ==> st.items[i] < |st.heap|)
    && (forall k :: k in st.itemsMap ==>
          && st.itemsMap[k] < |st.heap|
          && st.heap[st.itemsMap[k]].uid == k
          && st.itemsMap[k] in st.items)
  }

  /** The registration sequence as values (`items`). */
  function Snapshot(st: State): (s: seq<Item>)
    requires Valid(st)
    ensures |s| == |st.items|
    ensures forall i :: 0 <= i < |s| ==> s[i] == st.heap[st.items[i]]
  {
    seq(|st.items|, i requires 0 <= i < |st.items| && st.items[i] < |st.heap| => st.heap[st.items[i]])
  }

  /** The uid map as values (`itemsMap`). */
  function View(st: State): (m: map<string, Item>)
    requires Valid(st)
    ensures m.Keys == st.itemsMap.Keys
    ensures forall k :: k in m ==> m[k] == st.heap[st.itemsMap[k]] && m[k].uid == k
  {
    map k | k in st.itemsMap :: st.heap[st.itemsMap[k]]
  }

  /** The existing record for the uid is kept: it has a non-empty summary, or the new
      item's summary is exactly the empty string. */
  predicate KeepsExisting(st: State, item: Item)
    requires Valid(st)
  {
    item.uid in st.itemsMap
    && (Truthy(View(st)[item.uid].summary) || item.summary == Some(""))
  }

  /** The uid is registered and the last entry of the sequence carries it. */
  predicate ReplacesLast(st: State, item: Item)
    requires Valid(st)
  {
    item.uid in st.itemsMap
    && (assert st.itemsMap[item.uid] in st.items; st.heap[st.items[|st.items| - 1]].uid == item.uid)
  }

  lemma InButLast(s: seq<nat>, x: nat)
    requires x in s && x != s[|s| - 1]
    ensures x in s[..|s| - 1]
  {
    var i :| 0 <= i < |s| && s[i] == x;
    assert s[..|s| - 1][i] == x;
  }

  /** The registration sequence after a new object at address `a` is placed: over the
      last entry when that entry carries the same uid, at the front for a class,
      at the back otherwise. */
  function Placed(st: State, item: Item, a: nat): seq<nat>
    requires Valid(st)
  {
    if ReplacesLast(st, item) then st.items[..|st.items| - 1] + [a]
    else if item.kind == Class then [a] + st.items
    else st.items + [a]
  }

  /** The state after `item` is stored, whether or not the existing record is kept. */
  function Store(st: State, item: Item): State
    requires Valid(st)
  {
    var a := |st.heap|;
    st.(heap := st.heap + [item], items := Placed(st, item, a), itemsMap := st.itemsMap[item.uid := a])
  }

  lemma StoreValid(st: State, item: Item)
    requires Valid(st)
    ensures Valid(Store(st, item))
  {
    var r := Store(st, item);
    forall k | k in st.itemsMap && k != item.uid
      ensures st.itemsMap[k] in r.items
    {
      if ReplacesLast(st, item) {
        InButLast(st.items, st.itemsMap[k]);
        assert st.items[..|st.items| - 1] <= r.items;
      }
    }
  }

  lemma StoreView(st: State, item: Item)
    requires Valid(st)
    ensures Valid(Store(st, item))
    ensures View(Store(st, item)) == View(st)[item.uid := item]
  {
    StoreValid(st, item);
  }

  lemma StoreSnapshot(st: State, item: Item)
    requires Valid(st)
    ensures Valid(Store(st, item))
    ensures ReplacesLast(st, item) ==> Snapshot(Store(st, item)) == Snapshot(st)[..|st.items| - 1] + [item]
    ensures !ReplacesLast(st, item) && item.kind == Class ==> Snapshot(Store(st, item)) == [item] + Snapshot(st)
    ensures !ReplacesLast(st, item) && item.kind != Class ==> Snapshot(Store(st, item)) == Snapshot(st) + [item]
  {
    StoreValid(st, item);
    if ReplacesLast(st, item) {
      StoreSnapshotLast(st, item);
    } else if item.kind == Class {
      StoreSnapshotFront(st, item);
    } else {
      StoreSnapshotBack(st, item);
    }
  }

  lemma StoreSnapshotLast(st: State, item: Item)
    requires Valid(st) && Valid(Store(st, item)) && ReplacesLast(st, item)
    ensures Snapshot(Store(st, item)) == Snapshot(st)[..|st.items| - 1] + [item]
  {
    var r := Store(st, item);
    var n := |st.items|;
    assert r.items == st.items[..n - 1] + [|st.heap|];
    forall i | 0 <= i < n
      ensures Snapshot(r)[i] == (Snapshot(st)[..n - 1] + [item])[i]
    {
      if i < n - 1 { assert r.items[i] == st.items[i]; }
    }
  }

  lemma StoreSnapshotFront(st: State, item: Item)
    requires Valid(st) && Valid(Store(st, item)) && !ReplacesLast(st, item) && item.kind == Class
    ensures Snapshot(Store(st, item)) == [item] + Snapshot(st)
  {
    var r := Store(st, item);
    assert r.items == [|st.heap|] + st.items;
    forall i | 0 <= i < |r.items|
      ensures Snapshot(r)[i] == ([item] + Snapshot(st))[i]
    {
      if 0 < i { assert r.items[i] == st.items[i - 1]; }
    }
  }

  lemma StoreSnapshotBack(st: State, item: Item)
    requires Valid(st) && Valid(Store(st, item)) && !ReplacesLast(st, item) && item.kind != Class
    ensures Snapshot(Store(st, item)) == Snapshot(st) + [item]
  {
    var r := Store(st, item);
    assert r.items == st.items + [|st.heap|];
    forall i | 0 <= i < |r.items|
      ensures Snapshot(r)[i] == (Snapshot(st) + [item])[i]
    {
      if i < |st.items| { assert r.items[i] == st.items[i]; }
    }
  }

  /** `addItem`. */
  function Register(st: State, item: Item): (r: State)
    requires Valid(st)
    ensures Valid(r)
    ensures r.uidPrefix == st.uidPrefix && r.globalUid == st.globalUid
    ensures KeepsExisting(st, item) ==> r == st
    ensures r.itemsMap.Keys == st.itemsMap.Keys + {item.uid}
    ensures !KeepsExisting(st, item) ==> View(r) == View(st)[item.uid := item]
    ensures st.heap <= r.heap
  {
    if KeepsExisting(st, item) then st
    else
      StoreView(st, item);
      Store(st, item)
  }

  /** Registering one uid does not change whether the record of another is kept. */
  lemma KeepsExistingOther(st: State, x: Item, y: Item)
    requires Valid(st) && x.uid != y.uid
    ensures KeepsExisting(Register(st, x), y) == KeepsExisting(st, y)
  {
  }

  /** Whether a record is kept depends only on the registered uids and their summaries. */
  lemma KeepsExistingSummaries(a: State, b: State, item: Item)
    requires Valid(a) && Valid(b) && a.itemsMap.Keys == b.itemsMap.Keys
    requires forall k :: k in a.itemsMap ==> View(a)[k].summary == View(b)[k].summary
    ensures KeepsExisting(a, item) == KeepsExisting(b, item)
  {
  }

  /** Where `addItem` puts a stored item in the registration sequence: over the last
      entry when that entry carries the uid, at the front for a class, at the back
      otherwise; nothing else in the sequence changes. */
  lemma RegisterPlaces(st: State, item: Item)
    requires Valid(st) && !KeepsExisting(st, item)
    ensures ReplacesLast(st, item) ==>
              Snapshot(Register(st, item)) == Snapshot(st)[..|st.items| - 1] + [item]
    ensures !ReplacesLast(st, item) && item.kind == Class ==>
              Snapshot(Register(st, item)) == [item] + Snapshot(st)
    ensures !ReplacesLast(st, item) && item.kind != Class ==>
              Snapshot(Register(st, item)) == Snapshot(st) + [item]
  {
    StoreSnapshot(st, item);
  }

  /** Two fresh records, a non-class one and then a class: the class lands in front,
      the other at the back. */
  lemma RegisterFreshPair(st: State, other: Item, cls: Item)
    requires Valid(st) && other.kind != Class && cls.kind == Class
    requires other.uid !in st.itemsMap && cls.uid !in st.itemsMap && other.uid != cls.uid
    ensures Snapshot(Register(Register(st, other), cls)) == [cls] + Snapshot(st) + [other]
  {
    var st2 := Register(st, other);
    RegisterPlaces(st, other);
    assert cls.uid !in st2.itemsMap;
    RegisterPlaces(st2, cls);
  }

  /** `(parent.children = parent.children || []).push(child)` on the object the map
      holds for `parentUid`. */
  function AddChild(st: State, parentUid: string, child: string): (r: State)
    requires Valid(st) && parentUid in st.itemsMap
    ensures Valid(r)
    ensures r.items == st.items && r.itemsMap == st.itemsMap
    ensures r.uidPrefix == st.uidPrefix && r.globalUid == st.globalUid
    ensures View(r) == View(st)[parentUid := View(st)[parentUid].(children := View(st)[parentUid].children + [child])]
    ensures forall i :: 0 <= i < |st.items| ==>
              Snapshot(r)[i] == if st.items[i] == st.itemsMap[parentUid]
                                then View(r)[parentUid] else Snapshot(st)[i]
  {
    var a := st.itemsMap[parentUid];
    var p := st.heap[a];
    var r := st.(heap := st.heap[a := p.(children := p.children + [child])]);
    assert Valid(r);
    assert View(r) == View(st)[parentUid := p.(children := p.children + [child])];
    r
  }

  /** Registering an item under another uid keeps `x` the only value with the unregistered
      uid `u`: a replaced last entry carries the new item's uid, not `u`. */
  lemma RegisterKeepsSole(st: State, item: Item, u: string, x: Item)
    requires Valid(st) && u !in st.itemsMap && item.uid != u && x.uid == u
    requires SoleWithUid(Snapshot(st), u, x)
    ensures u !in Register(st, item).itemsMap
    ensures SoleWithUid(Snapshot(Register(st, item)), u, x)
  {
    if !KeepsExisting(st, item) {
      RegisterPlaces(st, item);
      var s := Snapshot(st);
      if ReplacesLast(st, item) {
        assert s[|s| - 1].uid == item.uid;
        SoleOverLast(s, item, u, x);
      } else {
        SoleAtEnds(s, item, u, x);
      }
    }
  }

  /** Pushing a child onto a registered owner keeps `x` the only value with the
      unregistered uid `u`: only objects carrying the owner's uid change. */
  lemma AddChildKeepsSole(st: State, parentUid: string, child: string, u: string, x: Item)
    requires Valid(st) && parentUid in st.itemsMap && u !in st.itemsMap && x.uid == u
    requires SoleWithUid(Snapshot(st), u, x)
    ensures SoleWithUid(Snapshot(AddChild(st, parentUid, child)), u, x)
  {
    var s := Snapshot(st);
    var t := Snapshot(AddChild(st, parentUid, child));
    var j :| 0 <= j < |s| && s[j] == x;
    assert st.heap[st.itemsMap[parentUid]].uid == parentUid;
    assert t[j] == x;
  }
}
