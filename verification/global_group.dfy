/** The `parseBegin` container across a whole run: the global group it heads is written
    exactly when some function or member ends up under it. */
module GlobalGroup {
  import opened Doclets
  import opened Registry
  import opened Grouping
  import opened Ingest
  import opened Toc

  /** With the container intact, the global group is written exactly when some function
      or member is grouped under it, and otherwise no document belongs to it. */
  lemma IntactGlobalIff(st: State)
    requires Valid(st) && GlobalIntact(st)
    ensures var g := Collect(Snapshot(st), st.globalUid);
            && st.globalUid in g.classes
            && (Written(g, st.globalUid, st.globalUid) <==> Owned(Snapshot(st), st.globalUid, st.globalUid) != [])
    ensures Owned(Snapshot(st), st.globalUid, st.globalUid) == [] ==>
              forall f :: f in Complete(st).files ==> f.group.id != st.globalUid
  {
    GlobalWrittenIff(Snapshot(st), st.globalUid);
  }

  /** Over a run in which no doclet claims the global uid, the global group is written
      exactly when some function or member is grouped under the global container. */
  lemma IngestedGlobalIff(cfg: Config, packageName: string, ds: seq<Doclet>)
    requires Ingestible(cfg, Begin(packageName), ds)
    requires forall i :: 0 <= i < |ds| ==> !ClaimsGlobalUid(ds[i])
    ensures var st := Ingested(cfg, packageName, ds);
            var g := Collect(Snapshot(st), st.globalUid);
            && st.globalUid in g.classes
            && (Written(g, st.globalUid, st.globalUid) <==> Owned(Snapshot(st), st.globalUid, st.globalUid) != [])
  {
    BeginRunIntact(cfg, packageName, ds);
    IntactGlobalIff(Ingested(cfg, packageName, ds));
  }

  /** Over a run in which no doclet claims the global uid and no function or member is
      grouped under the global container, `serializeToc` writes no document for the global
      group. */
  lemma IngestedSkipsGlobal(cfg: Config, packageName: string, ds: seq<Doclet>)
    requires Ingestible(cfg, Begin(packageName), ds)
    requires forall i :: 0 <= i < |ds| ==> !ClaimsGlobalUid(ds[i])
    ensures var st := Ingested(cfg, packageName, ds);
            Owned(Snapshot(st), st.globalUid, st.globalUid) == [] ==>
              forall f :: f in Complete(st).files ==> f.group.id != st.globalUid
  {
    BeginRunIntact(cfg, packageName, ds);
    IntactGlobalIff(Ingested(cfg, packageName, ds));
  }
}
