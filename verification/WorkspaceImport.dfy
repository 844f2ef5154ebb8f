/** Importing a JSON list of workspaces into the store, and what that makes of a list the store itself has emitted. */
module WorkspaceImport {

  import opened Timestamps
  import opened Workspace
  import opened WorkspaceStore
  import WorkspaceStoreRuns

  /** What an import draws for each item: a generated id and seed, and the time. */
  datatype Draw = Draw(id: string, seed: int32, now: Time)

  predicate Importable(item: Value): (importable: bool)
    ensures importable ==> item.Dict?
  {
    item.Dict? && Or(FindString(item.dict, KeyName), "") != ""
  }

  /** The workspace created for an item: the decoded one under a generated id. */
  function Copy(ws: Workspace, drawn: Draw): Workspace {
    Created(ws.(identity := ws.identity.(id := drawn.id)), drawn.id, drawn.seed, drawn.now)
  }

  /** One Added event for each item that is a dictionary with a name, in order. */
  function ImportEvents(items: seq<Value>, drawn: seq<Draw>): (events: seq<Event>)
    requires |drawn| == |items|
    ensures |events| <= |items|
  {
    if items == [] then []
    else
      var n := |items| - 1;
      ImportEvents(items[..n], drawn[..n])
      + if Importable(items[n]) then [Added(Copy(Decoded(items[n].dict), drawn[n]))] else []
  }

  lemma ReplayAdded(m: Workspaces, events: seq<Event>, ws: Workspace)
    ensures WorkspaceStoreRuns.Replay(m, events + [Added(ws)])
            == WorkspaceStoreRuns.Replay(m, events)[ws.identity.id := ws]
  {
    WorkspaceStoreRuns.ReplayStep(m, events, Added(ws));
    WorkspaceStoreRuns.ReplayOne(WorkspaceStoreRuns.Replay(m, events), Added(ws));
  }

  lemma CreationEffect(s: State, ws: Workspace, drawn: Draw, s': State)
    requires Next(s, Create(ws, drawn.id, drawn.seed, drawn.now), s')
    ensures var c := Created(ws, drawn.id, drawn.seed, drawn.now);
            && s'.workspaces == s.workspaces[c.identity.id := c] && s'.events == s.events + [Added(c)]
            && |s'.tasks| == |s.tasks| + 1 && s'.initialized == s.initialized
  {
    hide Created, IsSaveOf;
  }

  lemma NoEvents(m: Workspaces)
    ensures ImportEvents([], []) == [] && WorkspaceStoreRuns.Replay(m, []) == m
  {
  }

  lemma NextEvents(items: seq<Value>, drawn: seq<Draw>, i: nat)
    requires i < |items| == |drawn|
    ensures ImportEvents(items[..i + 1], drawn[..i + 1])
            == if Importable(items[i]) then
                 ImportEvents(items[..i], drawn[..i]) + [Added(Copy(Decoded(items[i].dict), drawn[i]))]
               else ImportEvents(items[..i], drawn[..i])
  {
    hide Decoded, Copy, Importable;
    assert items[..i + 1][..i] == items[..i] && drawn[..i + 1][..i] == drawn[..i];
  }

  /** One turn of the import loop; the generated id replaces the item's own. */
  method ImportItem(store: WorkspaceStore, item: Value, drawn: Draw) returns (created: bool)
    modifies store
    ensures created <==> Importable(item)
    ensures store.events == old(store.events) + if created then [Added(Copy(Decoded(item.dict), drawn))] else []
    ensures created ==> var ws := Copy(Decoded(item.dict), drawn);
                        store.workspaces == old(store.workspaces)[ws.identity.id := ws]
    ensures !created ==> store.workspaces == old(store.workspaces)
    ensures |store.tasks| == |old(store.tasks)| + if created then 1 else 0
    ensures store.initialized == old(store.initialized)
  {
    hide Decoded, Created, Next;
    if !item.Dict? {
      return false;
    }
    if Or(FindString(item.dict, KeyName), "") == "" {
      return false;
    }
    var ws := FromDict(item.dict);
    ws := ws.(identity := ws.identity.(id := drawn.id));
    var stored := store.CreateWorkspace(ws, drawn.id, drawn.seed, drawn.now);
    CreationEffect(old(store.Now()), ws, drawn, store.Now());
    created := true;
  }

  /** The task `HandleImportWorkspaces` posts to the UI thread. */
  method ImportWorkspaces(store: WorkspaceStore, items: seq<Value>, drawn: seq<Draw>)
    returns (imported: nat, skipped: nat)
    requires |drawn| == |items|
    modifies store
    ensures imported + skipped == |items| && imported == |ImportEvents(items, drawn)|
    ensures store.events == old(store.events) + ImportEvents(items, drawn)
    ensures store.workspaces == WorkspaceStoreRuns.Replay(old(store.workspaces), ImportEvents(items, drawn))
    ensures |store.tasks| == |old(store.tasks)| + imported && store.initialized == old(store.initialized)
  {
    hide Decoded, Copy, Importable, ImportEvents, WorkspaceStoreRuns.Replay;
    imported, skipped := 0, 0;
    ghost var m, events := store.workspaces, store.events;
    NoEvents(m);
    assert items[..0] == [] && drawn[..0] == [];
    var i := 0;
    while i < |items|
      invariant 0 <= i <= |items| && imported + skipped == i && imported == |ImportEvents(items[..i], drawn[..i])|
      invariant store.events == events + ImportEvents(items[..i], drawn[..i])
      invariant store.workspaces == WorkspaceStoreRuns.Replay(m, ImportEvents(items[..i], drawn[..i]))
      invariant |store.tasks| == |old(store.tasks)| + imported && store.initialized == old(store.initialized)
    {
      NextEvents(items, drawn, i);
      ghost var before := store.workspaces;
      var created := ImportItem(store, items[i], drawn[i]);
      if created {
        ghost var copy := Copy(Decoded(items[i].dict), drawn[i]);
        assert store.workspaces == before[copy.identity.id := copy];
        ReplayAdded(m, ImportEvents(items[..i], drawn[..i]), copy);
        imported := imported + 1;
      } else {
        skipped := skipped + 1;
      }
      i := i + 1;
    }
    assert items[..i] == items && drawn[..i] == drawn;
  }

  // --- Importing what was listed ---------------------------------------------------------------------------

  /** The list of dictionaries the API emits for some workspaces. */
  ghost function Listing(workspaces: seq<Workspace>): (items: seq<Value>)
    ensures |items| == |workspaces|
  {
    seq(|workspaces|, i requires 0 <= i < |workspaces| => Dict(DictOf(workspaces[i])))
  }

  predicate DistinctDraws(drawn: seq<Draw>) {
    forall i, j :: 0 <= i < j < |drawn| ==> drawn[i].id != drawn[j].id
  }

  /** A listed workspace is imported exactly when it has a name, and then as a copy of what is persisted of it. */
  lemma ListedItem(ws: Workspace, drawn: Draw)
    ensures Importable(Dict(DictOf(ws))) <==> ws.identity.name != ""
    ensures Copy(Decoded(DictOf(ws)), drawn) == Copy(Persisted(ws), drawn)
  {
    DictRoundTrip(ws);
    hide Decoded;
    FieldHolds(DictOf(ws), ws, KeyName);
  }

  /** A copy differs from its original in its id and times, and in its seed if that was zero. */
  lemma CopyKeepsTheRest(ws: Workspace, drawn: Draw)
    ensures var c := Copy(Persisted(ws), drawn);
            && c.identity == ws.identity.(id := drawn.id)
            && c.screen == ws.screen.(fingerprintSeed := c.screen.fingerprintSeed)
            && c.screen.fingerprintSeed
               == (if ws.screen.fingerprintSeed == 0 then drawn.seed else ws.screen.fingerprintSeed)
            && c.hardware == ws.hardware && c.network == ws.network && c.behavior == ws.behavior && c.tags == ws.tags
            && c.metadata == Metadata(drawn.now, drawn.now)
  {
  }

  predicate Unused(drawn: seq<Draw>, id: string) {
    forall i :: 0 <= i < |drawn| ==> drawn[i].id != id
  }

  /** `r` is `m` with a copy of each workspace under its new id. */
  ghost predicate CopiesAdded(m: Workspaces, r: Workspaces, workspaces: seq<Workspace>, drawn: seq<Draw>)
    requires |drawn| == |workspaces|
  {
    && (forall i :: 0 <= i < |drawn| ==> drawn[i].id in r && r[drawn[i].id] == Copy(Persisted(workspaces[i]), drawn[i]))
    && (forall id :: Unused(drawn, id) ==> (id in r <==> id in m) && (id in m ==> r[id] == m[id]))
  }

  lemma OneCopyMore(m: Workspaces, r: Workspaces, workspaces: seq<Workspace>, drawn: seq<Draw>)
    requires |drawn| == |workspaces| > 0 && DistinctDraws(drawn)
    requires CopiesAdded(m, r, workspaces[..|workspaces| - 1], drawn[..|drawn| - 1])
    ensures var n := |workspaces| - 1;
            CopiesAdded(m, r[drawn[n].id := Copy(Persisted(workspaces[n]), drawn[n])], workspaces, drawn)
  {
    hide Copy, Persisted;
    var n := |workspaces| - 1;
    var t := r[drawn[n].id := Copy(Persisted(workspaces[n]), drawn[n])];
    forall i | 0 <= i < |drawn|
      ensures drawn[i].id in t && t[drawn[i].id] == Copy(Persisted(workspaces[i]), drawn[i])
    {
      if i < n {
        assert drawn[..n][i] == drawn[i] && workspaces[..n][i] == workspaces[i];
      }
    }
    forall id | Unused(drawn, id)
      ensures (id in t <==> id in m) && (id in m ==> t[id] == m[id])
    {
      assert Unused(drawn[..n], id) && drawn[n].id != id;
    }
  }

  /** Importing a listing of named workspaces under new ids adds a copy of each of them, and changes nothing else. */
  lemma {:induction false} ListingImportsBack(m: Workspaces, workspaces: seq<Workspace>, drawn: seq<Draw>)
    requires |drawn| == |workspaces| && DistinctDraws(drawn)
    requires forall i :: 0 <= i < |workspaces| ==> workspaces[i].identity.name != ""
    ensures |ImportEvents(Listing(workspaces), drawn)| == |workspaces|
    ensures CopiesAdded(m, WorkspaceStoreRuns.Replay(m, ImportEvents(Listing(workspaces), drawn)), workspaces, drawn)
  {
    hide Decoded, DictOf, Persisted, Copy, Importable;
    if workspaces == [] {
    } else {
      hide CopiesAdded;
      var n := |workspaces| - 1;
      var items := Listing(workspaces);
      assert items[..n] == Listing(workspaces[..n]);
      ListingImportsBack(m, workspaces[..n], drawn[..n]);
      ListedItem(workspaces[n], drawn[n]);
      var before := ImportEvents(items[..n], drawn[..n]);
      var copy := Copy(Persisted(workspaces[n]), drawn[n]);
      assert ImportEvents(items, drawn) == before + [Added(copy)];
      ReplayAdded(m, before, copy);
      assert copy.identity.id == drawn[n].id by { CopyKeepsTheRest(workspaces[n], drawn[n]); }
      OneCopyMore(m, WorkspaceStoreRuns.Replay(m, before), workspaces, drawn);
    }
  }
}
