/** Persist and restart: what a new store would load once the file runner has drained its queue. */
module WorkspaceStoreRestart {

  import opened Collections
  import opened Timestamps
  import opened Workspace
  import opened Wrappers
  import opened WorkspaceStore
  import opened WorkspaceStoreRuns

  /** The file after every queued task has run: the last write wins. */
  function Drained(file: FileContent, tasks: seq<FileTask>): FileContent {
    if tasks == [] then file
    else
      match tasks[|tasks| - 1]
      case WriteFile(dict) => Content(Dict(dict))
      case ReadFile => Drained(file, tasks[..|tasks| - 1])
  }

  /** The map of a store that starts over after this one has shut down. */
  function Restarted(s: State): Workspaces {
    DiskMap(Drained(s.file, s.tasks))
  }

  function PersistedMap(m: Workspaces): Workspaces {
    map id | id in m :: Persisted(m[id])
  }

  /** A restart gives the same workspaces, up to runtime fields and the sub-millisecond part of times. */
  ghost predicate Synced(s: State) {
    Restarted(s) == PersistedMap(s.workspaces)
  }

  // --- A saved map loads back --------------------------------------------------------------------------

  lemma {:induction false} ListLoadsBack(ids: seq<string>, m: Workspaces)
    requires KeyedById(m) && forall i :: 0 <= i < |ids| ==> ids[i] in m
    ensures Load(ListOf(ids, m)) == map id | id in ids :: Persisted(m[id])
  {
    hide Decoded, DictOf;
    if ids != [] {
      var n := |ids| - 1;
      ListLoadsBack(ids[..n], m);
      assert ListOf(ids, m)[..n] == ListOf(ids[..n], m);
      DictRoundTrip(m[ids[n]]);
      assert ids == ids[..n] + [ids[n]];
    }
  }

  lemma SaveLoadsBack(dict: DictValue, m: Workspaces)
    requires KeyedById(m) && IsSaveOf(dict, m)
    ensures DiskMap(Content(Dict(dict))) == PersistedMap(m)
  {
    hide Load, ListOf, Persisted;
    var ids :| Enumerates(ids, m.Keys) && dict == FileDict(ListOf(ids, m));
    ListLoadsBack(ids, m);
    assert FindList(dict, KeyWorkspaces) == Some(ListOf(ids, m));
    assert forall id :: id in ids <==> id in m;
  }

  // --- Draining ------------------------------------------------------------------------------------------

  /** Running the oldest task does not change what the drained file will be, if its write succeeds. */
  lemma {:induction false} DrainedStep(file: FileContent, tasks: seq<FileTask>)
    requires tasks != []
    ensures Drained(file, tasks) ==
              Drained(if tasks[0].WriteFile? then Content(Dict(tasks[0].dict)) else file, tasks[1..])
  {
    if |tasks| > 1 && tasks[|tasks| - 1].ReadFile? {
      var init := tasks[..|tasks| - 1];
      DrainedStep(file, init);
      assert tasks[1..][..|tasks| - 2] == init[1..];
    }
  }

  /** A call that queued a write. */
  predicate QueuedWrite(s: State, s': State) {
    |s'.tasks| > |s.tasks|
  }

  lemma SaveSynchronises(s: State, op: Op, s': State)
    requires KeyedById(s.workspaces) && Next(s, op, s') && QueuedWrite(s, s')
    ensures Synced(s')
  {
    hide Loaded, Persisted, IsSaveOf, Created, Renamed, Replaced, PersistedMap, DiskMap;
    var last := s'.tasks[|s'.tasks| - 1];
    StepSaves(s, op, s');
    SaveLoadsBack(last.dict, s'.workspaces);
  }

  lemma StepSaves(s: State, op: Op, s': State)
    requires KeyedById(s.workspaces) && Next(s, op, s') && QueuedWrite(s, s')
    ensures KeyedById(s'.workspaces)
    ensures var last := s'.tasks[|s'.tasks| - 1]; last.WriteFile? && IsSaveOf(last.dict, s'.workspaces)
  {
    hide IsSaveOf;
    StepReplaysItsEvent(s, op, s');
  }

  /** Every other step but the load keeps a synchronised store synchronised. */
  lemma SyncedStep(s: State, op: Op, s': State)
    requires KeyedById(s.workspaces) && Synced(s) && Next(s, op, s')
    requires op.RunFileTask? ==> op.written
    requires op.DeliverReply? ==> s.replies == []
    ensures Synced(s')
  {
    if QueuedWrite(s, s') {
      SaveSynchronises(s, op, s');
    } else {
      hide Loaded, Persisted, IsSaveOf, PersistedMap, DiskMap, Drained;
      if op.RunFileTask? && s.tasks != [] {
        DrainedStep(s.file, s.tasks);
      }
    }
  }

  // --- Written files are well formed -------------------------------------------------------------------------

  /** A saved file lists no id twice. */
  lemma SavedIsWellFormed(dict: DictValue, m: Workspaces)
    requires KeyedById(m) && IsSaveOf(dict, m)
    ensures WellFormedFile(Content(Dict(dict)))
  {
    hide Decoded, DictOf, Persisted;
    var ids :| Enumerates(ids, m.Keys) && dict == FileDict(ListOf(ids, m));
    var items := ListOf(ids, m);
    assert FindList(dict, KeyWorkspaces) == Some(items);
    forall i | 0 <= i < |items|
      ensures items[i].Dict? && IdAt(items, i) == ids[i]
    {
      DictRoundTrip(m[ids[i]]);
      PersistedKeepsId(m[ids[i]]);
    }
  }

  lemma PersistedKeepsId(ws: Workspace)
    ensures Persisted(ws).identity == ws.identity
  {
  }

  /** The file, and every write queued for it, is well formed. */
  ghost predicate FilesWellFormed(s: State) {
    && WellFormedFile(s.file)
    && forall i :: 0 <= i < |s.tasks| && s.tasks[i].WriteFile? ==> WellFormedFile(Content(Dict(s.tasks[i].dict)))
  }

  lemma FilesWellFormedStep(s: State, op: Op, s': State)
    requires KeyedById(s.workspaces) && FilesWellFormed(s) && Next(s, op, s')
    ensures FilesWellFormed(s')
  {
    hide WellFormedFile, IsSaveOf, Loaded, Created, Renamed, Replaced;
    if QueuedWrite(s, s') {
      StepSaves(s, op, s');
      SavedIsWellFormed(s'.tasks[|s'.tasks| - 1].dict, s'.workspaces);
      assert forall i :: 0 <= i < |s.tasks| ==> s'.tasks[i] == s'.tasks[..|s.tasks|][i] == s.tasks[i];
    }
  }

  // --- Runs ----------------------------------------------------------------------------------------------

  lemma {:induction false} RunInv(states: seq<State>, ops: seq<Op>, file: FileContent, n: nat)
    requires IsRun(states, ops, file) && n <= |ops|
    ensures Inv(states[n], file)
  {
    if n > 0 {
      RunInv(states, ops, file, n - 1);
      InvStep(states[n - 1], ops[n - 1], states[n], file);
    }
  }

  /** A well-formed file stays well formed in every run, also when writes fail; so the guarantees for a run carry over
      to the runs after a restart. */
  lemma {:induction false} FilesStayWellFormed(states: seq<State>, ops: seq<Op>, file: FileContent, n: nat)
    requires IsRun(states, ops, file) && WellFormedFile(file) && n <= |ops|
    ensures FilesWellFormed(states[n]) && WellFormedFile(Drained(states[n].file, states[n].tasks))
  {
    hide Next, Inv, FilesWellFormed, WellFormedFile, Drained;
    if n == 0 {
      assert FilesWellFormed(Start(file)) by { StartWellFormed(file); }
    } else {
      FilesStayWellFormed(states, ops, file, n - 1);
      RunInv(states, ops, file, n - 1);
      InvKeyed(states[n - 1], file);
      FilesWellFormedStep(states[n - 1], ops[n - 1], states[n]);
    }
    DrainedWellFormed(states[n], states[n].tasks);
  }

  lemma StartWellFormed(file: FileContent)
    requires WellFormedFile(file)
    ensures FilesWellFormed(Start(file))
  {
  }

  lemma {:induction false} DrainedWellFormed(s: State, tasks: seq<FileTask>)
    requires FilesWellFormed(s) && tasks <= s.tasks
    ensures WellFormedFile(Drained(s.file, tasks))
  {
    hide WellFormedFile;
    if tasks == [] {
    } else {
      assert tasks[|tasks| - 1] == s.tasks[|tasks| - 1];
      DrainedWellFormed(s, tasks[..|tasks| - 1]);
    }
  }

  lemma InvKeyed(s: State, file: FileContent)
    requires Inv(s, file)
    ensures KeyedById(s.workspaces)
  {
  }

  lemma {:induction false} InitializedStays(states: seq<State>, ops: seq<Op>, file: FileContent, k: nat, n: nat)
    requires IsRun(states, ops, file) && k <= n <= |ops| && states[k].initialized
    ensures states[n].initialized && states[n].replies == []
  {
    RunInv(states, ops, file, n);
    if k < n {
      InitializedStays(states, ops, file, k, n - 1);
      RunInv(states, ops, file, n - 1);
      LoadPhaseStep(states[n - 1], ops[n - 1], states[n], file);
      if !ops[n - 1].DeliverReply? {
        StepReplaysItsEvent(states[n - 1], ops[n - 1], states[n]);
      }
    }
  }

  /** Persist, then restart, is the identity: in every run whose writes succeed, at any time after a save that
      follows the load, draining the file queue and starting over gives the same workspaces. */
  lemma RestartIsIdentity(states: seq<State>, ops: seq<Op>, file: FileContent, k: nat, n: nat)
    requires IsRun(states, ops, file) && k < n <= |ops|
    requires forall i :: 0 <= i < n && ops[i].RunFileTask? ==> ops[i].written
    requires states[k].initialized && QueuedWrite(states[k], states[k + 1])
    ensures Synced(states[n])
  {
    hide Next, QueuedWrite, Synced, Start;
    forall i | k < i < n
      ensures states[i].replies == []
    {
      InitializedStays(states, ops, file, k, i);
    }
    SyncedSinceSave(states, ops, file, k, n);
  }

  lemma KeyedAndSaved(s: State, op: Op, s': State, file: FileContent)
    requires Inv(s, file) && Next(s, op, s') && QueuedWrite(s, s')
    ensures Synced(s')
  {
    SaveSynchronises(s, op, s');
  }

  // --- Restart before a save that follows the load --------------------------------------------------------

  /** Calls that saved before the load have replaced the file by memory alone, and the load itself does not save:
      until the next save a restart loses every workspace that only the original file had.  It loses nothing
      exactly when memory already had all the ids of the file. */
  lemma LoadAfterSaveNeedsAnotherSave(s: State, s': State, file: FileContent)
    requires WellFormedFile(file) && Inv(s, file) && !s.initialized && s.replies != [] && Synced(s)
    requires Next(s, DeliverReply, s')
    ensures Synced(s') <==> DiskMap(file).Keys <= s.workspaces.Keys
  {
    hide WellFormedFile, Persisted, Drained, DiskMap;
    LoadPhaseStep(s, DeliverReply, s', file);
    DeliveryStep(s, s');
    LoadedIsUnion(s.workspaces, file);
    assert Restarted(s') == Restarted(s);
    assert Restarted(s').Keys == s.workspaces.Keys;
    assert s'.workspaces == DiskMap(file) + s.workspaces;
    if DiskMap(file).Keys <= s.workspaces.Keys {
      assert s'.workspaces == s.workspaces;
    } else {
      var id :| id in DiskMap(file) && id !in s.workspaces;
      assert id in PersistedMap(s'.workspaces);
    }
  }

  /** Some step from a up to b saved. */
  ghost predicate SavedIn(states: seq<State>, a: nat, b: nat)
    requires b < |states|
  {
    exists k :: a <= k < b && QueuedWrite(states[k], states[k + 1])
  }

  /** A step that neither saves nor loads changes neither memory nor what a restart gives. */
  lemma UnsavedStep(s: State, op: Op, s': State)
    requires Next(s, op, s') && !QueuedWrite(s, s')
    requires op.RunFileTask? ==> op.written
    requires op.DeliverReply? ==> s.replies == []
    ensures s'.workspaces == s.workspaces && Restarted(s') == Restarted(s)
  {
    hide Loaded, IsSaveOf, DiskMap, Drained, Created, Renamed, Replaced;
    if op.RunFileTask? && s.tasks != [] {
      DrainedStep(s.file, s.tasks);
    }
  }

  lemma {:induction false} UnsavedSteps(states: seq<State>, ops: seq<Op>, file: FileContent, a: nat, b: nat)
    requires IsRun(states, ops, file) && a <= b <= |ops| && !SavedIn(states, a, b)
    requires forall i :: a <= i < b && ops[i].RunFileTask? ==> ops[i].written
    requires forall i :: a <= i < b && ops[i].DeliverReply? ==> states[i].replies == []
    ensures states[b].workspaces == states[a].workspaces && Restarted(states[b]) == Restarted(states[a])
  {
    hide Next, QueuedWrite, Start, Restarted;
    if a < b {
      UnsavedSteps(states, ops, file, a, b - 1);
      UnsavedStep(states[b - 1], ops[b - 1], states[b]);
    }
  }

  /** After a save, without a load, the store stays synchronised. */
  lemma {:induction false} SyncedSinceSave(states: seq<State>, ops: seq<Op>, file: FileContent, k: nat, n: nat)
    requires IsRun(states, ops, file) && k < n <= |ops| && QueuedWrite(states[k], states[k + 1])
    requires forall i :: k <= i < n && ops[i].RunFileTask? ==> ops[i].written
    requires forall i :: k < i < n && ops[i].DeliverReply? ==> states[i].replies == []
    ensures Synced(states[n])
  {
    hide Next, QueuedWrite, Inv, Synced, Start;
    RunInv(states, ops, file, n - 1);
    if n == k + 1 {
      KeyedAndSaved(states[k], ops[k], states[n], file);
    } else {
      SyncedSinceSave(states, ops, file, k, n - 1);
      InvKeyed(states[n - 1], file);
      SyncedStep(states[n - 1], ops[n - 1], states[n]);
    }
  }

  /** Before the load no reply that counts is delivered. */
  lemma NothingDelivered(states: seq<State>, ops: seq<Op>, file: FileContent, d: nat, i: nat)
    requires IsRun(states, ops, file) && i < d <= |ops| && !states[d].initialized && ops[i].DeliverReply?
    ensures states[i].replies == []
  {
    hide Next, Start;
    DeliveryStep(states[i], states[i + 1]);
    if states[i + 1].initialized {
      InitializedStays(states, ops, file, i + 1, d);
    }
  }

  /** What is loaded from a file has nothing left to lose by being saved. */
  lemma DecodedIsPersisted(dict: DictValue)
    ensures Persisted(Decoded(dict)) == Decoded(dict)
  {
    hide DecodedIdentity, DecodedScreen, DecodedHardware, DecodedNetwork, DecodedBehavior, TagsOf;
  }

  lemma {:induction false} LoadIsPersisted(items: seq<Value>)
    ensures PersistedMap(Load(items)) == Load(items)
  {
    hide Decoded, Persisted;
    if items == [] {
    } else {
      var n := |items| - 1;
      LoadIsPersisted(items[..n]);
      if items[n].Dict? {
        DecodedIsPersisted(items[n].dict);
        PersistedUpdate(Load(items[..n]), Decoded(items[n].dict));
      }
    }
  }

  lemma PersistedUpdate(m: Workspaces, ws: Workspace)
    requires PersistedMap(m) == m && Persisted(ws) == ws
    ensures var id := ws.identity.id; PersistedMap(m[id := ws]) == m[id := ws]
  {
    hide Persisted;
    var t := m[ws.identity.id := ws];
    forall id | id in t
      ensures Persisted(t[id]) == t[id]
    {
      if id != ws.identity.id {
        assert PersistedMap(m)[id] == Persisted(m[id]);
      }
    }
  }

  lemma DiskMapIsPersisted(file: FileContent)
    ensures PersistedMap(DiskMap(file)) == DiskMap(file)
  {
    hide Load, Persisted;
    var dict := ReadWorkspacesFile(file);
    if dict.Some? && FindList(dict.value, KeyWorkspaces).Some? {
      LoadIsPersisted(FindList(dict.value, KeyWorkspaces).value);
    }
  }

  /** The load step of a run is the delivery of the file's content. */
  lemma LoadStep(states: seq<State>, ops: seq<Op>, file: FileContent, d: nat)
    requires IsRun(states, ops, file) && d < |ops| && !states[d].initialized && states[d + 1].initialized
    ensures Inv(states[d], file) && Next(states[d], DeliverReply, states[d + 1]) && states[d].replies != []
    ensures states[d + 1].workspaces == Loaded(states[d].workspaces, ReadWorkspacesFile(file))
    ensures Restarted(states[d + 1]) == Restarted(states[d])
  {
    hide Next, Start, Loaded, DiskMap, Inv;
    RunInv(states, ops, file, d);
    InvPhase(states[d], file);
    LoadPhaseStep(states[d], ops[d], states[d + 1], file);
    DeliveryStep(states[d], states[d + 1]);
  }

  lemma InvPhase(s: State, file: FileContent)
    requires Inv(s, file)
    ensures LoadPhase(s, file)
  {
  }

  /** Right after the load, a restart gives the same map exactly when no save preceded it or memory held every id of
      the file. */
  lemma SyncedAtLoad(states: seq<State>, ops: seq<Op>, file: FileContent, d: nat)
    requires IsRun(states, ops, file) && WellFormedFile(file) && d < |ops|
    requires forall i :: 0 <= i < d && ops[i].RunFileTask? ==> ops[i].written
    requires !states[d].initialized && states[d + 1].initialized
    ensures Synced(states[d + 1]) <==>
            !SavedIn(states, 0, d) || DiskMap(file).Keys <= states[d].workspaces.Keys
  {
    hide Next, QueuedWrite, Inv, Loaded, DiskMap, WellFormedFile, PersistedMap, Drained, ReadWorkspacesFile;
    LoadStep(states, ops, file, d);
    forall i | 0 <= i < d && ops[i].DeliverReply?
      ensures states[i].replies == []
    {
      NothingDelivered(states, ops, file, d, i);
    }
    if SavedIn(states, 0, d) {
      var k: nat :| k < d && QueuedWrite(states[k], states[k + 1]);
      SyncedSinceSave(states, ops, file, k, d);
      LoadAfterSaveNeedsAnotherSave(states[d], states[d + 1], file);
    } else {
      UnsavedSteps(states, ops, file, 0, d);
      FreshRestart(file);
      DiskMapIsPersisted(file);
      LoadedAfresh(file);
    }
  }

  lemma FreshRestart(file: FileContent)
    ensures Restarted(Start(file)) == DiskMap(file)
  {
    hide DiskMap;
    assert Drained(file, [ReadFile]) == Drained(file, [ReadFile][..0]);
  }

  lemma LoadedAfresh(file: FileContent)
    ensures Loaded(map[], ReadWorkspacesFile(file)) == DiskMap(file)
  {
  }

  /** In every run whose writes succeed, at any time after the load, a restart gives the same workspaces if and only if
      a save has followed the load, or none preceded it, or memory held every id of the file when it came. */
  lemma RestartIsIdentityExactly(states: seq<State>, ops: seq<Op>, file: FileContent, d: nat, n: nat)
    requires IsRun(states, ops, file) && WellFormedFile(file) && d < n <= |ops|
    requires forall i :: 0 <= i < n && ops[i].RunFileTask? ==> ops[i].written
    requires !states[d].initialized && states[d + 1].initialized
    ensures Synced(states[n]) <==>
            || SavedIn(states, d + 1, n) || !SavedIn(states, 0, d)
            || DiskMap(file).Keys <= states[d].workspaces.Keys
  {
    hide Next, QueuedWrite, Start, WellFormedFile, DiskMap;
    forall i | d < i < n
      ensures states[i].initialized && states[i].replies == []
    {
      InitializedStays(states, ops, file, d + 1, i);
    }
    if SavedIn(states, d + 1, n) {
      var k: nat :| d + 1 <= k < n && QueuedWrite(states[k], states[k + 1]);
      RestartIsIdentity(states, ops, file, k, n);
    } else {
      UnsavedSteps(states, ops, file, d + 1, n);
      SyncedAtLoad(states, ops, file, d);
    }
  }

  /** A run that loses data: with `a` in the file, `b` is created before the load arrives.  The store then shows both,
      but the file has lost `a`, and so has a store that starts over. */
  lemma CreateBeforeLoadLosesTheFile(a: Workspace, b: Workspace, now: Time)
    returns (states: seq<State>, ops: seq<Op>, file: FileContent)
    requires a.identity.id != b.identity.id && b.identity.id != "" && b.screen.fingerprintSeed != 0
    ensures IsRun(states, ops, file) && WellFormedFile(file) && |ops| == 4
    ensures ops == [Create(b, "", 0, now), RunFileTask(true), RunFileTask(true), DeliverReply]
    ensures states[4].initialized && a.identity.id in DiskMap(file) && a.identity.id in states[4].workspaces
    ensures a.identity.id !in Restarted(states[4])
  {
    hide IsSaveOf, DiskMap, Loaded, WellFormedFile, Persisted;
    var c := Created(b, "", 0, now);
    var saveA, saveC := SaveOfOne(a), SaveOfOne(c);
    SaveOfOneLoadsBack(a);
    SaveOfOneLoadsBack(c);
    file := Content(Dict(saveA));
    ops := [Create(b, "", 0, now), RunFileTask(true), RunFileTask(true), DeliverReply];
    var onlyC := map[c.identity.id := c];
    var s0 := Start(file);
    var s1 := State(onlyC, false, [ReadFile, WriteFile(saveC)], [], file, [Added(c)]);
    var s2 := State(onlyC, false, [WriteFile(saveC)], [Some(saveA)], file, [Added(c)]);
    var s3 := State(onlyC, false, [], [Some(saveA)], Content(Dict(saveC)), [Added(c)]);
    var s4 := s3.(replies := [], initialized := true, workspaces := Loaded(onlyC, Some(saveA)));
    states := [s0, s1, s2, s3, s4];
    FirstStep(b, now, file, s1);
    assert Next(s1, ops[1], s2);
    assert Next(s2, ops[2], s3);
    assert Next(s3, ops[3], s4);
    LoadedIsUnion(onlyC, file);
  }

  lemma FirstStep(b: Workspace, now: Time, file: FileContent, s: State)
    requires b.identity.id != "" && b.screen.fingerprintSeed != 0
    requires var c := Created(b, "", 0, now);
             s == State(map[c.identity.id := c], false, [ReadFile, WriteFile(SaveOfOne(c))], [], file, [Added(c)])
    ensures Next(Start(file), Create(b, "", 0, now), s)
  {
    hide IsSaveOf, Created, SaveOfOne, Loaded, ReadWorkspacesFile;
    SaveOfOneLoadsBack(Created(b, "", 0, now));
    assert Start(file).tasks + [s.tasks[1]] == s.tasks;
  }

  /** The file dictionary that holds just `ws`. */
  ghost function SaveOfOne(ws: Workspace): DictValue {
    FileDict([Dict(DictOf(ws))])
  }

  lemma SaveOfOneLoadsBack(ws: Workspace)
    ensures IsSaveOf(SaveOfOne(ws), map[ws.identity.id := ws])
    ensures DiskMap(Content(Dict(SaveOfOne(ws)))).Keys == {ws.identity.id}
    ensures WellFormedFile(Content(Dict(SaveOfOne(ws))))
  {
    hide DictOf, Decoded, Persisted, Loaded;
    var m := map[ws.identity.id := ws];
    assert Enumerates([ws.identity.id], m.Keys);
    assert ListOf([ws.identity.id], m) == [Dict(DictOf(ws))];
    SaveLoadsBack(SaveOfOne(ws), m);
    assert PersistedMap(m).Keys == {ws.identity.id};
  }
}
