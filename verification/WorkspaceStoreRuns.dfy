/** What holds in every run of the workspace store: memory is the replay of the observer events over the file, and
    a save that follows the load makes a restart lossless. */
module WorkspaceStoreRuns {

  import opened Workspace
  import opened Wrappers
  import opened WorkspaceStore

  // --- The two load paths --------------------------------------------------------------------------------

  function IdAt(items: seq<Value>, i: nat): string
    requires i < |items| && items[i].Dict?
  {
    Decoded(items[i].dict).identity.id
  }

  ghost predicate DistinctIds(items: seq<Value>) {
    forall i, j :: 0 <= i < j < |items| && items[i].Dict? && items[j].Dict? ==> IdAt(items, i) != IdAt(items, j)
  }

  /** Entry i is the first with its id. */
  ghost predicate FirstAt(items: seq<Value>, i: nat): (first: bool)
    ensures first ==> i < |items| && items[i].Dict?
  {
    && i < |items| && items[i].Dict?
    && forall k :: 0 <= k < i && items[k].Dict? ==> IdAt(items, k) != IdAt(items, i)
  }

  /** Entry i is the last with its id. */
  ghost predicate LastAt(items: seq<Value>, i: nat): (last: bool)
    ensures last ==> i < |items| && items[i].Dict?
  {
    && i < |items| && items[i].Dict?
    && forall k :: i < k < |items| && items[k].Dict? ==> IdAt(items, k) != IdAt(items, i)
  }

  /** One entry more at the end leaves the first entries first, and the last ones last unless it has their id. */
  lemma FirstAtPrefix(items: seq<Value>, n: nat, i: nat)
    requires i < n <= |items|
    ensures FirstAt(items[..n], i) <==> FirstAt(items, i)
    ensures items[i].Dict? ==> IdAt(items[..n], i) == IdAt(items, i)
  {
    hide Decoded;
    var init := items[..n];
    assert items[i].Dict? ==> IdAt(init, i) == IdAt(items, i);
    forall k | 0 <= k < i && items[k].Dict? ensures IdAt(init, k) == IdAt(items, k) {
      assert init[k] == items[k];
    }
  }

  lemma LastAtPrefix(items: seq<Value>, i: nat)
    requires i + 1 < |items|
    ensures var n := |items| - 1;
            LastAt(items, i) <==>
              LastAt(items[..n], i) && !(items[n].Dict? && IdAt(items, n) == IdAt(items, i))
  {
    hide Decoded;
    var n := |items| - 1;
    var init := items[..n];
    assert items[i].Dict? ==> IdAt(init, i) == IdAt(items, i);
    forall k | 0 <= k < n && items[k].Dict? ensures IdAt(init, k) == IdAt(items, k) {
      assert init[k] == items[k];
    }
  }

  /** The last entry of a list, if it is a dictionary, is the last one with its id. */
  lemma LastIsLast(items: seq<Value>)
    requires items != [] && items[|items| - 1].Dict?
    ensures LastAt(items, |items| - 1)
  {
  }

  /** The fast path keeps the last entry of each id. */
  lemma {:induction false} LoadKeepsLast(items: seq<Value>)
    ensures forall i: nat :: LastAt(items, i) ==>
              IdAt(items, i) in Load(items) && Load(items)[IdAt(items, i)] == Decoded(items[i].dict)
    ensures forall id :: id in Load(items) ==> exists i: nat :: LastAt(items, i) && IdAt(items, i) == id
  {
    hide Decoded;
    if items != [] {
      var n := |items| - 1;
      var init := items[..n];
      LoadKeepsLast(init);
      forall i: nat | i < n && items[i].Dict?
        ensures IdAt(init, i) == IdAt(items, i)
        ensures LastAt(items, i) <==> LastAt(init, i) && !(items[n].Dict? && IdAt(items, n) == IdAt(items, i))
      {
        LastAtPrefix(items, i);
      }
      if items[n].Dict? {
        LastIsLast(items);
      }
      hide LastAt;
      forall i: nat | LastAt(items, i)
        ensures IdAt(items, i) in Load(items) && Load(items)[IdAt(items, i)] == Decoded(items[i].dict)
      {
      }
      forall id | id in Load(items)
        ensures exists i: nat :: LastAt(items, i) && IdAt(items, i) == id
      {
        if items[n].Dict? && IdAt(items, n) == id {
          assert LastAt(items, n);
        } else {
          assert id in Load(init);
          var i: nat :| LastAt(init, i) && IdAt(init, i) == id;
          assert LastAt(items, i) && IdAt(items, i) == id;
        }
      }
    }
  }

  /** `r` keeps what is in memory and otherwise the first entry of each id. */
  ghost predicate KeepsFirst(m: Workspaces, items: seq<Value>, r: Workspaces) {
    && (forall id :: id in m ==> id in r && r[id] == m[id])
    && (forall i: nat :: FirstAt(items, i) && IdAt(items, i) !in m ==>
          IdAt(items, i) in r && r[IdAt(items, i)] == Decoded(items[i].dict))
    && (forall id :: id in r && id !in m ==> exists i: nat :: FirstAt(items, i) && IdAt(items, i) == id)
    && (forall i: nat :: i < |items| && items[i].Dict? ==> IdAt(items, i) in r)
  }

  /** What the last entry adds to the first entries: itself, if no earlier entry has its id. */
  lemma FirstEntries(items: seq<Value>)
    requires items != []
    ensures var n := |items| - 1;
            && (forall i: nat :: i < n && items[i].Dict? ==>
                  IdAt(items[..n], i) == IdAt(items, i) && (FirstAt(items[..n], i) <==> FirstAt(items, i)))
            && (items[n].Dict? ==>
                  (FirstAt(items, n) <==>
                   forall i: nat :: i < n && items[i].Dict? ==> IdAt(items, i) != IdAt(items, n)))
  {
    hide Decoded;
    var n := |items| - 1;
    forall i: nat | i < n && items[i].Dict?
      ensures IdAt(items[..n], i) == IdAt(items, i) && (FirstAt(items[..n], i) <==> FirstAt(items, i))
    {
      FirstAtPrefix(items, n, i);
    }
  }

  lemma MergeSkips(m: Workspaces, items: seq<Value>, r: Workspaces)
    requires items != [] && KeepsFirst(m, items[..|items| - 1], r)
    requires items[|items| - 1].Dict? ==> IdAt(items, |items| - 1) in r
    ensures KeepsFirst(m, items, r)
  {
    hide Decoded, IdAt, FirstAt;
    var n := |items| - 1;
    FirstEntries(items);
    forall i: nat | FirstAt(items, i) && IdAt(items, i) !in m
      ensures IdAt(items, i) in r && r[IdAt(items, i)] == Decoded(items[i].dict)
    {
    }
    forall id | id in r && id !in m
      ensures exists i: nat :: FirstAt(items, i) && IdAt(items, i) == id
    {
      var i: nat :| FirstAt(items[..n], i) && IdAt(items[..n], i) == id;
      assert FirstAt(items, i) && IdAt(items, i) == id;
    }
  }

  lemma MergeAdds(m: Workspaces, items: seq<Value>, r: Workspaces)
    requires items != [] && KeepsFirst(m, items[..|items| - 1], r)
    requires items[|items| - 1].Dict? && IdAt(items, |items| - 1) !in r
    ensures KeepsFirst(m, items, r[IdAt(items, |items| - 1) := Decoded(items[|items| - 1].dict)])
  {
    hide Decoded, IdAt, FirstAt;
    var n := |items| - 1;
    var t := r[IdAt(items, n) := Decoded(items[n].dict)];
    FirstEntries(items);
    forall i: nat | FirstAt(items, i) && IdAt(items, i) !in m
      ensures IdAt(items, i) in t && t[IdAt(items, i)] == Decoded(items[i].dict)
    {
    }
    forall id | id in t && id !in m
      ensures exists i: nat :: FirstAt(items, i) && IdAt(items, i) == id
    {
      if id in r {
        var i: nat :| FirstAt(items[..n], i) && IdAt(items[..n], i) == id;
        assert FirstAt(items, i) && IdAt(items, i) == id;
      } else {
        assert FirstAt(items, n) && IdAt(items, n) == id;
      }
    }
  }

  /** The merge path keeps what is in memory and otherwise the first entry of each id. */
  lemma {:induction false} MergeKeepsFirst(m: Workspaces, items: seq<Value>)
    ensures KeepsFirst(m, items, Merge(m, items))
  {
    if items == [] {
    } else {
      hide Decoded, KeepsFirst;
      var n := |items| - 1;
      var r := Merge(m, items[..n]);
      MergeKeepsFirst(m, items[..n]);
      if items[n].Dict? && IdAt(items, n) !in r {
        MergeAdds(m, items, r);
      } else {
        MergeSkips(m, items, r);
      }
    }
  }

  /** The first and the last entry of every id are equal. */
  ghost predicate Consistent(items: seq<Value>) {
    forall i: nat, j: nat :: FirstAt(items, i) && LastAt(items, j) && IdAt(items, i) == IdAt(items, j)
      ==> Decoded(items[i].dict) == Decoded(items[j].dict)
  }

  /** On an empty memory the two paths agree exactly when the first and the last entry of every id are equal. */
  lemma PathsAgree(items: seq<Value>)
    ensures Load(items) == Merge(map[], items) <==> Consistent(items)
  {
    hide Decoded, Load, Merge, Consistent;
    if Consistent(items) {
      ConsistentPathsAgree(items);
    }
    if Load(items) == Merge(map[], items) {
      AgreeingPathsAreConsistent(items);
    }
  }

  lemma AgreeingPathsAreConsistent(items: seq<Value>)
    requires Load(items) == Merge(map[], items)
    ensures Consistent(items)
  {
    hide Decoded, Load, Merge, FirstAt, LastAt;
    LoadKeepsLast(items);
    MergeKeepsFirst(map[], items);
  }

  lemma ConsistentPathsAgree(items: seq<Value>)
    requires Consistent(items)
    ensures Load(items) == Merge(map[], items)
  {
    hide Decoded, Load, Merge, FirstAt, LastAt, IdAt;
    LoadKeepsLast(items);
    MergeKeepsFirst(map[], items);
    forall id | id in Load(items) ensures id in Merge(map[], items) && Load(items)[id] == Merge(map[], items)[id] {
      var j: nat :| LastAt(items, j) && IdAt(items, j) == id;
      var i: nat :| FirstAt(items, i) && IdAt(items, i) == id;
    }
    forall id | id in Merge(map[], items) ensures id in Load(items) {
      var i: nat :| FirstAt(items, i) && IdAt(items, i) == id;
      LastExists(items, i);
    }
  }

  lemma {:induction false} LastExists(items: seq<Value>, i: nat)
    requires i < |items| && items[i].Dict?
    ensures exists j: nat :: LastAt(items, j) && IdAt(items, j) == IdAt(items, i)
    decreases |items| - i
  {
    hide Decoded;
    if LastAt(items, i) {
    } else {
      var k :| i < k < |items| && items[k].Dict? && IdAt(items, k) == IdAt(items, i);
      LastExists(items, k);
    }
  }

  lemma DistinctAreFirstAndLast(items: seq<Value>)
    requires DistinctIds(items)
    ensures forall i: nat :: i < |items| && items[i].Dict? ==> FirstAt(items, i) && LastAt(items, i)
  {
    hide Decoded;
  }

  /** With distinct ids, merging adds exactly the entries whose id is free in memory. */
  lemma MergeIsUnion(m: Workspaces, items: seq<Value>)
    requires DistinctIds(items)
    ensures Merge(m, items) == Load(items) + m
  {
    hide Decoded, Load, Merge, FirstAt, LastAt, IdAt, DistinctIds;
    LoadKeepsLast(items);
    MergeKeepsFirst(m, items);
    DistinctAreFirstAndLast(items);
    forall id | id in Load(items) && id !in m ensures id in Merge(m, items) && Merge(m, items)[id] == Load(items)[id] {
      var i: nat :| LastAt(items, i) && IdAt(items, i) == id;
      assert FirstAt(items, i);
    }
    forall id | id in Merge(m, items) && id !in m ensures id in Load(items) {
      var i: nat :| FirstAt(items, i) && IdAt(items, i) == id;
      assert LastAt(items, i);
    }
  }

  // --- Replay ------------------------------------------------------------------------------------------

  function Apply(m: Workspaces, e: Event): Workspaces {
    match e
    case Added(ws) => m[ws.identity.id := ws]
    case Updated(ws) => m[ws.identity.id := ws]
    case Removed(id) => m - {id}
  }

  /** The map after replaying observer events over `m`. */
  function Replay(m: Workspaces, events: seq<Event>): Workspaces {
    if events == [] then m else Apply(Replay(m, events[..|events| - 1]), events[|events| - 1])
  }

  function EventId(e: Event): string {
    match e
    case Added(ws) => ws.identity.id
    case Updated(ws) => ws.identity.id
    case Removed(id) => id
  }

  ghost predicate Touched(events: seq<Event>, id: string) {
    exists i :: 0 <= i < |events| && EventId(events[i]) == id
  }

  lemma TouchedStep(events: seq<Event>, e: Event, id: string)
    ensures Touched(events + [e], id) <==> Touched(events, id) || EventId(e) == id
  {
    var all := events + [e];
    if Touched(events, id) {
      var i :| 0 <= i < |events| && EventId(events[i]) == id;
      assert EventId(all[i]) == id;
    }
    if EventId(e) == id {
      assert EventId(all[|events|]) == id;
    }
  }

  /** Replaying over a file: the untouched ids come from the file, the touched ones from the replay alone. */
  lemma {:induction false} ReplayOverFile(disk: Workspaces, events: seq<Event>)
    ensures forall id :: Touched(events, id) ==>
              (id in Replay(disk, events) <==> id in Replay(map[], events))
              && (id in Replay(disk, events) ==> Replay(disk, events)[id] == Replay(map[], events)[id])
    ensures forall id :: !Touched(events, id) ==>
              id !in Replay(map[], events) && (id in Replay(disk, events) <==> id in disk)
              && (id in disk ==> Replay(disk, events)[id] == disk[id])
  {
    hide Touched;
    if events == [] {
      NothingTouched();
    } else {
      var n := |events| - 1;
      ReplayOverFile(disk, events[..n]);
      assert events == events[..n] + [events[n]];
      forall id ensures Touched(events, id) <==> Touched(events[..n], id) || EventId(events[n]) == id {
        TouchedStep(events[..n], events[n], id);
      }
    }
  }

  lemma NothingTouched()
    ensures forall id :: !Touched([], id)
  {
  }

  /** The map a new store would load from the file. */
  function DiskMap(file: FileContent): Workspaces {
    Loaded(map[], ReadWorkspacesFile(file))
  }

  /** A file as this program writes it: no id twice. */
  ghost predicate WellFormedFile(file: FileContent) {
    ReadWorkspacesFile(file).Some? && FindList(ReadWorkspacesFile(file).value, KeyWorkspaces).Some? ==>
      DistinctIds(FindList(ReadWorkspacesFile(file).value, KeyWorkspaces).value)
  }

  lemma LoadedIsUnion(m: Workspaces, file: FileContent)
    requires WellFormedFile(file)
    ensures Loaded(m, ReadWorkspacesFile(file)) == DiskMap(file) + m
  {
    hide Load, Merge, DistinctIds;
    var dict := ReadWorkspacesFile(file);
    if dict.Some? && FindList(dict.value, KeyWorkspaces).Some? {
      MergeIsUnion(m, FindList(dict.value, KeyWorkspaces).value);
    }
  }

  /** When the load arrives, memory becomes the replay of the events so far over the file exactly when no id of the
      file was touched by them and is gone from memory again. */
  lemma LoadMatchesReplay(m: Workspaces, events: seq<Event>, file: FileContent)
    requires WellFormedFile(file) && m == Replay(map[], events)
    ensures Loaded(m, ReadWorkspacesFile(file)) == Replay(DiskMap(file), events) <==>
              forall id :: id in DiskMap(file) && Touched(events, id) ==> id in m
  {
    hide Loaded, Touched;
    LoadedIsUnion(m, file);
    var disk := DiskMap(file);
    ReplayOverFile(disk, events);
    if forall id :: id in disk && Touched(events, id) ==> id in m {
      forall id ensures id in disk + m <==> id in Replay(disk, events) {
      }
      forall id | id in disk + m ensures (disk + m)[id] == Replay(disk, events)[id] {
      }
    } else {
      var id :| id in disk && Touched(events, id) && id !in m;
      assert id in disk + m && id !in Replay(disk, events);
    }
  }

  // --- Runs --------------------------------------------------------------------------------------------

  /** A run of the store: calls, file tasks and the reply interleaved in any order. */
  ghost predicate IsRun(states: seq<State>, ops: seq<Op>, file: FileContent) {
    && |states| == |ops| + 1 && states[0] == Start(file)
    && forall i :: 0 <= i < |ops| ==> Next(states[i], ops[i], states[i + 1])
  }

  ghost predicate KeyedById(m: Workspaces) {
    forall id :: id in m ==> m[id].identity.id == id
  }

  ghost predicate OnlyWrites(tasks: seq<FileTask>) {
    forall i :: 0 <= i < |tasks| ==> tasks[i].WriteFile?
  }

  /** The read is still queued in front of every write, or its result is under way, or it has been delivered. */
  ghost predicate LoadPhase(s: State, file: FileContent) {
    if s.initialized then s.replies == [] && OnlyWrites(s.tasks)
    else
      || (s.replies == [] && s.tasks != [] && s.tasks[0] == ReadFile && OnlyWrites(s.tasks[1..]) && s.file == file)
      || (s.replies == [ReadWorkspacesFile(file)] && OnlyWrites(s.tasks))
  }

  ghost predicate Inv(s: State, file: FileContent) {
    && KeyedById(s.workspaces) && LoadPhase(s, file)
    && (!s.initialized ==> s.workspaces == Replay(map[], s.events))
  }

  /** A call changes neither the load nor the file; it queues at most one write. */
  lemma CallEffect(s: State, op: Op, s': State)
    requires Next(s, op, s') && !op.RunFileTask? && !op.DeliverReply?
    ensures s'.initialized == s.initialized && s'.replies == s.replies && s'.file == s.file
    ensures s'.tasks == s.tasks || exists dict :: s'.tasks == s.tasks + [WriteFile(dict)]
  {
    hide Loaded, Created, Renamed, Replaced, IsSaveOf, ReadWorkspacesFile;
  }

  lemma CallKeepsPhase(s: State, s': State, file: FileContent)
    requires LoadPhase(s, file)
    requires s'.initialized == s.initialized && s'.replies == s.replies && s'.file == s.file
    requires s'.tasks == s.tasks || exists dict :: s'.tasks == s.tasks + [WriteFile(dict)]
    ensures LoadPhase(s', file)
  {
    if s'.tasks != s.tasks {
      var dict :| s'.tasks == s.tasks + [WriteFile(dict)];
      assert s.tasks != [] ==> s'.tasks[1..] == s.tasks[1..] + [WriteFile(dict)];
    }
  }

  lemma LoadPhaseStep(s: State, op: Op, s': State, file: FileContent)
    requires LoadPhase(s, file) && Next(s, op, s')
    ensures LoadPhase(s', file)
    ensures s'.initialized != s.initialized ==>
              op.DeliverReply? && !s.initialized && s'.workspaces == Loaded(s.workspaces, ReadWorkspacesFile(file))
    ensures op.DeliverReply? && s.initialized ==> s' == s
  {
    hide Loaded, IsSaveOf, ReadWorkspacesFile;
    match op
    case RunFileTask(written) =>
    case DeliverReply =>
    case _ =>
      hide Next, LoadPhase;
      CallEffect(s, op, s');
      CallKeepsPhase(s, s', file);
  }

  lemma {:induction false} LoadKeyed(items: seq<Value>)
    ensures KeyedById(Load(items))
  {
    hide Decoded;
    if items != [] { LoadKeyed(items[..|items| - 1]); }
  }

  lemma {:induction false} MergeKeyed(m: Workspaces, items: seq<Value>)
    requires KeyedById(m)
    ensures KeyedById(Merge(m, items))
  {
    hide Decoded;
    if items != [] { MergeKeyed(m, items[..|items| - 1]); }
  }

  lemma LoadedKeyed(m: Workspaces, dict: Option<DictValue>)
    requires KeyedById(m)
    ensures KeyedById(Loaded(m, dict))
  {
    hide Load, Merge;
    if dict.Some? && FindList(dict.value, KeyWorkspaces).Some? {
      LoadKeyed(FindList(dict.value, KeyWorkspaces).value);
      MergeKeyed(m, FindList(dict.value, KeyWorkspaces).value);
    }
  }

  /** The event a call tells observers, if any. */
  function EventsOf(s: State, op: Op): seq<Event> {
    match op
    case Create(ws, freshId, freshSeed, now) => [Added(Created(ws, freshId, freshSeed, now))]
    case Rename(id, newName, now) =>
      if id in s.workspaces then [Updated(Renamed(s.workspaces[id], newName, now))] else []
    case Replace(ws, now) =>
      if ws.identity.id in s.workspaces then [Updated(Replaced(s.workspaces[ws.identity.id], ws, now))] else []
    case Delete(id) => if id in s.workspaces then [Removed(id)] else []
    case Flush => []
    case RunFileTask(_) => []
    case DeliverReply => []
  }

  /** A step other than the load applies to memory the very event it tells observers, if any; the event names a
      workspace in memory unless it announces a new one. */
  lemma StepReplaysItsEvent(s: State, op: Op, s': State)
    requires KeyedById(s.workspaces) && Next(s, op, s') && !op.DeliverReply?
    ensures s'.initialized == s.initialized && KeyedById(s'.workspaces)
    ensures s'.events == s.events + EventsOf(s, op) && s'.workspaces == Replay(s.workspaces, EventsOf(s, op))
    ensures forall e :: e in EventsOf(s, op) && !op.Create? ==> EventId(e) in s.workspaces
  {
    hide IsSaveOf;
    var events := EventsOf(s, op);
    if events != [] {
      ReplayOne(s.workspaces, events[0]);
    }
  }

  lemma ReplayOne(m: Workspaces, e: Event)
    ensures Replay(m, [e]) == Apply(m, e)
  {
    assert [e][..0] == [];
  }

  lemma ReplayStep(m: Workspaces, events: seq<Event>, e: Event)
    ensures Replay(m, events + [e]) == Replay(Replay(m, events), [e])
  {
    assert (events + [e])[..|events|] == events;
    ReplayOne(Replay(m, events), e);
  }

  lemma InvStep(s: State, op: Op, s': State, file: FileContent)
    requires Inv(s, file) && Next(s, op, s')
    ensures Inv(s', file)
  {
    LoadPhaseStep(s, op, s', file);
    hide LoadPhase, EventsOf, Loaded;
    if op.DeliverReply? {
      LoadedKeyed(s.workspaces, ReadWorkspacesFile(file));
      DeliveryStep(s, s');
    } else {
      StepReplaysItsEvent(s, op, s');
      ReplayAppend(map[], s.events, EventsOf(s, op));
    }
  }

  lemma DeliveryStep(s: State, s': State)
    requires Next(s, DeliverReply, s')
    ensures s'.events == s.events && s'.file == s.file && s'.tasks == s.tasks
    ensures s.replies == [] ==> s' == s
    ensures s.replies != [] ==> s'.initialized
  {
    hide Loaded;
  }

  lemma ReplayAppend(m: Workspaces, events: seq<Event>, more: seq<Event>)
    requires |more| <= 1
    ensures Replay(m, events + more) == Replay(Replay(m, events), more)
  {
    if more == [] {
      assert events + more == events;
    } else {
      ReplayStep(m, events, more[0]);
      assert more == [more[0]];
    }
  }

  /** Until the load, creates use ids that the file does not have. */
  ghost predicate FreshCreate(s: State, op: Op, file: FileContent) {
    op.Create? && !s.initialized ==>
      Created(op.ws, op.freshId, op.freshSeed, op.now).identity.id !in DiskMap(file)
  }

  ghost predicate NoneOnDisk(events: seq<Event>, disk: Workspaces) {
    forall id :: Touched(events, id) ==> id !in disk
  }

  ghost predicate ReplayInv(s: State, file: FileContent) {
    && (s.initialized ==> s.workspaces == Replay(DiskMap(file), s.events))
    && (!s.initialized ==> NoneOnDisk(s.events, DiskMap(file)))
  }

  lemma ReplayInvStep(s: State, op: Op, s': State, file: FileContent)
    requires WellFormedFile(file) && FreshCreate(s, op, file)
    requires Inv(s, file) && ReplayInv(s, file) && Next(s, op, s')
    ensures ReplayInv(s', file)
  {
    LoadPhaseStep(s, op, s', file);
    hide LoadPhase, Loaded, Touched, Replay, WellFormedFile;
    if op.DeliverReply? {
      DeliveryStep(s, s');
      if !s.initialized && s'.initialized {
        LoadMatchesReplay(s.workspaces, s.events, file);
      }
    } else {
      StepReplaysItsEvent(s, op, s');
      if s.initialized {
        ReplayAppend(DiskMap(file), s.events, EventsOf(s, op));
      } else {
        UntouchedByStep(s, op, s', file);
      }
    }
  }

  lemma UntouchedByStep(s: State, op: Op, s': State, file: FileContent)
    requires !s.initialized && FreshCreate(s, op, file) && !op.DeliverReply?
    requires s.workspaces == Replay(map[], s.events) && ReplayInv(s, file)
    requires s'.events == s.events + EventsOf(s, op)
    requires forall e :: e in EventsOf(s, op) && !op.Create? ==> EventId(e) in s.workspaces
    ensures NoneOnDisk(s'.events, DiskMap(file))
  {
    hide Touched, Replay, DiskMap, Created, Renamed, Replaced;
    ReplayOverFile(map[], s.events);
    var events := EventsOf(s, op);
    if events == [] {
      assert s'.events == s.events;
    } else {
      assert events == [events[0]] && events[0] in events;
      forall id | Touched(s'.events, id) ensures id !in DiskMap(file) {
        TouchedStep(s.events, events[0], id);
      }
    }
  }

  lemma ReplayInvMeaning(s: State, file: FileContent)
    requires ReplayInv(s, file) && s.initialized
    ensures s.workspaces == Replay(DiskMap(file), s.events)
  {
  }

  /** In every run, whatever the interleaving of calls, file tasks and the late load: once initialised, the store
      equals the replay of its observer events over the map originally on disk, if creates before the load use
      ids that are not on disk. */
  lemma {:induction false} StoreIsReplayOfEvents(states: seq<State>, ops: seq<Op>, file: FileContent, n: nat)
    requires IsRun(states, ops, file) && WellFormedFile(file) && n <= |ops|
    requires forall i :: 0 <= i < n ==> FreshCreate(states[i], ops[i], file)
    ensures Inv(states[n], file) && ReplayInv(states[n], file)
    ensures states[n].initialized ==> states[n].workspaces == Replay(DiskMap(file), states[n].events)
  {
    if n == 0 {
      NothingTouched();
    } else {
      StoreIsReplayOfEvents(states, ops, file, n - 1);
      hide Inv, ReplayInv, Next, FreshCreate, WellFormedFile;
      InvStep(states[n - 1], ops[n - 1], states[n], file);
      ReplayInvStep(states[n - 1], ops[n - 1], states[n], file);
      if states[n].initialized {
        ReplayInvMeaning(states[n], file);
      }
    }
  }
}
