/** The workspace store of profiles/workspace_store.cc: an in-memory map mirrored to a file through a first-in
    first-out task queue, with the initial load arriving late. */
module WorkspaceStore {

  import opened Collections
  import opened Timestamps
  import opened Workspace
  import opened Wrappers

  const FILE_VERSION: int32 := 1

  type Workspaces = map<string, Workspace>

  /** The file on disk: any JSON value, or no readable file at all. */
  datatype FileContent = NoFile | Content(value: Value)

  datatype FileTask = ReadFile | WriteFile(dict: DictValue)

  /** What observers are told, in order. */
  datatype Event = Added(ws: Workspace) | Updated(ws: Workspace) | Removed(id: string)

  /** `tasks` is the file runner's queue, `replies` the read results on their way back to the store. */
  datatype State = State(
    workspaces: Workspaces, initialized: bool, tasks: seq<FileTask>, replies: seq<Option<DictValue>>,
    file: FileContent, events: seq<Event>)

  // --- Loading -----------------------------------------------------------------------------------------

  function ReadWorkspacesFile(file: FileContent): Option<DictValue> {
    if file.Content? && file.value.Dict? then Some(file.value.dict) else None
  }

  /** The fast path: later entries overwrite earlier ones. */
  function Load(items: seq<Value>): Workspaces {
    if items == [] then map[]
    else
      var init, last := Load(items[..|items| - 1]), items[|items| - 1];
      if last.Dict? then var ws := Decoded(last.dict); init[ws.identity.id := ws] else init
  }

  /** The merge path: entries are only added under ids that are still free. */
  function Merge(m: Workspaces, items: seq<Value>): Workspaces {
    if items == [] then m
    else
      var init, last := Merge(m, items[..|items| - 1]), items[|items| - 1];
      if last.Dict? && Decoded(last.dict).identity.id !in init
      then var ws := Decoded(last.dict); init[ws.identity.id := ws]
      else init
  }

  /** The map after `OnInitData`. */
  function Loaded(m: Workspaces, dict: Option<DictValue>): Workspaces {
    if dict.None? then m
    else
      match FindList(dict.value, KeyWorkspaces)
      case None => m
      case Some(list) => if m == map[] then Load(list) else Merge(m, list)
  }

  // --- Saving ------------------------------------------------------------------------------------------

  ghost function ListOf(ids: seq<string>, m: Workspaces): (items: seq<Value>)
    requires forall i :: 0 <= i < |ids| ==> ids[i] in m
    ensures |items| == |ids|
  {
    seq(|ids|, i requires 0 <= i < |ids| => Dict(DictOf(m[ids[i]])))
  }

  function FileDict(items: seq<Value>): DictValue {
    map[KeyVersion := Number(FILE_VERSION), KeyWorkspaces := List(items)]
  }

  /** A dictionary that lists every workspace of `m` once. */
  ghost predicate IsSaveOf(dict: DictValue, m: Workspaces) {
    exists ids :: Enumerates(ids, m.Keys) && dict == FileDict(ListOf(ids, m))
  }

  /** The store's state after `SaveToDisk` with the map `m`, having told observers `event`. */
  ghost predicate Saves(s: State, s': State, m: Workspaces, events: seq<Event>) {
    && |s'.tasks| == |s.tasks| + 1 && s'.tasks[..|s.tasks|] == s.tasks
    && s'.tasks[|s.tasks|].WriteFile? && IsSaveOf(s'.tasks[|s.tasks|].dict, m)
    && s' == s.(workspaces := m, tasks := s'.tasks, events := s.events + events)
  }

  // --- Steps -------------------------------------------------------------------------------------------

  /** A call into the store, a task of the file runner, or the delivery of a read result.  The generated id and
      seed, the clock and the outcome of a write are parameters. */
  datatype Op =
    | Create(ws: Workspace, freshId: string, freshSeed: int32, now: Time)
    | Rename(id: string, newName: string, now: Time)
    | Replace(ws: Workspace, now: Time)
    | Delete(id: string)
    | Flush
    | RunFileTask(written: bool)
    | DeliverReply

  /** What `CreateWorkspace` stores. */
  function Created(ws: Workspace, freshId: string, freshSeed: int32, now: Time): Workspace {
    ws.(identity := if ws.identity.id == "" then ws.identity.(id := freshId) else ws.identity,
        screen := if ws.screen.fingerprintSeed == 0 then ws.screen.(fingerprintSeed := freshSeed) else ws.screen,
        metadata := Metadata(now, now))
  }

  /** What `UpdateWorkspace(id, name)` makes of the stored workspace. */
  function Renamed(before: Workspace, newName: string, now: Time): Workspace {
    before.(identity := before.identity.(name := newName), metadata := before.metadata.(updatedAt := now))
  }

  /** What `UpdateWorkspace(workspace)` stores: type and creation time are preserved. */
  function Replaced(before: Workspace, ws: Workspace, now: Time): Workspace {
    ws.(identity := ws.identity.(kind := before.identity.kind), metadata := Metadata(before.metadata.createdAt, now))
  }

  ghost predicate Next(s: State, op: Op, s': State) {
    match op
    case Create(ws, freshId, freshSeed, now) =>
      var c := Created(ws, freshId, freshSeed, now);
      Saves(s, s', s.workspaces[c.identity.id := c], [Added(c)])
    case Rename(id, newName, now) =>
      if id !in s.workspaces then s' == s
      else var ws := Renamed(s.workspaces[id], newName, now); Saves(s, s', s.workspaces[id := ws], [Updated(ws)])
    case Replace(ws, now) =>
      if ws.identity.id !in s.workspaces then s' == s
      else
        var stored := Replaced(s.workspaces[ws.identity.id], ws, now);
        Saves(s, s', s.workspaces[ws.identity.id := stored], [Updated(stored)])
    case Delete(id) =>
      if id !in s.workspaces then s' == s
      else Saves(s, s', s.workspaces - {id}, [Removed(id)])
    case Flush => Saves(s, s', s.workspaces, [])
    case RunFileTask(written) =>
      if s.tasks == [] then s' == s
      else
        (match s.tasks[0]
         case ReadFile => s' == s.(tasks := s.tasks[1..], replies := s.replies + [ReadWorkspacesFile(s.file)])
         case WriteFile(dict) =>
           s' == s.(tasks := s.tasks[1..], file := if written then Content(Dict(dict)) else s.file))
    case DeliverReply =>
      if s.replies == [] then s' == s
      else s' == s.(replies := s.replies[1..], initialized := true, workspaces := Loaded(s.workspaces, s.replies[0]))
  }

  // --- What the calls do, field by field -------------------------------------------------------------------

  /** The record of one id changes, or is new; all others stay. */
  ghost predicate OnlyChanges(s: State, s': State, id: string) {
    && s'.workspaces.Keys == s.workspaces.Keys + {id}
    && forall j :: j in s.workspaces && j != id ==> s'.workspaces[j] == s.workspaces[j]
  }

  /** A rename sets the name and the update time of a stored workspace, announces the record, and changes nothing
      else. */
  lemma RenameEffect(s: State, id: string, newName: string, now: Time, s': State)
    requires Next(s, Rename(id, newName, now), s')
    ensures id !in s.workspaces ==> s' == s
    ensures id in s.workspaces ==>
              && OnlyChanges(s, s', id) && s'.events == s.events + [Updated(s'.workspaces[id])]
              && |s'.tasks| == |s.tasks| + 1
              && var v, w := s.workspaces[id], s'.workspaces[id];
                 && w.identity.name == newName && w.metadata.updatedAt == now
                 && w.metadata.createdAt == v.metadata.createdAt
                 && w.identity.id == v.identity.id && w.identity.kind == v.identity.kind
                 && w.identity.color == v.identity.color && w.identity.notes == v.identity.notes
                 && w.identity.defaultTabTitle == v.identity.defaultTabTitle
                 && w.screen == v.screen && w.hardware == v.hardware && w.network == v.network
                 && w.behavior == v.behavior && w.tags == v.tags && w.runtime == v.runtime
  {
    hide IsSaveOf;
  }

  /** An update stores the argument but for the type and the creation time, which are the stored ones, and the update
      time. */
  lemma UpdateEffect(s: State, ws: Workspace, now: Time, s': State)
    requires Next(s, Replace(ws, now), s')
    ensures ws.identity.id !in s.workspaces ==> s' == s
    ensures ws.identity.id in s.workspaces ==>
              var id := ws.identity.id;
              && OnlyChanges(s, s', id) && s'.events == s.events + [Updated(s'.workspaces[id])]
              && |s'.tasks| == |s.tasks| + 1
              && var v, w := s.workspaces[id], s'.workspaces[id];
                 && w.identity.kind == v.identity.kind && w.metadata.createdAt == v.metadata.createdAt
                 && w.metadata.updatedAt == now
                 && w.identity.id == ws.identity.id && w.identity.name == ws.identity.name
                 && w.identity.color == ws.identity.color && w.identity.notes == ws.identity.notes
                 && w.identity.defaultTabTitle == ws.identity.defaultTabTitle
                 && w.screen == ws.screen && w.hardware == ws.hardware && w.network == ws.network
                 && w.behavior == ws.behavior && w.tags == ws.tags && w.runtime == ws.runtime
  {
    hide IsSaveOf;
  }

  /** A create stores the argument, with the generated id if it has none, the generated seed if its seed is zero, and
      both times set to now. */
  lemma CreateEffect(s: State, ws: Workspace, freshId: string, freshSeed: int32, now: Time, s': State)
    requires Next(s, Create(ws, freshId, freshSeed, now), s')
    ensures var id := if ws.identity.id == "" then freshId else ws.identity.id;
            && OnlyChanges(s, s', id) && s'.events == s.events + [Added(s'.workspaces[id])]
            && |s'.tasks| == |s.tasks| + 1
            && var w := s'.workspaces[id];
               && w.identity.id == id && w.identity.name == ws.identity.name && w.identity.kind == ws.identity.kind
               && w.identity.color == ws.identity.color && w.identity.notes == ws.identity.notes
               && w.identity.defaultTabTitle == ws.identity.defaultTabTitle
               && w.screen.fingerprintSeed
                  == (if ws.screen.fingerprintSeed == 0 then freshSeed else ws.screen.fingerprintSeed)
               && w.screen.userAgent == ws.screen.userAgent && w.screen.screenWidth == ws.screen.screenWidth
               && w.screen.screenHeight == ws.screen.screenHeight
               && w.hardware == ws.hardware && w.network == ws.network && w.behavior == ws.behavior
               && w.tags == ws.tags && w.runtime == ws.runtime && w.metadata == Metadata(now, now)
  {
    hide IsSaveOf;
  }

  /** A delete removes one record, if it is there, and announces it. */
  lemma DeleteEffect(s: State, id: string, s': State)
    requires Next(s, Delete(id), s')
    ensures id !in s.workspaces ==> s' == s
    ensures id in s.workspaces ==>
              && s'.workspaces.Keys == s.workspaces.Keys - {id} && s'.events == s.events + [Removed(id)]
              && |s'.tasks| == |s.tasks| + 1
              && forall j :: j in s'.workspaces ==> s'.workspaces[j] == s.workspaces[j]
  {
    hide IsSaveOf;
  }

  /** The store right after `Init()`: the read is queued before anything else. */
  function Start(file: FileContent): State {
    State(map[], false, [ReadFile], [], file, [])
  }

  // --- The store ---------------------------------------------------------------------------------------

  class WorkspaceStore {
    var workspaces: Workspaces
    var initialized: bool
    var tasks: seq<FileTask>
    var replies: seq<Option<DictValue>>
    var file: FileContent
    var events: seq<Event>

    ghost function Now(): State
      reads this
    {
      State(workspaces, initialized, tasks, replies, file, events)
    }

    constructor (file: FileContent)
      ensures Now() == State(map[], false, [], [], file, [])
    {
      workspaces, initialized, tasks, replies, events := map[], false, [], [], [];
      this.file := file;
    }

    method Init()
      modifies this
      ensures Now() == old(Now()).(tasks := old(tasks) + [ReadFile])
    {
      tasks := tasks + [ReadFile];
    }

    /** `SaveToDisk`: lists every workspace and queues the write. */
    method SaveToDisk()
      modifies this
      ensures |tasks| == |old(tasks)| + 1 && tasks[..|old(tasks)|] == old(tasks)
      ensures tasks[|old(tasks)|].WriteFile? && IsSaveOf(tasks[|old(tasks)|].dict, workspaces)
      ensures Now() == old(Now()).(tasks := tasks)
    {
      var list: seq<Value> := [];
      ghost var ids: seq<string> := [];
      var rest := workspaces.Keys;
      while rest != {}
        invariant rest <= workspaces.Keys && Enumerates(ids, workspaces.Keys - rest)
        invariant list == ListOf(ids, workspaces)
        invariant Now() == old(Now())
        decreases |rest|
      {
        var id :| id in rest;
        var item := ToDict(workspaces[id]);
        list := list + [Dict(item)];
        ids := ids + [id];
        rest := rest - {id};
      }
      assert workspaces.Keys - rest == workspaces.Keys;
      var dict := FileDict(list);
      assert IsSaveOf(dict, workspaces);
      tasks := tasks + [WriteFile(dict)];
    }

    method CreateWorkspace(ws: Workspace, freshId: string, freshSeed: int32, now: Time) returns (created: Workspace)
      modifies this
      ensures Next(old(Now()), Create(ws, freshId, freshSeed, now), Now())
      ensures created == Created(ws, freshId, freshSeed, now)
    {
      created := ws;
      if created.identity.id == "" {
        created := created.(identity := created.identity.(id := freshId));
      }
      if created.screen.fingerprintSeed == 0 {
        created := created.(screen := created.screen.(fingerprintSeed := freshSeed));
      }
      created := created.(metadata := Metadata(now, now));
      workspaces := workspaces[created.identity.id := created];
      SaveToDisk();
      events := events + [Added(created)];
    }

    method RenameWorkspace(id: string, newName: string, now: Time) returns (found: bool)
      modifies this
      ensures Next(old(Now()), Rename(id, newName, now), Now())
      ensures found <==> id in old(workspaces)
    {
      if id !in workspaces {
        return false;
      }
      var ws := workspaces[id];
      ws := ws.(identity := ws.identity.(name := newName));
      ws := ws.(metadata := ws.metadata.(updatedAt := now));
      workspaces := workspaces[id := ws];
      SaveToDisk();
      events := events + [Updated(ws)];
      return true;
    }

    method DeleteWorkspace(id: string) returns (found: bool)
      modifies this
      ensures Next(old(Now()), Delete(id), Now())
      ensures found <==> id in old(workspaces)
    {
      if id !in workspaces {
        return false;
      }
      workspaces := workspaces - {id};
      SaveToDisk();
      events := events + [Removed(id)];
      return true;
    }

    method UpdateWorkspace(ws: Workspace, now: Time) returns (found: bool)
      modifies this
      ensures Next(old(Now()), Replace(ws, now), Now())
      ensures found <==> ws.identity.id in old(workspaces)
    {
      var id := ws.identity.id;
      if id !in workspaces {
        return false;
      }
      var preservedType := workspaces[id].identity.kind;
      var preservedCreated := workspaces[id].metadata.createdAt;
      var updated := ws.(identity := ws.identity.(kind := preservedType),
                         metadata := Metadata(preservedCreated, now));
      workspaces := workspaces[id := updated];
      SaveToDisk();
      events := events + [Updated(updated)];
      return true;
    }

    method FlushStore()
      modifies this
      ensures Next(old(Now()), Flush, Now())
    {
      SaveToDisk();
    }

    /** `OnInitData`: the fast path into an empty map, the merge path otherwise. */
    method OnInitData(dict: Option<DictValue>)
      modifies this
      ensures Now() == old(Now()).(initialized := true, workspaces := Loaded(old(workspaces), dict))
    {
      hide Decoded;
      initialized := true;
      if dict.None? {
        return;
      }
      var found := FindList(dict.value, KeyWorkspaces);
      if found.None? {
        return;
      }
      var list := found.value;
      var i := 0;
      if workspaces == map[] {
        while i < |list|
          invariant 0 <= i <= |list|
          invariant Now() == old(Now()).(initialized := true, workspaces := Load(list[..i]))
        {
          assert list[..i + 1][..i] == list[..i];
          if list[i].Dict? {
            var ws := FromDict(list[i].dict);
            workspaces := workspaces[ws.identity.id := ws];
          }
          i := i + 1;
        }
      } else {
        while i < |list|
          invariant 0 <= i <= |list|
          invariant Now() == old(Now()).(initialized := true, workspaces := Merge(old(workspaces), list[..i]))
        {
          assert list[..i + 1][..i] == list[..i];
          if list[i].Dict? {
            var ws := FromDict(list[i].dict);
            if ws.identity.id !in workspaces {
              workspaces := workspaces[ws.identity.id := ws];
            }
          }
          i := i + 1;
        }
      }
      assert list[..|list|] == list;
    }

    /** The file runner takes the oldest task. */
    method RunNextTask(written: bool)
      modifies this
      ensures Next(old(Now()), RunFileTask(written), Now())
    {
      if tasks == [] {
        return;
      }
      match tasks[0] {
        case ReadFile =>
          replies := replies + [ReadWorkspacesFile(file)];
        case WriteFile(dict) =>
          if written {
            file := Content(Dict(dict));
          }
      }
      tasks := tasks[1..];
    }

    /** The oldest read result reaches the store. */
    method DeliverNextReply()
      modifies this
      ensures Next(old(Now()), DeliverReply, Now())
    {
      if replies == [] {
        return;
      }
      var reply := replies[0];
      replies := replies[1..];
      OnInitData(reply);
    }
  }
}
