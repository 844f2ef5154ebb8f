/** Running workspaces: RunningWorkspaceManager of workspace_launcher.cc and its watchdog, as a step system.
    `Start` is split in two by a background task, and its second half may run after any other step. */
module Lifecycle {

  import opened Collections
  import opened Wrappers

  const MAX_CONCURRENT: nat := 10

  datatype Status = Starting | Running | Stopped | Crashed

  /** A record of a running workspace; its process handle may be invalid. */
  datatype Record = Record(process: Option<nat>, port: int, status: Status)

  /** A `Start` call that waits for its directory: the bound arguments of `ContinueStart`. */
  datatype Pending = Pending(id: string, port: int, ticket: nat)

  /** Children have process numbers 0, 1, ... in launch order, `Start` calls tickets 0, 1, ... in call order.
      `exited` and `terminated` say which children have exited by themselves and which were told to;
      `answered` lists the tickets whose callback has run. */
  datatype State = State(
    records: map<string, Record>, appliers: set<string>, watched: set<string>, polling: bool,
    pending: seq<Pending>, answered: seq<nat>, tickets: nat,
    launched: nat, exited: set<nat>, terminated: set<nat>, destroyed: bool)

  const INITIAL: State := State(map[], {}, {}, false, [], [], 0, 0, {}, {}, false)

  // --- Steps as functions --------------------------------------------------------------------------------

  predicate Active(status: Status) { status != Stopped && status != Crashed }

  /** `Start`: answers at once if the workspace is active, the limit is reached or no port is free. */
  function StartStep(s: State, id: string, port: int): State {
    var t := s.(tickets := s.tickets + 1);
    if (id in s.records && Active(s.records[id].status)) || |s.records| >= MAX_CONCURRENT || port == 0
    then t.(answered := s.answered + [s.tickets])
    else t.(pending := s.pending + [Pending(id, port, s.tickets)])
  }

  /** The `k`-th waiting `Start` goes on.  It checks neither the limit nor the record again. */
  function ContinueStep(s: State, k: nat, launchOk: bool): State
    requires k < |s.pending|
  {
    var p := s.pending[k];
    var t := s.(pending := Without(s.pending, k), answered := s.answered + [p.ticket]);
    if s.destroyed || !launchOk then t
    else t.(records := s.records[p.id := Record(Some(s.launched), p.port, Running)], launched := s.launched + 1,
            watched := s.watched + {p.id}, polling := true, appliers := s.appliers + {p.id})
  }

  function Unwatch(s: State, id: string): State {
    s.(watched := s.watched - {id}, polling := s.polling && s.watched - {id} != {})
  }

  function Terminated(s: State, r: Record): set<nat> {
    if r.process.Some? then s.terminated + {r.process.value} else s.terminated
  }

  function StopStep(s: State, id: string): State {
    if id !in s.records then s
    else Unwatch(s, id).(records := s.records - {id}, appliers := s.appliers - {id},
                         terminated := Terminated(s, s.records[id]))
  }

  function StopMany(s: State, ids: seq<string>): State {
    if ids == [] then s else StopStep(StopMany(s, ids[..|ids| - 1]), ids[|ids| - 1])
  }

  ghost function ProcessesOf(records: map<string, Record>): set<nat> {
    set id | id in records && records[id].process.Some? :: records[id].process.value
  }

  /** The processes of all records but those in `rest`. */
  ghost function ProcessesBut(records: map<string, Record>, rest: set<string>): set<nat> {
    ProcessesOf(records - rest)
  }

  lemma NoProcesses(records: map<string, Record>)
    ensures ProcessesBut(records, records.Keys) == {}
    ensures ProcessesBut(records, {}) == ProcessesOf(records)
  {
    assert records - {} == records;
  }

  lemma ProcessesOfOneMore(records: map<string, Record>, rest: set<string>, id: string)
    requires id in rest && id in records
    ensures ProcessesBut(records, rest - {id})
         == ProcessesBut(records, rest) + if records[id].process.Some? then {records[id].process.value} else {}
  {
    assert forall j :: j in records - (rest - {id}) <==> j in records - rest || j == id;
  }

  ghost function StopAllStep(s: State): State {
    s.(records := map[], appliers := {}, watched := {}, polling := false,
       terminated := s.terminated + ProcessesOf(s.records))
  }

  /** The record's process has exited, or its handle is invalid. */
  predicate Dead(s: State, id: string)
    requires id in s.records
  {
    s.records[id].process.None? || s.records[id].process.value in s.exited
  }

  /** `NotifyStatusChanged`: the observers may call `Stop` on any workspaces. */
  function NotifyStep(s: State, id: string, status: Status, stops: seq<string>): State {
    var t := if id in s.records then s.(records := s.records[id := s.records[id].(status := status)]) else s;
    StopMany(t, stops)
  }

  /** `CheckProcess`; `stops` are the workspaces observers stop if they are notified. */
  function CheckStep(s: State, id: string, stops: seq<string>): State {
    if id !in s.records then Unwatch(s, id)
    else if !Dead(s, id) then s
    else if s.records[id].process.Some? && s.records[id].status == Stopped then Unwatch(s, id)
    else NotifyStep(Unwatch(s, id), id, Crashed, stops)
  }

  /** One check of an `OnPoll`: the children that exit before it, and what observers stop if it notifies them. */
  datatype Round = Round(id: string, exits: set<nat>, stops: seq<string>)

  function IdsOf(rounds: seq<Round>): (ids: seq<string>)
    ensures |ids| == |rounds|
  {
    seq(|rounds|, i requires 0 <= i < |rounds| => rounds[i].id)
  }

  function ExitStep(s: State, exits: set<nat>): State {
    s.(exited := s.exited + exits)
  }

  function RoundStep(s: State, round: Round): State {
    CheckStep(ExitStep(s, round.exits), round.id, round.stops)
  }

  /** The checks of one `OnPoll`, in order. */
  function SweepStep(s: State, rounds: seq<Round>): State {
    if rounds == [] then s
    else var n := |rounds| - 1; RoundStep(SweepStep(s, rounds[..n]), rounds[n])
  }

  // --- The classes ---------------------------------------------------------------------------------------

  class Watchdog {
    var manager: Manager?
    var watched: set<string>
    var polling: bool

    constructor ()
      ensures manager == null && watched == {} && !polling
    {
      manager, watched, polling := null, {}, false;
    }

    method StartWatching(id: string)
      modifies this
      ensures manager == old(manager)
      ensures watched == old(watched) + {id} && polling
    {
      watched := watched + {id};
      if !polling {
        polling := true;
      }
    }

    method StopWatching(id: string)
      modifies this
      ensures manager == old(manager)
      ensures watched == old(watched) - {id} && polling == (old(polling) && watched != {})
    {
      watched := watched - {id};
      if watched == {} && polling {
        polling := false;
      }
    }

    method StopAll()
      modifies this
      ensures manager == old(manager)
      ensures watched == {} && !polling
    {
      watched := {};
      if polling {
        polling := false;
      }
    }

    /** Looks the record up again for every access, so the verifier checks that none is erased. */
    method CheckProcess(id: string, stops: seq<string>)
      requires manager != null && manager.watchdog == this
      modifies this, manager
      ensures manager == old(manager) && manager.watchdog == this
      ensures manager.Now() == CheckStep(old(manager.Now()), id, stops)
    {
      hide StopMany;
      if id !in manager.records {
        StopWatching(id);
        return;
      }
      if manager.records[id].process.None? {
        StopWatching(id);
        manager.NotifyStatusChanged(id, Crashed, stops);
        return;
      }
      if manager.records[id].process.value !in manager.exited {
        return;
      }
      var wasIntentionallyStopped := manager.records[id].status == Stopped;
      StopWatching(id);
      if !wasIntentionallyStopped {
        manager.NotifyStatusChanged(id, Crashed, stops);
      }
    }

    /** `OnPoll` walks over a copy of the watched ids.  Before the i-th check the children in `exits[i]` exit, and
        `stops[i]` is what observers stop during it. */
    method OnPoll(exits: seq<set<nat>>, stops: seq<seq<string>>) returns (ghost rounds: seq<Round>)
      requires manager != null && manager.watchdog == this && |exits| == |stops| == |watched|
      modifies this, manager
      ensures manager == old(manager) && manager.watchdog == this
      ensures Enumerates(IdsOf(rounds), old(watched)) && |rounds| == |stops|
      ensures forall i :: 0 <= i < |rounds| ==> rounds[i].exits == exits[i] && rounds[i].stops == stops[i]
      ensures manager.Now() == SweepStep(old(manager.Now()), rounds)
    {
      hide CheckStep;
      var copy := watched;
      rounds := [];
      var i := 0;
      while copy != {}
        invariant manager == old(manager) && manager.watchdog == this
        invariant copy <= old(watched) && i == |rounds| && |rounds| + |copy| == |stops|
        invariant Enumerates(IdsOf(rounds), old(watched) - copy)
        invariant forall k :: 0 <= k < i ==> rounds[k].exits == exits[k] && rounds[k].stops == stops[k]
        invariant manager.Now() == SweepStep(old(manager.Now()), rounds)
        decreases |copy|
      {
        var id :| id in copy;
        copy := copy - {id};
        manager.exited := manager.exited + exits[i];
        CheckProcess(id, stops[i]);
        ghost var round := Round(id, exits[i], stops[i]);
        assert (rounds + [round])[..i] == rounds;
        assert IdsOf(rounds + [round]) == IdsOf(rounds) + [id];
        rounds := rounds + [round];
        i := i + 1;
      }
      assert old(watched) - copy == old(watched);
    }
  }

  class Manager {
    var records: map<string, Record>
    var appliers: set<string>
    var watchdog: Watchdog
    var pending: seq<Pending>
    var answered: seq<nat>
    var tickets: nat
    var launched: nat
    var exited: set<nat>
    var terminated: set<nat>
    var destroyed: bool

    ghost function Now(): State
      reads this, watchdog
    {
      State(records, appliers, watchdog.watched, watchdog.polling, pending, answered, tickets,
            launched, exited, terminated, destroyed)
    }

    constructor ()
      ensures fresh(watchdog) && watchdog.manager == this && Now() == INITIAL
    {
      records, appliers, pending, answered, tickets := map[], {}, [], [], 0;
      launched, exited, terminated, destroyed := 0, {}, {}, false;
      watchdog := new Watchdog();
      new;
      watchdog.manager := this;
    }

    /** `port` is what `FindAvailablePort` finds, 0 if nothing. */
    method Start(id: string, port: int)
      modifies this
      ensures watchdog == old(watchdog) && watchdog.manager == old(watchdog.manager)
      ensures Now() == StartStep(old(Now()), id, port)
    {
      var ticket := tickets;
      tickets := tickets + 1;
      if id in records && records[id].status != Stopped && records[id].status != Crashed {
        answered := answered + [ticket];
        return;
      }
      if |records| >= MAX_CONCURRENT {
        answered := answered + [ticket];
        return;
      }
      if port == 0 {
        answered := answered + [ticket];
        return;
      }
      pending := pending + [Pending(id, port, ticket)];
    }

    /** The reply of the `k`-th background task; `launchOk` is whether `LaunchProcess` gave a valid process. */
    method ReplyAndContinueStart(k: nat, launchOk: bool)
      requires k < |pending|
      modifies this, watchdog
      ensures watchdog == old(watchdog) && watchdog.manager == old(watchdog.manager)
      ensures Now() == ContinueStep(old(Now()), k, launchOk)
    {
      var p := pending[k];
      pending := pending[..k] + pending[k + 1..];
      if destroyed {
        answered := answered + [p.ticket];
        return;
      }
      if !launchOk {
        answered := answered + [p.ticket];
        return;
      }
      var running := Record(Some(launched), p.port, Starting);
      launched := launched + 1;
      records := records[p.id := running];
      watchdog.StartWatching(p.id);
      records := records[p.id := records[p.id].(status := Running)];
      appliers := appliers + {p.id};
      answered := answered + [p.ticket];
    }

    method Stop(id: string)
      modifies this, watchdog
      ensures watchdog == old(watchdog) && watchdog.manager == old(watchdog.manager)
      ensures Now() == StopStep(old(Now()), id)
    {
      if id !in records {
        return;
      }
      watchdog.StopWatching(id);
      TerminateOne(id);
      appliers := appliers - {id};
      records := records - {id};
    }

    method TerminateOne(id: string)
      requires id in records
      modifies this`records, this`terminated
      ensures terminated == old(terminated)
                            + if old(records)[id].process.Some? then {old(records)[id].process.value} else {}
      ensures records == old(records)[id := old(records)[id].(status := Stopped)]
    {
      if records[id].process.Some? {
        terminated := terminated + {records[id].process.value};
      }
      records := records[id := records[id].(status := Stopped)];
    }

    method StopAll()
      modifies this, watchdog
      ensures watchdog == old(watchdog) && watchdog.manager == old(watchdog.manager)
      ensures Now() == StopAllStep(old(Now()))
    {
      hide ProcessesOf;
      watchdog.StopAll();
      TerminateAll();
      appliers := {};
      records := map[];
    }

    /** The loop of `StopAll`. */
    method TerminateAll()
      modifies this`records, this`terminated
      ensures terminated == old(terminated) + ProcessesOf(old(records))
    {
      hide ProcessesOf, ProcessesBut;
      ghost var before := records;
      NoProcesses(before);
      var rest := records.Keys;
      while rest != {}
        invariant rest <= records.Keys && records.Keys == before.Keys
        invariant forall id :: id in rest ==> records[id].process == before[id].process
        invariant terminated == old(terminated) + ProcessesBut(before, rest)
        decreases |rest|
      {
        var id :| id in rest;
        ProcessesOfOneMore(before, rest, id);
        rest := rest - {id};
        if records[id].process.Some? {
          terminated := terminated + {records[id].process.value};
          records := records[id := records[id].(status := Stopped)];
        }
      }
    }

    method NotifyStatusChanged(id: string, status: Status, stops: seq<string>)
      modifies this, watchdog
      ensures watchdog == old(watchdog) && watchdog.manager == old(watchdog.manager)
      ensures Now() == NotifyStep(old(Now()), id, status, stops)
    {
      if id in records {
        records := records[id := records[id].(status := status)];
      }
      ghost var notified := Now();
      var i := 0;
      while i < |stops|
        invariant 0 <= i <= |stops| && watchdog == old(watchdog) && watchdog.manager == old(watchdog.manager)
        invariant Now() == StopMany(notified, stops[..i])
      {
        Stop(stops[i]);
        assert stops[..i + 1][..i] == stops[..i];
        i := i + 1;
      }
      assert stops[..i] == stops;
    }

    /** `RunningCount`: how many records are starting or running. */
    method RunningCount() returns (count: nat)
      ensures count == |set id | id in records && (records[id].status == Running || records[id].status == Starting)|
    {
      count := 0;
      var rest := records.Keys;
      ghost var counted: set<string> := {};
      while rest != {}
        invariant rest <= records.Keys && count == |counted|
        invariant counted == set id | id in records && id !in rest
                                     && (records[id].status == Running || records[id].status == Starting)
        decreases |rest|
      {
        var id :| id in rest;
        rest := rest - {id};
        if records[id].status == Running || records[id].status == Starting {
          count := count + 1;
          counted := counted + {id};
        }
      }
      assert counted == set id | id in records && (records[id].status == Running || records[id].status == Starting);
    }
  }
}
