/** What every run of the workspace manager keeps. */
module LifecycleRuns {

  import opened Collections
  import opened Lifecycle

  datatype Op =
    | Start(id: string, port: int)
    | Continue(k: nat, launchOk: bool)
    | Stop(id: string)
    | StopAll
    | Exit(process: nat)
    | Poll(rounds: seq<Round>)
    | Destroy

  /** Background replies arrive, and children exit, even after the manager is gone; nothing else happens then. */
  ghost predicate Enabled(s: State, op: Op) {
    match op
    case Continue(k, _) => k < |s.pending|
    case Exit(process) => process < s.launched
    case Poll(rounds) =>
      && !s.destroyed && s.polling && Enumerates(IdsOf(rounds), s.watched)
      && forall i, p :: 0 <= i < |rounds| && p in rounds[i].exits ==> p < s.launched
    case _ => !s.destroyed
  }

  ghost function Next(s: State, op: Op): State
    requires Enabled(s, op)
  {
    match op
    case Start(id, port) => StartStep(s, id, port)
    case Continue(k, launchOk) => ContinueStep(s, k, launchOk)
    case Stop(id) => StopStep(s, id)
    case StopAll => StopAllStep(s)
    case Exit(process) => ExitStep(s, {process})
    case Poll(rounds) => SweepStep(s, rounds)
    case Destroy => StopAllStep(s).(destroyed := true)
  }

  /** A run from `start`: calls, background replies, exits, polls and the destructor interleaved in any order. */
  ghost predicate IsRunFrom(start: State, states: seq<State>, ops: seq<Op>): (run: bool)
    ensures run ==> |states| == |ops| + 1
  {
    && |states| == |ops| + 1 && states[0] == start
    && forall i :: 0 <= i < |ops| ==> Enabled(states[i], ops[i]) && states[i + 1] == Next(states[i], ops[i])
  }

  ghost predicate IsRun(states: seq<State>, ops: seq<Op>) {
    IsRunFrom(INITIAL, states, ops)
  }

  // --- A sweep of the watchdog -----------------------------------------------------------------------------

  /** Stopping workspaces removes their records and changes no other. */
  lemma {:induction false} StopManyEffect(s: State, ids: seq<string>)
    ensures var t := StopMany(s, ids);
            && (forall id :: id in t.records <==> id in s.records && id !in ids)
            && (forall id :: id in t.records ==> t.records[id] == s.records[id])
            && (s.watched <= s.records.Keys ==> t.watched == s.watched - set id | id in ids)
            && t.exited == s.exited && t.pending == s.pending && t.answered == s.answered && t.tickets == s.tickets
            && t.launched == s.launched && t.destroyed == s.destroyed
  {
    if ids != [] {
      var n := |ids| - 1;
      StopManyEffect(s, ids[..n]);
      assert ids == ids[..n] + [ids[n]];
    }
  }

  /** The children that have exited by the end of these checks. */
  function Seen(s: State, rounds: seq<Round>): set<nat> {
    if rounds == [] then s.exited else Seen(s, rounds[..|rounds| - 1]) + rounds[|rounds| - 1].exits
  }

  /** The record's handle is invalid, or its child is among those that have exited. */
  predicate DeadBy(s: State, id: string, exited: set<nat>)
    requires id in s.records
  {
    s.records[id].process.None? || s.records[id].process.value in exited
  }

  /** The ids whose record was dead when it was checked. */
  function FoundDead(s: State, rounds: seq<Round>): set<string> {
    if rounds == [] then {}
    else
      var n := |rounds| - 1;
      var id := rounds[n].id;
      FoundDead(s, rounds[..n]) + if id in s.records && DeadBy(s, id, Seen(s, rounds)) then {id} else {}
  }

  /** A check finds its record dead if its child has exited by then; later exits are left to the next poll. */
  lemma {:induction false} FoundDeadExactly(s: State, rounds: seq<Round>, i: nat)
    requires i < |rounds| && forall j, k :: 0 <= j < k < |rounds| ==> rounds[j].id != rounds[k].id
    ensures var id := rounds[i].id;
            id in FoundDead(s, rounds) <==> id in s.records && DeadBy(s, id, Seen(s, rounds[..i + 1]))
  {
    var n := |rounds| - 1;
    if i < n {
      FoundDeadExactly(s, rounds[..n], i);
      assert rounds[..n][..i + 1] == rounds[..i + 1];
    } else {
      assert rounds[..i + 1] == rounds;
      OnlyChecked(s, rounds[..n], rounds[n].id);
    }
  }

  lemma {:induction false} OnlyChecked(s: State, rounds: seq<Round>, id: string)
    requires forall i :: 0 <= i < |rounds| ==> rounds[i].id != id
    ensures id !in FoundDead(s, rounds)
  {
    if rounds == [] {
    } else {
      OnlyChecked(s, rounds[..|rounds| - 1], id);
    }
  }

  /** What checks make of the records when they find `dead` dead, in any order and with observers stopping any
      workspaces: what is still there is unchanged, except that a dead record is Crashed and no longer watched. */
  ghost predicate SweptRight(s: State, t: State, dead: set<string>) {
    && (forall id :: id in t.records ==> id in s.records)
    && (forall id :: id in t.records ==>
          t.records[id] == if id in dead then s.records[id].(status := Crashed) else s.records[id])
    && (forall id :: id in t.watched <==> id in s.watched && id in t.records && id !in dead)
  }

  ghost predicate SameElsewhere(s: State, t: State, exited: set<nat>) {
    t.exited == exited && t.pending == s.pending && t.answered == s.answered && t.tickets == s.tickets
    && t.launched == s.launched && t.destroyed == s.destroyed
  }

  /** The state in which `CheckProcess` notifies the observers. */
  function Crashing(s: State, id: string): State
    requires id in s.records
  {
    var t := Unwatch(s, id);
    t.(records := t.records[id := t.records[id].(status := Crashed)])
  }

  lemma CrashingIsRight(s: State, t: State, dead: set<string>, id: string)
    requires s.watched <= s.records.Keys && id in s.watched && SweptRight(s, t, dead) && id in t.records
    ensures SweptRight(s, Crashing(t, id), dead + {id})
  {
  }

  lemma StopsKeepRight(s: State, t: State, dead: set<string>, stops: seq<string>)
    requires SweptRight(s, t, dead) && t.watched <= t.records.Keys
    ensures SweptRight(s, StopMany(t, stops), dead)
  {
    hide StopMany;
    StopManyEffect(t, stops);
  }

  lemma CheckEffect(s: State, t: State, dead: set<string>, id: string, stops: seq<string>)
    requires s.watched <= s.records.Keys && id in s.watched && id !in dead && s.records[id].status != Stopped
    requires SweptRight(s, t, dead)
    ensures SweptRight(s, CheckStep(t, id, stops), dead + if DeadBy(s, id, t.exited) then {id} else {})
    ensures SameElsewhere(t, CheckStep(t, id, stops), t.exited)
  {
    hide StopMany;
    if id in t.records && Dead(t, id) {
      CrashingIsRight(s, t, dead, id);
      StopsKeepRight(s, Crashing(t, id), dead + {id}, stops);
      StopManyEffect(Crashing(t, id), stops);
      assert CheckStep(t, id, stops) == StopMany(Crashing(t, id), stops);
    }
  }

  /** A sweep is correct even if children exit and observers re-entrantly stop any workspaces between the checks. */
  lemma {:induction false} SweepIsCorrect(s: State, rounds: seq<Round>)
    requires s.watched <= s.records.Keys
    requires forall i, j :: 0 <= i < j < |rounds| ==> rounds[i].id != rounds[j].id
    requires forall i :: 0 <= i < |rounds| ==>
               rounds[i].id in s.watched && s.records[rounds[i].id].status != Stopped
    ensures SweptRight(s, SweepStep(s, rounds), FoundDead(s, rounds))
    ensures SameElsewhere(s, SweepStep(s, rounds), Seen(s, rounds))
  {
    hide CheckStep, SweptRight;
    if rounds == [] {
      assert SweptRight(s, s, {}) by { NothingSwept(s); }
    } else {
      var n := |rounds| - 1;
      var id := rounds[n].id;
      SweepIsCorrect(s, rounds[..n]);
      OnlyChecked(s, rounds[..n], id);
      var t := ExitStep(SweepStep(s, rounds[..n]), rounds[n].exits);
      ExitsKeepRight(s, SweepStep(s, rounds[..n]), FoundDead(s, rounds[..n]), rounds[n].exits);
      CheckEffect(s, t, FoundDead(s, rounds[..n]), id, rounds[n].stops);
    }
  }

  lemma NothingSwept(s: State)
    requires s.watched <= s.records.Keys
    ensures SweptRight(s, s, {})
  {
  }

  lemma ExitsKeepRight(s: State, t: State, dead: set<string>, exits: set<nat>)
    requires SweptRight(s, t, dead)
    ensures SweptRight(s, ExitStep(t, exits), dead)
  {
  }

  /** The i-th check of a sweep finds a record whose process has exited, so observers are notified. */
  ghost predicate Notified(s: State, rounds: seq<Round>, i: nat)
    requires i < |rounds|
  {
    var t := ExitStep(SweepStep(s, rounds[..i]), rounds[i].exits);
    rounds[i].id in t.records && Dead(t, rounds[i].id)
  }

  /** A sweep removes exactly the records that some notified observer stopped. */
  lemma {:induction false} SweepRemovesExactlyTheStopped(s: State, rounds: seq<Round>, id: string)
    requires s.watched <= s.records.Keys
    requires forall i, j :: 0 <= i < j < |rounds| ==> rounds[i].id != rounds[j].id
    requires forall i :: 0 <= i < |rounds| ==>
               rounds[i].id in s.watched && s.records[rounds[i].id].status != Stopped
    ensures id in SweepStep(s, rounds).records <==>
              id in s.records && forall i :: 0 <= i < |rounds| && Notified(s, rounds, i) ==> id !in rounds[i].stops
  {
    if rounds == [] {
    } else {
      var n := |rounds| - 1;
      SweepRemovesExactlyTheStopped(s, rounds[..n], id);
      hide Notified, SweepStep;
      forall i: nat | i < n ensures Notified(s, rounds, i) == Notified(s, rounds[..n], i) {
        NotifiedPrefix(s, rounds, n, i);
      }
      LastCheckRemoves(s, rounds, id);
    }
  }

  lemma NotifiedPrefix(s: State, rounds: seq<Round>, n: nat, i: nat)
    requires i < n <= |rounds|
    ensures Notified(s, rounds, i) == Notified(s, rounds[..n], i)
  {
    assert rounds[..n][..i] == rounds[..i];
  }

  lemma LastCheckRemoves(s: State, rounds: seq<Round>, id: string)
    requires rounds != [] && s.watched <= s.records.Keys
    requires forall i, j :: 0 <= i < j < |rounds| ==> rounds[i].id != rounds[j].id
    requires forall i :: 0 <= i < |rounds| ==>
               rounds[i].id in s.watched && s.records[rounds[i].id].status != Stopped
    ensures var n := |rounds| - 1;
            id in SweepStep(s, rounds).records <==>
              id in SweepStep(s, rounds[..n]).records && (Notified(s, rounds, n) ==> id !in rounds[n].stops)
  {
    hide StopMany;
    var n := |rounds| - 1;
    SweepIsCorrect(s, rounds[..n]);
    OnlyChecked(s, rounds[..n], rounds[n].id);
    var t := ExitStep(SweepStep(s, rounds[..n]), rounds[n].exits);
    if Notified(s, rounds, n) {
      StopManyEffect(Crashing(t, rounds[n].id), rounds[n].stops);
    }
  }

  // --- Between tasks ---------------------------------------------------------------------------------------

  /** Appliers and records have the same ids, the watched ids are those with status Running, and the poll timer runs
      exactly when something is watched.  Every record is Running or Crashed and owns its child alone; a Crashed
      one's child has exited. */
  ghost predicate Tidy(s: State) {
    && s.appliers == s.records.Keys
    && (forall id :: id in s.watched <==> id in s.records && s.records[id].status == Running)
    && (s.polling <==> s.watched != {})
    && (forall id :: id in s.records ==> GoodRecord(s, s.records[id]))
    && (forall i, j :: i in s.records && j in s.records && i != j ==> s.records[i].process != s.records[j].process)
    && (s.destroyed ==> s.records == map[])
  }

  ghost predicate GoodRecord(s: State, r: Record) {
    && r.process.Some? && r.process.value < s.launched
    && (r.status == Running || (r.status == Crashed && r.process.value in s.exited))
  }

  lemma TidyStop(s: State, id: string)
    requires Tidy(s)
    ensures Tidy(StopStep(s, id))
  {
  }

  lemma {:induction false} TidyStopMany(s: State, ids: seq<string>)
    requires Tidy(s)
    ensures Tidy(StopMany(s, ids))
  {
    hide Tidy, StopStep;
    if ids != [] {
      TidyStopMany(s, ids[..|ids| - 1]);
      TidyStop(StopMany(s, ids[..|ids| - 1]), ids[|ids| - 1]);
    }
  }

  lemma CrashingIsTidy(s: State, id: string)
    requires Tidy(s) && id in s.watched && id in s.records && Dead(s, id)
    ensures Tidy(Crashing(s, id))
  {
  }

  lemma TidyCheck(s: State, id: string, stops: seq<string>)
    requires Tidy(s) && id in s.watched
    ensures Tidy(CheckStep(s, id, stops))
  {
    hide StopMany, GoodRecord;
    if Dead(s, id) {
      assert s.records[id].status == Running;
      assert CheckStep(s, id, stops) == StopMany(Crashing(s, id), stops);
      hide Tidy, CheckStep;
      CrashingIsTidy(s, id);
      TidyStopMany(Crashing(s, id), stops);
    }
  }

  lemma TidyCheckGone(s: State, id: string, stops: seq<string>)
    requires Tidy(s) && id !in s.watched && (id in s.records ==> !Dead(s, id))
    ensures Tidy(CheckStep(s, id, stops))
  {
    assert s.watched - {id} == s.watched;
  }

  lemma WatchedAreLive(s: State)
    requires Tidy(s)
    ensures s.watched <= s.records.Keys && forall id :: id in s.watched ==> s.records[id].status != Stopped
  {
  }

  lemma TidyExit(s: State, exits: set<nat>)
    requires Tidy(s)
    ensures Tidy(ExitStep(s, exits))
  {
  }

  lemma TidyRound(s: State, t: State, dead: set<string>, round: Round)
    requires Tidy(t) && SweptRight(s, t, dead) && round.id in s.watched && round.id !in dead
    ensures Tidy(RoundStep(t, round))
  {
    hide Tidy, CheckStep, SweptRight;
    var u := ExitStep(t, round.exits);
    TidyExit(t, round.exits);
    if round.id in u.watched {
      TidyCheck(u, round.id, round.stops);
    } else {
      StillAlive(s, t, dead, round.id);
      TidyCheckGone(u, round.id, round.stops);
    }
  }

  lemma {:induction false} TidySweep(s: State, rounds: seq<Round>)
    requires Tidy(s)
    requires forall i, j :: 0 <= i < j < |rounds| ==> rounds[i].id != rounds[j].id
    requires forall i :: 0 <= i < |rounds| ==> rounds[i].id in s.watched
    ensures Tidy(SweepStep(s, rounds))
  {
    WatchedAreLive(s);
    hide Tidy, RoundStep, SweptRight, SameElsewhere, FoundDead;
    if rounds == [] {
    } else {
      var n := |rounds| - 1;
      TidySweep(s, rounds[..n]);
      SweepIsCorrect(s, rounds[..n]);
      OnlyChecked(s, rounds[..n], rounds[n].id);
      TidyRound(s, SweepStep(s, rounds[..n]), FoundDead(s, rounds[..n]), rounds[n]);
    }
  }

  lemma StillAlive(s: State, t: State, dead: set<string>, id: string)
    requires SweptRight(s, t, dead)
    requires id in s.watched && id !in dead && id !in t.watched
    ensures id !in t.records
  {
  }

  lemma TidyContinue(s: State, k: nat, launchOk: bool)
    requires Tidy(s) && k < |s.pending|
    ensures Tidy(ContinueStep(s, k, launchOk))
  {
  }

  lemma TidyStep(s: State, op: Op)
    requires Tidy(s) && Enabled(s, op)
    ensures Tidy(Next(s, op))
  {
    match op
    case Start(id, port) =>
    case Continue(k, launchOk) => TidyContinue(s, k, launchOk);
    case Stop(id) => TidyStop(s, id);
    case StopAll =>
    case Exit(process) => TidyExit(s, {process});
    case Poll(rounds) =>
      assert forall i :: 0 <= i < |rounds| ==> IdsOf(rounds)[i] == rounds[i].id;
      TidySweep(s, rounds);
    case Destroy =>
  }

  /** Between tasks, in every run, the manager, its appliers, its watchdog and the poll timer agree. */
  lemma {:induction false} AlwaysTidy(states: seq<State>, ops: seq<Op>, n: nat)
    requires IsRun(states, ops) && n <= |ops|
    ensures Tidy(states[n])
  {
    if n > 0 {
      AlwaysTidy(states, ops, n - 1);
      hide Tidy, Next, Enabled;
      TidyStep(states[n - 1], ops[n - 1]);
    }
  }

  /** The watched set has as many elements as `RunningCount` counts records. */
  lemma RunningCountIsWatched(s: State)
    requires Tidy(s)
    ensures (set id | id in s.records && (s.records[id].status == Running || s.records[id].status == Starting))
            == s.watched
  {
  }
}
