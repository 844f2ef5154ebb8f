/** Safety over whole runs of the workspace manager: callbacks, the limit on workspaces, and no lost child. */
module LifecycleSafety {

  import opened Collections
  import opened Wrappers
  import opened Lifecycle
  import opened LifecycleRuns

  // --- Every Start is answered exactly once ------------------------------------------------------------------

  function TicketsOf(pending: seq<Pending>): (r: seq<nat>)
    ensures |r| == |pending|
  {
    seq(|pending|, i requires 0 <= i < |pending| => pending[i].ticket)
  }

  /** Every `Start` call so far has had its callback run exactly once or is still pending, never both. */
  ghost predicate AnsweredOnce(s: State) {
    forall t: nat :: multiset(s.answered)[t] + multiset(TicketsOf(s.pending))[t] == if t < s.tickets then 1 else 0
  }

  lemma MultisetWithout<T>(xs: seq<T>, k: nat)
    requires k < |xs|
    ensures multiset(xs) == multiset(Without(xs, k)) + multiset{xs[k]}
  {
    assert xs == xs[..k] + [xs[k]] + xs[k + 1..];
  }

  lemma StartAnswers(s: State, id: string, port: int)
    requires AnsweredOnce(s)
    ensures AnsweredOnce(StartStep(s, id, port))
  {
    hide TicketsOf;
    TicketsPlus(s.pending, Pending(id, port, s.tickets));
  }

  lemma TicketsPlus(pending: seq<Pending>, p: Pending)
    ensures TicketsOf(pending + [p]) == TicketsOf(pending) + [p.ticket]
  {
  }

  lemma ContinueAnswers(s: State, k: nat, launchOk: bool)
    requires AnsweredOnce(s) && k < |s.pending|
    ensures AnsweredOnce(ContinueStep(s, k, launchOk))
  {
    hide TicketsOf;
    assert TicketsOf(s.pending)[k] == s.pending[k].ticket
        && TicketsOf(Without(s.pending, k)) == Without(TicketsOf(s.pending), k) by { TicketsWithout(s.pending, k); }
    MultisetWithout(TicketsOf(s.pending), k);
  }

  lemma TicketsWithout(pending: seq<Pending>, k: nat)
    requires k < |pending|
    ensures TicketsOf(pending)[k] == pending[k].ticket
    ensures TicketsOf(Without(pending, k)) == Without(TicketsOf(pending), k)
  {
  }

  lemma SameAnswers(s: State, t: State)
    requires AnsweredOnce(s) && t.answered == s.answered && t.pending == s.pending && t.tickets == s.tickets
    ensures AnsweredOnce(t)
  {
  }

  lemma PollEffect(s: State, rounds: seq<Round>)
    requires Tidy(s) && Enabled(s, Poll(rounds))
    ensures SweptRight(s, SweepStep(s, rounds), FoundDead(s, rounds))
    ensures SameElsewhere(s, SweepStep(s, rounds), Seen(s, rounds))
  {
    hide SweepStep, SweptRight, SameElsewhere;
    assert forall i :: 0 <= i < |rounds| ==> IdsOf(rounds)[i] == rounds[i].id;
    SweepIsCorrect(s, rounds);
  }

  lemma AnsweredOnceStep(s: State, op: Op)
    requires AnsweredOnce(s) && Tidy(s) && Enabled(s, op)
    ensures AnsweredOnce(Next(s, op))
  {
    hide AnsweredOnce, Tidy, StartStep, ContinueStep, SweepStep, SweptRight;
    match op
    case Start(id, port) => StartAnswers(s, id, port);
    case Continue(k, launchOk) => ContinueAnswers(s, k, launchOk);
    case Poll(rounds) =>
      PollEffect(s, rounds);
      SameAnswers(s, Next(s, op));
    case _ => SameAnswers(s, Next(s, op));
  }

  /** In every run, each `Start` call's callback runs exactly once, or the call is still pending; also when the manager
      has been destroyed meanwhile. */
  lemma {:induction false} EveryStartAnsweredOnce(states: seq<State>, ops: seq<Op>, n: nat)
    requires IsRun(states, ops) && n <= |ops|
    ensures AnsweredOnce(states[n])
  {
    if n > 0 {
      EveryStartAnsweredOnce(states, ops, n - 1);
      AlwaysTidy(states, ops, n - 1);
      hide Tidy, Next, Enabled, AnsweredOnce;
      AnsweredOnceStep(states[n - 1], ops[n - 1]);
    }
  }

  // --- The limit on concurrent workspaces -------------------------------------------------------------------

  lemma FewerKeys(a: map<string, Record>, b: map<string, Record>)
    requires a.Keys <= b.Keys
    ensures |a| <= |b|
  {
    SubsetSize(a.Keys, b.Keys);
  }

  lemma {:induction false} SubsetSize(a: set<string>, b: set<string>)
    requires a <= b
    ensures |a| <= |b|
  {
    if a != {} {
      var x :| x in a;
      SubsetSize(a - {x}, b - {x});
    }
  }

  lemma OneMoreKey(m: map<string, Record>, id: string, r: Record)
    ensures |m[id := r]| == |m| + if id in m then 0 else 1
  {
    assert m[id := r].Keys == m.Keys + {id};
  }

  lemma CapacityStep(s: State, op: Op, k: nat)
    requires Tidy(s) && Enabled(s, op)
    requires |s.records| + |s.pending| <= MAX_CONCURRENT - 1 + k
    requires |Next(s, op).pending| <= k
    ensures |Next(s, op).records| + |Next(s, op).pending| <= MAX_CONCURRENT - 1 + k
  {
    hide Tidy, SweepStep;
    match op
    case Continue(j, launchOk) =>
      OneMoreKey(s.records, s.pending[j].id, Record(Some(s.launched), s.pending[j].port, Running));
    case Stop(id) => FewerKeys(s.records - {id}, s.records);
    case Poll(rounds) =>
      PollEffect(s, rounds);
      FewerKeys(SweepStep(s, rounds).records, s.records);
    case _ =>
  }

  /** If never more than `k` starts are pending, records and pending starts together stay at most 9 + k: the limit of
      ten holds when starts are serialised. */
  lemma {:induction false} Capacity(states: seq<State>, ops: seq<Op>, k: nat, n: nat)
    requires IsRun(states, ops) && n <= |ops|
    requires forall i :: 0 <= i <= n ==> |states[i].pending| <= k
    ensures |states[n].records| + |states[n].pending| <= 9 + k
  {
    if n > 0 {
      Capacity(states, ops, k, n - 1);
      AlwaysTidy(states, ops, n - 1);
      hide Tidy, Next, Enabled;
      assert states[n - 1 + 1] == Next(states[n - 1], ops[n - 1]);
      CapacityStep(states[n - 1], ops[n - 1], k);
    }
  }

  // --- When a start goes ahead -------------------------------------------------------------------------------

  /** A start goes ahead exactly when its workspace has no record that is starting or running, there are fewer than ten
      records and a port is free; otherwise it is answered at once.  Nothing else changes. */
  lemma StartGoesAheadExactly(s: State, id: string, port: int)
    requires !s.destroyed
    ensures var active := id in s.records && (s.records[id].status == Starting || s.records[id].status == Running);
            Next(s, Start(id, port))
            == if !active && |s.records| < 10 && port != 0
               then s.(tickets := s.tickets + 1, pending := s.pending + [Pending(id, port, s.tickets)])
               else s.(tickets := s.tickets + 1, answered := s.answered + [s.tickets])
  {
  }

  /** What a start that goes on leaves: a record of a new child on the start's own port, Running, watched and with an
      applier, and every other record as it was; if the launch fails, only the answer. */
  lemma ContinueEffect(s: State, k: nat, launchOk: bool)
    requires k < |s.pending|
    ensures var p := s.pending[k];
            var t := Next(s, Continue(k, launchOk));
            && t.pending == s.pending[..k] + s.pending[k + 1..] && t.answered == s.answered + [p.ticket]
            && t == (if s.destroyed || !launchOk then s.(pending := t.pending, answered := t.answered)
                     else
                       s.(pending := t.pending, answered := t.answered, launched := s.launched + 1, polling := true,
                          records := s.records[p.id := Record(Some(s.launched), p.port, Running)],
                          appliers := s.appliers + {p.id}, watched := s.watched + {p.id}))
  {
  }

  /** A workspace whose child has crashed can be started again: in every run, with fewer than ten records and a free
      port, its start goes ahead, and when it goes on the workspace runs with a new child on the new port. */
  lemma CrashedCanRestart(states: seq<State>, ops: seq<Op>, n: nat, id: string, port: int)
    requires IsRun(states, ops) && n <= |ops| && !states[n].destroyed
    requires id in states[n].records && states[n].records[id].status == Crashed
    requires |states[n].records| < 10 && port != 0
    ensures var s := states[n];
            var t := Next(s, Start(id, port));
            && |t.pending| == |s.pending| + 1
            && var u := Next(t, Continue(|s.pending|, true));
               && id in u.records && u.records[id] == Record(Some(s.launched), port, Running)
               && s.records[id].process != Some(s.launched) && id in u.watched && u.polling
  {
    AlwaysTidy(states, ops, n);
    StartGoesAheadExactly(states[n], id, port);
    ContinueEffect(Next(states[n], Start(id, port)), |states[n].pending|, true);
  }

  /** What a stop does: the record, its applier and its watch are gone, its child is terminated, and nothing else
      changes but the timer. */
  lemma StopEffect(s: State, id: string)
    requires !s.destroyed
    ensures var t := Next(s, Stop(id));
            && (id !in s.records ==> t == s)
            && (id in s.records ==>
                  && t.records == s.records - {id} && t.appliers == s.appliers - {id} && t.watched == s.watched - {id}
                  && (s.records[id].process.Some? ==> t.terminated == s.terminated + {s.records[id].process.value})
                  && t.pending == s.pending && t.answered == s.answered && t.exited == s.exited
                  && t.launched == s.launched)
  {
  }

  /** Stopping everything leaves no record, applier or watch, and terminates every child a record held. */
  lemma StopAllEffect(s: State)
    requires !s.destroyed
    ensures var t := Next(s, StopAll);
            && t.records == map[] && t.appliers == {} && t.watched == {} && !t.polling
            && (forall id :: id in s.records && s.records[id].process.Some? ==>
                  s.records[id].process.value in t.terminated)
            && t.pending == s.pending && t.answered == s.answered && t.launched == s.launched
  {
    forall id | id in s.records && s.records[id].process.Some?
      ensures s.records[id].process.value in ProcessesOf(s.records)
    {
    }
  }

  // --- No child is lost ------------------------------------------------------------------------------------

  ghost predicate Owned(s: State, process: nat) {
    exists id :: id in s.records && s.records[id].process == Some(process)
  }

  /** Every launched child has exited, has been terminated, or belongs to a record. */
  ghost predicate Accounted(s: State) {
    forall p: nat :: p < s.launched ==> p in s.exited || p in s.terminated || Owned(s, p)
  }

  /** The record of `id` holds a child that still runs and was not told to stop. */
  ghost predicate HoldsLiveChild(s: State, id: string) {
    id in s.records && s.records[id].process.Some?
    && s.records[id].process.value !in s.exited && s.records[id].process.value !in s.terminated
  }

  /** `ContinueStart` loses a child exactly when the record it overwrites holds a live one. */
  lemma ContinueLosesLiveChild(s: State, k: nat)
    requires Tidy(s) && Accounted(s) && !s.destroyed && k < |s.pending|
    ensures Accounted(ContinueStep(s, k, true)) <==> !HoldsLiveChild(s, s.pending[k].id)
  {
    var p := s.pending[k];
    var t := ContinueStep(s, k, true);
    assert t.records[p.id].process == Some(s.launched);
    if HoldsLiveChild(s, p.id) {
      var child := s.records[p.id].process.value;
      assert !Owned(t, child);
      assert child < t.launched;
    } else {
      forall q: nat | q < t.launched ensures q in t.exited || q in t.terminated || Owned(t, q) {
        if q < s.launched && Owned(s, q) {
          var id :| id in s.records && s.records[id].process == Some(q);
          if id != p.id {
            assert t.records[id].process == Some(q);
          }
        }
      }
    }
  }

  /** Losing no record without terminating its child keeps every child accounted for. */
  lemma StopKeepsAccount(s: State, id: string)
    requires Accounted(s)
    ensures Accounted(StopStep(s, id))
  {
    var t := StopStep(s, id);
    forall p: nat | p < t.launched ensures p in t.exited || p in t.terminated || Owned(t, p) {
      if Owned(s, p) {
        var j :| j in s.records && s.records[j].process == Some(p);
        if j != id {
          assert t.records[j].process == Some(p);
        }
      }
    }
  }

  lemma {:induction false} StopManyKeepsAccount(s: State, ids: seq<string>)
    requires Accounted(s)
    ensures Accounted(StopMany(s, ids))
  {
    hide Accounted, StopStep;
    if ids != [] {
      StopManyKeepsAccount(s, ids[..|ids| - 1]);
      StopKeepsAccount(StopMany(s, ids[..|ids| - 1]), ids[|ids| - 1]);
    }
  }

  lemma StatusKeepsAccount(s: State, id: string, status: Status)
    requires Accounted(s) && id in s.records
    ensures Accounted(Unwatch(s, id).(records := s.records[id := s.records[id].(status := status)]))
  {
    var t := Unwatch(s, id).(records := s.records[id := s.records[id].(status := status)]);
    forall p: nat | p < t.launched ensures p in t.exited || p in t.terminated || Owned(t, p) {
      if Owned(s, p) {
        var j :| j in s.records && s.records[j].process == Some(p);
        assert t.records[j].process == Some(p);
      }
    }
  }

  lemma UnwatchKeepsAccount(s: State, id: string)
    requires Accounted(s)
    ensures Accounted(Unwatch(s, id))
  {
    forall p: nat | p < s.launched && Owned(s, p) ensures Owned(Unwatch(s, id), p) {
      var j :| j in s.records && s.records[j].process == Some(p);
      assert Unwatch(s, id).records[j].process == Some(p);
    }
  }

  lemma {:induction false} SweepKeepsAccount(s: State, rounds: seq<Round>)
    requires Accounted(s)
    ensures Accounted(SweepStep(s, rounds))
  {
    hide Accounted, CheckStep;
    if rounds == [] {
    } else {
      var n := |rounds| - 1;
      var t := SweepStep(s, rounds[..n]);
      SweepKeepsAccount(s, rounds[..n]);
      SameRecords(t, ExitStep(t, rounds[n].exits));
      CheckKeepsAccount(ExitStep(t, rounds[n].exits), rounds[n].id, rounds[n].stops);
    }
  }

  lemma CheckKeepsAccount(s: State, id: string, stops: seq<string>)
    requires Accounted(s)
    ensures Accounted(CheckStep(s, id, stops))
  {
    hide Accounted, StopMany;
    UnwatchKeepsAccount(s, id);
    if id in s.records {
      StatusKeepsAccount(s, id, Crashed);
      var t := Unwatch(s, id);
      StopManyKeepsAccount(t.(records := t.records[id := t.records[id].(status := Crashed)]), stops);
    }
  }

  lemma StopAllKeepsAccount(s: State)
    requires Accounted(s)
    ensures Accounted(StopAllStep(s))
  {
    forall p: nat | p < s.launched && Owned(s, p) ensures p in ProcessesOf(s.records) {
      var j :| j in s.records && s.records[j].process == Some(p);
      assert s.records[j].process.value in ProcessesOf(s.records);
    }
  }

  /** At most one start is pending per id, and an id with a pending start has no running record. */
  ghost predicate OneStartPerId(s: State) {
    && (forall i, j :: 0 <= i < j < |s.pending| ==> s.pending[i].id != s.pending[j].id)
    && (!s.destroyed ==> forall i :: 0 <= i < |s.pending| && s.pending[i].id in s.records ==>
          s.records[s.pending[i].id].status == Crashed)
  }

  /** A caller that does not start an id again while its previous `Start` is unanswered. */
  predicate Patient(s: State, op: Op) {
    op.Start? ==> forall i :: 0 <= i < |s.pending| ==> s.pending[i].id != op.id
  }

  lemma StartKeepsOne(s: State, id: string, port: int)
    requires OneStartPerId(s) && Patient(s, Start(id, port)) && !s.destroyed
    requires forall j :: j in s.records ==> GoodRecord(s, s.records[j])
    ensures OneStartPerId(StartStep(s, id, port))
  {
  }

  lemma ContinueKeepsOne(s: State, k: nat, launchOk: bool)
    requires OneStartPerId(s) && k < |s.pending|
    ensures OneStartPerId(ContinueStep(s, k, launchOk))
  {
    var rest := Without(s.pending, k);
    assert forall i :: 0 <= i < |rest| ==> rest[i] == s.pending[if i < k then i else i + 1];
    assert forall i :: 0 <= i < |rest| ==> rest[i].id != s.pending[k].id;
  }

  /** Losing records, and turning some Crashed, keeps it. */
  lemma FewerKeepOne(s: State, t: State)
    requires OneStartPerId(s) && t.pending == s.pending && (s.destroyed ==> t.destroyed)
    requires forall id :: id in t.records ==>
               id in s.records && (t.records[id].status == s.records[id].status || t.records[id].status == Crashed)
    ensures OneStartPerId(t)
  {
  }

  lemma OneStartPerIdStep(s: State, op: Op)
    requires Tidy(s) && OneStartPerId(s) && Enabled(s, op) && Patient(s, op)
    ensures OneStartPerId(Next(s, op))
  {
    hide OneStartPerId, StartStep, ContinueStep, SweepStep, Patient;
    match op
    case Start(id, port) => StartKeepsOne(s, id, port);
    case Continue(k, launchOk) => ContinueKeepsOne(s, k, launchOk);
    case Poll(rounds) =>
      hide Tidy;
      PollEffect(s, rounds);
      FewerKeepOne(s, Next(s, op));
    case _ => FewerKeepOne(s, Next(s, op));
  }

  lemma AccountedStep(s: State, op: Op)
    requires Tidy(s) && OneStartPerId(s) && Accounted(s) && Enabled(s, op)
    ensures Accounted(Next(s, op))
  {
    match op
    case Start(id, port) => SameRecords(s, StartStep(s, id, port));
    case Continue(k, launchOk) =>
      if s.destroyed || !launchOk {
        SameRecords(s, ContinueStep(s, k, launchOk));
      } else {
        ContinueLosesLiveChild(s, k);
      }
    case Stop(id) => StopKeepsAccount(s, id);
    case StopAll => StopAllKeepsAccount(s);
    case Exit(process) => SameRecords(s, Next(s, op));
    case Poll(rounds) => SweepKeepsAccount(s, rounds);
    case Destroy =>
      StopAllKeepsAccount(s);
      SameRecords(StopAllStep(s), Next(s, op));
  }

  lemma SameRecords(s: State, t: State)
    requires Accounted(s) && t.records == s.records && t.launched == s.launched
    requires s.exited <= t.exited && s.terminated <= t.terminated
    ensures Accounted(t)
  {
    forall p: nat | p < s.launched && Owned(s, p) ensures Owned(t, p) {
      var j :| j in s.records && s.records[j].process == Some(p);
      assert t.records[j].process == Some(p);
    }
  }

  ghost predicate AllPatient(states: seq<State>, ops: seq<Op>)
    requires |states| == |ops| + 1
  {
    forall i :: 0 <= i < |ops| ==> Patient(states[i], ops[i])
  }

  lemma {:induction false} NoChildIsLostFrom(start: State, states: seq<State>, ops: seq<Op>, n: nat)
    requires IsRunFrom(start, states, ops) && n <= |ops|
    requires forall i :: 0 <= i < n ==> Patient(states[i], ops[i])
    requires Tidy(start) && OneStartPerId(start) && Accounted(start)
    ensures Tidy(states[n]) && OneStartPerId(states[n]) && Accounted(states[n])
  {
    hide Tidy, Next, Enabled, Accounted, OneStartPerId, Patient;
    if n == 0 {
    } else {
      NoChildIsLostFrom(start, states, ops, n - 1);
      TidyStep(states[n - 1], ops[n - 1]);
      OneStartPerIdStep(states[n - 1], ops[n - 1]);
      AccountedStep(states[n - 1], ops[n - 1]);
    }
  }

  /** In any run with at most one pending start per id, every launched child has exited, has been terminated by `Stop`
      or `StopAll`, or belongs to exactly one record, and `ContinueStart` only ever overwrites Crashed records. */
  lemma NoChildIsLost(states: seq<State>, ops: seq<Op>, n: nat)
    requires IsRun(states, ops) && n <= |ops|
    requires forall i :: 0 <= i < n ==> Patient(states[i], ops[i])
    ensures Tidy(states[n]) && OneStartPerId(states[n]) && Accounted(states[n])
  {
    NoChildIsLostFrom(INITIAL, states, ops, n);
  }

  // --- Which starts are safe ---------------------------------------------------------------------------------

  /** Only launched children have exited, been terminated or are held by records. */
  ghost predicate Numbered(s: State) {
    && (forall p :: p in s.exited || p in s.terminated ==> p < s.launched)
    && (forall id :: id in s.records && s.records[id].process.Some? ==> s.records[id].process.value < s.launched)
  }

  lemma {:induction false} NumberedStops(s: State, ids: seq<string>)
    requires Numbered(s)
    ensures Numbered(StopMany(s, ids))
  {
    if ids == [] {
    } else {
      NumberedStops(s, ids[..|ids| - 1]);
    }
  }

  lemma NumberedCheck(s: State, id: string, stops: seq<string>)
    requires Numbered(s)
    ensures Numbered(CheckStep(s, id, stops))
  {
    hide StopMany;
    if id in s.records {
      NumberedStops(Crashing(s, id), stops);
    }
  }

  lemma {:induction false} NumberedSweep(s: State, rounds: seq<Round>)
    requires Numbered(s) && forall i, p :: 0 <= i < |rounds| && p in rounds[i].exits ==> p < s.launched
    ensures Numbered(SweepStep(s, rounds)) && SweepStep(s, rounds).launched == s.launched
  {
    if rounds == [] {
    } else {
      hide CheckStep;
      var n := |rounds| - 1;
      NumberedSweep(s, rounds[..n]);
      var t := ExitStep(SweepStep(s, rounds[..n]), rounds[n].exits);
      assert Numbered(t);
      NumberedCheck(t, rounds[n].id, rounds[n].stops);
      CheckLaunchesNone(t, rounds[n].id, rounds[n].stops);
    }
  }

  lemma CheckLaunchesNone(s: State, id: string, stops: seq<string>)
    ensures CheckStep(s, id, stops).launched == s.launched
  {
    hide StopMany;
    if id in s.records {
      StopManyEffect(Crashing(s, id), stops);
    }
  }

  lemma NumberedStep(s: State, op: Op)
    requires Numbered(s) && Enabled(s, op)
    ensures Numbered(Next(s, op))
  {
    hide SweepStep;
    match op
    case Poll(rounds) => NumberedSweep(s, rounds);
    case _ =>
  }

  lemma {:induction false} AlwaysNumbered(states: seq<State>, ops: seq<Op>, n: nat)
    requires IsRun(states, ops) && n <= |ops|
    ensures Numbered(states[n])
  {
    hide Next, Enabled, Numbered;
    if n == 0 {
      assert Numbered(INITIAL) by { InitiallyNumbered(); }
    } else {
      AlwaysNumbered(states, ops, n - 1);
      NumberedStep(states[n - 1], ops[n - 1]);
    }
  }

  lemma InitiallyNumbered()
    ensures Numbered(INITIAL)
  {
  }

  /** When a start becomes pending, no later run whose starts are patient loses a child, if and only if no other start
      of the same workspace was pending. */
  lemma StartIsSafeExactly(s: State, id: string, port: int)
    requires Tidy(s) && OneStartPerId(s) && Accounted(s) && Numbered(s) && !s.destroyed
    requires StartStep(s, id, port).pending != s.pending
    ensures Patient(s, Start(id, port)) <==>
            forall states: seq<State>, ops: seq<Op>
              | IsRunFrom(StartStep(s, id, port), states, ops) && AllPatient(states, ops) :: Accounted(states[|ops|])
  {
    hide IsRunFrom, Tidy, Accounted, OneStartPerId, Numbered;
    var t := StartStep(s, id, port);
    if Patient(s, Start(id, port)) {
      StartIsTidy(s, id, port);
      OneStartPerIdStep(s, Start(id, port));
      AccountedStep(s, Start(id, port));
      forall states: seq<State>, ops: seq<Op> | IsRunFrom(t, states, ops) && AllPatient(states, ops)
        ensures Accounted(states[|ops|])
      {
        NoChildIsLostFrom(t, states, ops, |ops|);
      }
    } else {
      var k: nat :| k < |s.pending| && s.pending[k].id == id;
      var states, ops := LosingRun(s, id, port, k);
      assert IsRunFrom(t, states, ops) && AllPatient(states, ops) && !Accounted(states[|ops|]);
    }
  }

  lemma StartIsTidy(s: State, id: string, port: int)
    requires Tidy(s) && !s.destroyed
    ensures Tidy(StartStep(s, id, port))
  {
  }

  /** The earlier start goes on: its child is live when the later one is next. */
  lemma EarlierStartGoesOn(s: State, id: string, port: int, k: nat)
    requires Numbered(s) && !s.destroyed && StartStep(s, id, port).pending != s.pending
    requires k < |s.pending| && s.pending[k].id == id
    ensures var u := ContinueStep(StartStep(s, id, port), k, true);
            var n := |s.pending| - 1;
            HoldsLiveChild(u, id) && !u.destroyed && n < |u.pending| && u.pending[n].id == id
  {
  }

  lemma ContinuesAreRun(s: State, ks: seq<nat>)
    requires |ks| == 1 || |ks| == 2
    requires ks[0] < |s.pending| && (|ks| == 2 ==> ks[1] < |ContinueStep(s, ks[0], true).pending|)
    ensures var u := ContinueStep(s, ks[0], true);
            if |ks| == 1 then
              IsRunFrom(s, [s, u], [Continue(ks[0], true)]) && AllPatient([s, u], [Continue(ks[0], true)])
            else
              var ops := [Continue(ks[0], true), Continue(ks[1], true)];
              var states := [s, u, ContinueStep(u, ks[1], true)];
              IsRunFrom(s, states, ops) && AllPatient(states, ops)
  {
    hide ContinueStep;
  }

  /** Both starts go on, the earlier one first: unless a child is lost before, the second one overwrites a record whose
      child has just been launched. */
  lemma LosingRun(s: State, id: string, port: int, k: nat) returns (states: seq<State>, ops: seq<Op>)
    requires Tidy(s) && Accounted(s) && Numbered(s) && !s.destroyed
    requires StartStep(s, id, port).pending != s.pending && k < |s.pending| && s.pending[k].id == id
    ensures IsRunFrom(StartStep(s, id, port), states, ops) && AllPatient(states, ops) && !Accounted(states[|ops|])
  {
    var t := StartStep(s, id, port);
    var n := |s.pending| - 1;
    assert k < |t.pending|;
    hide Tidy, Accounted, Numbered, StartStep, ContinueStep, IsRunFrom, AllPatient, HoldsLiveChild;
    StartIsTidy(s, id, port);
    EarlierStartGoesOn(s, id, port, k);
    TidyContinue(t, k, true);
    var u := ContinueStep(t, k, true);
    if Accounted(u) {
      ContinueLosesLiveChild(u, n);
      ContinuesAreRun(t, [k, n]);
      states, ops := [t, u, ContinueStep(u, n, true)], [Continue(k, true), Continue(n, true)];
    } else {
      ContinuesAreRun(t, [k]);
      states, ops := [t, u], [Continue(k, true)];
    }
  }

  /** Two starts of the same workspace before the first one is answered lose the first child for good. */
  lemma TwoStartsLoseAChild(id: string, port: int) returns (states: seq<State>, ops: seq<Op>)
    requires port != 0
    ensures IsRun(states, ops)
    ensures ops == [Start(id, port), Start(id, port), Continue(0, true), Continue(0, true)]
    ensures 0 < states[4].launched && 0 !in states[4].exited && 0 !in states[4].terminated && !Owned(states[4], 0)
  {
    ops := [Start(id, port), Start(id, port), Continue(0, true), Continue(0, true)];
    var s1 := StartStep(INITIAL, id, port);
    var s2 := StartStep(s1, id, port);
    var s3 := ContinueStep(s2, 0, true);
    var s4 := ContinueStep(s3, 0, true);
    states := [INITIAL, s1, s2, s3, s4];
    assert s4.records[id].process == Some(1) && s4.records.Keys == {id};
  }

  // --- What Stop achieves ----------------------------------------------------------------------------------

  ghost predicate StartPending(s: State, id: string) {
    exists i :: 0 <= i < |s.pending| && s.pending[i].id == id
  }

  /** Nothing runs under `id`, and nothing is going to unless it is started. */
  ghost predicate Absent(s: State, id: string) {
    id !in s.records && !StartPending(s, id)
  }

  predicate NeverStarts(ops: seq<Op>, id: string) {
    forall i :: 0 <= i < |ops| && ops[i].Start? ==> ops[i].id != id
  }

  lemma AbsentStep(s: State, op: Op, id: string)
    requires Tidy(s) && Enabled(s, op) && Absent(s, id) && (op.Start? ==> op.id != id)
    ensures Absent(Next(s, op), id)
  {
    hide Tidy, SweepStep;
    match op
    case Start(other, port) =>
      assert forall i :: 0 <= i < |s.pending| ==> s.pending[i].id != id;
    case Continue(k, launchOk) =>
      var rest := Without(s.pending, k);
      assert forall i :: 0 <= i < |rest| ==> rest[i] == s.pending[if i < k then i else i + 1];
      assert s.pending[k].id != id;
    case Poll(rounds) => PollEffect(s, rounds);
    case _ =>
  }

  lemma {:induction false} StaysAbsent(start: State, states: seq<State>, ops: seq<Op>, id: string, n: nat)
    requires IsRunFrom(start, states, ops) && n <= |ops|
    requires Tidy(start) && Absent(start, id) && NeverStarts(ops, id)
    ensures Tidy(states[n]) && Absent(states[n], id)
  {
    hide Tidy, Absent, Next, Enabled;
    if n == 0 {
    } else {
      StaysAbsent(start, states, ops, id, n - 1);
      TidyStep(states[n - 1], ops[n - 1]);
      AbsentStep(states[n - 1], ops[n - 1], id);
    }
  }

  /** A pending start outlives a stop of its workspace and brings the workspace back. */
  lemma PendingStartOutlivesStop(s: State, id: string, k: nat)
    requires !s.destroyed && k < |s.pending| && s.pending[k].id == id
    ensures id in ContinueStep(StopStep(s, id), k, true).records
  {
  }

  /** `Stop` keeps the workspace from running until it is started again, whatever else happens, if and only if no start
      of it is pending at the call. */
  lemma StopHoldsExactly(s: State, id: string)
    requires Tidy(s) && !s.destroyed
    ensures !StartPending(s, id) <==>
            forall states: seq<State>, ops: seq<Op> | IsRunFrom(StopStep(s, id), states, ops) && NeverStarts(ops, id) ::
              id !in states[|ops|].records
  {
    hide IsRunFrom;
    var t := StopStep(s, id);
    if StartPending(s, id) {
      var k: nat :| k < |s.pending| && s.pending[k].id == id;
      PendingStartOutlivesStop(s, id, k);
      var ops := [Continue(k, true)];
      var states := [t, ContinueStep(t, k, true)];
      StepIsRun(t, ops[0]);
      assert IsRunFrom(t, states, ops) && NeverStarts(ops, id) && id in states[|ops|].records;
    } else {
      TidyStop(s, id);
      forall states: seq<State>, ops: seq<Op> | IsRunFrom(t, states, ops) && NeverStarts(ops, id)
        ensures id !in states[|ops|].records
      {
        StaysAbsent(t, states, ops, id, |ops|);
      }
    }
  }

  lemma StepIsRun(s: State, op: Op)
    requires Enabled(s, op)
    ensures IsRunFrom(s, [s, Next(s, op)], [op])
  {
  }

  /** In every run: after a stop with no start of its workspace pending, and until the next one, the workspace has
      neither a record nor a pending start. */
  lemma StopHolds(states: seq<State>, ops: seq<Op>, j: nat, n: nat, id: string)
    requires IsRun(states, ops) && j < n <= |ops| && ops[j] == Stop(id) && !StartPending(states[j], id)
    requires NeverStarts(ops[j..], id)
    ensures Absent(states[n], id)
  {
    hide Tidy, Next, Enabled;
    AlwaysTidy(states, ops, j + 1);
    assert Absent(states[j + 1], id) by {
      StopMakesAbsent(states[j], id);
      assert states[j + 1] == Next(states[j], ops[j]);
      NextOfStop(states[j], id);
    }
    assert IsRunFrom(states[j + 1], states[j + 1..], ops[j + 1..]);
    StaysAbsent(states[j + 1], states[j + 1..], ops[j + 1..], id, n - j - 1);
  }

  lemma StopMakesAbsent(s: State, id: string)
    requires !StartPending(s, id)
    ensures Absent(StopStep(s, id), id)
  {
  }

  lemma NextOfStop(s: State, id: string)
    ensures Enabled(s, Stop(id)) ==> Next(s, Stop(id)) == StopStep(s, id)
  {
  }

  /** Such a run: the workspace is started and stopped before its start goes on, and runs afterwards. */
  lemma StopMissesPendingStart(id: string, port: int) returns (states: seq<State>, ops: seq<Op>)
    requires port != 0
    ensures IsRun(states, ops) && ops == [Start(id, port), Stop(id), Continue(0, true)]
    ensures id in states[3].records && states[3].records[id].status == Running
  {
    ops := [Start(id, port), Stop(id), Continue(0, true)];
    var s1 := StartStep(INITIAL, id, port);
    states := [INITIAL, s1, s1, ContinueStep(s1, 0, true)];
  }

  // --- The limit is not enforced beyond that ------------------------------------------------------------------

  function Name(i: nat): string {
    seq(i, _ => 'w')
  }

  ghost function Names(n: nat): set<string> {
    set i: nat | i < n :: Name(i)
  }

  lemma NewName(n: nat)
    ensures Name(n) !in Names(n) && Names(n + 1) == Names(n) + {Name(n)}
  {
    assert |Name(n)| == n;
    forall i: nat | i < n ensures Name(i) != Name(n) {
      assert |Name(i)| == i;
    }
  }

  lemma {:induction false} NamesSize(n: nat)
    ensures |Names(n)| == n
  {
    if n > 0 {
      NamesSize(n - 1);
      NewName(n - 1);
    }
  }

  /** The first `n` workspaces are running and the next `p` are pending. */
  ghost predicate Shape(s: State, n: nat, p: nat) {
    && !s.destroyed && s.records.Keys == Names(n) && |s.pending| == p
    && forall i :: 0 <= i < p ==> s.pending[i].id == Name(n + i)
  }

  lemma StartGrowsPending(s: State, n: nat, p: nat)
    requires Shape(s, n, p) && n < MAX_CONCURRENT
    ensures Shape(StartStep(s, Name(n + p), 9333), n, p + 1)
  {
    NamesSize(n);
    assert |Name(n + p)| == n + p;
    forall i: nat | i < n ensures Name(i) != Name(n + p) {
      assert |Name(i)| == i;
    }
    assert |s.records| == |s.records.Keys|;
  }

  lemma ContinueGrowsRecords(s: State, n: nat, p: nat)
    requires Shape(s, n, p) && p > 0
    ensures Shape(ContinueStep(s, 0, true), n + 1, p - 1)
  {
    NewName(n);
    assert s.pending[0].id == Name(n + 0);
  }

  lemma Extend(states: seq<State>, ops: seq<Op>, op: Op)
    requires IsRun(states, ops) && Enabled(states[|ops|], op)
    ensures IsRun(states + [Next(states[|ops|], op)], ops + [op])
  {
    hide Next, Enabled;
  }

  lemma {:induction false} ReachShape(k: nat, n: nat, p: nat) returns (states: seq<State>, ops: seq<Op>)
    requires k > 0 && p <= k
    requires n + 1 < MAX_CONCURRENT ==> p <= 1
    requires n >= MAX_CONCURRENT ==> n + p == MAX_CONCURRENT - 1 + k
    ensures IsRun(states, ops) && Shape(states[|ops|], n, p)
    ensures forall i :: 0 <= i <= |ops| ==> |states[i].pending| <= k
    decreases 2 * n + p
  {
    if n == 0 && p == 0 {
      states, ops := [INITIAL], [];
    } else if p > 0 && n < MAX_CONCURRENT {
      states, ops := ReachShape(k, n, p - 1);
      var op := Start(Name(n + p - 1), 9333);
      StartGrowsPending(states[|ops|], n, p - 1);
      Extend(states, ops, op);
      states, ops := states + [Next(states[|ops|], op)], ops + [op];
    } else {
      states, ops := ReachShape(k, n - 1, p + 1);
      ContinueGrowsRecords(states[|ops|], n - 1, p + 1);
      Extend(states, ops, Continue(0, true));
      states, ops := states + [Next(states[|ops|], Continue(0, true))], ops + [Continue(0, true)];
    }
  }

  /** The bound is attained: for every `k` a run with never more than `k` pending starts ends with 9 + k workspaces, so
      two pending starts already pass the limit of ten. */
  lemma LimitIsPassed(k: nat) returns (states: seq<State>, ops: seq<Op>)
    requires k > 0
    ensures IsRun(states, ops)
    ensures forall i :: 0 <= i <= |ops| ==> |states[i].pending| <= k
    ensures |states[|ops|].records| == 9 + k
  {
    states, ops := ReachShape(k, MAX_CONCURRENT - 1 + k, 0);
    NamesSize(MAX_CONCURRENT - 1 + k);
    assert |states[|ops|].records| == |states[|ops|].records.Keys|;
  }
}
