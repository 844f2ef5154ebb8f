/** What every run of a profile applier keeps, with arbitrarily many stale availability replies. */
module ProfileApplierRuns {

  import opened ProfileApplier

  datatype Op =
    | Apply(workspaces: seq<Settings>)
    | PollTick
    | CheckReply(available: bool)
    | SendReply(fd: int)
    | HealthTick(broken: bool)
    | Destroy

  /** Timers tick while they run; replies may come at any time, also after the applier is gone. */
  predicate Enabled(s: State, op: Op) {
    match op
    case Apply(_) => s.env.alive && !s.env.applied
    case PollTick => s.polling
    case CheckReply(_) => s.env.checks > 0
    case SendReply(_) => s.env.sends > 0
    case HealthTick(_) => s.healthChecking
    case Destroy => s.env.alive
  }

  function Next(s: State, op: Op): State
    requires Enabled(s, op)
  {
    match op
    case Apply(workspaces) => ApplyStep(s, workspaces)
    case PollTick => PollTickStep(s)
    case CheckReply(available) => CheckReplyStep(s, available)
    case SendReply(fd) => SendReplyStep(s, fd)
    case HealthTick(broken) => HealthTickStep(s, broken)
    case Destroy => DestroyStep(s)
  }

  ghost predicate IsRunFrom(start: State, states: seq<State>, ops: seq<Op>): (run: bool)
    ensures run ==> |states| == |ops| + 1
  {
    && |states| == |ops| + 1 && states[0] == start
    && forall i :: 0 <= i < |ops| ==> Enabled(states[i], ops[i]) && states[i + 1] == Next(states[i], ops[i])
  }

  ghost predicate IsRun(states: seq<State>, ops: seq<Op>) {
    IsRunFrom(INITIAL, states, ops)
  }

  // --- The invariant -------------------------------------------------------------------------------------

  function Held(s: State): seq<int> {
    if s.socket >= 0 then [s.socket] else []
  }

  function One(b: bool): nat {
    if b then 1 else 0
  }

  /** At most one of: a send under way, a held socket, a live applier's commands not yet started. */
  ghost predicate Exclusive(s: State) {
    && s.env.sends + |Held(s)| + One(s.env.alive && !s.commandsStarted) <= 1
    && (s.polling ==> s.env.alive && s.env.applied && !s.commandsStarted)
    && (s.healthChecking <==> s.socket >= 0)
    && (!s.env.alive ==> s.socket < 0)
  }

  /** Every descriptor delivered to the applier has been closed once, in order of arrival, except the one it holds. */
  ghost predicate DescriptorsKept(s: State) {
    s.log.delivered == s.log.closed + Held(s)
  }

  /** Commands are due: an availability reply could still start them. */
  ghost predicate Waiting(s: State) {
    s.env.alive && !s.commandsStarted && (s.polling || s.env.checks > 0)
  }

  /** Only the batch of the settings applied is ever sent: once in every epoch that a reconnect has ended, and at most
      once in the present one, not before its commands are started. */
  ghost predicate SameBatch(s: State, batch: seq<Command>) {
    && (forall i :: 0 <= i < |s.log.sent| ==> s.log.sent[i] == batch)
    && s.env.reconnects <= |s.log.sent| <= s.env.reconnects + One(s.commandsStarted)
    && (s.env.sends > 0 || s.socket >= 0 ==> |s.log.sent| == s.env.reconnects + 1)
    && (Waiting(s) ==> s.pendingCommands == batch)
    && (s.env.sends > 0 || s.socket >= 0 ==> s.savedCommands == batch)
  }

  function Budget(s: State): int {
    if s.env.reconnects == 0 then FIRST_BUDGET else RECONNECT_BUDGET
  }

  /** While an epoch waits, its retries left and its negative checks add up to its budget. */
  ghost predicate WithinBudget(s: State) {
    && s.env.negatives <= Budget(s)
    && (Waiting(s) ==> s.retriesLeft == Budget(s) - s.env.negatives > 0)
  }

  /** The first epoch consumes the callback; each later epoch that completes runs it again, which is a fault. */
  ghost predicate CallbackOnce(s: State) {
    && (s.log.faulted <==> s.log.callbackRuns >= 2)
    && (s.env.reconnects == 0 ==> s.log.callbackRuns + One(s.hasCallback) == One(s.env.applied))
    && (s.env.reconnects == 0 && s.env.alive && (Waiting(s) || s.env.sends > 0) ==> s.hasCallback)
    && (s.env.reconnects > 0 ==> !s.hasCallback && s.log.callbackRuns >= s.env.reconnects)
    && (s.socket >= 0 ==> s.log.callbackRuns > s.env.reconnects)
  }

  /** Before `Apply` nothing has happened. */
  ghost predicate Idle(s: State) {
    !s.env.applied ==> s == INITIAL || s == DestroyStep(INITIAL)
  }

  ghost predicate Inv(s: State, batch: seq<Command>) {
    Exclusive(s) && DescriptorsKept(s) && SameBatch(s, batch) && WithinBudget(s) && CallbackOnce(s) && Idle(s)
  }

  ghost predicate AppliesBatch(op: Op, batch: seq<Command>) {
    op.Apply? && op.workspaces != [] ==> Batch(op.workspaces) == batch
  }

  // --- Every step keeps it -------------------------------------------------------------------------------

  lemma ExclusiveStep(s: State, op: Op, batch: seq<Command>)
    requires Inv(s, batch) && Enabled(s, op)
    ensures Exclusive(Next(s, op)) && Idle(Next(s, op))
  {
    hide Batch;
  }

  lemma DescriptorsStep(s: State, op: Op, batch: seq<Command>)
    requires Inv(s, batch) && Enabled(s, op)
    ensures DescriptorsKept(Next(s, op))
  {
    hide Batch, Idle, SameBatch, WithinBudget, CallbackOnce;
    var t := Next(s, op);
    if op.SendReply? && s.env.alive {
      assert s.log.delivered == s.log.closed;
    } else {
      assert s.log.closed + Held(s) == t.log.closed + Held(t);
    }
  }

  lemma BatchStep(s: State, op: Op, batch: seq<Command>)
    requires Inv(s, batch) && Enabled(s, op) && AppliesBatch(op, batch)
    ensures SameBatch(Next(s, op), batch)
  {
    hide Batch, DescriptorsKept, WithinBudget, CallbackOnce;
    if !op.Apply? {
      hide Idle, ApplyStep;
    }
  }

  lemma BudgetStep(s: State, op: Op, batch: seq<Command>)
    requires Inv(s, batch) && Enabled(s, op)
    ensures WithinBudget(Next(s, op))
  {
    hide Batch, SameBatch, DescriptorsKept, CallbackOnce;
    if !op.Apply? {
      hide Idle, ApplyStep;
    }
  }

  lemma CheckKeepsCallback(s: State, available: bool)
    requires Exclusive(s) && CallbackOnce(s) && s.env.checks > 0
    ensures CallbackOnce(CheckReplyStep(s, available))
  {
  }

  lemma SendKeepsCallback(s: State, fd: int)
    requires Exclusive(s) && CallbackOnce(s) && s.env.sends > 0
    ensures CallbackOnce(SendReplyStep(s, fd))
  {
  }

  lemma HealthKeepsCallback(s: State, broken: bool)
    requires Exclusive(s) && CallbackOnce(s) && s.healthChecking
    ensures CallbackOnce(HealthTickStep(s, broken))
  {
  }

  lemma ApplyKeepsCallback(s: State, workspaces: seq<Settings>)
    requires Idle(s) && s.env.alive && !s.env.applied
    ensures CallbackOnce(ApplyStep(s, workspaces))
  {
    hide Batch;
  }

  lemma RestKeepsCallback(s: State)
    requires CallbackOnce(s) && Exclusive(s)
    ensures s.polling ==> CallbackOnce(PollTickStep(s))
    ensures CallbackOnce(DestroyStep(s))
  {
  }

  lemma CallbackStep(s: State, op: Op, batch: seq<Command>)
    requires Inv(s, batch) && Enabled(s, op)
    ensures CallbackOnce(Next(s, op))
  {
    hide Batch, SameBatch, DescriptorsKept, WithinBudget, CallbackOnce, Exclusive, Idle;
    hide ApplyStep, CheckReplyStep, SendReplyStep, HealthTickStep, PollTickStep, DestroyStep;
    match op
    case Apply(workspaces) => ApplyKeepsCallback(s, workspaces);
    case CheckReply(available) => CheckKeepsCallback(s, available);
    case SendReply(fd) => SendKeepsCallback(s, fd);
    case HealthTick(broken) => HealthKeepsCallback(s, broken);
    case _ => RestKeepsCallback(s);
  }

  lemma InvStep(s: State, op: Op, batch: seq<Command>)
    requires Inv(s, batch) && Enabled(s, op) && AppliesBatch(op, batch)
    ensures Inv(Next(s, op), batch)
  {
    ExclusiveStep(s, op, batch);
    DescriptorsStep(s, op, batch);
    BatchStep(s, op, batch);
    BudgetStep(s, op, batch);
    CallbackStep(s, op, batch);
  }

  lemma {:induction false} AlwaysInv(states: seq<State>, ops: seq<Op>, n: nat, batch: seq<Command>)
    requires IsRun(states, ops) && n <= |ops|
    requires forall i :: 0 <= i < |ops| ==> AppliesBatch(ops[i], batch)
    ensures Inv(states[n], batch)
  {
    hide Next, Batch;
    if n == 0 {
      assert INITIAL.log.sent == [];
    } else {
      AlwaysInv(states, ops, n - 1, batch);
      InvStep(states[n - 1], ops[n - 1], batch);
    }
  }

  // --- Whole runs ----------------------------------------------------------------------------------------

  lemma AppliedKept(s: State, op: Op)
    requires Enabled(s, op) && s.env.applied
    ensures Next(s, op).env.applied
  {
    hide Batch;
  }

  lemma {:induction false} AppliedStays(states: seq<State>, ops: seq<Op>, i: nat, j: nat)
    requires IsRun(states, ops) && i <= j <= |ops| && states[i].env.applied
    ensures states[j].env.applied
    decreases j
  {
    hide Next;
    if i < j {
      AppliedStays(states, ops, i, j - 1);
      AppliedKept(states[j - 1], ops[j - 1]);
    }
  }

  /** A run applies settings at most once, so one batch is common to all of it. */
  lemma {:induction false} CommonBatch(states: seq<State>, ops: seq<Op>) returns (batch: seq<Command>)
    requires IsRun(states, ops)
    ensures forall i :: 0 <= i < |ops| ==> AppliesBatch(ops[i], batch)
  {
    hide Batch, Next;
    if i :| 0 <= i < |ops| && ops[i].Apply? {
      batch := Batch(ops[i].workspaces);
      forall j | 0 <= j < |ops| && ops[j].Apply?
        ensures j == i
      {
        AppliedBy(states, ops, if i < j then i else j, if i < j then j else i);
      }
    } else {
      batch := [];
    }
  }

  lemma AppliedBy(states: seq<State>, ops: seq<Op>, i: nat, j: nat)
    requires IsRun(states, ops) && i < |ops| && ops[i].Apply?
    ensures i < j <= |ops| ==> states[j].env.applied
  {
    hide Batch;
    if i < j <= |ops| {
      assert states[i + 1] == Next(states[i], ops[i]);
      AppliedStays(states, ops, i + 1, j);
    }
  }

  /** In every run, sends under way, a held socket and commands not yet started never add up to more than one; so a
      held descriptor is never overwritten, and each delivered one is closed once, in order, or still held. */
  lemma OneSocketAtATime(states: seq<State>, ops: seq<Op>, n: nat)
    requires IsRun(states, ops) && n <= |ops|
    ensures states[n].env.sends + |Held(states[n])| + One(states[n].env.alive && !states[n].commandsStarted) <= 1
    ensures states[n].log.delivered == states[n].log.closed + Held(states[n])
    ensures n < |ops| && ops[n].SendReply? ==> Held(states[n]) == []
    ensures !states[n].env.alive ==> states[n].log.delivered == states[n].log.closed
  {
    var batch := CommonBatch(states, ops);
    AlwaysInv(states, ops, n, batch);
  }

  /** Every epoch sends the batch of the applied settings, whose command at position k carries id k: once if a reconnect
      has ended it, at most once if it is the present one, and not while it waits.  It waits for at most 30 negative
      checks, or 60 after a reconnect. */
  lemma EveryEpochSendsTheBatch(states: seq<State>, ops: seq<Op>, i: nat, n: nat)
    requires IsRun(states, ops) && i < |ops| && ops[i].Apply? && ops[i].workspaces != [] && n <= |ops|
    ensures forall k :: 0 <= k < |states[n].log.sent| ==> states[n].log.sent[k] == Batch(ops[i].workspaces)
    ensures states[n].env.reconnects <= |states[n].log.sent| <= states[n].env.reconnects + 1
    ensures Waiting(states[n]) ==> |states[n].log.sent| == states[n].env.reconnects
    ensures states[n].env.negatives <= if states[n].env.reconnects == 0 then 30 else 60
  {
    hide Batch, Next;
    var batch := CommonBatch(states, ops);
    assert AppliesBatch(ops[i], batch);
    AlwaysInv(states, ops, n, batch);
  }

  /** What is sent is what the settings ask for: every batch sent in a run is Page.enable with id 0, followed by exactly
      the wanted calls of each applied workspace in turn, with ids 1, 2, ... */
  lemma EverySentBatchIsWanted(states: seq<State>, ops: seq<Op>, i: nat, n: nat, k: nat)
    returns (calls: seq<Call>, groups: seq<seq<Call>>)
    requires IsRun(states, ops) && i < |ops| && ops[i].Apply? && ops[i].workspaces != [] && n <= |ops|
    requires k < |states[n].log.sent|
    ensures Grouped(calls, ops[i].workspaces, groups)
    ensures var batch := states[n].log.sent[k];
            && |batch| == |calls| + 1 && batch[0] == Command(0, PageEnable)
            && forall j :: 0 < j < |batch| ==> batch[j] == Command(j, calls[j - 1])
  {
    hide Next, Grouped;
    EveryEpochSendsTheBatch(states, ops, i, n);
    calls := CallsOfAll(ops[i].workspaces);
    groups := CallsOfAllGrouped(ops[i].workspaces);
  }

  // --- When things happen ----------------------------------------------------------------------------------

  /** A send starts exactly on a positive reply to a living applier whose commands are not started. */
  lemma SendsExactly(states: seq<State>, ops: seq<Op>, n: nat)
    requires IsRun(states, ops) && n < |ops|
    ensures |states[n + 1].log.sent| == |states[n].log.sent|
            + if ops[n] == CheckReply(true) && states[n].env.alive && !states[n].commandsStarted then 1 else 0
  {
    hide Next;
    SentStep(states[n], ops[n]);
  }

  lemma SentStep(s: State, op: Op)
    requires Enabled(s, op)
    ensures |Next(s, op).log.sent| == |s.log.sent|
            + if op == CheckReply(true) && s.env.alive && !s.commandsStarted then 1 else 0
  {
    hide Batch;
    match op
    case CheckReply(available) =>
    case SendReply(_) => hide CheckReplyStep;
    case _ => hide CheckReplyStep, SendReplyStep;
  }

  /** The callback runs exactly when there is nothing to apply, when a send's reply reaches a living applier, and on the
      negative reply that makes 30 in the first epoch, or 60 in a later one. */
  lemma CallbackRunsExactly(states: seq<State>, ops: seq<Op>, n: nat)
    requires IsRun(states, ops) && n < |ops|
    ensures var s, op := states[n], ops[n];
            states[n + 1].log.callbackRuns == s.log.callbackRuns
            + if op == Apply([]) || (op.SendReply? && s.env.alive)
                 || (op == CheckReply(false) && s.env.alive && !s.commandsStarted
                     && s.env.negatives + 1 == if s.env.reconnects == 0 then 30 else 60) then 1 else 0
  {
    hide Next, Inv;
    var batch := CommonBatch(states, ops);
    AlwaysInv(states, ops, n, batch);
    CompletionStep(states[n], ops[n], batch);
  }

  lemma CompletionStep(s: State, op: Op, batch: seq<Command>)
    requires Inv(s, batch) && Enabled(s, op)
    ensures Next(s, op).log.callbackRuns == s.log.callbackRuns
            + if op == Apply([]) || (op.SendReply? && s.env.alive)
                 || (op == CheckReply(false) && s.env.alive && !s.commandsStarted
                     && s.env.negatives + 1 == if s.env.reconnects == 0 then 30 else 60) then 1 else 0
  {
    hide Batch, SameBatch, DescriptorsKept, CallbackOnce;
  }

  /** A reply with a descriptor makes a living applier hold it and watch it; a broken one is closed, and a new epoch
      waits with the same commands; an unbroken one is left alone; a destroyed applier closes what it holds. */
  lemma SocketLife(states: seq<State>, ops: seq<Op>, n: nat)
    requires IsRun(states, ops) && n < |ops|
    ensures var s, t, op := states[n], states[n + 1], ops[n];
            && (op.SendReply? && op.fd >= 0 && s.env.alive ==> t.socket == op.fd && t.healthChecking)
            && (op == HealthTick(true) ==>
                  && t.socket < 0 && !t.healthChecking && t.log.closed == s.log.closed + [s.socket]
                  && t.polling && !t.commandsStarted && t.retriesLeft == 60
                  && |s.log.sent| > 0 && t.pendingCommands == s.log.sent[0])
            && (op == HealthTick(false) ==> t == s)
            && (op == Destroy ==> t.socket < 0 && t.log.closed == s.log.closed + Held(s))
            && (op.Apply? && op.workspaces != [] ==> t.polling && t.retriesLeft == 30)
  {
    hide Next, Inv;
    var batch := CommonBatch(states, ops);
    AlwaysInv(states, ops, n, batch);
    SocketStep(states[n], ops[n], batch);
  }

  lemma SocketStep(s: State, op: Op, batch: seq<Command>)
    requires Inv(s, batch) && Enabled(s, op)
    ensures var t := Next(s, op);
            && (op.SendReply? && op.fd >= 0 && s.env.alive ==> t.socket == op.fd && t.healthChecking)
            && (op == HealthTick(true) ==>
                  && t.socket < 0 && !t.healthChecking && t.log.closed == s.log.closed + [s.socket]
                  && t.polling && !t.commandsStarted && t.retriesLeft == 60
                  && |s.log.sent| > 0 && t.pendingCommands == s.log.sent[0])
            && (op == HealthTick(false) ==> t == s)
            && (op == Destroy ==> t.socket < 0 && t.log.closed == s.log.closed + Held(s))
            && (op.Apply? && op.workspaces != [] ==> t.polling && t.retriesLeft == 30)
  {
    hide Batch, WithinBudget, CallbackOnce, DescriptorsKept;
  }

  /** Between two points of a run with no reconnect in between, that is, within an epoch, at most one send starts. */
  lemma OneSendPerEpoch(states: seq<State>, ops: seq<Op>, i: nat, j: nat)
    requires IsRun(states, ops) && i <= j <= |ops| && states[i].env.reconnects == states[j].env.reconnects
    ensures |states[j].log.sent| <= |states[i].log.sent| + 1
  {
    hide Next, Inv;
    var batch := CommonBatch(states, ops);
    AlwaysInv(states, ops, i, batch);
    SentBounds(states[i], batch);
    AlwaysInv(states, ops, j, batch);
    SentBounds(states[j], batch);
  }

  lemma SentBounds(s: State, batch: seq<Command>)
    requires Inv(s, batch)
    ensures s.env.reconnects <= |s.log.sent| <= s.env.reconnects + 1
  {
  }

  /** Before any reconnect the callback runs at most once.  A run without a fault reconnects at most once and ends with
      that epoch incomplete: as soon as a later epoch completes, the consumed callback is run again. */
  lemma CallbackRunsOnce(states: seq<State>, ops: seq<Op>, n: nat)
    requires IsRun(states, ops) && n <= |ops|
    ensures states[n].env.reconnects == 0 ==> states[n].log.callbackRuns <= 1 && !states[n].log.faulted
    ensures states[n].log.faulted <==> states[n].log.callbackRuns >= 2
    ensures states[n].env.reconnects >= 2 ==> states[n].log.faulted
  {
    var batch := CommonBatch(states, ops);
    AlwaysInv(states, ops, n, batch);
  }

  /** A step is the first fault exactly when it completes an epoch after a reconnect, by a timeout or a send's
      reply. */
  lemma FaultsExactlyAfterReconnect(states: seq<State>, ops: seq<Op>, n: nat)
    requires IsRun(states, ops) && n < |ops| && !states[n].log.faulted
    ensures states[n + 1].log.faulted <==>
            && states[n].env.reconnects > 0 && states[n].env.alive
            && (ops[n].SendReply?
                || (ops[n] == CheckReply(false) && !states[n].commandsStarted && states[n].env.negatives == 59))
  {
    hide Next, Batch, Inv;
    var batch := CommonBatch(states, ops);
    AlwaysInv(states, ops, n, batch);
    FirstFault(states[n], ops[n], batch);
  }

  lemma FirstFault(s: State, op: Op, batch: seq<Command>)
    requires Inv(s, batch) && Enabled(s, op) && !s.log.faulted
    ensures Next(s, op).log.faulted <==>
            && s.env.reconnects > 0 && s.env.alive
            && (op.SendReply? || (op == CheckReply(false) && !s.commandsStarted && s.env.negatives == 59))
  {
    hide Batch, SameBatch, DescriptorsKept, Idle;
  }

  // --- Descriptors ---------------------------------------------------------------------------------------

  /** The descriptors the sends returned, in order. */
  function Arrived(ops: seq<Op>): seq<int> {
    if ops == [] then []
    else
      var op := ops[|ops| - 1];
      Arrived(ops[..|ops| - 1]) + if op.SendReply? && op.fd >= 0 then [op.fd] else []
  }

  lemma ArrivedStep(s: State, op: Op)
    requires Enabled(s, op)
    ensures multiset(Next(s, op).log.delivered) + multiset(Next(s, op).log.lost)
            == multiset(s.log.delivered) + multiset(s.log.lost)
               + multiset(if op.SendReply? && op.fd >= 0 then [op.fd] else [])
  {
    hide Batch;
    hide Next;
    LogKept(s, op);
  }

  /** Only a send's reply delivers or loses a descriptor, and it does one of the two. */
  lemma LogKept(s: State, op: Op)
    requires Enabled(s, op)
    ensures !op.SendReply? || op.fd < 0 ==>
              Next(s, op).log.delivered == s.log.delivered && Next(s, op).log.lost == s.log.lost
    ensures op.SendReply? && op.fd >= 0 && s.env.alive ==>
              Next(s, op).log.delivered == s.log.delivered + [op.fd] && Next(s, op).log.lost == s.log.lost
    ensures op.SendReply? && op.fd >= 0 && !s.env.alive ==>
              Next(s, op).log.delivered == s.log.delivered && Next(s, op).log.lost == s.log.lost + [op.fd]
  {
    hide Batch;
  }

  lemma {:induction false} ArrivedSplit(states: seq<State>, ops: seq<Op>)
    requires IsRun(states, ops)
    ensures multiset(Arrived(ops)) == multiset(states[|ops|].log.delivered) + multiset(states[|ops|].log.lost)
  {
    hide Next;
    if ops == [] {
    } else {
      var m := |ops| - 1;
      assert IsRun(states[..|ops|], ops[..m]);
      ArrivedSplit(states[..|ops|], ops[..m]);
      ArrivedStep(states[m], ops[m]);
    }
  }

  /** Conservation: the descriptors returned by sends are those closed, the one held and those lost. */
  lemma EveryDescriptorAccounted(states: seq<State>, ops: seq<Op>)
    requires IsRun(states, ops)
    ensures multiset(Arrived(ops))
            == multiset(states[|ops|].log.closed) + multiset(Held(states[|ops|])) + multiset(states[|ops|].log.lost)
  {
    hide Next, Arrived;
    ArrivedSplit(states, ops);
    OneSocketAtATime(states, ops, |ops|);
  }

  /** A descriptor is lost exactly when a send returns one after the applier was destroyed. */
  lemma {:induction false} LostExactlyAfterDestroy(states: seq<State>, ops: seq<Op>)
    requires IsRun(states, ops)
    ensures states[|ops|].log.lost != [] <==>
            exists i :: 0 <= i < |ops| && ops[i].SendReply? && ops[i].fd >= 0 && !states[i].env.alive
  {
    hide Next;
    if ops == [] {
    } else {
      var m := |ops| - 1;
      assert IsRun(states[..|ops|], ops[..m]);
      LogKept(states[m], ops[m]);
      LostExactlyAfterDestroy(states[..|ops|], ops[..m]);
      assert states[m + 1] == Next(states[m], ops[m]);
      if states[m].log.lost != [] {
        var i :| 0 <= i < m && ops[..m][i].SendReply? && ops[..m][i].fd >= 0 && !states[..|ops|][i].env.alive;
        assert ops[i].SendReply? && ops[i].fd >= 0 && !states[i].env.alive;
      } else {
        forall i | 0 <= i < m
          ensures !(ops[i].SendReply? && ops[i].fd >= 0 && !states[i].env.alive)
        {
          assert ops[i] == ops[..m][i] && states[i] == states[..|ops|][i];
        }
      }
    }
  }

  /** A dead applier with no send under way stays so and loses nothing. */
  lemma {:induction false} NothingMoreLost(start: State, states: seq<State>, ops: seq<Op>, n: nat)
    requires IsRunFrom(start, states, ops) && n <= |ops|
    requires !start.env.alive && start.env.sends == 0 && !start.polling && !start.healthChecking
    ensures states[n].log == start.log && !states[n].env.alive && states[n].env.sends == 0
    ensures !states[n].polling && !states[n].healthChecking
  {
    if n == 0 {
    } else {
      NothingMoreLost(start, states, ops, n - 1);
      DeadStep(states[n - 1], ops[n - 1]);
    }
  }

  lemma DeadStep(s: State, op: Op)
    requires Enabled(s, op) && !s.env.alive && s.env.sends == 0 && !s.polling && !s.healthChecking
    ensures var t := Next(s, op);
            t.log == s.log && !t.env.alive && t.env.sends == 0 && !t.polling && !t.healthChecking
  {
    hide Batch;
  }

  /** Destroying an applier is safe exactly when no send is under way: only then no run that follows, whatever the
      replies, loses a descriptor. */
  lemma DestroyIsSafeExactly(s: State)
    requires s.env.alive
    ensures s.env.sends == 0 <==>
            forall states: seq<State>, ops: seq<Op> | IsRunFrom(DestroyStep(s), states, ops) ::
              states[|ops|].log.lost == s.log.lost
  {
    hide IsRunFrom;
    var t := DestroyStep(s);
    if s.env.sends == 0 {
      forall states: seq<State>, ops: seq<Op> | IsRunFrom(t, states, ops)
        ensures states[|ops|].log.lost == s.log.lost
      {
        NothingMoreLost(t, states, ops, |ops|);
      }
    } else {
      var ops := [SendReply(7)];
      var states := [t, Next(t, SendReply(7))];
      OneStepRun(t, SendReply(7));
      assert states[|ops|].log.lost == s.log.lost + [7];
      assert IsRunFrom(t, states, ops) && states[|ops|].log.lost != s.log.lost;
    }
  }

  lemma OneStepRun(s: State, op: Op)
    requires Enabled(s, op)
    ensures IsRunFrom(s, [s, Next(s, op)], [op])
  {
    hide Next;
  }

  /** It does happen: the applier is destroyed while its commands are being sent. */
  lemma DestroyedInFlight(workspaces: seq<Settings>) returns (states: seq<State>, ops: seq<Op>)
    requires workspaces != []
    ensures IsRun(states, ops) && states[|ops|].log.lost == [7] && states[|ops|].log.closed == []
    ensures ops == [Apply(workspaces), PollTick, CheckReply(true), Destroy, SendReply(7)]
  {
    hide Batch;
    ops := [Apply(workspaces), PollTick, CheckReply(true), Destroy, SendReply(7)];
    var s1 := Next(INITIAL, ops[0]);
    var s2 := Next(s1, ops[1]);
    var s3 := Next(s2, ops[2]);
    var s4 := Next(s3, ops[3]);
    states := [INITIAL, s1, s2, s3, s4, Next(s4, ops[4])];
  }
}
