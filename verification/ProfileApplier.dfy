/** Applying a workspace's settings to its child over CDP: WorkspaceProfileApplier, with the poll and health timers,
    the background availability checks and sends, and the one socket it keeps. */
module ProfileApplier {

  const FIRST_BUDGET: int := 30
  const RECONNECT_BUDGET: int := 60

  // --- Commands ------------------------------------------------------------------------------------------

  datatype Call =
    | PageEnable
    | ScreenOverride(width: int, height: int)
    | TimezoneOverride(timezone: string)
    | DarkModeOverride(enabled: bool)
    | ScriptInjection(source: string)

  datatype Command = Command(id: int, call: Call)

  /** The workspace settings the commands depend on; `script` is what `GenerateInjectionScript` returns. */
  datatype Settings = Settings(width: int, height: int, timezone: string, colorScheme: string, script: string)

  function CallsOf(ws: Settings): seq<Call> {
    (if ws.width > 0 && ws.height > 0 then [ScreenOverride(ws.width, ws.height)] else [])
    + (if ws.timezone != "" then [TimezoneOverride(ws.timezone)] else [])
    + (if ws.colorScheme == "dark" then [DarkModeOverride(true)]
       else if ws.colorScheme == "light" then [DarkModeOverride(false)] else [])
    + (if ws.script != "" then [ScriptInjection(ws.script)] else [])
  }

  /** The settings ask for this call: the setting it carries is set, and has this value. */
  predicate Wanted(ws: Settings, call: Call) {
    match call
    case PageEnable => false
    case ScreenOverride(width, height) => width == ws.width > 0 && height == ws.height > 0
    case TimezoneOverride(timezone) => timezone == ws.timezone && timezone != ""
    case DarkModeOverride(enabled) => ws.colorScheme == if enabled then "dark" else "light"
    case ScriptInjection(source) => source == ws.script && source != ""
  }

  function Kind(call: Call): nat {
    match call
    case PageEnable => 0
    case ScreenOverride(_, _) => 1
    case TimezoneOverride(_) => 2
    case DarkModeOverride(_) => 3
    case ScriptInjection(_) => 4
  }

  /** At most one call of each kind, in the fixed order of the kinds. */
  predicate InOrder(calls: seq<Call>) {
    forall i, j :: 0 <= i < j < |calls| ==> Kind(calls[i]) < Kind(calls[j])
  }

  /** A call is generated exactly when the settings ask for it, once, in the fixed order. */
  lemma CallsOfExactly(ws: Settings)
    ensures forall call :: call in CallsOf(ws) <==> Wanted(ws, call)
    ensures InOrder(CallsOf(ws))
  {
  }

  /** Which determines the list: no other one in this order has the same members. */
  lemma {:induction false} OrderedCallsUnique(a: seq<Call>, b: seq<Call>)
    requires InOrder(a) && InOrder(b) && forall call :: call in a <==> call in b
    ensures a == b
  {
    HeadIn(a);
    HeadIn(b);
    if a == [] || b == [] {
    } else {
      SameHead(a, b);
      forall call
        ensures call in a[1..] <==> call in b[1..]
      {
        SameTail(a, b, call);
        SameTail(b, a, call);
      }
      OrderedCallsUnique(a[1..], b[1..]);
      assert a == [a[0]] + a[1..] && b == [b[0]] + b[1..];
    }
  }

  /** The first call has the least kind, so the two first calls are the same one. */
  lemma SameHead(a: seq<Call>, b: seq<Call>)
    requires InOrder(a) && InOrder(b) && a != [] && b != [] && a[0] in b && b[0] in a
    ensures a[0] == b[0]
  {
    var i :| 0 <= i < |b| && b[i] == a[0];
    var j :| 0 <= j < |a| && a[j] == b[0];
    assert i > 0 ==> Kind(b[0]) < Kind(b[i]);
    assert j > 0 ==> Kind(a[0]) < Kind(a[j]);
  }

  lemma HeadIn(calls: seq<Call>)
    ensures calls == [] || calls[0] in calls
  {
  }

  lemma SameTail(a: seq<Call>, b: seq<Call>, call: Call)
    requires InOrder(a) && a != [] && b != [] && a[0] == b[0] && forall c :: c in a ==> c in b
    ensures call in a[1..] ==> call in b[1..]
  {
    if call in a[1..] {
      var i :| 0 <= i < |a| - 1 && a[1..][i] == call;
      assert Kind(a[0]) < Kind(a[i + 1]) && a[i + 1] == call;
      assert call in a;
    }
  }

  function CallsOfAll(workspaces: seq<Settings>): seq<Call> {
    if workspaces == [] then []
    else CallsOfAll(workspaces[..|workspaces| - 1]) + CallsOf(workspaces[|workspaces| - 1])
  }

  function Concatenated(groups: seq<seq<Call>>): seq<Call> {
    if groups == [] then [] else Concatenated(groups[..|groups| - 1]) + groups[|groups| - 1]
  }

  /** Exactly the calls that the settings ask for, each kind at most once, in the fixed order. */
  ghost predicate WantedGroup(ws: Settings, group: seq<Call>) {
    InOrder(group) && forall call :: call in group <==> Wanted(ws, call)
  }

  /** The calls are one group after the other, one for each workspace, in the order of the workspaces. */
  ghost predicate Grouped(calls: seq<Call>, workspaces: seq<Settings>, groups: seq<seq<Call>>) {
    && |groups| == |workspaces| && calls == Concatenated(groups)
    && forall i :: 0 <= i < |workspaces| ==> WantedGroup(workspaces[i], groups[i])
  }

  ghost predicate InGroups(calls: seq<Call>, workspaces: seq<Settings>) {
    exists groups :: Grouped(calls, workspaces, groups)
  }

  ghost predicate WantedBySome(workspaces: seq<Settings>, call: Call) {
    exists i :: 0 <= i < |workspaces| && Wanted(workspaces[i], call)
  }

  lemma {:induction false} CallsOfAllGrouped(workspaces: seq<Settings>) returns (groups: seq<seq<Call>>)
    ensures Grouped(CallsOfAll(workspaces), workspaces, groups)
  {
    hide WantedGroup, CallsOf;
    if workspaces == [] {
      groups := [];
    } else {
      var n := |workspaces| - 1;
      var before := CallsOfAllGrouped(workspaces[..n]);
      GroupOf(workspaces[n]);
      groups := before + [CallsOf(workspaces[n])];
      assert groups[..n] == before;
    }
  }

  lemma GroupOf(ws: Settings)
    ensures WantedGroup(ws, CallsOf(ws))
  {
    hide Wanted, InOrder, CallsOf;
    CallsOfExactly(ws);
  }

  /** So a call is generated exactly when some workspace asks for it. */
  lemma {:induction false} GroupedMembers(calls: seq<Call>, workspaces: seq<Settings>, groups: seq<seq<Call>>,
                                          call: Call)
    requires Grouped(calls, workspaces, groups)
    ensures call in calls <==> WantedBySome(workspaces, call)
    decreases |groups|
  {
    hide Wanted, InOrder;
    if groups == [] {
    } else {
      var n := |groups| - 1;
      var init := Concatenated(groups[..n]);
      GroupedMembers(init, workspaces[..n], groups[..n], call);
      assert WantedGroup(workspaces[n], groups[n]);
      if i :| 0 <= i < n && Wanted(workspaces[..n][i], call) {
        assert Wanted(workspaces[i], call);
      }
      if i :| 0 <= i < n && Wanted(workspaces[i], call) {
        assert Wanted(workspaces[..n][i], call);
      }
    }
  }

  /** The batch: Page.enable first, and the command at position k carries id k. */
  function Batch(workspaces: seq<Settings>): (batch: seq<Command>)
    ensures |batch| == |CallsOfAll(workspaces)| + 1 && batch[0] == Command(0, PageEnable)
    ensures forall k :: 0 <= k < |batch| ==> batch[k].id == k
    ensures forall k :: 0 < k < |batch| ==> batch[k].call == CallsOfAll(workspaces)[k - 1]
  {
    var calls := CallsOfAll(workspaces);
    seq(|calls| + 1, k requires 0 <= k <= |calls| => Command(k, if k == 0 then PageEnable else calls[k - 1]))
  }

  /** `GenerateCDPCommands`. */
  method GenerateCDPCommands(ws: Settings) returns (calls: seq<Call>)
    ensures forall call :: call in calls <==> Wanted(ws, call)
    ensures InOrder(calls)
    ensures calls == CallsOf(ws)
  {
    CallsOfExactly(ws);
    hide Wanted, InOrder;
    calls := [];
    if ws.width > 0 && ws.height > 0 {
      calls := calls + [ScreenOverride(ws.width, ws.height)];
    }
    if ws.timezone != "" {
      calls := calls + [TimezoneOverride(ws.timezone)];
    }
    if ws.colorScheme == "dark" {
      calls := calls + [DarkModeOverride(true)];
    } else if ws.colorScheme == "light" {
      calls := calls + [DarkModeOverride(false)];
    }
    if ws.script != "" {
      calls := calls + [ScriptInjection(ws.script)];
    }
    assert calls == CallsOf(ws);
  }

  method GenerateCommandBatch(workspaces: seq<Settings>) returns (all: seq<Call>)
    ensures all == CallsOfAll(workspaces)
    ensures forall call :: call in all <==> WantedBySome(workspaces, call)
    ensures InGroups(all, workspaces)
  {
    ghost var groups := CallsOfAllGrouped(workspaces);
    forall call
      ensures call in CallsOfAll(workspaces) <==> WantedBySome(workspaces, call)
    {
      GroupedMembers(CallsOfAll(workspaces), workspaces, groups, call);
    }
    hide WantedBySome, InGroups;
    all := [];
    var i := 0;
    while i < |workspaces|
      invariant 0 <= i <= |workspaces| && all == CallsOfAll(workspaces[..i])
    {
      var calls := GenerateCDPCommands(workspaces[i]);
      all := all + calls;
      assert workspaces[..i + 1][..i] == workspaces[..i];
      i := i + 1;
    }
    assert workspaces[..i] == workspaces;
    assert all == CallsOfAll(workspaces);
  }

  // --- States and steps ----------------------------------------------------------------------------------

  /** The applier's surroundings: whether it exists and was given settings, the background checks and sends under way,
      the reconnects so far, and the negative checks since the last of them. */
  datatype Env = Env(alive: bool, applied: bool, checks: nat, sends: nat, reconnects: nat, negatives: nat)

  /** What can be observed of a run: the batches sent, the callback runs, and the descriptors delivered to the applier,
      closed by it, or lost because it was gone when they came.  Running a callback that was already consumed is
      a fault.  It ends the process, yet the steps go on after one, so that what they keep does not rest on it. */
  datatype Log = Log(sent: seq<seq<Command>>, callbackRuns: nat, faulted: bool,
                     delivered: seq<int>, closed: seq<int>, lost: seq<int>)

  /** The applier's own fields, its surroundings and the log. */
  datatype State = State(
    polling: bool, healthChecking: bool, retriesLeft: int, commandsStarted: bool, pendingCommands: seq<Command>,
    hasCallback: bool, socket: int, savedCommands: seq<Command>, env: Env, log: Log)

  const INITIAL: State := State(
    false, false, 0, false, [], false, -1, [], Env(true, false, 0, 0, 0, 0), Log([], 0, false, [], [], []))

  /** `std::move(pending_callback_).Run(...)`. */
  function RunCallback(s: State): State {
    s.(hasCallback := false,
       log := s.log.(callbackRuns := s.log.callbackRuns + 1, faulted := s.log.faulted || !s.hasCallback))
  }

  function ApplyStep(s: State, workspaces: seq<Settings>): State {
    var t := s.(env := s.env.(applied := true));
    if workspaces == [] then t.(log := s.log.(callbackRuns := s.log.callbackRuns + 1))
    else t.(pendingCommands := Batch(workspaces), hasCallback := true, retriesLeft := FIRST_BUDGET, polling := true)
  }

  function PollTickStep(s: State): State {
    s.(env := s.env.(checks := s.env.checks + 1))
  }

  /** The commands are saved and sent. */
  function SendStep(s: State): State {
    s.(commandsStarted := true, polling := false, savedCommands := s.pendingCommands, pendingCommands := [],
       env := s.env.(sends := s.env.sends + 1), log := s.log.(sent := s.log.sent + [s.pendingCommands]))
  }

  /** `OnCDPCheckResult`; the reply is dropped if the applier is gone. */
  function CheckReplyStep(s: State, available: bool): State
    requires s.env.checks > 0
  {
    var t := s.(env := s.env.(checks := s.env.checks - 1));
    if !s.env.alive || s.commandsStarted then t
    else if available then SendStep(t)
    else
      var u := t.(retriesLeft := s.retriesLeft - 1, env := t.env.(negatives := s.env.negatives + 1));
      if u.retriesLeft <= 0 then RunCallback(u.(commandsStarted := true, polling := false)) else u
  }

  /** `OnCommandsSent`; the descriptor is lost if the applier is gone. */
  function SendReplyStep(s: State, fd: int): State
    requires s.env.sends > 0
  {
    var t := s.(env := s.env.(sends := s.env.sends - 1));
    if !s.env.alive then (if fd >= 0 then t.(log := s.log.(lost := s.log.lost + [fd])) else t)
    else
      RunCallback(
        if fd >= 0 then
          t.(log := s.log.(delivered := s.log.delivered + [fd]), socket := fd, healthChecking := true)
        else t)
  }

  function CloseSocket(s: State): State {
    if s.socket >= 0 then s.(log := s.log.(closed := s.log.closed + [s.socket]), socket := -1) else s
  }

  function ReconnectStep(s: State): State {
    CloseSocket(s).(healthChecking := false, pendingCommands := s.savedCommands, commandsStarted := false,
                    retriesLeft := RECONNECT_BUDGET, polling := true,
                    env := s.env.(reconnects := s.env.reconnects + 1, negatives := 0))
  }

  /** `OnHealthCheck`; `broken` is whether `poll` failed or reported a hang-up. */
  function HealthTickStep(s: State, broken: bool): State {
    if s.socket < 0 then s.(healthChecking := false)
    else if broken then ReconnectStep(s)
    else s
  }

  function DestroyStep(s: State): State {
    CloseSocket(s).(polling := false, healthChecking := false, env := s.env.(alive := false))
  }

  // --- The class -----------------------------------------------------------------------------------------

  class WorkspaceProfileApplier {
    var polling: bool
    var healthChecking: bool
    var retriesLeft: int
    var commandsStarted: bool
    var pendingCommands: seq<Command>
    var hasCallback: bool
    var socket: int
    var savedCommands: seq<Command>
    var env: Env
    var log: Log

    ghost function Now(): State
      reads this
    {
      State(polling, healthChecking, retriesLeft, commandsStarted, pendingCommands, hasCallback, socket, savedCommands,
            env, log)
    }

    constructor ()
      ensures Now() == INITIAL
    {
      polling, healthChecking, retriesLeft, commandsStarted, pendingCommands := false, false, 0, false, [];
      hasCallback, socket, savedCommands := false, -1, [];
      env, log := Env(true, false, 0, 0, 0, 0), Log([], 0, false, [], [], []);
    }

    method RunPendingCallback()
      modifies this
      ensures Now() == RunCallback(old(Now()))
    {
      log := log.(callbackRuns := log.callbackRuns + 1, faulted := log.faulted || !hasCallback);
      hasCallback := false;
    }

    method Apply(workspaces: seq<Settings>)
      requires !env.applied && pendingCommands == []
      modifies this
      ensures Now() == ApplyStep(old(Now()), workspaces)
    {
      env := env.(applied := true);
      if workspaces == [] {
        log := log.(callbackRuns := log.callbackRuns + 1);
        return;
      }
      FillPendingCommands(workspaces);
      hasCallback := true;
      retriesLeft := FIRST_BUDGET;
      polling := true;
    }

    /** Numbers the generated commands from 1 and puts Page.enable in front. */
    method FillPendingCommands(workspaces: seq<Settings>)
      requires pendingCommands == []
      modifies this`pendingCommands
      ensures pendingCommands == Batch(workspaces)
    {
      var calls := GenerateCommandBatch(workspaces);
      var i := 0;
      while i < |calls|
        invariant 0 <= i <= |calls| && |pendingCommands| == i
        invariant forall k :: 0 <= k < i ==> pendingCommands[k] == Command(k + 1, calls[k])
      {
        pendingCommands := pendingCommands + [Command(i + 1, calls[i])];
        i := i + 1;
      }
      pendingCommands := [Command(0, PageEnable)] + pendingCommands;
    }

    method OnPollTick()
      modifies this
      ensures Now() == PollTickStep(old(Now()))
    {
      env := env.(checks := env.checks + 1);
    }

    /** Saves the commands for a reconnect and hands them to a background send. */
    method StartSend()
      modifies this
      ensures Now() == SendStep(old(Now()))
    {
      commandsStarted := true;
      polling := false;
      savedCommands := pendingCommands;
      log := log.(sent := log.sent + [pendingCommands]);
      pendingCommands := [];
      env := env.(sends := env.sends + 1);
    }

    method OnCDPCheckResult(available: bool)
      requires env.checks > 0
      modifies this
      ensures Now() == CheckReplyStep(old(Now()), available)
    {
      env := env.(checks := env.checks - 1);
      if !env.alive {
        return;
      }
      if commandsStarted {
        return;
      }
      if available {
        StartSend();
        return;
      }
      env := env.(negatives := env.negatives + 1);
      retriesLeft := retriesLeft - 1;
      if retriesLeft <= 0 {
        commandsStarted := true;
        polling := false;
        RunPendingCallback();
      }
    }

    method OnCommandsSent(fd: int)
      requires env.sends > 0
      modifies this
      ensures Now() == SendReplyStep(old(Now()), fd)
    {
      env := env.(sends := env.sends - 1);
      if !env.alive {
        if fd >= 0 {
          log := log.(lost := log.lost + [fd]);
        }
        return;
      }
      if fd >= 0 {
        log := log.(delivered := log.delivered + [fd]);
        socket := fd;
        healthChecking := true;
      }
      RunPendingCallback();
    }

    method OnHealthCheck(broken: bool)
      modifies this
      ensures Now() == HealthTickStep(old(Now()), broken)
    {
      if socket < 0 {
        healthChecking := false;
        return;
      }
      if broken {
        ReconnectCDP();
      }
    }

    method ReconnectCDP()
      modifies this
      ensures Now() == ReconnectStep(old(Now()))
    {
      healthChecking := false;
      if socket >= 0 {
        log := log.(closed := log.closed + [socket]);
        socket := -1;
      }
      pendingCommands := savedCommands;
      commandsStarted := false;
      retriesLeft := RECONNECT_BUDGET;
      polling := true;
      env := env.(reconnects := env.reconnects + 1, negatives := 0);
    }

    /** The destructor; the timers die with the object. */
    method Destroy()
      modifies this
      ensures Now() == DestroyStep(old(Now()))
    {
      if socket >= 0 {
        log := log.(closed := log.closed + [socket]);
        socket := -1;
      }
      polling, healthChecking := false, false;
      env := env.(alive := false);
    }
  }
}
