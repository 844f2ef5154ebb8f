/** Answering requests across the API and the UI thread: the handler, the tasks posted between the threads, and the
    responses sent. */
module ApiResponses {

  import opened ApiDispatch
  import opened ApiPaths
  import opened Collections
  import opened Wrappers

  /** A posted task, with the number of the request it is for.  Ui tasks run on the UI thread, Api tasks on the
      handler's own; a start pends in the manager until its continuation runs. */
  datatype Task =
    | UiQuery(request: nat)
    | UiUpdate(request: nat)
    | UiLaunch(request: nat)
    | UiForward(request: nat)
    | UiForwardAgain(request: nat)
    | PendingStart(request: nat)
    | ApiRespond(request: nat)
    | ApiForward(request: nat)
    | ApiRetry(request: nat)

  /** `responses` and `retries` list the requests answered and retried, in order. */
  datatype State = State(alive: bool, received: nat, tasks: seq<Task>, responses: seq<nat>, retries: seq<nat>)

  /** What talking to the child gives: whether a socket could be made and connected, the text of its answer, and what
      the body of the answer is. */
  datatype Body = DictBody | ListBody | OtherBody

  datatype Exchange = Exchange(socketMade: bool, connected: bool, response: string, body: Body)

  /** What a task finds when it runs: whether the workspace is in the store, whether it is running or, for a launch, the
      manager keeps the start pending instead of answering it, and the exchange with the child. */
  datatype Finding = Finding(stored: bool, ready: bool, exchange: Exchange)

  const INITIAL: State := State(true, 0, [], [], [])

  /** What the first task of a request's handler is; None if it responds at once. */
  function FirstTask(route: Route, request: Request, number: nat): Option<Task> {
    match route
    case Unauthorized => None
    case NotFound => None
    case CreateWorkspace => if request.named then Some(UiQuery(number)) else None
    case ImportWorkspaces => if request.listed then Some(UiQuery(number)) else None
    case UpdateWorkspace(_) => Some(UiUpdate(number))
    case LaunchWorkspace(_) => Some(UiLaunch(number))
    case CDPRequest(_, _) => Some(UiForward(number))
    case _ => Some(UiQuery(number))
  }

  function ReceiveStep(s: State, token: string, request: Request): State {
    var t := s.(received := s.received + 1);
    var task := FirstTask(Dispatch(token, request), request, s.received);
    if task.Some? then t.(tasks := s.tasks + [task.value]) else t.(responses := s.responses + [s.received])
  }

  /** Runs task i. */
  function RunStep(s: State, i: nat, finding: Finding): State
    requires i < |s.tasks|
  {
    var t := s.(tasks := Without(s.tasks, i));
    var n := s.tasks[i].request;
    match s.tasks[i]
    case UiQuery(_) => t.(tasks := t.tasks + [ApiRespond(n)])
    case UiUpdate(_) => t.(tasks := t.tasks + [ApiRespond(n)])
    case UiLaunch(_) =>
      t.(tasks := t.tasks + [if finding.stored && finding.ready then PendingStart(n) else ApiRespond(n)])
    case PendingStart(_) => t.(tasks := t.tasks + [ApiRespond(n)])
    case UiForward(_) => t.(tasks := t.tasks + [if finding.ready then ApiForward(n) else ApiRetry(n)])
    case UiForwardAgain(_) => t.(tasks := t.tasks + [if finding.ready then ApiForward(n) else ApiRespond(n)])
    case ApiRespond(_) => if s.alive then t.(responses := s.responses + [n]) else t
    case ApiForward(_) => if s.alive then t.(responses := s.responses + [n]) else t
    case ApiRetry(_) => if s.alive then t.(tasks := t.tasks + [UiForwardAgain(n)], retries := s.retries + [n]) else t
  }

  // --- The class -----------------------------------------------------------------------------------------

  class WorkspaceApiHandler {
    const token: string
    var alive: bool
    var received: nat
    var tasks: seq<Task>
    var responses: seq<nat>
    var retries: seq<nat>

    ghost function Now(): State
      reads this
    {
      State(alive, received, tasks, responses, retries)
    }

    constructor (token: string)
      ensures Now() == INITIAL && this.token == token
    {
      this.token := token;
      alive, received, tasks, responses, retries := true, 0, [], [], [];
    }

    method Send(n: nat)
      modifies this`responses
      ensures responses == old(responses) + [n]
    {
      responses := responses + [n];
    }

    method PostTask(task: Task)
      modifies this`tasks
      ensures tasks == old(tasks) + [task]
    {
      tasks := tasks + [task];
    }

    /** `DispatchRequest` and the part of each handler that runs at once. */
    method OnHttpRequest(request: Request)
      requires alive
      modifies this
      ensures Now() == ReceiveStep(old(Now()), token, request)
    {
      var n := received;
      received := received + 1;
      if token != "" && request.authorization != Some("Bearer " + token) {
        Send(n);
        return;
      }
      var segments := ParsePath(request.path);
      if segments == [] || segments[0] != "api" {
        Send(n);
        return;
      }
      if |segments| == 2 && segments[1] == "status" && request.verb == "GET" {
        PostTask(UiQuery(n));
        return;
      }
      if |segments| >= 2 && segments[1] == "workspaces" {
        var handled := OnWorkspaceRequest(n, request, segments);
        if handled {
          return;
        }
      }
      Send(n);
    }

    /** The routes under `/api/workspaces`. */
    method OnWorkspaceRequest(n: nat, request: Request, segments: seq<string>) returns (handled: bool)
      requires |segments| >= 2 && segments[0] == "api" && segments[1] == "workspaces"
      modifies this`tasks, this`responses
      ensures handled <==> RouteOf(request.verb, segments) != NotFound
      ensures var task := FirstTask(RouteOf(request.verb, segments), request, n);
              && tasks == old(tasks) + (if task.Some? then [task.value] else [])
              && responses == old(responses) + (if handled && task.None? then [n] else [])
    {
      handled := true;
      if |segments| == 2 && request.verb == "GET" {
        PostTask(UiQuery(n));
        return;
      }
      if |segments| == 2 && request.verb == "POST" {
        if !request.named {
          Send(n);
          return;
        }
        PostTask(UiQuery(n));
        return;
      }
      if |segments| == 3 && request.verb == "GET" {
        PostTask(UiQuery(n));
        return;
      }
      if |segments| == 3 && request.verb == "PUT" {
        PostTask(UiUpdate(n));
        return;
      }
      if |segments| == 3 && request.verb == "DELETE" {
        PostTask(UiQuery(n));
        return;
      }
      if |segments| == 4 && segments[3] == "launch" && request.verb == "POST" {
        PostTask(UiLaunch(n));
        return;
      }
      if |segments| == 4 && segments[3] == "stop" && request.verb == "POST" {
        PostTask(UiQuery(n));
        return;
      }
      if |segments| == 4 && segments[3] == "status" && request.verb == "GET" {
        PostTask(UiQuery(n));
        return;
      }
      if |segments| == 3 && segments[2] == "import" && request.verb == "POST" {
        if !request.listed {
          Send(n);
          return;
        }
        PostTask(UiQuery(n));
        return;
      }
      if |segments| >= 4 && segments[3] == "cdp" {
        PostTask(UiForward(n));
        return;
      }
      handled := false;
    }

    /** `HandleUpdateWorkspace` on the UI thread: an early answer for an unknown workspace. */
    method RunUpdate(n: nat, stored: bool)
      modifies this`tasks
      ensures tasks == old(tasks) + [ApiRespond(n)]
    {
      if !stored {
        PostTask(ApiRespond(n));
        return;
      }
      PostTask(ApiRespond(n));
    }

    /** `HandleLaunchWorkspace` on the UI thread; the manager answers at once or keeps the start pending. */
    method RunLaunch(n: nat, stored: bool, pends: bool)
      modifies this`tasks
      ensures tasks == old(tasks) + [if stored && pends then PendingStart(n) else ApiRespond(n)]
    {
      if !stored {
        PostTask(ApiRespond(n));
        return;
      }
      if pends {
        PostTask(PendingStart(n));
      } else {
        PostTask(ApiRespond(n));
      }
    }

    /** The task that forwards a CDP request to the child: one response on every path of a living handler. */
    method ForwardToChild(n: nat, exchange: Exchange)
      modifies this`responses
      ensures responses == old(responses) + if alive then [n] else []
    {
      if !alive {
        return;
      }
      if !exchange.socketMade {
        Send(n);
        return;
      }
      if !exchange.connected {
        Send(n);
        return;
      }
      if exchange.response == "" {
        Send(n);
        return;
      }
      match exchange.body
      case DictBody => Send(n);
      case ListBody => Send(n);
      case OtherBody => Send(n);
    }

    method RunTask(i: nat, finding: Finding)
      requires i < |tasks|
      modifies this
      ensures Now() == RunStep(old(Now()), i, finding)
    {
      var task := tasks[i];
      tasks := tasks[..i] + tasks[i + 1..];
      match task
      case UiQuery(n) => PostTask(ApiRespond(n));
      case UiUpdate(n) => RunUpdate(n, finding.stored);
      case UiLaunch(n) => RunLaunch(n, finding.stored, finding.ready);
      case PendingStart(n) => PostTask(ApiRespond(n));
      case UiForward(n) =>
        if finding.ready {
          PostTask(ApiForward(n));
        } else {
          PostTask(ApiRetry(n));
        }
      case UiForwardAgain(n) =>
        if finding.ready {
          PostTask(ApiForward(n));
        } else {
          PostTask(ApiRespond(n));
        }
      case ApiRespond(n) =>
        if alive {
          Send(n);
        }
      case ApiForward(n) => ForwardToChild(n, finding.exchange);
      case ApiRetry(n) =>
        if alive {
          retries := retries + [n];
          PostTask(UiForwardAgain(n));
        }
    }
  }

  // --- Runs ----------------------------------------------------------------------------------------------

  datatype Op =
    | Receive(request: Request)
    | Run(index: nat, finding: Finding)
    | Destroy

  /** Any posted task may run next, whichever thread it is for. */
  predicate Enabled(s: State, op: Op) {
    match op
    case Receive(_) => s.alive
    case Run(index, _) => index < |s.tasks|
    case Destroy => s.alive
  }

  function Next(s: State, token: string, op: Op): State
    requires Enabled(s, op)
  {
    match op
    case Receive(request) => ReceiveStep(s, token, request)
    case Run(index, finding) => RunStep(s, index, finding)
    case Destroy => s.(alive := false)
  }

  ghost predicate IsRun(states: seq<State>, token: string, ops: seq<Op>) {
    && |states| == |ops| + 1 && states[0] == INITIAL
    && forall i :: 0 <= i < |ops| ==> Enabled(states[i], ops[i]) && states[i + 1] == Next(states[i], token, ops[i])
  }

  /** The requests the tasks are for. */
  function Requests(tasks: seq<Task>): (requests: seq<nat>)
    ensures |requests| == |tasks| && forall k :: 0 <= k < |tasks| ==> requests[k] == tasks[k].request
  {
    seq(|tasks|, k requires 0 <= k < |tasks| => tasks[k].request)
  }

  /** The tasks that may still lead to a retry. */
  function Retriable(tasks: seq<Task>): seq<nat> {
    if tasks == [] then []
    else
      var last := tasks[|tasks| - 1];
      Retriable(tasks[..|tasks| - 1]) + if last.UiForward? || last.ApiRetry? then [last.request] else []
  }

  /** How many responses request n has had or has pending; at most one retry, likewise. */
  ghost function Answers(s: State, n: nat): nat {
    multiset(s.responses)[n] + multiset(Requests(s.tasks))[n]
  }

  ghost function Retries(s: State, n: nat): nat {
    multiset(s.retries)[n] + multiset(Retriable(s.tasks))[n]
  }

  ghost predicate Inv(s: State) {
    forall n: nat :: Answers(s, n) <= (if n < s.received then 1 else 0)
                     && (s.alive && n < s.received ==> Answers(s, n) == 1)
                     && Retries(s, n) <= (if n < s.received then 1 else 0)
  }

  lemma RequestsChange(tasks: seq<Task>, i: nat, more: seq<Task>)
    requires i < |tasks|
    ensures multiset(Requests(Without(tasks, i) + more))
            == multiset(Requests(tasks)) - multiset{tasks[i].request} + multiset(Requests(more))
  {
    var a, b, c := Requests(tasks[..i]), [tasks[i].request], Requests(tasks[i + 1..]);
    assert Requests(tasks) == a + b + c;
    assert Requests(Without(tasks, i) + more) == a + c + Requests(more);
  }

  lemma {:induction false} RetriableAppend(a: seq<Task>, b: seq<Task>)
    ensures Retriable(a + b) == Retriable(a) + Retriable(b)
  {
    if b == [] {
      assert a + b == a;
    } else {
      RetriableAppend(a, b[..|b| - 1]);
      assert (a + b)[..|a + b| - 1] == a + b[..|b| - 1];
    }
  }

  lemma RetriableChange(tasks: seq<Task>, i: nat, more: seq<Task>)
    requires i < |tasks|
    ensures multiset(Retriable(Without(tasks, i) + more)) + multiset(Retriable([tasks[i]]))
            == multiset(Retriable(tasks)) + multiset(Retriable(more))
  {
    assert tasks == tasks[..i] + [tasks[i]] + tasks[i + 1..];
    RetriableAppend(tasks[..i], [tasks[i]]);
    RetriableAppend(tasks[..i] + [tasks[i]], tasks[i + 1..]);
    RetriableAppend(tasks[..i], tasks[i + 1..]);
    RetriableAppend(Without(tasks, i), more);
  }

  lemma RetriableOne(task: Task)
    ensures Retriable([task]) == if task.UiForward? || task.ApiRetry? then [task.request] else []
  {
    assert [task][..0] == [] && Retriable([]) == [];
  }

  /** What running a task leaves in its place. */
  function Successors(task: Task, alive: bool, finding: Finding): seq<Task> {
    var n := task.request;
    match task
    case UiQuery(_) => [ApiRespond(n)]
    case UiUpdate(_) => [ApiRespond(n)]
    case UiLaunch(_) => [if finding.stored && finding.ready then PendingStart(n) else ApiRespond(n)]
    case PendingStart(_) => [ApiRespond(n)]
    case UiForward(_) => [if finding.ready then ApiForward(n) else ApiRetry(n)]
    case UiForwardAgain(_) => [if finding.ready then ApiForward(n) else ApiRespond(n)]
    case ApiRespond(_) => []
    case ApiForward(_) => []
    case ApiRetry(_) => if alive then [UiForwardAgain(n)] else []
  }

  lemma RunStepBySuccessors(s: State, i: nat, finding: Finding)
    requires i < |s.tasks|
    ensures RunStep(s, i, finding).tasks == Without(s.tasks, i) + Successors(s.tasks[i], s.alive, finding)
    ensures RunStep(s, i, finding).alive == s.alive && RunStep(s, i, finding).received == s.received
    ensures RunStep(s, i, finding).responses
            == s.responses
               + if (s.tasks[i].ApiRespond? || s.tasks[i].ApiForward?) && s.alive then [s.tasks[i].request] else []
    ensures RunStep(s, i, finding).retries
            == s.retries + if s.tasks[i].ApiRetry? && s.alive then [s.tasks[i].request] else []
  {
  }

  /** Running a task moves its request from pending to answered, or keeps it pending; only a handler that is gone drops
      it. */
  lemma RunKeepsAnswers(s: State, i: nat, finding: Finding, n: nat)
    requires i < |s.tasks|
    ensures Answers(RunStep(s, i, finding), n) <= Answers(s, n)
    ensures s.alive ==> Answers(RunStep(s, i, finding), n) == Answers(s, n)
  {
    hide RunStep, Requests, Without;
    var more := Successors(s.tasks[i], s.alive, finding);
    RunStepBySuccessors(s, i, finding);
    RequestsChange(s.tasks, i, more);
    RequestOfTask(s.tasks, i);
    RequestsOfSuccessors(s.tasks[i], s.alive, finding);
  }

  lemma RequestOfTask(tasks: seq<Task>, i: nat)
    requires i < |tasks|
    ensures multiset(Requests(tasks))[tasks[i].request] >= 1
  {
    assert Requests(tasks)[i] == tasks[i].request;
    assert tasks[i].request in Requests(tasks);
  }

  lemma RequestsOfSuccessors(task: Task, alive: bool, finding: Finding)
    ensures Requests(Successors(task, alive, finding))
            == if task.ApiRespond? || task.ApiForward? || (task.ApiRetry? && !alive) then [] else [task.request]
  {
  }

  lemma RunKeepsRetries(s: State, i: nat, finding: Finding, n: nat)
    requires i < |s.tasks|
    ensures Retries(RunStep(s, i, finding), n) <= Retries(s, n)
  {
    hide RunStep, Retriable;
    var more := Successors(s.tasks[i], s.alive, finding);
    RunStepBySuccessors(s, i, finding);
    RetriableChange(s.tasks, i, more);
    RetriableOne(s.tasks[i]);
    RetriableNone();
    if more != [] {
      RetriableOne(more[0]);
      assert more == [more[0]];
    }
    var t := RunStep(s, i, finding);
    var before, after := multiset(Retriable([s.tasks[i]]))[n], multiset(Retriable(more))[n];
    assert t.tasks == Without(s.tasks, i) + more;
    assert (multiset(Retriable(t.tasks)) + multiset(Retriable([s.tasks[i]])))[n]
           == (multiset(Retriable(s.tasks)) + multiset(Retriable(more)))[n];
    assert multiset(Retriable(t.tasks))[n] + before == multiset(Retriable(s.tasks))[n] + after;
    assert multiset(t.retries)[n] + after <= multiset(s.retries)[n] + before;
  }

  lemma RetriableNone()
    ensures Retriable([]) == []
  {
  }

  /** A request is answered at once or gets a task. */
  lemma ReceiveCounts(s: State, token: string, request: Request, n: nat)
    ensures var t := ReceiveStep(s, token, request);
            && Answers(t, n) == Answers(s, n) + (if n == s.received then 1 else 0)
            && Retries(t, n) <= Retries(s, n) + (if n == s.received then 1 else 0)
  {
    hide Dispatch, Retriable, Requests;
    var task := FirstTask(Dispatch(token, request), request, s.received);
    if task.Some? {
      RequestsPlus(s.tasks, task.value);
      RetriableAppend(s.tasks, [task.value]);
      RetriableOne(task.value);
    }
  }

  lemma RequestsPlus(tasks: seq<Task>, task: Task)
    ensures Requests(tasks + [task]) == Requests(tasks) + [task.request]
  {
  }

  lemma ReceiveKeepsInv(s: State, token: string, request: Request)
    requires Inv(s)
    ensures Inv(ReceiveStep(s, token, request))
  {
    hide Dispatch, Answers, Retries, FirstTask;
    var t := ReceiveStep(s, token, request);
    forall n: nat
      ensures Answers(t, n) == Answers(s, n) + (if n == s.received then 1 else 0)
      ensures Retries(t, n) <= Retries(s, n) + (if n == s.received then 1 else 0)
    {
      ReceiveCounts(s, token, request, n);
    }
  }

  lemma InvStep(s: State, token: string, op: Op)
    requires Inv(s) && Enabled(s, op)
    ensures Inv(Next(s, token, op))
  {
    hide ReceiveStep, RunStep, Answers, Retries;
    match op
    case Receive(request) => ReceiveKeepsInv(s, token, request);
    case Run(i, finding) =>
      RunStepBySuccessors(s, i, finding);
      forall n: nat
        ensures Answers(RunStep(s, i, finding), n) <= Answers(s, n)
        ensures s.alive ==> Answers(RunStep(s, i, finding), n) == Answers(s, n)
        ensures Retries(RunStep(s, i, finding), n) <= Retries(s, n)
      {
        RunKeepsAnswers(s, i, finding, n);
        RunKeepsRetries(s, i, finding, n);
      }
    case Destroy =>
      DestroyKeepsCounts(s);
  }

  lemma DestroyKeepsCounts(s: State)
    ensures forall n: nat :: Answers(s.(alive := false), n) == Answers(s, n)
    ensures forall n: nat :: Retries(s.(alive := false), n) == Retries(s, n)
  {
  }

  lemma {:induction false} AlwaysInv(states: seq<State>, token: string, ops: seq<Op>, k: nat)
    requires IsRun(states, token, ops) && k <= |ops|
    ensures Inv(states[k])
  {
    hide Next;
    if k == 0 {
      assert Retriable([]) == [] && Requests([]) == [];
    } else {
      AlwaysInv(states, token, ops, k - 1);
      InvStep(states[k - 1], token, ops[k - 1]);
    }
  }

  /** Whatever the order the tasks of the two threads run in: while the handler lives, each received request has had
      exactly one response or has exactly one task pending for it; never more, even after the handler is gone; and it is
      retried at most once. */
  lemma OneResponsePerRequest(states: seq<State>, token: string, ops: seq<Op>, k: nat, n: nat)
    requires IsRun(states, token, ops) && k <= |ops|
    ensures multiset(states[k].responses)[n] <= 1 && multiset(states[k].retries)[n] <= 1
    ensures states[k].alive && n < states[k].received ==>
              multiset(states[k].responses)[n] + multiset(Requests(states[k].tasks))[n] == 1
    ensures n >= states[k].received ==> multiset(states[k].responses)[n] == 0
  {
    hide Next, Requests, Retriable;
    AlwaysInv(states, token, ops, k);
    assert Answers(states[k], n) <= 1 && Retries(states[k], n) <= 1;
  }

  /** Once all tasks have run, a living handler has answered every request exactly once. */
  lemma AllAnswered(states: seq<State>, token: string, ops: seq<Op>, n: nat)
    requires IsRun(states, token, ops)
    requires states[|ops|].alive && states[|ops|].tasks == [] && n < states[|ops|].received
    ensures multiset(states[|ops|].responses)[n] == 1
  {
    OneResponsePerRequest(states, token, ops, |ops|, n);
    assert Requests([]) == [];
  }

  /** How many tasks run for a task's request from that task on, at most. */
  function Steps(task: Task): nat {
    match task
    case UiForward(_) => 4
    case UiLaunch(_) => 3
    case ApiRetry(_) => 3
    case ApiRespond(_) => 1
    case ApiForward(_) => 1
    case _ => 2
  }

  /** The same for request n and all its tasks. */
  function StepsFor(tasks: seq<Task>, n: nat): nat {
    if tasks == [] then 0 else (if tasks[0].request == n then Steps(tasks[0]) else 0) + StepsFor(tasks[1..], n)
  }

  lemma {:induction false} StepsForAppend(a: seq<Task>, b: seq<Task>, n: nat)
    ensures StepsFor(a + b, n) == StepsFor(a, n) + StepsFor(b, n)
  {
    if a == [] {
      assert a + b == b;
    } else {
      StepsForAppend(a[1..], b, n);
      assert (a + b)[1..] == a[1..] + b;
    }
  }

  lemma StepsForOne(task: Task, n: nat)
    ensures StepsFor([task], n) == if task.request == n then Steps(task) else 0
  {
    assert StepsFor([task][1..], n) == 0;
  }

  /** Running a task of request n takes at least one step off what is left for it, and leaves the others alone. */
  lemma RunMakesProgress(s: State, i: nat, finding: Finding, n: nat)
    requires i < |s.tasks|
    ensures StepsFor(RunStep(s, i, finding).tasks, n) + (if s.tasks[i].request == n then 1 else 0)
            <= StepsFor(s.tasks, n)
  {
    hide RunStep, StepsFor;
    var task := s.tasks[i];
    var more := Successors(task, s.alive, finding);
    RunStepBySuccessors(s, i, finding);
    assert s.tasks == s.tasks[..i] + [task] + s.tasks[i + 1..];
    StepsForAppend(s.tasks[..i] + [task], s.tasks[i + 1..], n);
    StepsForAppend(s.tasks[..i], [task], n);
    StepsForAppend(s.tasks[..i], s.tasks[i + 1..], n);
    StepsForAppend(Without(s.tasks, i), more, n);
    StepsForOne(task, n);
    if more == [] {
      assert StepsFor([], n) == 0 by { StepsForNone(n); }
    } else {
      assert more == [more[0]] && more[0].request == task.request && Steps(more[0]) < Steps(task);
      StepsForOne(more[0], n);
    }
  }

  lemma StepsForNone(n: nat)
    ensures StepsFor([], n) == 0
  {
  }

  /** How many tasks of request n the first k operations have run. */
  function TasksRun(states: seq<State>, ops: seq<Op>, n: nat, k: nat): nat
    requires k <= |ops| < |states|
    requires forall i :: 0 <= i < |ops| ==> Enabled(states[i], ops[i])
  {
    if k == 0 then 0
    else
      var s, op := states[k - 1], ops[k - 1];
      TasksRun(states, ops, n, k - 1) + if op.Run? && s.tasks[op.index].request == n then 1 else 0
  }

  /** In every run, at most four tasks run for a request, retry included: with what may still be left for it they never
      exceed four, so no request waits for ever. */
  lemma {:induction false} FourTasksPerRequest(states: seq<State>, token: string, ops: seq<Op>, n: nat, k: nat)
    requires IsRun(states, token, ops) && k <= |ops|
    ensures TasksRun(states, ops, n, k) + StepsFor(states[k].tasks, n) <= if n < states[k].received then 4 else 0
  {
    if k == 0 {
    } else {
      FourTasksPerRequest(states, token, ops, n, k - 1);
      hide StepsFor, Dispatch;
      var s, op := states[k - 1], ops[k - 1];
      assert states[k] == Next(s, token, op);
      match op
      case Run(i, finding) =>
        RunMakesProgress(s, i, finding, n);
        RunStepBySuccessors(s, i, finding);
      case Receive(request) => ReceiveAddsSteps(s, token, request, n);
      case Destroy =>
    }
  }

  lemma ReceiveAddsSteps(s: State, token: string, request: Request, n: nat)
    ensures var t := ReceiveStep(s, token, request);
            StepsFor(t.tasks, n) <= StepsFor(s.tasks, n) + (if n == s.received then 4 else 0)
  {
    hide Dispatch, StepsFor;
    var task := FirstTask(Dispatch(token, request), request, s.received);
    if task.Some? {
      StepsForAppend(s.tasks, [task.value], n);
      StepsForOne(task.value, n);
    }
  }

  // --- Which tasks an answer waits for -------------------------------------------------------------------

  /** Which requests are answered at once, and what the others wait for first. */
  lemma FirstTaskExactly(token: string, request: Request, n: nat)
    ensures var route, task := Dispatch(token, request), FirstTask(Dispatch(token, request), request, n);
            && (task == None <==>
                  route == Unauthorized || route == NotFound || (route == CreateWorkspace && !request.named)
                  || (route == ImportWorkspaces && !request.listed))
            && (task == Some(UiLaunch(n)) <==> route.LaunchWorkspace?)
            && (task == Some(UiForward(n)) <==> route.CDPRequest?)
            && (task == Some(UiUpdate(n)) <==> route.UpdateWorkspace?)
            && (task.Some? ==> task.value.request == n)
  {
    hide Dispatch;
  }

  /** The two kinds of request whose answer comes from elsewhere than the stores. */
  datatype Matter = Forwarding | Launching

  /** The tasks in which the matter is still open. */
  predicate Open(matter: Matter, task: Task) {
    match matter
    case Forwarding => task.UiForward? || task.ApiRetry? || task.UiForwardAgain? || task.ApiForward?
    case Launching => task.UiLaunch? || task.PendingStart?
  }

  /** The tasks that settle it: the forward itself, or the refusal of the retry; the continuation of the start, or the
      launch of an unknown workspace or one that the manager answers at once. */
  predicate Settles(matter: Matter, task: Task, finding: Finding) {
    match matter
    case Forwarding => task.ApiForward? || (task.UiForwardAgain? && !finding.ready)
    case Launching => task.PendingStart? || (task.UiLaunch? && !(finding.stored && finding.ready))
  }

  /** Among the first k operations of the run is one that settles the matter for request n. */
  ghost predicate Settled(states: seq<State>, ops: seq<Op>, matter: Matter, n: nat, k: nat)
    requires k <= |ops| < |states|
  {
    exists i :: 0 <= i < k && ops[i].Run? && ops[i].index < |states[i].tasks|
                && states[i].tasks[ops[i].index].request == n
                && Settles(matter, states[i].tasks[ops[i].index], ops[i].finding)
  }

  /** Until the matter is settled, request n is not answered and its tasks leave the matter open. */
  ghost predicate Unsettled(s: State, matter: Matter, n: nat) {
    && n < s.received && n !in s.responses
    && forall i :: 0 <= i < |s.tasks| && s.tasks[i].request == n ==> Open(matter, s.tasks[i])
  }

  lemma UnsettledStep(s: State, token: string, op: Op, matter: Matter, n: nat)
    requires Enabled(s, op) && Unsettled(s, matter, n)
    requires op.Run? && s.tasks[op.index].request == n ==> !Settles(matter, s.tasks[op.index], op.finding)
    ensures Unsettled(Next(s, token, op), matter, n)
  {
    hide Dispatch;
    match op
    case Run(i, finding) =>
      RunStepBySuccessors(s, i, finding);
      var rest := Without(s.tasks, i);
      assert forall j :: 0 <= j < |rest| ==> rest[j] == s.tasks[if j < i then j else j + 1];
    case _ =>
  }

  /** Where a request starts: unanswered, with the matter open. */
  lemma UnsettledAtFirst(s: State, token: string, request: Request, matter: Matter)
    requires Inv(s) && s.alive
    requires match matter
             case Forwarding => Dispatch(token, request).CDPRequest?
             case Launching => Dispatch(token, request).LaunchWorkspace?
    ensures Unsettled(ReceiveStep(s, token, request), matter, s.received)
  {
    hide Dispatch, Retriable, Retries;
    var n := s.received;
    assert Answers(s, n) == 0;
    assert n !in s.responses;
    forall i | 0 <= i < |s.tasks|
      ensures s.tasks[i].request != n
    {
      RequestOfTask(s.tasks, i);
    }
  }

  lemma {:induction false} OpenUntilSettled(states: seq<State>, token: string, ops: seq<Op>, matter: Matter, j: nat,
                                            k: nat)
    requires IsRun(states, token, ops) && j < k <= |ops| && ops[j].Receive?
    requires match matter
             case Forwarding => Dispatch(token, ops[j].request).CDPRequest?
             case Launching => Dispatch(token, ops[j].request).LaunchWorkspace?
    requires !Settled(states, ops, matter, states[j].received, k)
    ensures Unsettled(states[k], matter, states[j].received)
  {
    hide Next, Dispatch, Unsettled, Settles;
    var n := states[j].received;
    if k == j + 1 {
      AlwaysInv(states, token, ops, j);
      UnsettledAtFirst(states[j], token, ops[j].request, matter);
      NextOfReceive(states[j], token, ops[j].request);
    } else {
      assert !Settled(states, ops, matter, n, k - 1);
      OpenUntilSettled(states, token, ops, matter, j, k - 1);
      UnsettledStep(states[k - 1], token, ops[k - 1], matter, n);
    }
  }

  lemma NextOfReceive(s: State, token: string, request: Request)
    requires s.alive
    ensures Next(s, token, Receive(request)) == ReceiveStep(s, token, request)
  {
  }

  /** In every run a CDP request is answered only after its forwarding to the child or after its retry has been refused,
      and a launch only after its start has gone on or was answered, or its workspace was not found. */
  lemma AnsweredOnlyWhenSettled(states: seq<State>, token: string, ops: seq<Op>, matter: Matter, j: nat, k: nat)
    requires IsRun(states, token, ops) && j < k <= |ops| && ops[j].Receive?
    requires match matter
             case Forwarding => Dispatch(token, ops[j].request).CDPRequest?
             case Launching => Dispatch(token, ops[j].request).LaunchWorkspace?
    ensures states[j].received in states[k].responses ==> Settled(states, ops, matter, states[j].received, k)
  {
    hide Next, Dispatch, Settled;
    if !Settled(states, ops, matter, states[j].received, k) {
      OpenUntilSettled(states, token, ops, matter, j, k);
    }
  }
}
