/**
  Connection slots of the event server: a bounded semaphore, a locked set of
  active connections with a counter, and the threads that use them.

  Each step below is one atomic action of one thread; the semaphore and the
  locked section are updated in separate steps, so anything may happen between.
 */
module ConnectionSlots {
  /** A connection is known by the identity of its socket. */
  type Connection = nat

  /** The accepting thread. */
  datatype Acceptor =
    | Idle
    | Acquired(connection: Connection)      // took a permit, has not registered yet
    | Registered(connection: Connection)    // about to start the handler
    | Unwinding(connection: Connection)     // starting raised; about to release
    | UnwindingRelease(connection: Connection)  // removed it from the set; permit not yet returned

  /** The thread that handles one connection. */
  datatype Worker =
    | Running          // handling; may still release early
    | EarlyRelease     // removed itself early; permit not yet returned
    | FinalRelease     // removed itself at the end; permit not yet returned
    | Ended

  datatype Server = Server(
    maximum: nat,
    permits: int,
    active: set<Connection>,
    activeCount: int,
    acceptor: Acceptor,
    workers: map<Connection, Worker>,
    seen: set<Connection>)

  datatype Action =
    | Accept(connection: Connection)
    | Register
    | Start
    | StartThenRaise
    | FailToStart
    | Unwind
    | FinishUnwind
    | ReleaseEarly(connection: Connection)
    | FinishEarly(connection: Connection)
    | ReleaseFinally(connection: Connection)
    | FinishFinally(connection: Connection)

  function Start(maximum: nat): Server {
    Server(maximum, maximum, {}, 0, Idle, map[], {})
  }

  predicate WorkerIs(s: Server, c: Connection, w: Worker) {
    c in s.workers && s.workers[c] == w
  }

  predicate Enabled(s: Server, action: Action) {
    match action
    case Accept(c) => s.acceptor.Idle? && c !in s.seen
    case Register => s.acceptor.Acquired?
    case Start | StartThenRaise | FailToStart => s.acceptor.Registered?
    case Unwind => s.acceptor.Unwinding?
    case FinishUnwind => s.acceptor.UnwindingRelease?
    case ReleaseEarly(c) => WorkerIs(s, c, Running)
    case FinishEarly(c) => WorkerIs(s, c, EarlyRelease)
    case ReleaseFinally(c) => WorkerIs(s, c, Running)
    case FinishFinally(c) => WorkerIs(s, c, FinalRelease)
  }

  /** The locked half of a release: only a connection still active gives anything up. */
  function Unregister(s: Server, c: Connection): Server {
    if c in s.active then s.(active := s.active - {c}, activeCount := s.activeCount - 1) else s
  }

  function ReturnPermit(s: Server): Server {
    s.(permits := s.permits + 1)
  }

  function Apply(s: Server, action: Action): Server
    requires Enabled(s, action)
  {
    match action
    case Accept(c) =>
      if s.permits > 0 then s.(permits := s.permits - 1, acceptor := Acquired(c), seen := s.seen + {c})
      else s.(seen := s.seen + {c})
    case Register =>
      var c := s.acceptor.connection;
      s.(active := s.active + {c}, activeCount := s.activeCount + 1, acceptor := Registered(c))
    case Start => s.(workers := s.workers[s.acceptor.connection := Running], acceptor := Idle)
    case StartThenRaise =>
      var c := s.acceptor.connection;
      s.(workers := s.workers[c := Running], acceptor := Unwinding(c))
    case FailToStart => s.(acceptor := Unwinding(s.acceptor.connection))
    case Unwind =>
      var c := s.acceptor.connection;
      Unregister(s, c).(acceptor := if c in s.active then UnwindingRelease(c) else Idle)
    case FinishUnwind => ReturnPermit(s).(acceptor := Idle)
    case ReleaseEarly(c) =>
      Unregister(s, c).(workers := s.workers[c := if c in s.active then EarlyRelease else Running])
    case FinishEarly(c) => ReturnPermit(s).(workers := s.workers[c := Running])
    case ReleaseFinally(c) =>
      Unregister(s, c).(workers := s.workers[c := if c in s.active then FinalRelease else Ended])
    case FinishFinally(c) => ReturnPermit(s).(workers := s.workers[c := Ended])
  }

  // ----- Accounting -----

  function Acquiring(s: Server): set<Connection> {
    if s.acceptor.Acquired? then {s.acceptor.connection} else {}
  }

  /** Workers that have left the active set and still owe the semaphore a permit. */
  function WorkersOwing(s: Server): set<Connection> {
    set c | c in s.workers && (s.workers[c].EarlyRelease? || s.workers[c].FinalRelease?)
  }

  function AcceptorOwes(s: Server): nat {
    if s.acceptor.UnwindingRelease? then 1 else 0
  }

  ghost predicate Accounted(s: Server) {
    && s.permits + |Acquiring(s)| + |s.active| + |WorkersOwing(s)| + AcceptorOwes(s) == s.maximum
    && s.activeCount == |s.active|
    && s.permits >= 0
  }

  /** Somebody still holds the job of releasing every active connection. */
  ghost predicate NobodyIsForgotten(s: Server) {
    forall c | c in s.active ::
      || s.acceptor == Registered(c) || s.acceptor == Unwinding(c)
      || WorkerIs(s, c, Running)
  }

  ghost predicate ConnectionsAreKnown(s: Server) {
    && s.active <= s.seen && s.workers.Keys <= s.seen
    && (!s.acceptor.Idle? ==> s.acceptor.connection in s.seen)
    && (s.acceptor.Acquired? ==> s.acceptor.connection !in s.active && s.acceptor.connection !in s.workers)
    && (s.acceptor.Registered? ==> s.acceptor.connection in s.active && s.acceptor.connection !in s.workers)
  }

  ghost predicate Inv(s: Server) {
    Accounted(s) && NobodyIsForgotten(s) && ConnectionsAreKnown(s)
  }

  lemma OwingChanges(s: Server, next: Server, c: Connection, w: Worker)
    requires next.workers == s.workers[c := w]
    ensures WorkersOwing(next) ==
            if w.EarlyRelease? || w.FinalRelease? then WorkersOwing(s) + {c} else WorkersOwing(s) - {c}
    ensures c in WorkersOwing(s) <==> WorkerIs(s, c, EarlyRelease) || WorkerIs(s, c, FinalRelease)
  {
  }

  predicate ByAcceptor(action: Action) {
    action.Accept? || action.Register? || action.Unwind? || action.FinishUnwind? || action.FailToStart?
  }

  lemma AcceptorBalances(s: Server, action: Action)
    requires Accounted(s) && ConnectionsAreKnown(s) && Enabled(s, action) && ByAcceptor(action)
    ensures Accounted(Apply(s, action))
  {
    SameWorkersOwe(s, Apply(s, action));
    if s.acceptor.Acquired? {
      AcquiredIsNotActive(s);
    }
    hide WorkersOwing, ConnectionsAreKnown;
    match action {
      case Accept(_) => case Register => case Unwind => case FinishUnwind => case FailToStart =>
    }
  }

  lemma SameWorkersOwe(s: Server, next: Server)
    requires next.workers == s.workers
    ensures WorkersOwing(next) == WorkersOwing(s)
  {
  }

  lemma AcquiredIsNotActive(s: Server)
    requires ConnectionsAreKnown(s) && s.acceptor.Acquired?
    ensures s.acceptor.connection !in s.active
  {
  }

  lemma AcceptorForgetsNobody(s: Server, action: Action)
    requires NobodyIsForgotten(s) && Enabled(s, action) && ByAcceptor(action)
    ensures NobodyIsForgotten(Apply(s, action))
  {
  }

  lemma AcceptorKnowsConnections(s: Server, action: Action)
    requires ConnectionsAreKnown(s) && Enabled(s, action) && ByAcceptor(action)
    ensures ConnectionsAreKnown(Apply(s, action))
  {
  }

  /** Steps of the accepting thread. */
  lemma AcceptorKeepsAccounts(s: Server, action: Action)
    requires Inv(s) && Enabled(s, action) && ByAcceptor(action)
    ensures Inv(Apply(s, action))
  {
    hide Accounted, NobodyIsForgotten, ConnectionsAreKnown, Apply;
    AcceptorBalances(s, action);
    AcceptorForgetsNobody(s, action);
    AcceptorKnowsConnections(s, action);
  }

  lemma StartingKeepsAccounts(s: Server, action: Action)
    requires Inv(s) && Enabled(s, action) && (action.Start? || action.StartThenRaise?)
    ensures Inv(Apply(s, action))
  {
    OwingChanges(s, Apply(s, action), s.acceptor.connection, Running);
  }

  lemma UnregisteringMovesTheDebt(s: Server, c: Connection, w: Worker, next: Server)
    requires Accounted(s) && WorkerIs(s, c, Running)
    requires next == Unregister(s, c).(workers := s.workers[c := w])
    requires c in s.active <==> w.EarlyRelease? || w.FinalRelease?
    ensures Accounted(next)
  {
    OwingChanges(s, next, c, w);
  }

  lemma UnregisteringForgetsNobody(s: Server, c: Connection, w: Worker, next: Server)
    requires NobodyIsForgotten(s) && ConnectionsAreKnown(s) && WorkerIs(s, c, Running)
    requires next == Unregister(s, c).(workers := s.workers[c := w])
    ensures NobodyIsForgotten(next) && ConnectionsAreKnown(next)
  {
  }

  lemma UnregisteringKeepsAccounts(s: Server, action: Action)
    requires Inv(s) && Enabled(s, action) && (action.ReleaseEarly? || action.ReleaseFinally?)
    ensures Inv(Apply(s, action))
  {
    hide Accounted, NobodyIsForgotten, ConnectionsAreKnown;
    var c, next := action.connection, Apply(s, action);
    UnregisteringMovesTheDebt(s, c, next.workers[c], next);
    UnregisteringForgetsNobody(s, c, next.workers[c], next);
  }

  lemma ReturningKeepsAccounts(s: Server, action: Action)
    requires Inv(s) && Enabled(s, action) && (action.FinishEarly? || action.FinishFinally?)
    ensures Inv(Apply(s, action))
  {
    var c, next := action.connection, Apply(s, action);
    OwingChanges(s, next, c, next.workers[c]);
  }

  /** Every step of every thread keeps the accounts. */
  lemma StepKeepsAccounts(s: Server, action: Action)
    requires Inv(s) && Enabled(s, action)
    ensures Inv(Apply(s, action)) && Apply(s, action).maximum == s.maximum
  {
    hide Inv;
    match action {
      case Start | StartThenRaise => StartingKeepsAccounts(s, action);
      case ReleaseEarly(_) | ReleaseFinally(_) => UnregisteringKeepsAccounts(s, action);
      case FinishEarly(_) | FinishFinally(_) => ReturningKeepsAccounts(s, action);
      case _ => AcceptorKeepsAccounts(s, action);
    }
  }

  /** Runs: any interleaving of enabled steps. */
  ghost predicate Run(states: seq<Server>, actions: seq<Action>, maximum: nat) {
    && |states| == |actions| + 1
    && states[0] == Start(maximum)
    && forall i | 0 <= i < |actions| :: Enabled(states[i], actions[i]) && states[i + 1] == Apply(states[i], actions[i])
  }

  lemma {:induction false} RunsKeepAccounts(states: seq<Server>, actions: seq<Action>, maximum: nat, k: nat)
    requires Run(states, actions, maximum) && k < |states|
    ensures Inv(states[k]) && states[k].maximum == maximum
    decreases k
  {
    if k > 0 {
      RunsKeepAccounts(states, actions, maximum, k - 1);
      StepKeepsAccounts(states[k - 1], actions[k - 1]);
    } else {
      assert WorkersOwing(states[0]) == {};
    }
  }

  predicate Releases(action: Action) {
    action.FinishUnwind? || action.FinishEarly? || action.FinishFinally?
  }

  /** The bounded semaphore never refuses a release, and slots are never oversubscribed. */
  lemma SemaphoreIsNeverOverReleased(states: seq<Server>, actions: seq<Action>, maximum: nat, k: nat)
    requires Run(states, actions, maximum) && k < |actions| && Releases(actions[k])
    ensures 0 <= states[k].permits < maximum
  {
    RunsKeepAccounts(states, actions, maximum, k);
    var s := states[k];
    match actions[k] {
      case FinishEarly(c) => assert c in WorkersOwing(s);
      case FinishFinally(c) => assert c in WorkersOwing(s);
      case _ =>
    }
  }

  lemma ActiveConnectionsAreBounded(states: seq<Server>, actions: seq<Action>, maximum: nat, k: nat)
    requires Run(states, actions, maximum) && k < |states|
    ensures states[k].activeCount == |states[k].active| <= maximum
    ensures 0 <= states[k].permits <= maximum
  {
    RunsKeepAccounts(states, actions, maximum, k);
  }

  // ----- One permit per connection -----

  /** The step takes a permit for the connection, or returns one. */
  predicate TakesFor(s: Server, action: Action, c: Connection) {
    action == Accept(c) && s.permits > 0
  }

  predicate ReturnsFor(s: Server, action: Action, c: Connection) {
    || action == FinishEarly(c) || action == FinishFinally(c)
    || (action.FinishUnwind? && s.acceptor == UnwindingRelease(c))
  }

  /** How many permits a connection accounts for: being acquired, active, or owed by a thread. */
  function Share(s: Server, c: Connection): nat {
    (if s.acceptor == Acquired(c) then 1 else 0) + (if c in s.active then 1 else 0)
    + (if WorkerIs(s, c, EarlyRelease) || WorkerIs(s, c, FinalRelease) then 1 else 0)
    + (if s.acceptor == UnwindingRelease(c) then 1 else 0)
  }

  lemma ShareChanges(s: Server, action: Action, c: Connection)
    requires ConnectionsAreKnown(s) && Enabled(s, action)
    ensures Share(Apply(s, action), c) ==
            Share(s, c) + (if TakesFor(s, action, c) then 1 else 0) - (if ReturnsFor(s, action, c) then 1 else 0)
    ensures Apply(s, action).seen == s.seen + if action.Accept? then {action.connection} else {}
  {
    match action {
      case Accept(_) => case Register => case Start => case StartThenRaise => case FailToStart =>
      case Unwind => case FinishUnwind =>
      case ReleaseEarly(_) => case FinishEarly(_) => case ReleaseFinally(_) => case FinishFinally(_) =>
    }
  }

  /** Permits taken for a connection, and returned for it, by the first k steps. */
  ghost function Taken(states: seq<Server>, actions: seq<Action>, c: Connection, k: nat): nat
    requires k <= |actions| < |states|
  {
    if k == 0 then 0
    else Taken(states, actions, c, k - 1) + if TakesFor(states[k - 1], actions[k - 1], c) then 1 else 0
  }

  ghost function Returned(states: seq<Server>, actions: seq<Action>, c: Connection, k: nat): nat
    requires k <= |actions| < |states|
  {
    if k == 0 then 0
    else Returned(states, actions, c, k - 1) + if ReturnsFor(states[k - 1], actions[k - 1], c) then 1 else 0
  }

  /**
    Every connection takes at most one permit, and what it took is either still
    accounted for or was returned, once, whichever call site got there first.
   */
  lemma {:induction false} OnePermitPerConnection(
    states: seq<Server>, actions: seq<Action>, maximum: nat, c: Connection, k: nat)
    requires Run(states, actions, maximum) && k <= |actions|
    ensures Returned(states, actions, c, k) + Share(states[k], c) == Taken(states, actions, c, k) <= 1
    ensures c !in states[k].seen ==> Taken(states, actions, c, k) == 0
    decreases k
  {
    hide Apply, Share, Accounted, NobodyIsForgotten;
    if k == 0 {
      NothingShared(maximum, c);
    } else {
      OnePermitPerConnection(states, actions, maximum, c, k - 1);
      RunsKeepAccounts(states, actions, maximum, k - 1);
      ShareChanges(states[k - 1], actions[k - 1], c);
    }
  }

  lemma NothingShared(maximum: nat, c: Connection)
    ensures Share(Start(maximum), c) == 0
  {
  }

  /** When no thread is in the middle of anything, every permit taken has been returned exactly once. */
  lemma QuiescentConnectionsReturnedTheirPermit(
    states: seq<Server>, actions: seq<Action>, maximum: nat, c: Connection, k: nat)
    requires Run(states, actions, maximum) && k <= |actions| && Quiescent(states[k])
    ensures Returned(states, actions, c, k) == Taken(states, actions, c, k) <= 1
  {
    OnePermitPerConnection(states, actions, maximum, c, k);
    QuiescentServerHasEverySlotFree(states, actions, maximum, k);
  }

  ghost predicate Quiescent(s: Server) {
    s.acceptor.Idle? && forall c | c in s.workers :: s.workers[c] == Ended
  }

  /** When no thread is in the middle of anything, every slot is free again. */
  lemma QuiescentServerHasEverySlotFree(states: seq<Server>, actions: seq<Action>, maximum: nat, k: nat)
    requires Run(states, actions, maximum) && k < |states| && Quiescent(states[k])
    ensures states[k].permits == maximum && states[k].active == {} && states[k].activeCount == 0
  {
    RunsKeepAccounts(states, actions, maximum, k);
    var s := states[k];
    assert WorkersOwing(s) == {};
    assert s.active == {} by {
      forall c ensures c !in s.active {
      }
    }
  }
}
