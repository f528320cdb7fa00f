/** Connection slots are given when they are free, and given back. */
module SlotProgress {
  import opened ConnectionSlots

  /** How many connections still account for a slot while the accepting thread is idle. */
  function Held(s: Server): nat {
    |s.active| + |WorkersOwing(s)|
  }

  /** Over every run a new connection is taken in exactly when fewer than the maximum hold a slot. */
  lemma RefusedOnlyWhenFull(states: seq<Server>, actions: seq<Action>, maximum: nat, k: nat, c: Connection)
    requires Run(states, actions, maximum) && k < |states| && states[k].acceptor.Idle? && c !in states[k].seen
    ensures Enabled(states[k], Accept(c))
    ensures var next := Apply(states[k], Accept(c));
            if Held(states[k]) < maximum then next.acceptor == Acquired(c) && next.permits == states[k].permits - 1
            else next == states[k].(seen := states[k].seen + {c})
  {
    hide WorkersOwing;
    RunsKeepAccounts(states, actions, maximum, k);
  }

  /** A connection released early frees its slot while its thread is still running. */
  lemma EarlyReleaseFreesTheSlot(s: Server, c: Connection)
    requires WorkerIs(s, c, Running) && c in s.active
    ensures Enabled(s, ReleaseEarly(c))
    ensures var left := Apply(s, ReleaseEarly(c));
            && Enabled(left, FinishEarly(c)) && c !in left.active && left.activeCount == s.activeCount - 1
            && var freed := Apply(left, FinishEarly(c));
               && WorkerIs(freed, c, Running) && freed.permits == s.permits + 1 && freed.active == s.active - {c}
               && Apply(freed, ReleaseFinally(c)).permits == freed.permits
               && Apply(freed, ReleaseFinally(c)).active == freed.active
  {
  }

  // ----- Every server can come to rest -----

  /** Steps that lead from one state to another without taking anybody in. */
  ghost predicate Leads(states: seq<Server>, actions: seq<Action>, from: Server, to: Server) {
    && |states| == |actions| + 1 && states[0] == from && states[|actions|] == to
    && forall i | 0 <= i < |actions| ::
         && !actions[i].Accept? && Enabled(states[i], actions[i]) && states[i + 1] == Apply(states[i], actions[i])
  }

  lemma LeadsOneFurther(
    states: seq<Server>, actions: seq<Action>, from: Server, action: Action, to: Server)
    returns (longer: seq<Server>, all: seq<Action>)
    requires Enabled(from, action) && !action.Accept? && Leads(states, actions, Apply(from, action), to)
    ensures Leads(longer, all, from, to)
  {
    hide Apply;
    longer, all := [from] + states, [action] + actions;
    forall i | 0 <= i < |all|
      ensures !all[i].Accept? && Enabled(longer[i], all[i]) && longer[i + 1] == Apply(longer[i], all[i])
    {
      if i > 0 {
        assert all[i] == actions[i - 1] && longer[i] == states[i - 1] && longer[i + 1] == states[i];
      }
    }
  }

  function AcceptorWork(a: Acceptor): nat {
    match a
    case Idle => 0 case UnwindingRelease(_) => 1 case Unwinding(_) => 2 case Registered(_) => 3 case Acquired(_) => 4
  }

  /** The next step of the accepting thread on its way back to waiting. */
  function AcceptorStep(a: Acceptor): Action
    requires !a.Idle?
  {
    match a
    case Acquired(_) => Register
    case Registered(_) => FailToStart
    case Unwinding(_) => Unwind
    case UnwindingRelease(_) => FinishUnwind
  }

  function At(s: Server, w: Worker): set<Connection> {
    set c | c in s.workers && s.workers[c] == w
  }

  lemma WorkerMoves(s: Server, next: Server, c: Connection, from: Worker, to: Worker)
    requires WorkerIs(s, c, from) && next.workers == s.workers[c := to] && from != to
    ensures At(next, from) == At(s, from) - {c} && At(next, to) == At(s, to) + {c}
    ensures forall w | w != from && w != to :: At(next, w) == At(s, w)
    ensures |At(next, from)| < |At(s, from)|
  {
    assert c in At(s, from);
  }

  lemma SameWorkers(s: Server, next: Server)
    requires next.workers == s.workers
    ensures forall w :: At(next, w) == At(s, w)
  {
  }

  /** From every state the server ever reaches, the threads at work can finish and free every slot. */
  lemma {:induction false} EveryServerCanDrain(s: Server)
    returns (states: seq<Server>, actions: seq<Action>, rest: Server)
    requires Inv(s)
    ensures Leads(states, actions, s, rest) && Quiescent(rest) && Inv(rest) && rest.maximum == s.maximum
    decreases AcceptorWork(s.acceptor), |At(s, EarlyRelease)|, |At(s, Running)|, |At(s, FinalRelease)|
  {
    hide Inv, Leads;
    if Quiescent(s) {
      states, actions, rest := [s], [], s;
      StayingLeads(s);
      return;
    }
    var action: Action;
    if !s.acceptor.Idle? {
      action := AcceptorStep(s.acceptor);
    } else {
      var c :| c in s.workers && s.workers[c] != Ended;
      action := match s.workers[c]
        case Running => ReleaseFinally(c)
        case EarlyRelease => FinishEarly(c)
        case _ => FinishFinally(c);
      var next := Apply(s, action);
      WorkerMoves(s, next, c, s.workers[c], next.workers[c]);
    }
    StepKeepsAccounts(s, action);
    states, actions, rest := EveryServerCanDrain(Apply(s, action));
    states, actions := LeadsOneFurther(states, actions, s, action, rest);
  }

  lemma StayingLeads(s: Server)
    ensures Leads([s], [], s, s)
  {
  }

  /** Drained, it has every permit back. */
  lemma DrainedMeansFree(s: Server)
    requires Inv(s) && Quiescent(s)
    ensures s.permits == s.maximum && s.active == {} && s.activeCount == 0
  {
    assert WorkersOwing(s) == {};
    assert forall c | c in s.active :: WorkerIs(s, c, Running);
  }
}
