// A bus that stands in for a target bus: while it is paused, or while it has no target,
// executed actions wait in a queue; once it is open again the queue is drained, in order,
// into the current target. Forwarding to a target is recorded as a delivery in a log, and
// the response a caller receives for a queued action is named by the writable created for it.

module ProxyModel {
  import opened Wrappers

  /** A queued action and the writable its caller's response reads from. */
  datatype Entry<A> = Entry(action: A, writable: nat)

  /** One action executed on a target; `piped` names the writable of a queued action, `None` for a direct call. */
  datatype Delivery<T, A> = Delivery(target: T, action: A, piped: Option<nat>)

  /** What `execute` hands back: the target's own response, or a response fed later through a writable. */
  datatype Reply = Forwarded | Queued(writable: nat)

  /** The observable state of a proxy bus. `history` lists every action executed on the proxy. */
  datatype State<T, A> = State(
    target: Option<T>,
    queue: seq<Entry<A>>,
    pausedFlag: bool,
    log: seq<Delivery<T, A>>,
    created: nat,
    history: seq<A>)

  /** The `paused` getter: paused by `pause()`, or no target to forward to. */
  predicate IsPaused<T, A>(s: State<T, A>) {
    s.pausedFlag || s.target.None?
  }

  /** A new proxy: an empty queue, and `_paused` not yet set. */
  function Init<T, A>(target: Option<T>): State<T, A> {
    State(target, [], false, [], 0, [])
  }

  function Deliveries<T, A>(t: T, q: seq<Entry<A>>): seq<Delivery<T, A>> {
    seq(|q|, m requires 0 <= m < |q| => Delivery(t, q[m].action, Some(q[m].writable)))
  }

  function Actions<T, A>(log: seq<Delivery<T, A>>): seq<A> {
    seq(|log|, m requires 0 <= m < |log| => log[m].action)
  }

  function QueuedActions<A>(q: seq<Entry<A>>): seq<A> {
    seq(|q|, m requires 0 <= m < |q| => q[m].action)
  }

  /** `_drain`: nothing while paused, otherwise every queued action goes to the target and the queue empties. */
  function Drain<T, A>(s: State<T, A>): State<T, A> {
    if IsPaused(s) then s else s.(queue := [], log := s.log + Deliveries(s.target.value, s.queue))
  }

  /** `execute`: queue the action with a fresh writable while paused, otherwise call the target. */
  function Execute<T, A>(s: State<T, A>, action: A): (State<T, A>, Reply) {
    if IsPaused(s) then
      (s.(queue := s.queue + [Entry(action, s.created)], created := s.created + 1, history := s.history + [action]),
       Queued(s.created))
    else
      (s.(log := s.log + [Delivery(s.target.value, action, None)], history := s.history + [action]), Forwarded)
  }

  function Pause<T, A>(s: State<T, A>): State<T, A> {
    s.(pausedFlag := true)
  }

  function Resume<T, A>(s: State<T, A>): State<T, A> {
    Drain(s.(pausedFlag := false))
  }

  /** The `target` setter: replace the target, then try draining. */
  function SetTarget<T, A>(s: State<T, A>, target: Option<T>): State<T, A> {
    Drain(s.(target := target))
  }

  /**
   * The invariant every reachable state keeps: nothing waits while the proxy is open, and the
   * actions delivered so far followed by those still queued are exactly the executed ones, in order.
   */
  ghost predicate Inv<T, A>(s: State<T, A>) {
    (!IsPaused(s) ==> s.queue == [])
    && Actions(s.log) + QueuedActions(s.queue) == s.history
    && (forall m :: 0 <= m < |s.queue| ==> s.queue[m].writable < s.created)
  }

  lemma ActionsAppend<T, A>(a: seq<Delivery<T, A>>, b: seq<Delivery<T, A>>)
    ensures Actions(a + b) == Actions(a) + Actions(b)
  {
  }

  lemma DeliveredActions<T, A>(t: T, q: seq<Entry<A>>)
    ensures Actions(Deliveries(t, q)) == QueuedActions(q)
  {
  }

  /** A new proxy satisfies the invariant; it starts open exactly when it is given a target. */
  lemma InitOpen<T, A>(target: Option<T>)
    ensures Inv(Init<T, A>(target))
    ensures IsPaused(Init<T, A>(target)) <==> target.None?
  {
  }

  /** Draining an open proxy delivers every queued action once, in queue order, to the target, and empties the queue. */
  lemma DrainInOrder<T, A>(s: State<T, A>)
    requires !IsPaused(s)
    ensures var d := Drain(s);
            d.queue == [] && |d.log| == |s.log| + |s.queue| && d.log[..|s.log|] == s.log
            && (forall m :: 0 <= m < |s.queue| ==>
                  d.log[|s.log| + m] == Delivery(s.target.value, s.queue[m].action, Some(s.queue[m].writable)))
    ensures Drain(s).target == s.target && Drain(s).history == s.history
  {
    var d := Drain(s);
    assert d.log == s.log + Deliveries(s.target.value, s.queue);
    assert d.log[..|s.log|] == s.log;
  }

  /** Draining a paused proxy changes nothing. */
  lemma DrainWhilePaused<T, A>(s: State<T, A>)
    requires IsPaused(s)
    ensures Drain(s) == s
  {
  }

  lemma DrainKeeps<T, A>(s: State<T, A>)
    requires (forall m :: 0 <= m < |s.queue| ==> s.queue[m].writable < s.created)
    requires Actions(s.log) + QueuedActions(s.queue) == s.history
    ensures Inv(Drain(s))
  {
    if !IsPaused(s) {
      var t := s.target.value;
      ActionsAppend(s.log, Deliveries(t, s.queue));
      DeliveredActions(t, s.queue);
      assert QueuedActions<A>([]) == [];
      assert Actions(s.log) + QueuedActions(s.queue) + [] == s.history;
    }
  }

  /**
   * `execute` keeps the invariant. While paused the action joins the back of the queue with a
   * fresh writable and no target sees it; while open it goes straight to the target.
   */
  lemma {:induction false} ExecuteKeeps<T, A>(s: State<T, A>, action: A)
    requires Inv(s)
    ensures Inv(Execute(s, action).0)
    ensures IsPaused(s) ==> Execute(s, action).0.log == s.log
                            && Execute(s, action).0.queue == s.queue + [Entry(action, s.created)]
                            && Execute(s, action).1 == Queued(s.created)
    ensures !IsPaused(s) ==> Execute(s, action).0.queue == s.queue
                             && Execute(s, action).0.log == s.log + [Delivery(s.target.value, action, None)]
  {
    var (s', _) := Execute(s, action);
    if IsPaused(s) {
      assert QueuedActions(s'.queue) == QueuedActions(s.queue) + [action];
      assert Actions(s'.log) + QueuedActions(s'.queue) == (Actions(s.log) + QueuedActions(s.queue)) + [action];
    } else {
      ActionsAppend(s.log, [Delivery(s.target.value, action, None)]);
      assert QueuedActions(s.queue) == [];
      assert Actions(s.log) + [] == Actions(s.log);
      assert Actions(s'.log) + QueuedActions(s'.queue) == s.history + [action];
    }
  }

  /** `pause` keeps the invariant and always leaves the proxy paused. */
  lemma PauseKeeps<T, A>(s: State<T, A>)
    requires Inv(s)
    ensures Inv(Pause(s)) && IsPaused(Pause(s))
  {
  }

  /** `resume` keeps the invariant; with a target it leaves the proxy open with nothing waiting. */
  lemma ResumeKeeps<T, A>(s: State<T, A>)
    requires Inv(s)
    ensures Inv(Resume(s))
    ensures s.target.Some? ==> !IsPaused(Resume(s)) && Resume(s).queue == []
  {
    DrainKeeps(s.(pausedFlag := false));
  }

  /** Assigning a target keeps the invariant; a real target on an unpaused proxy flushes the queue into it. */
  lemma SetTargetKeeps<T, A>(s: State<T, A>, target: Option<T>)
    requires Inv(s)
    ensures Inv(SetTarget(s, target))
    ensures target.Some? && !s.pausedFlag ==> SetTarget(s, target).queue == []
  {
    DrainKeeps(s.(target := target));
  }

  /** While a proxy is open, every action ever executed on it has reached a target, in execution order. */
  lemma OpenMeansDelivered<T, A>(s: State<T, A>)
    requires Inv(s) && !IsPaused(s)
    ensures Actions(s.log) == s.history
  {
    assert QueuedActions(s.queue) == [];
    assert Actions(s.log) + [] == Actions(s.log);
  }

  /** Pausing an open proxy and resuming it at once is no change at all. */
  lemma PauseResume<T, A>(s: State<T, A>)
    requires Inv(s) && !IsPaused(s)
    ensures Resume(Pause(s)) == s
  {
    assert Deliveries<T, A>(s.target.value, []) == [];
    assert s.log + [] == s.log;
  }

  /**
   * An action executed during a pause reaches the same target as it would have without the
   * pause, once the proxy is resumed; only its response travels through the writable.
   */
  lemma PausedActionArrivesOnResume<T, A>(s: State<T, A>, action: A)
    requires Inv(s) && !IsPaused(s)
    ensures var r := Resume(Execute(Pause(s), action).0);
            r.queue == [] && r.history == s.history + [action]
            && r.log == s.log + [Delivery(s.target.value, action, Some(s.created))]
  {
    var p := Execute(Pause(s), action).0;
    assert p.queue == [Entry(action, s.created)];
    assert Deliveries(s.target.value, p.queue) == [Delivery(s.target.value, action, Some(s.created))];
  }
}

module ProxyBuses {
  import opened Wrappers
  import opened ProxyModel

  class ProxyBus<T, A> {
    var target: Option<T>
    var queue: seq<Entry<A>>
    var pausedFlag: bool
    /** The deliveries made to targets, in the order the targets saw them. */
    var log: seq<Delivery<T, A>>
    /** The number of queued responses created so far; the next writable's name. */
    var created: nat
    ghost var history: seq<A>

    ghost function Abs(): State<T, A>
      reads this
    {
      State(target, queue, pausedFlag, log, created, history)
    }

    ghost predicate Valid()
      reads this
    {
      Inv(Abs())
    }

    constructor(target: Option<T>)
      ensures Valid() && Abs() == Init(target)
    {
      this.target := target;
      queue := [];
      pausedFlag := false;
      log := [];
      created := 0;
      history := [];
    }

    /** The `paused` getter. */
    function Paused(): (r: bool)
      reads this
      ensures r <==> IsPaused(Abs())
    {
      pausedFlag || target.None?
    }

    method Execute(action: A) returns (reply: Reply)
      requires Valid()
      modifies this
      ensures Valid()
      ensures (Abs(), reply) == ProxyModel.Execute(old(Abs()), action)
    {
      ExecuteKeeps(Abs(), action);
      if Paused() {
        queue := queue + [Entry(action, created)];
        reply := Queued(created);
        created := created + 1;
      } else {
        log := log + [Delivery(target.value, action, None)];
        reply := Forwarded;
      }
      history := history + [action];
    }

    method Pause()
      requires Valid()
      modifies this
      ensures Valid() && Abs() == ProxyModel.Pause(old(Abs()))
    {
      PauseKeeps(Abs());
      pausedFlag := true;
    }

    method Resume()
      requires Valid()
      modifies this
      ensures Valid() && Abs() == ProxyModel.Resume(old(Abs()))
    {
      ResumeKeeps(Abs());
      pausedFlag := false;
      Drain();
    }

    method SetTarget(value: Option<T>)
      requires Valid()
      modifies this
      ensures Valid() && Abs() == ProxyModel.SetTarget(old(Abs()), value)
    {
      SetTargetKeeps(Abs(), value);
      target := value;
      Drain();
    }

    /** `_drain`: shift the queue one entry at a time into the current target. */
    method Drain()
      modifies this
      ensures Abs() == ProxyModel.Drain(old(Abs()))
    {
      if Paused() {
        return;
      }
      var t := target.value;
      while queue != []
        invariant target == old(target) && pausedFlag == old(pausedFlag)
        invariant created == old(created) && history == old(history)
        invariant log + Deliveries(t, queue) == old(log) + Deliveries(t, old(queue))
        decreases |queue|
      {
        var e := queue[0];
        assert Deliveries(t, queue) == [Delivery(t, e.action, Some(e.writable))] + Deliveries(t, queue[1..]);
        log := log + [Delivery(t, e.action, Some(e.writable))];
        queue := queue[1..];
      }
      assert Deliveries<T, A>(t, []) == [];
      assert log + [] == log;
    }
  }
}
