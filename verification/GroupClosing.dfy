/** Exactly when closing a subscription can leave its group behind (the unsubscribe
    function, closeAll, register and reRegister in WsSubscriber). */
module GroupClosing {
  import opened Maybe
  import opened SubscriptionBody
  import opened Groups
  import opened GroupInvariants
  import opened GroupSteps
  import opened GroupRuns
  import opened GroupLeaks

  /** The step closes flow t: its unsubscribe function, or closeAll over its entry. */
  predicate Closes(s: State, a: Action, t: nat)
    requires Enabled(s, a) && t < |s.flows|
  {
    a == Stop(t) || (a.CloseAll? && InTable(s, t))
  }

  /** The flow awaits, or has and did not act on, what makes it create again or keep a group:
      the DELETE of its old group, the DELETE between its two creates, or a 201 that it
      keeps or creates again behind. A group kept then is gone again if a DELETE of it is
      queued, by this step or before. */
  predicate Window(s: State, a: Action, t: nat)
    requires Enabled(s, a) && t < |s.flows|
  {
    var f := s.flows[t];
    match f.pc
    case Releasing => true
    case Swapping(again) => again
    case Posting(second, again) =>
      && again && Pending(f)
      && if HasPanel(f.answer.value.refused) then !second
         else f.held.Some? && !DeleteQueued(s.queue + Asks(s, a), f.held.value)
    case _ => false
  }

  // ─── Outside the window ───────────────────────────────────────────────────

  /** A closed flow that lets go of whatever it holds or is still answered with. */
  ghost predicate LetsGo(f: Flow, queue: seq<Req>) {
    && f.closed
    && match f.pc
       case Resting => HeldGoes(f, queue)
       case Opening => HeldGoes(f, queue)
       case Posting(second, _) =>
         if f.answer == None then f.cut
         else if !Pending(f) then true
         else if HasPanel(f.answer.value.refused) then second
         else HeldGoes(f, queue)
       case Swapping(_) => false
       case Releasing => false
       case _ => true
  }

  ghost predicate HeldGoes(f: Flow, queue: seq<Req>) {
    f.held.Some? ==> DeleteQueued(queue, f.held.value)
  }

  /** More requests, the same flow but for the group it lost and the cut of its create. */
  lemma LetsGoCarries(f: Flow, g: Flow, queue: seq<Req>, more: seq<Req>)
    requires LetsGo(f, queue) && g == f.(held := g.held, cut := g.cut, unanswered := g.unanswered)
    requires (g.held == f.held || g.held == None) && (f.cut ==> g.cut)
    ensures LetsGo(g, queue + more)
  {
    if g.held.Some? { QueuedMore(queue, more, g.held.value); }
  }

  lemma LetsGoByReply(s: State, ans: Answer, t: nat)
    requires Inv(s) && Enabled(s, Reply(ans)) && t < |s.flows| && LetsGo(s.flows[t], s.queue)
    ensures t < |Replied(s, ans).flows| && LetsGo(Replied(s, ans).flows[t], Replied(s, ans).queue)
  {
    var f := s.flows[t];
    assert FlowOk(f);
    assert OwnerOk(s.flows, s.queue[0]);
    if s.queue[0].Delete? { DeletedFlow(s, t); }
    if f.held.Some? && !(s.queue[0].Delete? && s.queue[0].id == f.held.value) { PoppedOther(s.queue, f.held.value); }
  }

  lemma LetsGoByContinue(s: State, t: nat)
    requires Inv(s) && Enabled(s, Continue(t)) && LetsGo(s.flows[t], s.queue)
    ensures LetsGo(Plain(s, Continue(t)).flows[t], Plain(s, Continue(t)).queue)
  {
    assert FlowOk(s.flows[t]);
    if s.flows[t].held.Some? { QueueOnly(s, Continue(t), s.flows[t].held.value); }
  }

  lemma LetsGoByOpened(s: State, t: nat, ok: bool)
    requires Inv(s) && Enabled(s, Opened(t, ok)) && LetsGo(s.flows[t], s.queue)
    ensures LetsGo(Plain(s, Opened(t, ok)).flows[t], Plain(s, Opened(t, ok)).queue)
  {
    if s.flows[t].held.Some? { QueueOnly(s, Opened(t, ok), s.flows[t].held.value); }
  }

  lemma LetsGoByOther(s: State, a: Action, t: nat)
    requires Inv(s) && Enabled(s, a) && t < |s.flows| && LetsGo(s.flows[t], s.queue)
    requires !a.Reply? && a != Continue(t) && !(a.Opened? && a.flow == t)
    ensures t < |Plain(s, a).flows| && LetsGo(Plain(s, a).flows[t], Plain(s, a).queue)
  {
    LetsGoCarries(s.flows[t], Plain(s, a).flows[t], s.queue, Asks(s, a));
  }

  lemma LetsGoStep(s: State, a: Action, t: nat)
    requires Inv(s) && Enabled(s, a) && t < |s.flows| && LetsGo(s.flows[t], s.queue)
    ensures t < |Next(s, a).flows| && LetsGo(Next(s, a).flows[t], Next(s, a).queue)
  {
    if a.Reply? {
      LetsGoByReply(s, a.answer, t);
      assert Plain(s, a).queue == Replied(s, a.answer).queue;
    } else if a == Continue(t) {
      LetsGoByContinue(s, t);
    } else if a.Opened? && a.flow == t {
      LetsGoByOpened(s, t, a.ok);
    } else {
      LetsGoByOther(s, a, t);
    }
    var p := Plain(s, a);
    SameButCut(s, a, t);
    assert p.queue + [] == p.queue;
    LetsGoCarries(p.flows[t], Next(s, a).flows[t], p.queue, []);
  }

  lemma {:induction false} LetsGoForGood(s: State, run: seq<Action>, t: nat)
    requires Inv(s) && Possible(s, run) && t < |s.flows| && LetsGo(s.flows[t], s.queue)
    ensures t < |After(s, run).flows| && LetsGo(After(s, run).flows[t], After(s, run).queue)
    decreases |run|
  {
    if run != [] {
      InvStep(s, run[0]);
      LetsGoStep(s, run[0], t);
      LetsGoForGood(Next(s, run[0]), run[1..], t);
    }
  }

  /** The step's own DELETE cuts the create that is not answered yet. */
  lemma ClosedLetsGo(s: State, a: Action, t: nat)
    requires Inv(s) && Enabled(s, a) && t < |s.flows| && Closes(s, a, t) && !Window(s, a, t)
    ensures t < |Next(s, a).flows| && LetsGo(Next(s, a).flows[t], Next(s, a).queue)
  {
    var f := s.flows[t];
    assert FlowOk(f);
    SameButCut(s, a, t);
    if a.Stop? {
      QueuedOne(Asks(s, a)[0], f.id);
    } else {
      ClosedAllQueues(s, a.order, t);
      assert EntryOk(s.flows, f.id, t);
    }
    QueueOnly(s, a, f.id);
    if f.held.Some? { QueueOnly(s, a, f.held.value); QueuedMore(s.queue, Asks(s, a), f.held.value); }
  }

  // ─── Inside the window ────────────────────────────────────────────────────

  lemma {:induction false} SomeLength(used: set<string>) returns (n: nat)
    ensures forall u | u in used :: |u| <= n
    decreases |used|
  {
    n := 0;
    if used != {} {
      var u :| u in used;
      n := SomeLength(used - {u});
      n := if |u| > n then |u| else n;
    }
  }

  /** The controller can always issue an id that names no group it has, and whose DELETE
      is not queued. */
  lemma SomeFreshId(s: State) returns (id: string)
    ensures Fresh(s, id) && !DeleteQueued(s.queue, id)
  {
    var ids := set i | 0 <= i < |s.queue| && s.queue[i].Delete? :: s.queue[i].id;
    var n := SomeLength(s.groups + ids);
    id := seq(n + 1, i requires 0 <= i < n + 1 => '1');
    assert id !in s.groups + ids;
  }

  /** One step in front of a run. */
  lemma One(s: State, a: Action, rest: seq<Action>)
    requires Enabled(s, a) && Possible(Next(s, a), rest)
    ensures Possible(s, [a] + rest) && After(s, [a] + rest) == After(Next(s, a), rest)
  {
    assert ([a] + rest)[1..] == rest;
  }

  /** The same flow, but for the group it holds. */
  predicate Unmoved(f: Flow, g: Flow) {
    g == f.(held := g.held)
  }

  /** The oldest request is answered, a create as if it had timed out. */
  function Skip(s: State): Action
    requires s.queue != []
  {
    Reply(if s.queue[0].Delete? then Deleted else Unanswered)
  }

  lemma SkipStep(s: State, t: nat)
    requires Inv(s) && s.queue != [] && t < |s.flows| && Owner(s.queue[0]) != Some(t)
    ensures Enabled(s, Skip(s))
    ensures
      var s' := Next(s, Skip(s));
      Inv(s') && s'.queue == s.queue[1..] && t < |s'.flows| && Unmoved(s.flows[t], s'.flows[t])
  {
    assert OwnerOk(s.flows, s.queue[0]);
    if s.queue[0].Delete? { DeletedFlow(s, t); }
    InvStep(s, Skip(s));
    SameButCut(s, Skip(s), t);
  }

  /** The run leaves the group of flow t behind. */
  ghost predicate Leaves(s: State, run: seq<Action>, t: nat) {
    && Possible(s, run)
    && t < |After(s, run).flows| && Strayed(After(s, run).flows[t], After(s, run).queue)
  }

  /** A closed flow with a 201 that it keeps. */
  lemma KeepLeaves(s: State, t: nat)
    requires Inv(s) && t < |s.flows| && Enabled(s, Continue(t)) && KeepsLate(s, Continue(t), t)
    ensures Leaves(s, [Continue(t)], t)
  {
    StrayedByStep(s, Continue(t), t);
    One(s, Continue(t), []);
  }

  /** A closed flow awaits its create, which is not cut. */
  predicate CreatesOn(f: Flow) {
    f.closed && f.pc.Posting? && f.pc.again && f.answer == None && !f.cut
  }

  lemma CreateAnswered(s: State, t: nat) returns (a: Action)
    requires Inv(s) && t < |s.flows| && CreatesOn(s.flows[t])
    requires s.queue != [] && Owner(s.queue[0]) == Some(t)
    ensures Enabled(s, a) && Inv(Next(s, a)) && t < |Next(s, a).flows|
    ensures Enabled(Next(s, a), Continue(t)) && KeepsLate(Next(s, a), Continue(t), t)
  {
    var id := SomeFreshId(s);
    a := Reply(Created(id, []));
    assert OwnerOk(s.flows, s.queue[0]);
    InvStep(s, a);
    SameButCut(s, a, t);
    assert !HasPanel([]);
    PoppedOther(s.queue, id);
  }

  /** The requests before the flow's own can be answered first. */
  lemma {:induction false} CreateLeavesAt(s: State, t: nat, i: nat) returns (run: seq<Action>)
    requires Inv(s) && t < |s.flows| && CreatesOn(s.flows[t])
    requires i < |s.queue| && Owner(s.queue[i]) == Some(t)
    ensures Leaves(s, run, t)
    decreases i
  {
    var a, rest;
    if i == 0 {
      a := CreateAnswered(s, t);
      KeepLeaves(Next(s, a), t);
      rest := [Continue(t)];
    } else {
      assert Owner(s.queue[0]) != Owner(s.queue[i]);
      a := Skip(s);
      SkipStep(s, t);
      rest := CreateLeavesAt(Next(s, a), t, i - 1);
    }
    One(s, a, rest);
    run := [a] + rest;
  }

  lemma CreateLeaves(s: State, t: nat) returns (run: seq<Action>)
    requires Inv(s) && t < |s.flows| && CreatesOn(s.flows[t])
    ensures Leaves(s, run, t)
  {
    assert HasRequest(s.queue, t);
    var i :| 0 <= i < |s.queue| && Owner(s.queue[i]) == Some(t);
    run := CreateLeavesAt(s, t, i);
  }

  /** A closed flow awaits a DELETE, or has its answer, and creates a group next. */
  predicate CreatesNext(f: Flow) {
    f.closed && (f.pc.Releasing? || (f.pc.Swapping? && f.pc.again))
  }

  lemma DeleteAnsweredLeaves(s: State, t: nat) returns (run: seq<Action>)
    requires Inv(s) && t < |s.flows| && CreatesNext(s.flows[t]) && s.flows[t].answer.Some?
    ensures Leaves(s, run, t)
  {
    var a := Continue(t);
    InvStep(s, a);
    SameButCut(s, a, t);
    var rest := CreateLeaves(Next(s, a), t);
    One(s, a, rest);
    run := [a] + rest;
  }

  lemma DeleteAnswered(s: State, t: nat)
    requires Inv(s) && t < |s.flows| && CreatesNext(s.flows[t]) && s.flows[t].answer == None
    requires s.queue != [] && Owner(s.queue[0]) == Some(t)
    ensures Enabled(s, Reply(Deleted))
    ensures
      var s' := Next(s, Reply(Deleted));
      Inv(s') && t < |s'.flows| && CreatesNext(s'.flows[t]) && s'.flows[t].answer.Some?
  {
    assert OwnerOk(s.flows, s.queue[0]);
    DeletedFlow(s, t);
    InvStep(s, Reply(Deleted));
    SameButCut(s, Reply(Deleted), t);
  }

  lemma {:induction false} DeleteLeavesAt(s: State, t: nat, i: nat) returns (run: seq<Action>)
    requires Inv(s) && t < |s.flows| && CreatesNext(s.flows[t]) && s.flows[t].answer == None
    requires i < |s.queue| && Owner(s.queue[i]) == Some(t)
    ensures Leaves(s, run, t)
    decreases i
  {
    var a, rest;
    if i == 0 {
      a := Reply(Deleted);
      DeleteAnswered(s, t);
      rest := DeleteAnsweredLeaves(Next(s, a), t);
    } else {
      assert Owner(s.queue[0]) != Owner(s.queue[i]);
      a := Skip(s);
      SkipStep(s, t);
      rest := DeleteLeavesAt(Next(s, a), t, i - 1);
    }
    One(s, a, rest);
    run := [a] + rest;
  }

  lemma DeleteLeaves(s: State, t: nat) returns (run: seq<Action>)
    requires Inv(s) && t < |s.flows| && CreatesNext(s.flows[t])
    ensures Leaves(s, run, t)
  {
    if s.flows[t].answer.Some? {
      run := DeleteAnsweredLeaves(s, t);
    } else {
      assert HasRequest(s.queue, t);
      var i :| 0 <= i < |s.queue| && Owner(s.queue[i]) == Some(t);
      run := DeleteLeavesAt(s, t, i);
    }
  }

  /** A closed flow has a 201 that refused a panel resource, and creates once more. */
  lemma PanelLeaves(s: State, t: nat) returns (run: seq<Action>)
    requires Inv(s) && Enabled(s, Continue(t)) && s.flows[t].closed && s.flows[t].pc == Posting(false, true)
    requires Pending(s.flows[t]) && HasPanel(s.flows[t].answer.value.refused)
    ensures Leaves(s, run, t)
  {
    var a := Continue(t);
    InvStep(s, a);
    SameButCut(s, a, t);
    var rest := DeleteLeaves(Next(s, a), t);
    One(s, a, rest);
    run := [a] + rest;
  }

  lemma ClosedGoesOn(s: State, a: Action, t: nat) returns (run: seq<Action>)
    requires Inv(s) && Enabled(s, a) && t < |s.flows| && Closes(s, a, t) && Window(s, a, t)
    ensures Leaves(Next(s, a), run, t)
  {
    var s' := Next(s, a);
    InvStep(s, a);
    SameButCut(s, a, t);
    if !s.flows[t].pc.Posting? {
      run := DeleteLeaves(s', t);
    } else if HasPanel(s.flows[t].answer.value.refused) {
      run := PanelLeaves(s', t);
    } else {
      assert FlowOk(s.flows[t]);
      KeepLeaves(s', t);
      run := [Continue(t)];
    }
  }

  /** Closing a subscription can leave its group behind if and only if it lands in the
      window. */
  lemma ClosingLeaksExactly(s0: State, before: seq<Action>, a: Action, t: nat)
    requires Initial(s0) && Possible(s0, before) && Enabled(After(s0, before), a)
    requires t < |After(s0, before).flows| && Closes(After(s0, before), a, t)
    ensures
      var s := After(s0, before);
      (exists run: seq<Action> :: Leaves(Next(s, a), run, t)) <==> Window(s, a, t)
  {
    EveryRun(s0, before);
    var s := After(s0, before);
    if Window(s, a, t) {
      var run := ClosedGoesOn(s, a, t);
    } else {
      ClosedLetsGo(s, a, t);
      InvStep(s, a);
      forall run: seq<Action> | Possible(Next(s, a), run) ensures !Leaves(Next(s, a), run, t) {
        LetsGoForGood(Next(s, a), run, t);
      }
    }
  }

  // ─── Runs that close outside it ───────────────────────────────────────────

  /** No subscription is closed in its window. */
  predicate ClosesInTime(s: State, run: seq<Action>)
    requires Possible(s, run)
    decreases |run|
  {
    run != [] ==>
      && (forall t | 0 <= t < |s.flows| && Closes(s, run[0], t) :: !Window(s, run[0], t))
      && ClosesInTime(Next(s, run[0]), run[1..])
  }

  /** Every closed flow lets go. */
  ghost predicate AllLetGo(s: State) {
    forall t | 0 <= t < |s.flows| && s.flows[t].closed :: LetsGo(s.flows[t], s.queue)
  }

  /** Only closing, and a failed first open, close a flow. */
  lemma NewlyClosed(s: State, a: Action, t: nat)
    requires Inv(s) && Enabled(s, a) && t < |s.flows| && !s.flows[t].closed
    requires t < |Plain(s, a).flows| && Plain(s, a).flows[t].closed
    ensures Closes(s, a, t) || a == Opened(t, false)
  {
    if a.Reply? && s.queue[0].Delete? { DeletedFlow(s, t); }
  }

  lemma AllLetGoStep(s: State, a: Action)
    requires Inv(s) && Enabled(s, a) && AllLetGo(s)
    requires forall t | 0 <= t < |s.flows| && Closes(s, a, t) :: !Window(s, a, t)
    ensures AllLetGo(Next(s, a))
  {
    var s' := Next(s, a);
    FlowsStay(s, a);
    forall t | 0 <= t < |s'.flows| && s'.flows[t].closed ensures LetsGo(s'.flows[t], s'.queue) {
      if t >= |s.flows| {
        SameButCut(s, a, t);
        NewFlowsAreNotLive(s, a, t);
      } else if s.flows[t].closed {
        LetsGoStep(s, a, t);
      } else {
        SameButCut(s, a, t);
        NewlyClosed(s, a, t);
        if Closes(s, a, t) { ClosedLetsGo(s, a, t); }
      }
    }
  }

  lemma {:induction false} InTimeLeavesNothing(s: State, run: seq<Action>)
    requires Inv(s) && Possible(s, run) && ClosesInTime(s, run) && AllLetGo(s)
    ensures LeftBehind(s, run, {}) == {}
    decreases |run|
  {
    if run != [] {
      var a := run[0];
      InvStep(s, a);
      AllLetGoStep(s, a);
      assert LeftAfter(s, a, {}) == {};
      InTimeLeavesNothing(Next(s, a), run[1..]);
    }
  }

  /** So when no subscription was closed in its window, every group that no unanswered
      create made is held by a live subscription once nothing is under way. */
  lemma OnlyLiveSubscriptionsHoldGroups(s0: State, run: seq<Action>, g: string)
    requires Initial(s0) && Possible(s0, run) && Quiet(After(s0, run)) && ClosesInTime(s0, run)
    requires g in After(s0, run).groups && g !in After(s0, run).abandoned
    ensures LiveHolds(After(s0, run), g)
  {
    InTimeLeavesNothing(s0, run);
    LeakedExactly(s0, run, g);
  }
}
