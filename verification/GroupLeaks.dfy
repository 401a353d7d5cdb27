/** Exactly where closing a subscription can leave its group behind, and which groups are
    left behind in a run (WsSubscriber.reRegister, register, closeAll and the unsubscribe
    function). */
module GroupLeaks {
  import opened Maybe
  import opened SubscriptionBody
  import opened Groups
  import opened GroupInvariants
  import opened GroupSteps
  import opened GroupRuns

  /** The groups whose DELETE the step queues. */
  function Deletes(s: State, a: Action): (ids: set<string>)
    requires Enabled(s, a)
    ensures forall g :: g in ids <==> DeleteQueued(Asks(s, a), g)
  {
    var asks := Asks(s, a);
    set i | 0 <= i < |asks| && asks[i].Delete? :: asks[i].id
  }

  /** Its closed flow will do nothing more about the group, and no DELETE of it is queued. */
  predicate Strayed(f: Flow, queue: seq<Req>) {
    Stray(f) && !DeleteQueued(queue, f.held.value)
  }

  // ─── Which step leaves a group, and which takes it back ───────────────────

  /** The flow keeps the group of its re-registration although it was closed meanwhile,
      and no DELETE of that group is under way. */
  predicate KeepsLate(s: State, a: Action, t: nat)
    requires Enabled(s, a) && t < |s.flows|
  {
    var f := s.flows[t];
    a == Continue(t) && Keeps(f) && f.closed && f.held.Some? && !DeleteQueued(s.queue, f.held.value)
  }

  predicate StaysStrayed(s: State, a: Action, t: nat)
    requires Enabled(s, a) && t < |s.flows|
  {
    a != Restart && Strayed(s.flows[t], s.queue) && s.flows[t].held.value !in Deletes(s, a)
  }

  lemma QueueOnly(s: State, a: Action, g: string)
    requires Enabled(s, a) && !a.Reply?
    ensures DeleteQueued(Plain(s, a).queue, g) <==> DeleteQueued(s.queue, g) || g in Deletes(s, a)
  {
    QueuedMore(s.queue, Asks(s, a), g);
  }

  lemma PoppedOther(queue: seq<Req>, g: string)
    requires queue != [] && !(queue[0].Delete? && queue[0].id == g)
    ensures DeleteQueued(queue[1..], g) <==> DeleteQueued(queue, g)
  {
    if DeleteQueued(queue, g) { QueuedRest(queue, g); }
    if i :| 0 <= i < |queue| - 1 && queue[1..][i].Delete? && queue[1..][i].id == g { assert queue[i + 1] == queue[1..][i]; }
  }

  lemma StrayedByReply(s: State, ans: Answer, t: nat)
    requires Inv(s) && Enabled(s, Reply(ans)) && t < |s.flows|
    ensures
      var s' := Replied(s, ans);
      && t < |s'.flows|
      && (Strayed(s'.flows[t], s'.queue) <==> Strayed(s.flows[t], s.queue))
      && (Strayed(s'.flows[t], s'.queue) ==> s'.flows[t].held == s.flows[t].held)
  {
    var f := s.flows[t];
    assert FlowOk(f);
    if s.queue[0].Delete? { DeletedFlow(s, t); } else { assert OwnerOk(s.flows, s.queue[0]); }
    if f.held.Some? && !(s.queue[0].Delete? && s.queue[0].id == f.held.value) { PoppedOther(s.queue, f.held.value); }
  }

  lemma StrayedByKeep(s: State, t: nat, u: nat)
    requires Inv(s) && Enabled(s, Continue(u)) && Keeps(s.flows[u]) && t < |s.flows|
    ensures
      var s' := Keep(s, u);
      && (Strayed(s'.flows[t], s'.queue) <==> Strayed(s.flows[t], s.queue) || KeepsLate(s, Continue(u), t))
      && (Strayed(s'.flows[t], s'.queue) ==> s'.flows[t].held == s.flows[t].held)
  {
    assert FlowOk(s.flows[u]);
  }

  lemma StrayedByClosing(s: State, a: Action, t: nat)
    requires Inv(s) && Enabled(s, a) && (a.Stop? || a.CloseAll?) && t < |s.flows|
    ensures
      var s' := Plain(s, a);
      && (Strayed(s'.flows[t], s'.queue) <==> StaysStrayed(s, a, t))
      && (Strayed(s'.flows[t], s'.queue) ==> s'.flows[t].held == s.flows[t].held)
  {
    var f := s.flows[t];
    assert FlowOk(f);
    if f.held.Some? { QueueOnly(s, a, f.held.value); }
    if a.CloseAll? && InTable(s, t) { ClosedAllQueues(s, a.order, t); }
    if a.Stop? { QueuedOne(Asks(s, a)[0], s.flows[a.flow].id); }
  }

  lemma StrayedByOther(s: State, a: Action, t: nat)
    requires Inv(s) && Enabled(s, a) && t < |s.flows|
    requires !a.Reply? && !a.Stop? && !a.CloseAll? && !(a.Continue? && Keeps(s.flows[a.flow]))
    ensures
      var s' := Plain(s, a);
      && t < |s'.flows|
      && (Strayed(s'.flows[t], s'.queue) <==> StaysStrayed(s, a, t))
      && (Strayed(s'.flows[t], s'.queue) ==> s'.flows[t].held == s.flows[t].held)
  {
    var f := s.flows[t];
    assert FlowOk(f);
    if f.held.Some? { QueueOnly(s, a, f.held.value); }
  }

  lemma StrayedByPlain(s: State, a: Action, t: nat)
    requires Inv(s) && Enabled(s, a) && t < |s.flows|
    ensures
      var s' := Plain(s, a);
      && t < |s'.flows|
      && (Strayed(s'.flows[t], s'.queue) <==> StaysStrayed(s, a, t) || KeepsLate(s, a, t))
      && (Strayed(s'.flows[t], s'.queue) ==> s'.flows[t].held == s.flows[t].held)
  {
    if a.Reply? {
      StrayedByReply(s, a.answer, t);
      assert Plain(s, a).queue == Replied(s, a.answer).queue;
    } else if a.Continue? && Keeps(s.flows[a.flow]) {
      StrayedByKeep(s, t, a.flow);
      assert Plain(s, a) == Keep(s, a.flow);
    } else if a.Stop? || a.CloseAll? {
      StrayedByClosing(s, a, t);
    } else {
      StrayedByOther(s, a, t);
    }
  }

  lemma StrayedByStep(s: State, a: Action, t: nat)
    requires Inv(s) && Enabled(s, a) && t < |s.flows|
    ensures
      var s' := Next(s, a);
      && t < |s'.flows|
      && (Strayed(s'.flows[t], s'.queue) <==> StaysStrayed(s, a, t) || KeepsLate(s, a, t))
      && (Strayed(s'.flows[t], s'.queue) ==> s'.flows[t].held == s.flows[t].held)
  {
    StrayedByPlain(s, a, t);
    SameButCut(s, a, t);
  }

  // ─── How long a group stays behind ────────────────────────────────────────

  /** A step of the run queues a DELETE of the group, or the controller restarts. */
  predicate Swept(s: State, run: seq<Action>, g: string)
    requires Possible(s, run)
    decreases |run|
  {
    run != [] && (run[0] == Restart || g in Deletes(s, run[0]) || Swept(Next(s, run[0]), run[1..], g))
  }

  /** A closed flow at rest whose group is deleted or going. */
  ghost predicate Settled(f: Flow, queue: seq<Req>) {
    f.closed && f.pc.Resting? && !Strayed(f, queue)
  }

  lemma RestsByReply(s: State, ans: Answer, t: nat)
    requires Inv(s) && Enabled(s, Reply(ans)) && t < |s.flows| && s.flows[t].closed && s.flows[t].pc.Resting?
    ensures t < |Replied(s, ans).flows| && Replied(s, ans).flows[t].closed && Replied(s, ans).flows[t].pc.Resting?
  {
    if s.queue[0].Delete? { DeletedFlow(s, t); } else { assert OwnerOk(s.flows, s.queue[0]); }
  }

  lemma RestsOn(s: State, a: Action, t: nat)
    requires Inv(s) && Enabled(s, a) && t < |s.flows| && s.flows[t].closed && s.flows[t].pc.Resting?
    ensures t < |Next(s, a).flows| && Next(s, a).flows[t].closed && Next(s, a).flows[t].pc.Resting?
  {
    assert FlowOk(s.flows[t]);
    if a.Reply? { RestsByReply(s, a.answer, t); }
    FlowsStay(s, a);
    SameButCut(s, a, t);
  }

  lemma {:induction false} SettledForGood(s: State, run: seq<Action>, t: nat)
    requires Inv(s) && Possible(s, run) && t < |s.flows| && Settled(s.flows[t], s.queue)
    ensures t < |After(s, run).flows| && Settled(After(s, run).flows[t], After(s, run).queue)
    decreases |run|
  {
    if run != [] {
      var a := run[0];
      assert FlowOk(s.flows[t]);
      InvStep(s, a);
      RestsOn(s, a, t);
      StrayedByStep(s, a, t);
      SettledForGood(Next(s, a), run[1..], t);
    }
  }

  lemma {:induction false} StrayedFrom(s: State, run: seq<Action>, t: nat)
    requires Inv(s) && Possible(s, run) && t < |s.flows| && Strayed(s.flows[t], s.queue)
    ensures
      var s' := After(s, run);
      t < |s'.flows| && (Strayed(s'.flows[t], s'.queue) <==> !Swept(s, run, s.flows[t].held.value))
    ensures Strayed(After(s, run).flows[t], After(s, run).queue) ==> After(s, run).flows[t].held == s.flows[t].held
    decreases |run|
  {
    if run != [] {
      var a := run[0];
      var s' := Next(s, a);
      assert FlowOk(s.flows[t]);
      InvStep(s, a);
      RestsOn(s, a, t);
      StrayedByStep(s, a, t);
      if Strayed(s'.flows[t], s'.queue) {
        StrayedFrom(s', run[1..], t);
      } else {
        SettledForGood(s', run[1..], t);
      }
    }
  }

  /** A group left behind stays on the controller, with no DELETE of it under way, if and
      only if no step queues one (a later stop or closeAll, or another subscription's
      under the same id) and the controller does not restart. */
  lemma StrayStaysExactly(s0: State, before: seq<Action>, run: seq<Action>, t: nat)
    requires Initial(s0) && Possible(s0, before) && Possible(After(s0, before), run)
    requires t < |After(s0, before).flows| && Strayed(After(s0, before).flows[t], After(s0, before).queue)
    ensures
      var s := After(s0, before);
      var g := s.flows[t].held.value;
      var s' := After(s, run);
      && t < |s'.flows|
      && (Strayed(s'.flows[t], s'.queue) <==> !Swept(s, run, g))
      && (!Swept(s, run, g) ==> s'.flows[t].held == Some(g) && g in s'.groups)
  {
    EveryRun(s0, before);
    var s := After(s0, before);
    StrayedFrom(s, run, t);
    InvAfter(s, run);
  }

  // ─── Whole runs ───────────────────────────────────────────────────────────

  /** One step on: the ids of the groups left behind so far, given those before it. */
  function LeftAfter(s: State, a: Action, left: set<string>): set<string>
    requires Enabled(s, a)
  {
    if a == Restart then {}
    else (left - Deletes(s, a))
         + (if a.Continue? && KeepsLate(s, a, a.flow) then {s.flows[a.flow].held.value} else {})
  }

  /** A re-registration of a closed subscription that keeps its group leaves that group,
      unless a DELETE of it is under way; queueing its DELETE takes it back, and so does a
      restart. */
  function LeftBehind(s: State, run: seq<Action>, left: set<string>): set<string>
    requires Possible(s, run)
    decreases |run|
  {
    if run == [] then left else LeftBehind(Next(s, run[0]), run[1..], LeftAfter(s, run[0], left))
  }

  /** The set holds the groups of the strayed flows. */
  ghost predicate LeftIs(s: State, left: set<string>) {
    && (forall t | 0 <= t < |s.flows| && Strayed(s.flows[t], s.queue) :: s.flows[t].held.value in left)
    && (forall g | g in left :: StrayHolds(s, g))
  }

  ghost predicate StrayHolds(s: State, g: string) {
    exists t :: 0 <= t < |s.flows| && Strayed(s.flows[t], s.queue) && s.flows[t].held == Some(g)
  }

  lemma LeftStep(s: State, a: Action, left: set<string>)
    requires Inv(s) && Enabled(s, a) && LeftIs(s, left)
    ensures LeftIs(Next(s, a), LeftAfter(s, a, left))
  {
    var s' := Next(s, a);
    var left' := LeftAfter(s, a, left);
    FlowsStay(s, a);
    forall t | 0 <= t < |s'.flows| && Strayed(s'.flows[t], s'.queue) ensures s'.flows[t].held.value in left' {
      if t >= |s.flows| { SameButCut(s, a, t); NewFlowsAreNotLive(s, a, t); } else { StrayedByStep(s, a, t); }
    }
    forall g | g in left' ensures StrayHolds(s', g) {
      if a.Continue? && KeepsLate(s, a, a.flow) && s.flows[a.flow].held == Some(g) {
        StrayedByStep(s, a, a.flow);
      } else {
        assert StrayHolds(s, g);
        var t :| 0 <= t < |s.flows| && Strayed(s.flows[t], s.queue) && s.flows[t].held == Some(g);
        StrayedByStep(s, a, t);
      }
    }
  }

  lemma {:induction false} LeftFrom(s: State, run: seq<Action>, left: set<string>)
    requires Inv(s) && Possible(s, run) && LeftIs(s, left)
    ensures LeftIs(After(s, run), LeftBehind(s, run, left))
    decreases |run|
  {
    if run != [] {
      InvStep(s, run[0]);
      LeftStep(s, run[0], left);
      LeftFrom(Next(s, run[0]), run[1..], LeftAfter(s, run[0], left));
    }
  }

  ghost predicate LiveHolds(s: State, g: string) {
    exists t :: 0 <= t < |s.flows| && Live(s.flows[t]) && s.flows[t].held == Some(g)
  }

  lemma LeakedIsStrayed(s: State, g: string)
    requires Inv(s) && Quiet(s) && g in s.groups && g !in s.abandoned && !LiveHolds(s, g)
    ensures StrayHolds(s, g)
  {
    var t :| 0 <= t < |s.flows| && s.flows[t].held == Some(g);
    QuietFlow(s, t);
    assert !DeleteQueued(s.queue, g);
  }

  lemma StrayedIsLeaked(s: State, g: string)
    requires Inv(s) && StrayHolds(s, g)
    ensures g in s.groups && g !in s.abandoned && !LiveHolds(s, g)
  {
    var t :| 0 <= t < |s.flows| && Strayed(s.flows[t], s.queue) && s.flows[t].held == Some(g);
    forall u | 0 <= u < |s.flows| && Live(s.flows[u]) ensures s.flows[u].held != Some(g) {
      if u < t { assert s.flows[u].held.Some? ==> s.flows[u].held != s.flows[t].held; }
    }
  }

  /** When nothing is under way, the groups held by no live subscription, but for those
      that unanswered creates made, are exactly those the run left behind. */
  lemma LeakedExactly(s0: State, run: seq<Action>, g: string)
    requires Initial(s0) && Possible(s0, run) && Quiet(After(s0, run))
    ensures
      var s := After(s0, run);
      g in s.groups && g !in s.abandoned && !LiveHolds(s, g) <==> g in LeftBehind(s0, run, {})
  {
    var s := After(s0, run);
    EveryRun(s0, run);
    LeftFrom(s0, run, {});
    if g in s.groups && g !in s.abandoned && !LiveHolds(s, g) {
      LeakedIsStrayed(s, g);
    } else if g in LeftBehind(s0, run, {}) {
      StrayedIsLeaked(s, g);
    }
  }
}
