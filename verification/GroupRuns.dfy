/** What the accounting of groups guarantees over every run: what the table of entries
    names, and who holds the groups when nothing is under way. */
module GroupRuns {
  import opened Maybe
  import opened SubscriptionBody
  import opened Groups
  import opened GroupInvariants
  import opened GroupSteps

  // ─── The table ────────────────────────────────────────────────────────────

  /** An entry stands under the id its subscription has now, which is also the id in its
      delete URL; so no subscription has two entries. None is of a subscription given up,
      rejected or cleaning up behind a failed first open. */
  lemma EntriesNameTheirFlows(s0: State, run: seq<Action>, id: string)
    requires Initial(s0) && Possible(s0, run) && id in After(s0, run).table
    ensures
      var s := After(s0, run);
      && s.table[id] < |s.flows|
      && var f := s.flows[s.table[id]];
         f.id == id && !f.gaveUp && !f.pc.Failed? && !f.pc.Ending?
  {
    EveryRun(s0, run);
    assert EntryOk(After(s0, run).flows, id, After(s0, run).table[id]);
  }

  /** Every live subscription has its entry. */
  ghost predicate AllListed(s: State) {
    forall t | 0 <= t < |s.flows| && Live(s.flows[t]) :: InTable(s, t)
  }

  /** The step of another flow takes away or overwrites the entry of the live flow u. */
  predicate Displaces(s: State, a: Action, u: nat)
    requires Enabled(s, a) && u < |s.flows|
  {
    && Live(s.flows[u])
    && match a
       case Stop(t) => t != u && s.flows[t].id == s.flows[u].id
       case GiveUp(t) => t != u && s.flows[t].id == s.flows[u].id
       case Opened(t, ok) => t != u && !ok && s.flows[t].id == s.flows[u].id
       case Continue(t) =>
         && t != u && Keeps(s.flows[t])
         && (s.flows[t].answer.value.id == s.flows[u].id
             || (s.flows[t].pc.again && s.flows[t].id == s.flows[u].id))
       case _ => false
  }

  predicate Trespass(s: State, a: Action)
    requires Enabled(s, a)
  {
    exists u | 0 <= u < |s.flows| :: Displaces(s, a, u)
  }

  /** A live flow is still listed, unless the step displaces it. */
  ghost predicate ListedUnless(s: State, a: Action, u: nat)
    requires Enabled(s, a) && u < |s.flows|
  {
    var s' := Plain(s, a);
    u < |s'.flows| && ((Live(s'.flows[u]) ==> InTable(s', u)) <==> !Displaces(s, a, u))
  }

  lemma ListedKeep(s: State, t: nat, u: nat)
    requires Inv(s) && AllListed(s) && Enabled(s, Continue(t)) && Keeps(s.flows[t]) && u < |s.flows|
    ensures ListedUnless(s, Continue(t), u)
  {
    var s' := Plain(s, Continue(t));
    assert s' == Keep(s, t);
    if u != t { assert s'.flows[u] == s.flows[u]; }
  }

  lemma ListedMove(s: State, t: nat, u: nat)
    requires Inv(s) && AllListed(s) && Enabled(s, Continue(t)) && !Keeps(s.flows[t]) && u < |s.flows|
    ensures ListedUnless(s, Continue(t), u)
  {
    assert FlowOk(s.flows[t]);
  }

  lemma ListedReply(s: State, ans: Answer, u: nat)
    requires Inv(s) && AllListed(s) && Enabled(s, Reply(ans)) && u < |s.flows|
    ensures ListedUnless(s, Reply(ans), u)
  {
    if s.queue[0].Delete? { DeletedFlow(s, u); }
  }

  /** The steps that take away an entry. */
  lemma ListedGone(s: State, a: Action, u: nat)
    requires Inv(s) && AllListed(s) && Enabled(s, a) && u < |s.flows|
    requires a.Stop? || a.GiveUp? || (a.Opened? && !a.ok)
    ensures ListedUnless(s, a, u)
  {
    if u != a.flow { assert Plain(s, a).flows[u] == s.flows[u]; }
  }

  lemma ListedFlow(s: State, a: Action, u: nat)
    requires Inv(s) && AllListed(s) && Enabled(s, a) && u < |s.flows|
    ensures ListedUnless(s, a, u)
  {
    match a
    case Reply(ans) => ListedReply(s, ans, u);
    case Continue(t) => if Keeps(s.flows[t]) { ListedKeep(s, t, u); } else { ListedMove(s, t, u); }
    case Opened(_, ok) => if !ok { ListedGone(s, a, u); }
    case Stop(_) => ListedGone(s, a, u);
    case GiveUp(_) => ListedGone(s, a, u);
    case _ =>
  }

  /** Cutting creates changes nothing else. */
  lemma SameButCut(s: State, a: Action, t: nat)
    requires Enabled(s, a) && t < |Plain(s, a).flows|
    ensures
      var p, s' := Plain(s, a), Next(s, a);
      && |s'.flows| == |p.flows| && s'.flows[t] == p.flows[t].(cut := s'.flows[t].cut)
      && s'.flows[t].cut == (p.flows[t].cut || (Cuts(s, a, t) && AwaitsCreate(p.flows[t])))
      && s'.queue == p.queue && s'.table == p.table && s'.groups == p.groups && s'.abandoned == p.abandoned
  {
  }

  lemma NewFlowsAreNotLive(s: State, a: Action, t: nat)
    requires Enabled(s, a) && |s.flows| <= t < |Plain(s, a).flows|
    ensures !Live(Plain(s, a).flows[t]) && !Plain(s, a).flows[t].closed
  {
  }

  /** The steps never let go of a flow. */
  lemma FlowsStay(s: State, a: Action)
    requires Enabled(s, a)
    ensures |s.flows| <= |Plain(s, a).flows| == |Next(s, a).flows|
  {
  }

  lemma ListedStep(s: State, a: Action)
    requires Inv(s) && AllListed(s) && Enabled(s, a)
    ensures AllListed(Next(s, a)) <==> !Trespass(s, a)
  {
    var p, s' := Plain(s, a), Next(s, a);
    FlowsStay(s, a);
    forall u: nat | u < |s'.flows|
      ensures (Live(s'.flows[u]) ==> InTable(s', u)) <==> (u < |s.flows| ==> !Displaces(s, a, u))
    {
      SameButCut(s, a, u);
      if u < |s.flows| { ListedFlow(s, a, u); } else { NewFlowsAreNotLive(s, a, u); }
    }
  }

  ghost predicate AlwaysListed(s: State, run: seq<Action>)
    requires Possible(s, run)
    decreases |run|
  {
    AllListed(s) && (run != [] ==> AlwaysListed(Next(s, run[0]), run[1..]))
  }

  predicate NeverTrespasses(s: State, run: seq<Action>)
    requires Possible(s, run)
    decreases |run|
  {
    run != [] ==> !Trespass(s, run[0]) && NeverTrespasses(Next(s, run[0]), run[1..])
  }

  lemma {:induction false} ListedFrom(s: State, run: seq<Action>)
    requires Inv(s) && AllListed(s) && Possible(s, run)
    ensures AlwaysListed(s, run) <==> NeverTrespasses(s, run)
    decreases |run|
  {
    if run != [] {
      var s' := Next(s, run[0]);
      ListedStep(s, run[0]);
      InvStep(s, run[0]);
      if AllListed(s') { ListedFrom(s', run[1..]); }
    }
  }

  /** Throughout a run every live subscription has its entry, if and only if no step takes
      away or overwrites an entry whose id is meanwhile that of another live subscription. */
  lemma ListedExactly(s0: State, run: seq<Action>)
    requires Initial(s0) && Possible(s0, run)
    ensures AlwaysListed(s0, run) <==> NeverTrespasses(s0, run)
  {
    ListedFrom(s0, run);
  }

  /** closeAll queues one DELETE for each entry, and leaves none. */
  lemma CloseAllDeletesEach(s: State, order: seq<string>, id: string)
    requires Enabled(s, CloseAll(order))
    ensures
      var asks := Asks(s, CloseAll(order));
      && Next(s, CloseAll(order)).table == map[]
      && (id in s.table <==> DeleteQueued(asks, id))
      && forall i, j | 0 <= i < j < |asks| :: asks[i] != asks[j]
  {
    var asks := Asks(s, CloseAll(order));
    if id in order {
      var i :| 0 <= i < |order| && order[i] == id;
      assert asks[i] == Delete(id, None);
    }
    if DeleteQueued(asks, id) {
      var i :| 0 <= i < |asks| && asks[i].Delete? && asks[i].id == id;
      assert order[i] == id;
    }
  }

  // ─── When nothing is under way ────────────────────────────────────────────

  /** No request, no answer not acted on, no first open. */
  predicate Quiet(s: State) {
    s.queue == [] && forall t | 0 <= t < |s.flows| :: s.flows[t].answer == None && !s.flows[t].pc.Opening?
  }

  /** Closed, and its group is still there. */
  predicate Stray(f: Flow) {
    f.closed && f.pc.Resting? && f.held.Some?
  }

  lemma QuietFlow(s: State, t: nat)
    requires Inv(s) && Quiet(s) && t < |s.flows|
    ensures
      var f := s.flows[t];
      && (f.pc.Resting? || f.pc.Failed?)
      && (f.held.Some? ==> f.held.value == f.id && f.id in s.groups && f.id !in s.abandoned && (Live(f) || Stray(f)))
      && (f.pc.Failed? ==> f.held == None)
  {
    assert FlowOk(s.flows[t]);
    assert !HasRequest(s.queue, t);
    assert !Awaits(s.flows[t]);
    assert !DeleteQueued(s.queue, s.flows[t].id);
  }

  /** When nothing is under way, every group on the controller that no unanswered create
      made is held by exactly one subscription, under the id of its delete URL: a live
      one, or one that was closed while it was being re-registered. A subscribe that was
      rejected holds nothing. */
  lemma GroupsAreHeldOnce(s0: State, run: seq<Action>)
    requires Initial(s0) && Possible(s0, run) && Quiet(After(s0, run))
    ensures
      var s := After(s0, run);
      && (forall g | g in s.groups && g !in s.abandoned ::
            exists t :: 0 <= t < |s.flows| && s.flows[t].held == Some(g) && s.flows[t].id == g
              && (Live(s.flows[t]) || Stray(s.flows[t])))
      && (forall t | 0 <= t < |s.flows| && s.flows[t].held.Some? :: s.flows[t].held.value in s.groups)
      && (forall t, u | 0 <= t < u < |s.flows| && s.flows[t].held.Some? :: s.flows[t].held != s.flows[u].held)
      && (forall t | 0 <= t < |s.flows| && s.flows[t].pc.Failed? :: s.flows[t].held == None)
  {
    EveryRun(s0, run);
    var s := After(s0, run);
    forall t: nat | t < |s.flows|
      ensures s.flows[t].held.Some? ==> s.flows[t].held.value == s.flows[t].id && (Live(s.flows[t]) || Stray(s.flows[t]))
      ensures s.flows[t].pc.Failed? ==> s.flows[t].held == None
    {
      QuietFlow(s, t);
    }
  }

  /** At most two creates per registration; the group kept was answered without a refused
      panel resource, and `unbound` is exactly that answer's list. While no group is held,
      from the end of the old group's DELETE on and after a loss, it names nothing. */
  lemma KeptGroupIsComplete(s0: State, run: seq<Action>, t: nat)
    requires Initial(s0) && Possible(s0, run) && t < |After(s0, run).flows|
    ensures
      var f := After(s0, run).flows[t];
      && f.creates <= 2
      && ((f.pc.Opening? || f.pc.Resting?) && f.held.Some? && !f.gaveUp ==> f.unbound == f.kept && !HasPanel(f.kept))
      && (f.pc.Posting? || f.pc.Swapping? || f.pc.Dropping? || f.gaveUp ==> f.unbound == [])
  {
    EveryRun(s0, run);
    assert FlowOk(After(s0, run).flows[t]);
  }

  ghost predicate NoneUnanswered(s: State) {
    s.abandoned == {} && forall t | 0 <= t < |s.flows| :: s.flows[t].unanswered == 0
  }

  lemma UnansweredReply(s: State, ans: Answer)
    requires NoneUnanswered(s) && Enabled(s, Reply(ans)) && !ans.Unanswered?
    ensures NoneUnanswered(Replied(s, ans))
  {
  }

  lemma UnansweredPlain(s: State, a: Action)
    requires NoneUnanswered(s) && Enabled(s, a) && !(a.Reply? && a.answer.Unanswered?)
    ensures NoneUnanswered(Plain(s, a))
  {
    if a.Reply? { UnansweredReply(s, a.answer); }
  }

  lemma UnansweredStep(s: State, a: Action)
    requires NoneUnanswered(s) && Enabled(s, a) && !(a.Reply? && a.answer.Unanswered?)
    ensures NoneUnanswered(Next(s, a))
  {
    var p := Plain(s, a);
    UnansweredPlain(s, a);
    forall t: nat | t < |p.flows| ensures Next(s, a).flows[t].unanswered == 0 { SameButCut(s, a, t); }
    FlowsStay(s, a);
  }

  /** No group is abandoned while every create is answered. */
  lemma {:induction false} AnsweredCreatesAbandonNothing(s: State, run: seq<Action>)
    requires Possible(s, run) && NoneUnanswered(s)
    requires forall a | a in run :: a.Reply? ==> !a.answer.Unanswered?
    ensures After(s, run).abandoned == {}
    decreases |run|
  {
    if run != [] {
      assert run[0] in run;
      UnansweredStep(s, run[0]);
      AnsweredCreatesAbandonNothing(Next(s, run[0]), run[1..]);
    }
  }
}
