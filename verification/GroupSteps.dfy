/** Every step of the group accounting keeps its invariants. */
module GroupSteps {
  import opened Maybe
  import opened SubscriptionBody
  import opened Groups
  import opened GroupInvariants

  /** A step with its requests queued, before they cut anything. */
  function Plain(s: State, a: Action): State
    requires Enabled(s, a)
  {
    var s1 := Step(s, a);
    s1.(queue := s1.queue + Asks(s, a))
  }

  // ─── One part at a time ───────────────────────────────────────────────────

  /** Only flow t differs. */
  ghost predicate OnlyFlow(flows: seq<Flow>, after: seq<Flow>, t: nat) {
    t < |flows| == |after| && forall u | 0 <= u < |flows| && u != t :: after[u] == flows[u]
  }

  lemma QueuedMore(queue: seq<Req>, more: seq<Req>, g: string)
    ensures DeleteQueued(queue, g) || DeleteQueued(more, g) <==> DeleteQueued(queue + more, g)
  {
    if i :| 0 <= i < |queue| && queue[i].Delete? && queue[i].id == g { assert (queue + more)[i] == queue[i]; }
    if i :| 0 <= i < |more| && more[i].Delete? && more[i].id == g { assert (queue + more)[|queue| + i] == more[i]; }
    if i :| 0 <= i < |queue + more| && (queue + more)[i].Delete? && (queue + more)[i].id == g {
      if i < |queue| { assert queue[i] == (queue + more)[i]; } else { assert more[i - |queue|] == (queue + more)[i]; }
    }
  }

  lemma QueuedOne(r: Req, g: string)
    ensures DeleteQueued([r], g) <==> r.Delete? && r.id == g
  {
    assert [r][0] == r;
  }

  /** Entries stand for flows that keep their ids and may still be listed. */
  lemma TableCarries(s: State, s': State)
    requires TableOk(s) && |s.flows| <= |s'.flows|
    requires forall id | id in s'.table :: id in s.table && s'.table[id] == s.table[id]
    requires forall t: nat, id | t < |s.flows| && id in s'.table && s'.table[id] == t ::
               s'.flows[t].id == s.flows[t].id && (MayBeListed(s.flows[t]) ==> MayBeListed(s'.flows[t]))
    ensures TableOk(s')
  {
    forall id | id in s'.table ensures EntryOk(s'.flows, id, s'.table[id]) {
      assert EntryOk(s.flows, id, s.table[id]);
    }
  }

  /** A flow takes away the entry under its own id, whosever it is. */
  lemma TableWithout(s: State, s': State, t: nat)
    requires TableOk(s) && OnlyFlow(s.flows, s'.flows, t) && s'.table == s.table - {s.flows[t].id}
    ensures TableOk(s')
  {
    forall id | id in s'.table ensures EntryOk(s'.flows, id, s'.table[id]) {
      assert EntryOk(s.flows, id, s.table[id]);
    }
  }

  lemma TableKept(s: State, t: nat)
    requires TableOk(s) && t < |s.flows| && FlowOk(s.flows[t]) && Keeps(s.flows[t])
    ensures TableOk(Keep(s, t))
  {
    var s' := Keep(s, t);
    forall id | id in s'.table ensures EntryOk(s'.flows, id, s'.table[id]) {
      if id != s.flows[t].answer.value.id { assert EntryOk(s.flows, id, s.table[id]); }
    }
  }

  lemma GroupsCarry(flows: seq<Flow>, after: seq<Flow>, groups: set<string>, abandoned: set<string>)
    requires GroupsHeld(flows, groups, abandoned) && |flows| <= |after|
    requires forall t | 0 <= t < |flows| :: after[t].held == flows[t].held
    requires forall t | |flows| <= t < |after| :: after[t].held == None
    ensures GroupsHeld(after, groups, abandoned)
  {
    forall g | g in groups && g !in abandoned ensures exists t :: 0 <= t < |after| && after[t].held == Some(g) {
      var t :| 0 <= t < |flows| && flows[t].held == Some(g);
      assert after[t].held == Some(g);
    }
  }

  /** A new group, held by flow t or by nobody. */
  lemma GroupsMore(flows: seq<Flow>, after: seq<Flow>, groups: set<string>, abandoned: set<string>, t: nat, id: string)
    requires GroupsHeld(flows, groups, abandoned) && t < |flows| == |after| && id !in groups
    requires forall u | 0 <= u < |flows| && u != t :: after[u].held == flows[u].held
    ensures flows[t].held == None && after[t].held == Some(id) ==> GroupsHeld(after, groups + {id}, abandoned)
    ensures after[t].held == flows[t].held ==> GroupsHeld(after, groups + {id}, abandoned + {id})
  {
    forall g | g in groups && g !in abandoned && (after[t].held == flows[t].held || flows[t].held == None)
      ensures exists u :: 0 <= u < |after| && after[u].held == Some(g)
    {
      var u :| 0 <= u < |flows| && flows[u].held == Some(g);
      assert after[u].held == Some(g);
    }
    if after[t].held == Some(id) { assert exists u :: 0 <= u < |after| && after[u].held == Some(id); }
  }

  lemma GroupsLess(flows: seq<Flow>, after: seq<Flow>, groups: set<string>, abandoned: set<string>, id: string)
    requires GroupsHeld(flows, groups, abandoned) && |flows| == |after|
    requires forall t | 0 <= t < |flows| :: after[t].held == if flows[t].held == Some(id) then None else flows[t].held
    ensures GroupsHeld(after, groups - {id}, abandoned - {id})
  {
    forall g | g in groups - {id} && g !in abandoned - {id}
      ensures exists t :: 0 <= t < |after| && after[t].held == Some(g)
    {
      var t :| 0 <= t < |flows| && flows[t].held == Some(g);
      assert after[t].held == Some(g);
    }
  }

  /** More requests, and no flow that is let go. */
  lemma LetGoCarries(s: State, s': State, more: seq<Req>)
    requires LetGoOk(s) && |s.flows| <= |s'.flows| && s'.queue == s.queue + more
    requires forall t | 0 <= t < |s.flows| && LetGo(s'.flows[t]) ::
               LetGo(s.flows[t]) && (s'.flows[t].held == s.flows[t].held || s'.flows[t].held == None)
    requires forall t | |s.flows| <= t < |s'.flows| :: !LetGo(s'.flows[t])
    ensures LetGoOk(s')
  {
    forall t | 0 <= t < |s'.flows| && LetGo(s'.flows[t]) && s'.flows[t].held.Some?
      ensures DeleteQueued(s'.queue, s'.flows[t].held.value)
    {
      QueuedMore(s.queue, more, s'.flows[t].held.value);
    }
  }

  lemma FlowsOkUpdate(s: State, s': State, t: nat)
    requires FlowsOk(s) && OnlyFlow(s.flows, s'.flows, t) && FlowOk(s'.flows[t])
    ensures FlowsOk(s')
  {
  }

  // ─── Step by step ─────────────────────────────────────────────────────────

  lemma SubscribeKeeps(s: State)
    requires Inv(s)
    ensures Inv(Plain(s, Subscribe))
  {
    var s' := Plain(s, Subscribe);
    var f := s'.flows[|s.flows|];
    assert FlowOk(f);
    QueueOwnedNew(s.flows, s.queue, f);
    assert FlowsOk(s');
    TableCarries(s, s');
    GroupsCarry(s.flows, s'.flows, s.groups, s.abandoned);
    LetGoCarries(s, s', [Create(|s.flows|)]);
  }

  /** What is left to show for a step of one flow that touches neither table nor groups. */
  lemma QuietStep(s: State, s': State, t: nat, more: seq<Req>)
    requires Inv(s) && OnlyFlow(s.flows, s'.flows, t) && FlowOk(s'.flows[t])
    requires s'.queue == s.queue + more && QueueOwned(s'.flows, s'.queue)
    requires s'.groups == s.groups && s'.abandoned == s.abandoned
    requires || s'.table == s.table - {s.flows[t].id}
             || (&& s'.table == s.table && s'.flows[t].id == s.flows[t].id
                 && (MayBeListed(s.flows[t]) ==> MayBeListed(s'.flows[t])))
    requires s'.flows[t].held == s.flows[t].held
    requires LetGo(s'.flows[t]) && s'.flows[t].held.Some? ==>
               LetGo(s.flows[t]) || DeleteQueued(more, s'.flows[t].held.value)
    ensures Inv(s')
  {
    FlowsOkUpdate(s, s', t);
    if s'.table == s.table - {s.flows[t].id} { TableWithout(s, s', t); } else { TableCarries(s, s'); }
    GroupsCarry(s.flows, s'.flows, s.groups, s.abandoned);
    forall u | 0 <= u < |s'.flows| && LetGo(s'.flows[u]) && s'.flows[u].held.Some?
      ensures DeleteQueued(s'.queue, s'.flows[u].held.value)
    {
      QueuedMore(s.queue, more, s'.flows[u].held.value);
    }
  }

  lemma ReRegisterKeeps(s: State, t: nat)
    requires Inv(s) && Enabled(s, ReRegister(t))
    ensures Inv(Plain(s, ReRegister(t)))
  {
    var s' := Plain(s, ReRegister(t));
    var more := Asks(s, ReRegister(t));
    assert FlowOk(s.flows[t]);
    FlowOkLive(s.flows[t]);
    QueueOwnedMove(s.flows, s'.flows, s.queue, t, more);
    QuietStep(s, s', t, more);
  }

  lemma GiveUpKeeps(s: State, t: nat)
    requires Inv(s) && Enabled(s, GiveUp(t))
    ensures Inv(Plain(s, GiveUp(t)))
  {
    var s' := Plain(s, GiveUp(t));
    var more := Asks(s, GiveUp(t));
    assert FlowOk(s.flows[t]);
    FlowOkLive(s.flows[t]);
    QueueOwnedMore(s.flows, s'.flows, s.queue, more);
    QueuedOne(more[0], s.flows[t].id);
    QuietStep(s, s', t, more);
  }

  lemma StopKeeps(s: State, t: nat)
    requires Inv(s) && Enabled(s, Stop(t))
    ensures Inv(Plain(s, Stop(t)))
  {
    var s' := Plain(s, Stop(t));
    var more := Asks(s, Stop(t));
    assert FlowOk(s.flows[t]);
    FlowOkFlags(s.flows[t], s'.flows[t]);
    QueueOwnedMore(s.flows, s'.flows, s.queue, more);
    QuietStep(s, s', t, more);
  }

  lemma OpenedKeeps(s: State, t: nat, ok: bool)
    requires Inv(s) && Enabled(s, Opened(t, ok))
    ensures Inv(Plain(s, Opened(t, ok)))
  {
    var s' := Plain(s, Opened(t, ok));
    var more := Asks(s, Opened(t, ok));
    assert FlowOk(s.flows[t]);
    FlowOkOpened(s.flows[t]);
    QueueOwnedMove(s.flows, s'.flows, s.queue, t, more);
    QuietStep(s, s', t, more);
  }

  lemma KeepKeeps(s: State, t: nat)
    requires Inv(s) && Enabled(s, Continue(t)) && Keeps(s.flows[t])
    ensures Inv(Keep(s, t))
  {
    var s' := Keep(s, t);
    var f := s.flows[t];
    assert FlowOk(f);
    FlowOkKept(s, t);
    FlowsOkUpdate(s, s', t);
    QueueOwnedMove(s.flows, s'.flows, s.queue, t, []);
    assert s.queue + [] == s.queue;
    TableKept(s, t);
    GroupsCarry(s.flows, s'.flows, s.groups, s.abandoned);
    LetGoCarries(s, s', []);
  }

  lemma MovesOnKeeps(s: State, t: nat)
    requires Inv(s) && Enabled(s, Continue(t)) && !Keeps(s.flows[t])
    ensures Inv(Plain(s, Continue(t)))
  {
    var s' := Plain(s, Continue(t));
    var more := Asks(s, Continue(t));
    assert FlowOk(s.flows[t]);
    FlowOkContinued(s.flows[t]);
    QueueOwnedMove(s.flows, s'.flows, s.queue, t, more);
    QuietStep(s, s', t, more);
  }

  lemma ContinueKeeps(s: State, t: nat)
    requires Inv(s) && Enabled(s, Continue(t))
    ensures Inv(Plain(s, Continue(t)))
  {
    if Keeps(s.flows[t]) {
      KeepKeeps(s, t);
      assert Plain(s, Continue(t)) == Keep(s, t);
    } else {
      MovesOnKeeps(s, t);
    }
  }

  /** A DELETE of another id, or a create, has left the queue. */
  lemma QueuedRest(queue: seq<Req>, g: string)
    requires queue != [] && DeleteQueued(queue, g) && !(queue[0].Delete? && queue[0].id == g)
    ensures DeleteQueued(queue[1..], g)
  {
    var i :| 0 <= i < |queue| && queue[i].Delete? && queue[i].id == g;
    assert queue[1..][i - 1] == queue[i];
  }

  /** What a DELETE that is answered leaves of a flow. */
  lemma DeletedFlow(s: State, t: nat)
    requires Inv(s) && s.queue != [] && s.queue[0].Delete? && Enabled(s, Reply(Deleted)) && t < |s.flows|
    ensures
      var f, g := s.flows[t], Replied(s, Deleted).flows[t];
      && FlowOk(g)
      && g.held == (if f.held == Some(s.queue[0].id) then None else f.held)
      && g == f.(held := g.held, answer := if s.queue[0].waiter == Some(t) then Some(Deleted) else f.answer)
  {
    var f := s.flows[t];
    var g := Lose(s.flows, s.queue[0].id)[t];
    assert OwnerOk(s.flows, s.queue[0]);
    assert FlowOk(f);
    FlowOkFlags(f, g);
    if s.queue[0].waiter == Some(t) { FlowOkDeleted(g); }
  }

  lemma DeletedKeeps(s: State)
    requires Inv(s) && s.queue != [] && s.queue[0].Delete? && Enabled(s, Reply(Deleted))
    ensures Inv(Replied(s, Deleted))
  {
    var s' := Replied(s, Deleted);
    forall t: nat | t < |s.flows|
      ensures
        && FlowOk(s'.flows[t])
        && s'.flows[t].held == (if s.flows[t].held == Some(s.queue[0].id) then None else s.flows[t].held)
        && s'.flows[t] == s.flows[t].(held := s'.flows[t].held,
             answer := if s.queue[0].waiter == Some(t) then Some(Deleted) else s.flows[t].answer)
    {
      DeletedFlow(s, t);
    }
    QueueOwnedReply(s.flows, s'.flows, s.queue);
    TableCarries(s, s');
    GroupsLess(s.flows, s'.flows, s.groups, s.abandoned, s.queue[0].id);
    forall t | 0 <= t < |s'.flows| && LetGo(s'.flows[t]) && s'.flows[t].held.Some?
      ensures DeleteQueued(s'.queue, s'.flows[t].held.value)
    {
      QueuedRest(s.queue, s'.flows[t].held.value);
    }
  }

  lemma AnsweredFlows(s: State, ans: Answer)
    requires Inv(s) && Enabled(s, Reply(ans)) && s.queue[0].Create?
    ensures
      var s', t := Replied(s, ans), s.queue[0].flow;
      && OnlyFlow(s.flows, s'.flows, t) && AwaitsCreate(s.flows[t]) && s.flows[t].held == None
      && FlowsOk(s') && QueueOwned(s'.flows, s'.queue)
  {
    var s', t := Replied(s, ans), s.queue[0].flow;
    assert OwnerOk(s.flows, s.queue[0]);
    assert FlowOk(s.flows[t]);
    FlowOkAnswered(s.flows[t], ans);
    FlowsOkUpdate(s, s', t);
    QueueOwnedReply(s.flows, s'.flows, s.queue);
  }

  lemma AnsweredKeeps(s: State, ans: Answer)
    requires Inv(s) && Enabled(s, Reply(ans)) && s.queue[0].Create?
    ensures Inv(Replied(s, ans))
  {
    var s', t := Replied(s, ans), s.queue[0].flow;
    AnsweredFlows(s, ans);
    TableCarries(s, s');
    if ans.Created? {
      GroupsMore(s.flows, s'.flows, s.groups, s.abandoned, t, ans.id);
    } else {
      GroupsCarry(s.flows, s'.flows, s.groups, s.abandoned);
    }
    forall u | 0 <= u < |s'.flows| && LetGo(s'.flows[u]) && s'.flows[u].held.Some?
      ensures DeleteQueued(s'.queue, s'.flows[u].held.value)
    {
      QueuedRest(s.queue, s'.flows[u].held.value);
    }
  }

  lemma ReplyKeeps(s: State, ans: Answer)
    requires Inv(s) && Enabled(s, Reply(ans))
    ensures Inv(Plain(s, Reply(ans)))
  {
    var s' := Plain(s, Reply(ans));
    assert s'.queue == Replied(s, ans).queue;
    if s.queue[0].Delete? { DeletedKeeps(s); } else { AnsweredKeeps(s, ans); }
  }

  lemma ClosedAllQueues(s: State, order: seq<string>, t: nat)
    requires Enabled(s, CloseAll(order)) && t < |s.flows| && InTable(s, t)
    ensures DeleteQueued(Asks(s, CloseAll(order)), s.flows[t].id)
  {
    var i :| 0 <= i < |order| && order[i] == s.flows[t].id;
    assert Asks(s, CloseAll(order))[i] == Delete(s.flows[t].id, None);
  }

  lemma CloseAllKeeps(s: State, order: seq<string>)
    requires Inv(s) && Enabled(s, CloseAll(order))
    ensures Inv(Plain(s, CloseAll(order)))
  {
    var s' := Plain(s, CloseAll(order));
    var more := Asks(s, CloseAll(order));
    forall t | 0 <= t < |s.flows| ensures FlowOk(s'.flows[t]) {
      assert FlowOk(s.flows[t]);
      FlowOkFlags(s.flows[t], s'.flows[t]);
    }
    QueueOwnedMore(s.flows, s'.flows, s.queue, more);
    GroupsCarry(s.flows, s'.flows, s.groups, s.abandoned);
    forall t | 0 <= t < |s'.flows| && LetGo(s'.flows[t]) && s'.flows[t].held.Some?
      ensures DeleteQueued(s'.queue, s'.flows[t].held.value)
    {
      assert FlowOk(s.flows[t]);
      if InTable(s, t) { ClosedAllQueues(s, order, t); }
      QueuedMore(s.queue, more, s'.flows[t].held.value);
    }
  }

  lemma LateGroupKeeps(s: State, t: nat, id: string)
    requires Inv(s) && Enabled(s, LateGroup(t, id))
    ensures Inv(Plain(s, LateGroup(t, id)))
  {
    var s' := Plain(s, LateGroup(t, id));
    assert FlowOk(s.flows[t]);
    FlowOkFlags(s.flows[t], s'.flows[t]);
    FlowsOkUpdate(s, s', t);
    QueueOwnedMore(s.flows, s'.flows, s.queue, []);
    TableCarries(s, s');
    GroupsMore(s.flows, s'.flows, s.groups, s.abandoned, t, id);
    LetGoCarries(s, s', []);
  }

  lemma RestartKeeps(s: State)
    requires Inv(s)
    ensures Inv(Plain(s, Restart))
  {
    var s' := Plain(s, Restart);
    forall t | 0 <= t < |s.flows| ensures FlowOk(s'.flows[t]) {
      assert FlowOk(s.flows[t]);
      FlowOkFlags(s.flows[t], s'.flows[t]);
    }
    QueueOwnedMore(s.flows, s'.flows, s.queue, []);
    TableCarries(s, s');
    LetGoCarries(s, s', []);
  }

  lemma CutKeeps(s: State, s': State)
    requires Inv(s) && |s'.flows| == |s.flows| && s' == s.(flows := s'.flows)
    requires forall t | 0 <= t < |s.flows| :: s'.flows[t] == s.flows[t].(cut := s'.flows[t].cut)
    ensures Inv(s')
  {
    forall t | 0 <= t < |s.flows| ensures FlowOk(s'.flows[t]) {
      assert FlowOk(s.flows[t]);
      FlowOkFlags(s.flows[t], s'.flows[t]);
    }
    QueueOwnedMore(s.flows, s'.flows, s.queue, []);
    assert s.queue + [] == s.queue;
    TableCarries(s, s');
    GroupsCarry(s.flows, s'.flows, s.groups, s.abandoned);
    LetGoCarries(s, s', []);
  }

  lemma PlainKeeps(s: State, a: Action)
    requires Inv(s) && Enabled(s, a)
    ensures Inv(Plain(s, a))
  {
    match a
    case Subscribe => SubscribeKeeps(s);
    case Reply(ans) => ReplyKeeps(s, ans);
    case Continue(t) => ContinueKeeps(s, t);
    case Opened(t, ok) => OpenedKeeps(s, t, ok);
    case ReRegister(t) => ReRegisterKeeps(s, t);
    case GiveUp(t) => GiveUpKeeps(s, t);
    case Stop(t) => StopKeeps(s, t);
    case CloseAll(order) => CloseAllKeeps(s, order);
    case OtherCut(_) => assert Plain(s, a) == s;
    case LateGroup(t, id) => LateGroupKeeps(s, t, id);
    case Restart => RestartKeeps(s);
  }

  lemma InvStep(s: State, a: Action)
    requires Inv(s) && Enabled(s, a)
    ensures Inv(Next(s, a))
  {
    PlainKeeps(s, a);
    CutKeeps(Plain(s, a), Next(s, a));
  }

  lemma {:induction false} InvAfter(s: State, run: seq<Action>)
    requires Inv(s) && Possible(s, run)
    ensures Inv(After(s, run))
    decreases |run|
  {
    if run != [] {
      InvStep(s, run[0]);
      InvAfter(Next(s, run[0]), run[1..]);
    }
  }

  /** The invariants hold after any sequence of steps. */
  lemma EveryRun(s0: State, run: seq<Action>)
    requires Initial(s0) && Possible(s0, run)
    ensures Inv(After(s0, run))
  {
    InvAfter(s0, run);
  }
}
