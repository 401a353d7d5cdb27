/** What every step of the group accounting keeps: whose request stands in the queue, whose
    id stands in the table, and who holds which group. */
module GroupInvariants {
  import opened Maybe
  import opened SubscriptionBody
  import opened Groups

  // ─── The queue ────────────────────────────────────────────────────────────

  function Owner(r: Req): Option<nat> {
    match r
    case Create(t) => Some(t)
    case Delete(_, w) => w
  }

  predicate Awaits(f: Flow) {
    (f.pc.Posting? || OnDelete(f.pc)) && f.answer == None
  }

  /** The request is the one its owner awaits; a DELETE awaited is that of its group. */
  predicate Awaited(f: Flow, r: Req) {
    && Awaits(f)
    && match r
       case Create(_) => f.pc.Posting?
       case Delete(id, _) => OnDelete(f.pc) && (f.held.Some? ==> f.held == Some(id))
  }

  predicate OwnerOk(flows: seq<Flow>, r: Req) {
    Owner(r).Some? ==> Owner(r).value < |flows| && Awaited(flows[Owner(r).value], r)
  }

  /** Some request is the flow's. */
  ghost predicate HasRequest(queue: seq<Req>, t: nat) {
    exists i :: 0 <= i < |queue| && Owner(queue[i]) == Some(t)
  }

  /** A flow that awaits an answer has exactly one request in the queue, any other none. */
  ghost predicate QueueOwned(flows: seq<Flow>, queue: seq<Req>) {
    && (forall i | 0 <= i < |queue| :: OwnerOk(flows, queue[i]))
    && (forall i, j | 0 <= i < j < |queue| && Owner(queue[i]).Some? :: Owner(queue[i]) != Owner(queue[j]))
    && (forall t | 0 <= t < |flows| && Awaits(flows[t]) :: HasRequest(queue, t))
  }

  /** A DELETE of this group is queued. */
  predicate DeleteQueued(queue: seq<Req>, g: string) {
    exists i | 0 <= i < |queue| :: queue[i].Delete? && queue[i].id == g
  }

  /** Flows that await as before what they awaited, and hold what they held or nothing. */
  ghost predicate AwaitSame(flows: seq<Flow>, after: seq<Flow>) {
    && |flows| == |after|
    && forall t | 0 <= t < |flows| ::
         && after[t].pc == flows[t].pc && after[t].answer == flows[t].answer
         && (after[t].held == flows[t].held || after[t].held == None)
  }

  lemma RequestStays(queue: seq<Req>, more: seq<Req>, t: nat)
    requires HasRequest(queue, t)
    ensures HasRequest(queue + more, t)
  {
    var i :| 0 <= i < |queue| && Owner(queue[i]) == Some(t);
    assert (queue + more)[i] == queue[i];
  }

  /** Requests nobody awaits are queued. */
  lemma QueueOwnedMore(flows: seq<Flow>, after: seq<Flow>, queue: seq<Req>, more: seq<Req>)
    requires QueueOwned(flows, queue) && AwaitSame(flows, after)
    requires forall i | 0 <= i < |more| :: Owner(more[i]) == None
    ensures QueueOwned(after, queue + more)
  {
    forall i | 0 <= i < |queue| ensures OwnerOk(after, queue[i]) { assert OwnerOk(flows, queue[i]); }
    forall t: nat | t < |after| && Awaits(after[t]) ensures HasRequest(queue + more, t) {
      assert Awaits(flows[t]);
      RequestStays(queue, more, t);
    }
  }

  lemma NoRequest(flows: seq<Flow>, queue: seq<Req>, t: nat)
    requires QueueOwned(flows, queue) && t < |flows| && !Awaits(flows[t])
    ensures !HasRequest(queue, t)
  {
    forall i | 0 <= i < |queue| ensures Owner(queue[i]) != Some(t) { assert OwnerOk(flows, queue[i]); }
  }

  /** A flow that awaited nothing moves on, with or without a request of its own. */
  lemma QueueOwnedMove(flows: seq<Flow>, after: seq<Flow>, queue: seq<Req>, t: nat, more: seq<Req>)
    requires QueueOwned(flows, queue) && t < |flows| == |after| && !Awaits(flows[t])
    requires forall u | 0 <= u < |flows| && u != t ::
               after[u].pc == flows[u].pc && after[u].answer == flows[u].answer && after[u].held == flows[u].held
    requires if Awaits(after[t]) then |more| == 1 && Owner(more[0]) == Some(t) && Awaited(after[t], more[0])
             else forall i | 0 <= i < |more| :: Owner(more[i]) == None
    ensures QueueOwned(after, queue + more)
  {
    var q' := queue + more;
    NoRequest(flows, queue, t);
    forall i | 0 <= i < |queue| ensures OwnerOk(after, queue[i]) && Owner(queue[i]) != Some(t) {
      assert OwnerOk(flows, queue[i]);
    }
    forall u: nat | u < |after| && Awaits(after[u]) ensures HasRequest(q', u) {
      if u == t {
        assert Owner(q'[|queue|]) == Some(t);
      } else {
        assert Awaits(flows[u]);
        RequestStays(queue, more, u);
      }
    }
  }

  /** A new flow's request. */
  lemma QueueOwnedNew(flows: seq<Flow>, queue: seq<Req>, f: Flow)
    requires QueueOwned(flows, queue) && f.pc.Posting? && f.answer == None
    ensures QueueOwned(flows + [f], queue + [Create(|flows|)])
  {
    var n := |flows|;
    var after, q' := flows + [f], queue + [Create(n)];
    forall i | 0 <= i < |queue| ensures OwnerOk(after, queue[i]) && Owner(queue[i]) != Some(n) {
      assert OwnerOk(flows, queue[i]);
    }
    forall u: nat | u < |after| && Awaits(after[u]) ensures HasRequest(q', u) {
      if u == n { assert Owner(q'[|queue|]) == Some(n); } else { RequestStays(queue, [Create(n)], u); }
    }
  }

  /** The oldest request is answered; its owner has the answer. */
  lemma QueueOwnedReply(flows: seq<Flow>, after: seq<Flow>, queue: seq<Req>)
    requires QueueOwned(flows, queue) && queue != [] && |flows| == |after|
    requires Owner(queue[0]).Some? ==> after[Owner(queue[0]).value].answer.Some?
    requires forall u: nat | u < |flows| && Owner(queue[0]) != Some(u) ::
               && after[u].pc == flows[u].pc && after[u].answer == flows[u].answer
               && (after[u].held == flows[u].held || after[u].held == None)
    ensures QueueOwned(after, queue[1..])
  {
    var q' := queue[1..];
    assert OwnerOk(flows, queue[0]);
    forall i | 0 <= i < |q'| ensures OwnerOk(after, q'[i]) {
      assert q'[i] == queue[i + 1] && OwnerOk(flows, queue[i + 1]);
    }
    forall i, j | 0 <= i < j < |q'| && Owner(q'[i]).Some? ensures Owner(q'[i]) != Owner(q'[j]) {
      assert q'[i] == queue[i + 1] && q'[j] == queue[j + 1];
    }
    forall u: nat | u < |after| && Awaits(after[u]) ensures HasRequest(q', u) {
      assert Awaits(flows[u]);
      var i :| 0 <= i < |queue| && Owner(queue[i]) == Some(u);
      assert i > 0 && q'[i - 1] == queue[i];
    }
  }

  // ─── Single flows ─────────────────────────────────────────────────────────

  predicate AnswerFits(f: Flow) {
    f.answer.Some? ==>
      if f.pc.Posting? then !f.answer.value.Deleted? && (Pending(f) ==> IsId(f.answer.value.id))
      else OnDelete(f.pc) && f.answer.value.Deleted?
  }

  /** Which group a flow may hold, by what it is doing. */
  predicate HeldFits(f: Flow) {
    f.held.Some? ==>
      && !f.pc.Failed?
      && (f.pc.Posting? ==> Pending(f) && f.answer.value.id == f.held.value)
      && (OnDelete(f.pc) ==> f.answer == None)
      && (f.pc.Opening? || f.pc.Resting? || f.pc.Releasing? || f.pc.Ending? ==> f.held == Some(f.id))
  }

  predicate CreatesFit(f: Flow) {
    && f.creates <= 2
    && (f.pc.Posting? ==> f.creates == if f.pc.second then 2 else 1)
    && (f.pc.Swapping? ==> f.creates == 1)
  }

  /** Of the group kept, what its answer refused; of no group, nothing. */
  predicate KeptFits(f: Flow) {
    && ((f.pc.Opening? || f.pc.Resting?) && f.held.Some? && !f.gaveUp ==> f.unbound == f.kept && !HasPanel(f.kept))
    && (f.pc.Posting? || f.pc.Swapping? || f.pc.Dropping? || f.gaveUp ==> f.unbound == [])
  }

  /** Before the first open: no handle yet. */
  predicate FirstTime(pc: Pc) {
    (pc.Posting? || pc.Swapping? || pc.Dropping?) && !pc.again
  }

  predicate FlagsFit(f: Flow) {
    && (f.handle <==> f.pc.Resting? || Registering(f.pc))
    && (f.gaveUp ==> f.pc.Resting?)
    && (f.pc.Ending? ==> f.closed)
    && (FirstTime(f.pc) ==> !f.closed && f.id == "")
    && (f.pc.Opening? || f.pc.Resting? || f.pc.Ending? || Registering(f.pc) ==> IsId(f.id))
  }

  predicate FlowOk(f: Flow) {
    AnswerFits(f) && HeldFits(f) && CreatesFit(f) && KeptFits(f) && FlagsFit(f)
  }

  lemma FlowOkContinued(f: Flow)
    requires FlowOk(f) && f.answer.Some? && !Keeps(f)
    ensures FlowOk(Continued(f))
  {
  }

  lemma FlowOkKept(s: State, t: nat)
    requires t < |s.flows| && FlowOk(s.flows[t]) && Keeps(s.flows[t])
    ensures FlowOk(Keep(s, t).flows[t])
  {
  }

  lemma FlowOkAnswered(f: Flow, ans: Answer)
    requires FlowOk(f) && f.pc.Posting? && f.answer == None && !ans.Deleted? && (ans.Created? ==> IsId(ans.id))
    ensures
      var g := f.(answer := Some(ans));
      && FlowOk(if ans.Created? then g.(held := Some(ans.id)) else g)
      && FlowOk(g.(unanswered := f.unanswered + 1))
  {
  }

  lemma FlowOkDeleted(f: Flow)
    requires FlowOk(f) && OnDelete(f.pc) && f.held == None
    ensures FlowOk(f.(answer := Some(Deleted)))
  {
  }

  lemma FlowOkOpened(f: Flow)
    requires FlowOk(f) && f.pc.Opening?
    ensures FlowOk(f.(pc := Resting, handle := true))
    ensures FlowOk(f.(pc := Ending, closed := true))
  {
  }

  lemma FlowOkLive(f: Flow)
    requires FlowOk(f) && f.pc.Resting? && Live(f)
    ensures FlowOk(f.(pc := Releasing))
    ensures FlowOk(f.(gaveUp := true, unbound := []))
  {
  }

  /** Changes that never matter: nothing is held any more, the flow was closed, its create
      was cut, or the count of its unanswered ones changed. */
  lemma FlowOkFlags(f: Flow, g: Flow)
    requires FlowOk(f)
    requires g == f.(held := g.held, closed := g.closed, cut := g.cut, unanswered := g.unanswered)
    requires g.held == f.held || g.held == None
    requires g.closed == f.closed || (g.closed && !FirstTime(f.pc))
    ensures FlowOk(g)
  {
  }

  ghost predicate FlowsOk(s: State) {
    forall t | 0 <= t < |s.flows| :: FlowOk(s.flows[t])
  }

  // ─── The table ────────────────────────────────────────────────────────────

  /** The flows that may have an entry. */
  predicate MayBeListed(f: Flow) {
    !f.gaveUp && (f.pc.Opening? || f.pc.Resting? || Registering(f.pc))
  }

  predicate EntryOk(flows: seq<Flow>, id: string, t: nat) {
    t < |flows| && flows[t].id == id && MayBeListed(flows[t])
  }

  /** Every entry is under the id that its flow has now. */
  ghost predicate TableOk(s: State) {
    forall id | id in s.table :: EntryOk(s.flows, id, s.table[id])
  }

  // ─── The groups ───────────────────────────────────────────────────────────

  /** Every group on the controller is held by exactly one flow, or was abandoned. */
  ghost predicate GroupsHeld(flows: seq<Flow>, groups: set<string>, abandoned: set<string>) {
    && abandoned <= groups
    && (forall t | 0 <= t < |flows| && flows[t].held.Some? ::
          flows[t].held.value in groups && flows[t].held.value !in abandoned)
    && (forall g | g in groups && g !in abandoned :: exists t :: 0 <= t < |flows| && flows[t].held == Some(g))
    && (forall t, u | 0 <= t < u < |flows| && flows[t].held.Some? :: flows[t].held != flows[u].held)
  }

  /** Given up, or closed before its first open. */
  predicate LetGo(f: Flow) {
    f.gaveUp || (f.closed && f.pc.Opening?)
  }

  /** Such a flow has its group's DELETE queued. */
  ghost predicate LetGoOk(s: State) {
    forall t | 0 <= t < |s.flows| && LetGo(s.flows[t]) && s.flows[t].held.Some? ::
      DeleteQueued(s.queue, s.flows[t].held.value)
  }

  ghost predicate Inv(s: State) {
    && QueueOwned(s.flows, s.queue) && FlowsOk(s) && TableOk(s)
    && GroupsHeld(s.flows, s.groups, s.abandoned) && LetGoOk(s)
  }
}
