/** The queue and the cuts of the group accounting are those of the session's request queue
    (WsSubscriber on HttpSession.enqueue): whatever a step queues there, and whatever else
    is queued between, the same requests wait in the same order and the same creates are
    cut. */
module GroupQueue {
  import opened Maybe
  import opened Requests
  import opened SubscriptionBody
  import opened Groups
  import opened GroupInvariants
  import opened GroupSteps
  import opened GroupRuns
  import Q = RequestQueue

  function DeleteOf(id: string): Request {
    Request(DELETE, "/subscription/" + id, NoBody, 0)
  }

  predicate StandsFor(r: Req, req: Request) {
    match r
    case Create(_) => IsGroupCreate(req)
    case Delete(id, _) => req == DeleteOf(id)
  }

  /** Its function has not returned. */
  predicate Unanswered(j: Q.Job) {
    !j.phase.Returned? && !j.phase.Settled?
  }

  predicate Place(flows: seq<Flow>, r: Req, jobs: seq<Q.Job>, k: nat) {
    && k < |jobs| && Unanswered(jobs[k]) && StandsFor(r, jobs[k].req)
    && (r.Create? ==> r.flow < |flows| && flows[r.flow].cut == jobs[k].aborted)
  }

  /** Request i is job at[i] of the session; no other create is unanswered there; a flow's
      create is cut there exactly if it is cut here. */
  ghost predicate Mirrors(flows: seq<Flow>, queue: seq<Req>, q: Q.Queue, at: seq<nat>) {
    && |at| == |queue|
    && (forall i | 0 <= i < |at| :: Place(flows, queue[i], q.jobs, at[i]))
    && (forall i, j | 0 <= i < j < |at| :: at[i] < at[j])
    && (forall k | 0 <= k < |q.jobs| && Unanswered(q.jobs[k]) && IsGroupCreate(q.jobs[k].req) :: k in at)
  }

  /** A queue that some run of a session reaches. */
  ghost predicate Reached(q: Q.Queue) {
    exists q0: Q.Queue, run: seq<Q.Action> :: Q.Initial(q0) && Q.Possible(q0, run) && Q.After(q0, run) == q
  }

  lemma ReachedIsSound(q: Q.Queue)
    requires Reached(q)
    ensures Q.Inv(q) && Q.KindsHonest(q)
  {
    var q0: Q.Queue, run: seq<Q.Action> :| Q.Initial(q0) && Q.Possible(q0, run) && Q.After(q0, run) == q;
    Q.EveryRun(q0, run);
    Q.KindsStayHonest(q0, run);
  }

  lemma {:induction false} OneStepMore(q: Q.Queue, run: seq<Q.Action>, b: Q.Action)
    requires Q.Possible(q, run) && Q.Enabled(Q.After(q, run), b)
    ensures Q.Possible(q, run + [b]) && Q.After(q, run + [b]) == Q.Next(Q.After(q, run), b)
    decreases |run|
  {
    if run == [] {
      assert run + [b] == [b];
      assert [b][1..] == [];
    } else {
      OneStepMore(Q.Next(q, run[0]), run[1..], b);
      assert (run + [b])[1..] == run[1..] + [b];
    }
  }

  lemma StillReached(q: Q.Queue, b: Q.Action)
    requires Reached(q) && Q.Enabled(q, b)
    ensures Reached(Q.Next(q, b))
  {
    var q0: Q.Queue, run: seq<Q.Action> :| Q.Initial(q0) && Q.Possible(q0, run) && Q.After(q0, run) == q;
    OneStepMore(q0, run, b);
  }

  // ─── One request more ─────────────────────────────────────────────────────

  /** What queueing a request does to job k. */
  predicate CutsJob(j: Q.Job, r: Request) {
    IsGroupCreate(j.req) && (CutsOf(r) == CutsSent || (CutsOf(r) == CutsQueued && !j.started))
  }

  function Queued(q: Q.Queue, r: Request): Q.Queue
    requires !q.closed
  {
    Q.Next(q, Q.Call(r))
  }

  /** Request r stands behind the jobs there were, and those it cuts are cut. */
  ghost predicate Joined(q: Q.Queue, q': Q.Queue, r: Request) {
    && !q'.closed && |q'.jobs| == |q.jobs| + 1
    && q'.jobs[|q.jobs|].req == r && Unanswered(q'.jobs[|q.jobs|]) && !q'.jobs[|q.jobs|].aborted
    && forall k | 0 <= k < |q.jobs| ::
         && q'.jobs[k] == q.jobs[k].(aborted := q'.jobs[k].aborted)
         && (Unanswered(q.jobs[k]) ==> (q'.jobs[k].aborted <==> q.jobs[k].aborted || CutsJob(q.jobs[k], r)))
  }

  lemma QueuedJoins(q: Q.Queue, r: Request)
    requires Q.CuttableExact(q) && Q.KindsHonest(q) && !q.closed
    ensures Joined(q, Queued(q, r), r)
  {
    var victims := Q.Victims(q.cuttable, CutsOf(r));
    forall k | 0 <= k < |q.jobs|
      ensures k in victims <==> k in q.cuttable && (CutsOf(r) == CutsSent || (CutsOf(r) == CutsQueued && !q.jobs[k].started))
      ensures Unanswered(q.jobs[k]) ==> (k in q.cuttable <==> IsGroupCreate(q.jobs[k].req) && !q.jobs[k].aborted)
    {
      assert q.jobs[k].kind == Q.KindOf(q.jobs[k].req);
    }
  }

  /** What queueing a request on a session does to its jobs: a cut reaches exactly the
      creates not answered yet, for a release those not sent. */
  lemma QueuedReached(q: Q.Queue, r: Request)
    requires Reached(q) && !q.closed
    ensures Reached(Queued(q, r)) && Joined(q, Queued(q, r), r)
  {
    ReachedIsSound(q);
    QueuedJoins(q, r);
    StillReached(q, Q.Call(r));
  }

  /** A create or DELETE of the accounting is queued: behind it stand the same flows with
      the creates it cuts cut. */
  lemma OneMore(flows: seq<Flow>, after: seq<Flow>, queue: seq<Req>, r: Req, q: Q.Queue, q': Q.Queue, at: seq<nat>, req: Request)
    requires Joined(q, q', req) && Mirrors(flows, queue, q, at) && StandsFor(r, req)
    requires forall i | 0 <= i < |queue| && queue[i].Create? ::
               && queue[i].flow < |after|
               && (after[queue[i].flow].cut <==> flows[queue[i].flow].cut || CutsJob(q.jobs[at[i]], req))
    requires r.Create? ==> r.flow < |after| && !after[r.flow].cut
    ensures Mirrors(after, queue + [r], q', at + [|q.jobs|])
  {
    var queue', at' := queue + [r], at + [|q.jobs|];
    forall i | 0 <= i < |at'| ensures Place(after, queue'[i], q'.jobs, at'[i]) {
      if i < |at| { assert Place(flows, queue[i], q.jobs, at[i]); }
    }
    forall i, j | 0 <= i < j < |at'| ensures at'[i] < at'[j] {
      assert Place(flows, queue[i], q.jobs, at[i]);
    }
    forall k | 0 <= k < |q'.jobs| && Unanswered(q'.jobs[k]) && IsGroupCreate(q'.jobs[k].req) ensures k in at' {
      if k < |q.jobs| { assert k in at; } else { assert at'[|at|] == k; }
    }
  }

  /** Another request, not a create, is queued. */
  lemma OneBeside(flows: seq<Flow>, after: seq<Flow>, queue: seq<Req>, q: Q.Queue, q': Q.Queue, at: seq<nat>, req: Request)
    requires Joined(q, q', req) && Mirrors(flows, queue, q, at) && !IsGroupCreate(req)
    requires forall i | 0 <= i < |queue| && queue[i].Create? ::
               && queue[i].flow < |after|
               && (after[queue[i].flow].cut <==> flows[queue[i].flow].cut || CutsJob(q.jobs[at[i]], req))
    ensures Mirrors(after, queue, q', at)
  {
    forall i | 0 <= i < |at| ensures Place(after, queue[i], q'.jobs, at[i]) {
      assert Place(flows, queue[i], q.jobs, at[i]);
    }
  }

  lemma IdDeletesCut(id: string)
    requires IsId(id)
    ensures CutsOf(DeleteOf(id)) == CutsSent && !IsGroupCreate(DeleteOf(id))
  {
    if '/' in id || '?' in id { assert false; }
    GroupDeletesCut(id);
  }

  lemma CreatesCutNothing(req: Request, j: Q.Job)
    requires IsGroupCreate(req)
    ensures !CutsJob(j, req)
  {
    ReducingRequests(req);
  }

  // ─── A step of the accounting ─────────────────────────────────────────────

  /** What the session queues for these requests: each create with some body. */
  predicate StandFor(asks: seq<Req>, reqs: seq<Request>) {
    |asks| == |reqs| && forall i | 0 <= i < |asks| :: StandsFor(asks[i], reqs[i])
  }

  function AllQueued(q: Q.Queue, reqs: seq<Request>): Q.Queue
    requires !q.closed
    decreases |reqs|
  {
    if reqs == [] then q else AllQueued(Queued(q, reqs[0]), reqs[1..])
  }

  function Places(n: nat, more: nat): seq<nat> {
    seq(more, i requires 0 <= i < more => n + i)
  }

  ghost predicate DeletesOfIds(asks: seq<Req>) {
    forall i | 0 <= i < |asks| :: asks[i].Delete? && IsId(asks[i].id)
  }

  ghost predicate AllCut(flows: seq<Flow>, queue: seq<Req>) {
    forall i | 0 <= i < |queue| && queue[i].Create? :: queue[i].flow < |flows| && flows[queue[i].flow].cut
  }

  lemma OneDelete(flows: seq<Flow>, after: seq<Flow>, queue: seq<Req>, r: Req, q: Q.Queue, at: seq<nat>)
    requires Reached(q) && !q.closed && Mirrors(flows, queue, q, at) && AllCut(after, queue)
    requires r.Delete? && IsId(r.id)
    ensures
      var q1 := Queued(q, DeleteOf(r.id));
      && Reached(q1) && !q1.closed && |q1.jobs| == |q.jobs| + 1
      && Mirrors(after, queue + [r], q1, at + [|q.jobs|]) && AllCut(after, queue + [r])
  {
    IdDeletesCut(r.id);
    QueuedReached(q, DeleteOf(r.id));
    forall i | 0 <= i < |queue| && queue[i].Create? ensures CutsJob(q.jobs[at[i]], DeleteOf(r.id)) {
      assert Place(flows, queue[i], q.jobs, at[i]);
    }
    OneMore(flows, after, queue, r, q, Queued(q, DeleteOf(r.id)), at, DeleteOf(r.id));
  }

  lemma RestStands(asks: seq<Req>, reqs: seq<Request>)
    requires asks != [] && DeletesOfIds(asks) && StandFor(asks, reqs)
    ensures reqs[0] == DeleteOf(asks[0].id) && asks[0].Delete? && IsId(asks[0].id)
    ensures DeletesOfIds(asks[1..]) && StandFor(asks[1..], reqs[1..])
  {
    assert StandsFor(asks[0], reqs[0]);
  }

  lemma Regrouped(queue: seq<Req>, asks: seq<Req>, at: seq<nat>, n: nat)
    requires asks != []
    ensures (queue + [asks[0]]) + asks[1..] == queue + asks
    ensures (at + [n]) + Places(n + 1, |asks| - 1) == at + Places(n, |asks|)
  {
  }

  lemma {:induction false} DeletesMirror(flows: seq<Flow>, queue: seq<Req>, asks: seq<Req>,
                                         q: Q.Queue, at: seq<nat>, reqs: seq<Request>)
    requires Reached(q) && !q.closed && Mirrors(flows, queue, q, at) && AllCut(flows, queue)
    requires DeletesOfIds(asks) && StandFor(asks, reqs)
    ensures Mirrors(flows, queue + asks, AllQueued(q, reqs), at + Places(|q.jobs|, |asks|))
    decreases |asks|
  {
    if asks == [] {
      assert queue + asks == queue && at + Places(|q.jobs|, 0) == at;
    } else {
      RestStands(asks, reqs);
      OneDelete(flows, flows, queue, asks[0], q, at);
      DeletesMirror(flows, queue + [asks[0]], asks[1..], Queued(q, reqs[0]), at + [|q.jobs|], reqs[1..]);
      Regrouped(queue, asks, at, |q.jobs|);
    }
  }

  lemma FirstDeleteMirrors(flows: seq<Flow>, after: seq<Flow>, queue: seq<Req>, asks: seq<Req>,
                           q: Q.Queue, at: seq<nat>, reqs: seq<Request>)
    requires Reached(q) && !q.closed && Mirrors(flows, queue, q, at) && AllCut(after, queue)
    requires asks != [] && DeletesOfIds(asks) && StandFor(asks, reqs)
    ensures Mirrors(after, queue + asks, AllQueued(q, reqs), at + Places(|q.jobs|, |asks|))
  {
    RestStands(asks, reqs);
    OneDelete(flows, after, queue, asks[0], q, at);
    DeletesMirror(after, queue + [asks[0]], asks[1..], Queued(q, reqs[0]), at + [|q.jobs|], reqs[1..]);
    Regrouped(queue, asks, at, |q.jobs|);
  }

  /** What a step of the accounting queues: nothing, one create, or DELETEs of groups. */
  lemma AsksAreSimple(s: State, a: Action)
    requires Inv(s) && Enabled(s, a)
    ensures
      var asks := Asks(s, a);
      asks == [] || DeletesOfIds(asks) || (exists t: nat :: asks == [Create(t)])
  {
    match a
    case CloseAll(order) =>
      forall i | 0 <= i < |order| ensures IsId(order[i]) {
        assert order[i] in order;
        assert EntryOk(s.flows, order[i], s.table[order[i]]);
        assert FlowOk(s.flows[s.table[order[i]]]);
      }
    case Continue(t) => assert FlowOk(s.flows[t]);
    case Opened(t, _) => assert FlowOk(s.flows[t]);
    case ReRegister(t) => assert FlowOk(s.flows[t]);
    case GiveUp(t) => assert FlowOk(s.flows[t]);
    case Stop(t) => assert FlowOk(s.flows[t]);
    case _ =>
  }

  /** The creates waiting stay as they are, unless the step cuts them. */
  lemma WaitingCuts(s: State, a: Action, i: nat)
    requires Inv(s) && Enabled(s, a) && !a.Reply? && i < |s.queue| && s.queue[i].Create?
    ensures
      var t := s.queue[i].flow;
      && t < |s.flows| && t < |Next(s, a).flows|
      && (Next(s, a).flows[t].cut <==> s.flows[t].cut || Groups.Cuts(s, a, t))
  {
    assert OwnerOk(s.flows, s.queue[i]);
    FlowsStay(s, a);
    SameButCut(s, a, s.queue[i].flow);
  }

  lemma CreateIsUncut(s: State, a: Action, t: nat)
    requires Inv(s) && Enabled(s, a) && Asks(s, a) == [Create(t)]
    ensures t < |Next(s, a).flows| && !Next(s, a).flows[t].cut
  {
    assert Asks(s, a)[0] == Create(t);
    assert a.Subscribe? || a == Continue(t);
    SameButCut(s, a, t);
  }

  /** A step of the accounting whose requests go to the session's queue keeps the two
      alike: its DELETEs cut there exactly the creates it cuts here. */
  lemma StepMirrors(s: State, a: Action, q: Q.Queue, at: seq<nat>, reqs: seq<Request>)
    requires Inv(s) && Enabled(s, a) && !a.Reply? && !a.OtherCut?
    requires Reached(q) && !q.closed && Mirrors(s.flows, s.queue, q, at)
    requires StandFor(Asks(s, a), reqs)
    ensures Mirrors(Next(s, a).flows, Next(s, a).queue, AllQueued(q, reqs), at + Places(|q.jobs|, |reqs|))
  {
    var asks, s' := Asks(s, a), Next(s, a);
    AsksAreSimple(s, a);
    forall i | 0 <= i < |s.queue| && s.queue[i].Create?
      ensures s.queue[i].flow < |s.flows| && s.queue[i].flow < |s'.flows|
      ensures s'.flows[s.queue[i].flow].cut <==> s.flows[s.queue[i].flow].cut || Groups.Cuts(s, a, s.queue[i].flow)
    {
      WaitingCuts(s, a, i);
    }
    assert s'.queue == s.queue + asks;
    if asks == [] {
      NothingMore(s.flows, s'.flows, s.queue, q, at);
      assert s.queue + asks == s.queue && at + Places(|q.jobs|, 0) == at;
    } else if DeletesOfIds(asks) {
      FirstDeleteMirrors(s.flows, s'.flows, s.queue, asks, q, at, reqs);
    } else {
      var t: nat :| asks == [Create(t)];
      CreateIsUncut(s, a, t);
      assert StandsFor(asks[0], reqs[0]);
      OneCreate(s.flows, s'.flows, s.queue, t, q, at, reqs[0]);
      JustOne(q, reqs);
    }
  }

  lemma NothingMore(flows: seq<Flow>, after: seq<Flow>, queue: seq<Req>, q: Q.Queue, at: seq<nat>)
    requires Mirrors(flows, queue, q, at)
    requires forall i | 0 <= i < |queue| && queue[i].Create? ::
               queue[i].flow < |flows| && queue[i].flow < |after| && after[queue[i].flow].cut == flows[queue[i].flow].cut
    ensures Mirrors(after, queue, q, at)
  {
    forall i | 0 <= i < |at| ensures Place(after, queue[i], q.jobs, at[i]) {
      assert Place(flows, queue[i], q.jobs, at[i]);
    }
  }

  lemma OneCreate(flows: seq<Flow>, after: seq<Flow>, queue: seq<Req>, t: nat, q: Q.Queue, at: seq<nat>, req: Request)
    requires Reached(q) && !q.closed && Mirrors(flows, queue, q, at) && StandsFor(Create(t), req)
    requires forall i | 0 <= i < |queue| && queue[i].Create? ::
               queue[i].flow < |flows| && queue[i].flow < |after| && after[queue[i].flow].cut == flows[queue[i].flow].cut
    requires t < |after| && !after[t].cut
    ensures Mirrors(after, queue + [Create(t)], Queued(q, req), at + [|q.jobs|])
  {
    forall i | 0 <= i < |queue| && queue[i].Create? ensures !CutsJob(q.jobs[at[i]], req) {
      assert Place(flows, queue[i], q.jobs, at[i]);
      CreatesCutNothing(req, q.jobs[at[i]]);
    }
    QueuedReached(q, req);
    OneMore(flows, after, queue, Create(t), q, Queued(q, req), at, req);
  }

  lemma JustOne(q: Q.Queue, reqs: seq<Request>)
    requires !q.closed && |reqs| == 1
    ensures AllQueued(q, reqs) == Queued(q, reqs[0]) && Places(|q.jobs|, 1) == [|q.jobs|]
  {
    assert reqs[1..] == [];
  }

  // ─── Other requests, and the turns of the queue ───────────────────────────

  /** The flows whose waiting create another request cuts: every one, or for a release
      those not sent yet. */
  function CutHere(queue: seq<Req>, q: Q.Queue, at: seq<nat>, req: Request): set<nat>
    requires |at| == |queue| && forall i | 0 <= i < |at| :: at[i] < |q.jobs|
  {
    set i | 0 <= i < |queue| && queue[i].Create? && CutsJob(q.jobs[at[i]], req) :: queue[i].flow
  }

  lemma OnlyItsOwnCreate(s: State, q: Q.Queue, at: seq<nat>, req: Request, i: nat)
    requires Inv(s) && Mirrors(s.flows, s.queue, q, at) && i < |s.queue| && s.queue[i].Create?
    ensures forall i | 0 <= i < |at| :: at[i] < |q.jobs|
    ensures s.queue[i].flow in CutHere(s.queue, q, at, req) <==> CutsJob(q.jobs[at[i]], req)
  {
    forall i | 0 <= i < |at| ensures at[i] < |q.jobs| { assert Place(s.flows, s.queue[i], q.jobs, at[i]); }
    var t := s.queue[i].flow;
    assert forall j | 0 <= j < |s.queue| && j != i && s.queue[j].Create? :: s.queue[j].flow != t by {
      forall j | 0 <= j < |s.queue| && j != i && s.queue[j].Create? ensures s.queue[j].flow != t {
        assert Owner(s.queue[i]) == Some(t) && Owner(s.queue[j]) == Some(s.queue[j].flow);
      }
    }
  }

  /** Any request but a create, queued by anybody on this session, cuts there exactly the
      creates that it cuts here. */
  lemma OtherRequestMirrors(s: State, q: Q.Queue, at: seq<nat>, req: Request)
    requires Inv(s) && Reached(q) && !q.closed && Mirrors(s.flows, s.queue, q, at) && !IsGroupCreate(req)
    ensures forall i | 0 <= i < |at| :: at[i] < |q.jobs|
    ensures
      var a := OtherCut(CutHere(s.queue, q, at, req));
      Mirrors(Next(s, a).flows, Next(s, a).queue, Queued(q, req), at)
  {
    forall i | 0 <= i < |at| ensures at[i] < |q.jobs| { assert Place(s.flows, s.queue[i], q.jobs, at[i]); }
    var a := OtherCut(CutHere(s.queue, q, at, req));
    var after := Next(s, a).flows;
    assert Next(s, a).queue == s.queue;
    forall i | 0 <= i < |s.queue| && s.queue[i].Create?
      ensures s.queue[i].flow < |s.flows| && s.queue[i].flow < |after|
      ensures after[s.queue[i].flow].cut <==> s.flows[s.queue[i].flow].cut || CutsJob(q.jobs[at[i]], req)
    {
      WaitingCuts(s, a, i);
      OnlyItsOwnCreate(s, q, at, req, i);
    }
    QueuedReached(q, req);
    OneBeside(s.flows, after, s.queue, q, Queued(q, req), at, req);
  }

  /** A turn of the queue: a job starts, sends, waits, returns or settles, or time passes. */
  predicate IsTurn(b: Q.Action) {
    !b.Call? && !b.Disconnect?
  }

  /** The job whose turn it is. */
  function TurnOf(b: Q.Action): Option<nat> {
    match b
    case Begin(k) => Some(k)
    case Wake(k) => Some(k)
    case Send(k) => Some(k)
    case ResendWait(k) => Some(k)
    case Resend(k) => Some(k)
    case ResendTooLate(k) => Some(k)
    case Return(k) => Some(k)
    case Settle(k) => Some(k)
    case _ => None
  }

  lemma TurnJobs(q: Q.Queue, b: Q.Action, k: nat)
    requires Q.Enabled(q, b) && IsTurn(b) && k < |q.jobs|
    ensures
      var q' := Q.Next(q, b);
      && |q'.jobs| == |q.jobs| && (TurnOf(b) != Some(k) ==> q'.jobs[k] == q.jobs[k])
      && q'.jobs[k].req == q.jobs[k].req && q'.jobs[k].aborted == q.jobs[k].aborted
      && (Unanswered(q'.jobs[k]) ==> Unanswered(q.jobs[k]))
  {
  }

  /** Every job before it has settled. */
  lemma TurnIsFirst(q: Q.Queue, b: Q.Action, k: nat, j: nat)
    requires Q.OneAtATime(q) && Q.Enabled(q, b) && TurnOf(b) == Some(k) && j < k
    ensures k < |q.jobs| && q.jobs[j].phase.Settled?
  {
    if b.Begin? && j < k - 1 { assert !q.jobs[k - 1].phase.Waiting?; }
  }

  lemma TurnKeeps(flows: seq<Flow>, queue: seq<Req>, q: Q.Queue, at: seq<nat>, b: Q.Action)
    requires Reached(q) && Mirrors(flows, queue, q, at) && Q.Enabled(q, b) && IsTurn(b)
    requires forall i | 0 <= i < |at| :: at[i] < |q.jobs| && at[i] < |Q.Next(q, b).jobs| && Unanswered(Q.Next(q, b).jobs[at[i]])
    ensures Mirrors(flows, queue, Q.Next(q, b), at)
  {
    var q' := Q.Next(q, b);
    forall k: nat | k < |q.jobs|
      ensures k < |q'.jobs| && q'.jobs[k].req == q.jobs[k].req && q'.jobs[k].aborted == q.jobs[k].aborted
      ensures Unanswered(q'.jobs[k]) ==> Unanswered(q.jobs[k])
    {
      TurnJobs(q, b, k);
    }
    forall i | 0 <= i < |at| ensures Place(flows, queue[i], q'.jobs, at[i]) {
      assert Place(flows, queue[i], q.jobs, at[i]);
    }
  }

  /** Every request of the accounting that waits has its job unanswered. */
  lemma PlacesHold(flows: seq<Flow>, queue: seq<Req>, q: Q.Queue, at: seq<nat>)
    requires Mirrors(flows, queue, q, at)
    ensures forall i | 0 <= i < |at| :: at[i] < |q.jobs| && Unanswered(q.jobs[at[i]])
  {
    forall i | 0 <= i < |at| ensures at[i] < |q.jobs| && Unanswered(q.jobs[at[i]]) {
      assert Place(flows, queue[i], q.jobs, at[i]);
    }
  }

  /** Answers leave every cut as it is. */
  lemma ReplyCuts(s: State, ans: Answer, t: nat)
    requires Inv(s) && Enabled(s, Reply(ans)) && t < |s.flows|
    ensures t < |Next(s, Reply(ans)).flows| && Next(s, Reply(ans)).flows[t].cut == s.flows[t].cut
  {
    if s.queue[0].Delete? { DeletedFlow(s, t); }
    SameButCut(s, Reply(ans), t);
  }

  lemma FirstReturns(s: State, q: Q.Queue, at: seq<nat>, b: Q.Action, ans: Answer)
    requires Inv(s) && Reached(q) && Mirrors(s.flows, s.queue, q, at) && Q.Enabled(q, b) && IsTurn(b)
    requires Enabled(s, Reply(ans))
    requires at != [] && TurnOf(b) == Some(at[0]) && at[0] < |Q.Next(q, b).jobs| && !Unanswered(Q.Next(q, b).jobs[at[0]])
    ensures Mirrors(Next(s, Reply(ans)).flows, s.queue[1..], Q.Next(q, b), at[1..])
  {
    var q', after := Q.Next(q, b), Next(s, Reply(ans)).flows;
    PlacesHold(s.flows, s.queue, q, at);
    forall k: nat | k < |q.jobs|
      ensures k < |q'.jobs| && q'.jobs[k].req == q.jobs[k].req
      ensures k != at[0] ==> q'.jobs[k] == q.jobs[k]
    {
      TurnJobs(q, b, k);
    }
    TurnJobs(q, b, at[0]);
    forall i | 0 <= i < |at[1..]| ensures Place(after, s.queue[1..][i], q'.jobs, at[1..][i]) {
      assert Place(s.flows, s.queue[i + 1], q.jobs, at[i + 1]);
      if s.queue[i + 1].Create? { ReplyCuts(s, ans, s.queue[i + 1].flow); }
    }
    forall k | 0 <= k < |q'.jobs| && Unanswered(q'.jobs[k]) && IsGroupCreate(q'.jobs[k].req) ensures k in at[1..] {
      assert k in at && k != at[0];
    }
  }

  /** The turn answers the oldest request of the accounting. */
  predicate Answering(q: Q.Queue, at: seq<nat>, b: Q.Action)
    requires Q.Enabled(q, b)
  {
    at != [] && at[0] < |Q.Next(q, b).jobs| && !Unanswered(Q.Next(q, b).jobs[at[0]])
  }

  lemma OnlyFirstReturns(flows: seq<Flow>, queue: seq<Req>, q: Q.Queue, at: seq<nat>, b: Q.Action, i: nat)
    requires Reached(q) && Mirrors(flows, queue, q, at) && Q.Enabled(q, b) && IsTurn(b) && i < |at|
    ensures at[i] < |Q.Next(q, b).jobs|
    ensures !Unanswered(Q.Next(q, b).jobs[at[i]]) ==> i == 0 && TurnOf(b) == Some(at[0])
  {
    PlacesHold(flows, queue, q, at);
    TurnJobs(q, b, at[i]);
    if i > 0 && TurnOf(b) == Some(at[i]) {
      ReachedIsSound(q);
      TurnIsFirst(q, b, at[i], at[0]);
    }
  }

  lemma ReplyPops(s: State, ans: Answer)
    requires Enabled(s, Reply(ans))
    ensures Next(s, Reply(ans)).queue == s.queue[1..]
  {
  }

  lemma TurnAnswers(s: State, q: Q.Queue, at: seq<nat>, b: Q.Action, ans: Answer)
    requires Inv(s) && Reached(q) && Mirrors(s.flows, s.queue, q, at) && Q.Enabled(q, b) && IsTurn(b)
    requires Answering(q, at, b) && Enabled(s, Reply(ans))
    ensures Mirrors(Next(s, Reply(ans)).flows, Next(s, Reply(ans)).queue, Q.Next(q, b), at[1..])
  {
    OnlyFirstReturns(s.flows, s.queue, q, at, b, 0);
    FirstReturns(s, q, at, b, ans);
    ReplyPops(s, ans);
  }

  /** A turn of the session's queue answers the oldest request of the accounting or none,
      and the two stay alike: so the requests are answered in the order they were queued
      here, and a create cut there is one that here can only go unanswered. */
  lemma TurnMirrors(s: State, q: Q.Queue, at: seq<nat>, b: Q.Action)
    requires Inv(s) && Reached(q) && Mirrors(s.flows, s.queue, q, at) && Q.Enabled(q, b) && IsTurn(b)
    ensures
      if Answering(q, at, b)
      then s.queue != [] && forall ans | Enabled(s, Reply(ans)) ::
             Mirrors(Next(s, Reply(ans)).flows, Next(s, Reply(ans)).queue, Q.Next(q, b), at[1..])
      else Mirrors(s.flows, s.queue, Q.Next(q, b), at)
  {
    if Answering(q, at, b) {
      forall ans | Enabled(s, Reply(ans))
        ensures Mirrors(Next(s, Reply(ans)).flows, Next(s, Reply(ans)).queue, Q.Next(q, b), at[1..])
      {
        TurnAnswers(s, q, at, b, ans);
      }
    } else {
      forall i | 0 <= i < |at| ensures at[i] < |q.jobs| && at[i] < |Q.Next(q, b).jobs| && Unanswered(Q.Next(q, b).jobs[at[i]]) {
        PlacesHold(s.flows, s.queue, q, at);
        OnlyFirstReturns(s.flows, s.queue, q, at, b, i);
      }
      TurnKeeps(s.flows, s.queue, q, at, b);
    }
  }

  // ─── Both over whole runs ─────────────────────────────────────────────────

  /** The accounting, the session's queue, and the places of the requests in it. */
  datatype Pair = Pair(s: State, q: Q.Queue, at: seq<nat>)

  datatype Move =
    | Does(a: Action, reqs: seq<Request>)
    | Beside(req: Request)
    | Turn(b: Q.Action, answer: Answer)

  predicate CanMove(x: Pair, m: Move) {
    match m
    case Does(a, reqs) =>
      Enabled(x.s, a) && !a.Reply? && !a.OtherCut? && !x.q.closed && StandFor(Asks(x.s, a), reqs)
    case Beside(req) =>
      && !x.q.closed && !IsGroupCreate(req)
      && |x.at| == |x.s.queue| && forall i | 0 <= i < |x.at| :: x.at[i] < |x.q.jobs|
    case Turn(b, ans) =>
      Q.Enabled(x.q, b) && IsTurn(b) && (Answering(x.q, x.at, b) ==> Enabled(x.s, Reply(ans)))
  }

  function Moved(x: Pair, m: Move): Pair
    requires CanMove(x, m)
  {
    match m
    case Does(a, reqs) => Pair(Next(x.s, a), AllQueued(x.q, reqs), x.at + Places(|x.q.jobs|, |reqs|))
    case Beside(req) =>
      Pair(Next(x.s, OtherCut(CutHere(x.s.queue, x.q, x.at, req))), Queued(x.q, req), x.at)
    case Turn(b, ans) =>
      if Answering(x.q, x.at, b) then Pair(Next(x.s, Reply(ans)), Q.Next(x.q, b), x.at[1..])
      else x.(q := Q.Next(x.q, b))
  }

  predicate CanMoveAll(x: Pair, moves: seq<Move>)
    decreases |moves|
  {
    moves == [] || (CanMove(x, moves[0]) && CanMoveAll(Moved(x, moves[0]), moves[1..]))
  }

  function MovedAll(x: Pair, moves: seq<Move>): Pair
    requires CanMoveAll(x, moves)
    decreases |moves|
  {
    if moves == [] then x else MovedAll(Moved(x, moves[0]), moves[1..])
  }

  ghost predicate Alike(x: Pair) {
    Inv(x.s) && Reached(x.q) && Mirrors(x.s.flows, x.s.queue, x.q, x.at)
  }

  lemma {:induction false} AllQueuedReached(q: Q.Queue, reqs: seq<Request>)
    requires Reached(q) && !q.closed
    ensures Reached(AllQueued(q, reqs))
    decreases |reqs|
  {
    if reqs != [] {
      QueuedReached(q, reqs[0]);
      AllQueuedReached(Queued(q, reqs[0]), reqs[1..]);
    }
  }

  lemma DoesAlike(x: Pair, a: Action, reqs: seq<Request>)
    requires Alike(x) && CanMove(x, Does(a, reqs))
    ensures Alike(Moved(x, Does(a, reqs)))
  {
    InvStep(x.s, a);
    AllQueuedReached(x.q, reqs);
    StepMirrors(x.s, a, x.q, x.at, reqs);
  }

  lemma BesideAlike(x: Pair, req: Request)
    requires Alike(x) && CanMove(x, Beside(req))
    ensures Alike(Moved(x, Beside(req)))
  {
    InvStep(x.s, OtherCut(CutHere(x.s.queue, x.q, x.at, req)));
    QueuedReached(x.q, req);
    OtherRequestMirrors(x.s, x.q, x.at, req);
  }

  lemma TurnAlike(x: Pair, b: Q.Action, ans: Answer)
    requires Alike(x) && CanMove(x, Turn(b, ans))
    ensures Alike(Moved(x, Turn(b, ans)))
  {
    StillReached(x.q, b);
    TurnMirrors(x.s, x.q, x.at, b);
    if Answering(x.q, x.at, b) { InvStep(x.s, Reply(ans)); }
  }

  lemma {:induction false} StaysAlike(x: Pair, moves: seq<Move>)
    requires Alike(x) && CanMoveAll(x, moves)
    ensures Alike(MovedAll(x, moves))
    decreases |moves|
  {
    if moves != [] {
      match moves[0] {
        case Does(a, reqs) => DoesAlike(x, a, reqs);
        case Beside(req) => BesideAlike(x, req);
        case Turn(b, ans) => TurnAlike(x, b, ans);
      }
      StaysAlike(Moved(x, moves[0]), moves[1..]);
    }
  }

  lemma StartsAlike(s0: State, q0: Q.Queue)
    requires Initial(s0) && Q.Initial(q0)
    ensures Alike(Pair(s0, q0, []))
  {
    assert Q.Possible(q0, []) && Q.After(q0, []) == q0;
  }

  /** Run together from a new session, the two stay alike: each request of the accounting
      that waits is a job that has not returned, in the same order, and a create that
      waits is cut here exactly if its job is aborted there. */
  lemma RunTogether(s0: State, q0: Q.Queue, moves: seq<Move>)
    requires Initial(s0) && Q.Initial(q0) && CanMoveAll(Pair(s0, q0, []), moves)
    ensures
      var x := MovedAll(Pair(s0, q0, []), moves);
      Mirrors(x.s.flows, x.s.queue, x.q, x.at)
  {
    StartsAlike(s0, q0);
    StaysAlike(Pair(s0, q0, []), moves);
  }
}
