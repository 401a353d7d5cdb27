/** What the request queue guarantees over every interleaving of requests, answers,
    disconnects and connects (src/HttpSession.ts, src/RwsClient.ts). */
module QueueRuns {
  import opened Requests
  import opened RequestForms
  import opened RequestQueue

  lemma Reached(q0: Queue, run: seq<Action>)
    requires Initial(q0) && Possible(q0, run)
    ensures Inv(After(q0, run)) && KindsHonest(After(q0, run))
  {
    EveryRun(q0, run);
    KindsStayHonest(q0, run);
  }

  /** What the queue keeps of a request is what is written in it: whether it is a group
      create, what it cuts, and whether it may be sent again. */
  lemma KindsAreWritten(q0: Queue, run: seq<Action>, i: nat)
    requires Initial(q0) && Possible(q0, run) && i < |After(q0, run).jobs|
    ensures
      var j := After(q0, run).jobs[i];
      && (j.kind.create <==> Creates(j.req))
      && (j.kind.cuts == CutsSent <==> Written(j.req, true))
      && (j.kind.cuts == CutsQueued <==> Written(j.req, false))
      && (j.kind.resendable <==> Repeatable(j.req))
  {
    Reached(q0, run);
    CutsExactly(After(q0, run).jobs[i].req);
    MayResendExactly(After(q0, run).jobs[i].req);
  }

  /** Once a stop, motors off, group delete or /logout is queued no create queued before it
      is live; once a release or RMMP cancel is, none is still unsent. */
  lemma ReducerLeavesNoCreate(q0: Queue, run: seq<Action>, i: nat, r: nat)
    requires Initial(q0) && Possible(q0, run) && i < r < |After(q0, run).jobs|
    requires Creates(After(q0, run).jobs[i].req)
    ensures
      var q := After(q0, run);
      && (Written(q.jobs[r].req, true) ==> q.jobs[i].aborted || q.jobs[i].phase.Settled?)
      && (Written(q.jobs[r].req, false) ==>
            q.jobs[i].aborted || q.jobs[i].phase.Settled? || q.jobs[i].started)
  {
    Reached(q0, run);
    CutsExactly(After(q0, run).jobs[r].req);
  }

  /** The last job is this request, accepted in this epoch and not begun. */
  predicate IsLast(q: Queue, r: Request, epoch: nat) {
    q.jobs != [] &&
    var j := q.jobs[|q.jobs| - 1];
    j.req == r && j.phase.Waiting? && !j.started && !j.aborted && j.epoch == epoch
  }

  /** Queueing this request cuts job i: a create that has not settled, and was not sent if
      the request is a release or RMMP cancel. */
  ghost predicate CutBy(j: Job, r: Request) {
    Creates(j.req) && !j.phase.Settled? && (Written(r, true) || (Written(r, false) && !j.started))
  }

  /** The creates cut are logged, if there are any. */
  ghost predicate LogsCuts(q: Queue, q': Queue, r: Request) {
    var cut := set i | 0 <= i < |q.jobs| && !q.jobs[i].aborted && CutBy(q.jobs[i], r);
    q'.log == if cut == {} then q.log else q.log + [CutShort(cut, |q.jobs|)]
  }

  lemma EnqueueCuts(q: Queue, r: Request, logout: bool)
    requires CuttableExact(q) && KindsHonest(q) && !q.closed
    ensures
      var q' := Enqueue(q, r, KindOf(r), logout);
      && IsLast(q', r, q.epoch) && |q'.jobs| == |q.jobs| + 1
      && q'.jobs[|q.jobs|].logout == logout && q'.closes == q.closes
      && forall i | 0 <= i < |q.jobs| ::
           q'.jobs[i] == q.jobs[i].(aborted := q.jobs[i].aborted || CutBy(q.jobs[i], r))
  {
    CutsExactly(r);
    forall i | 0 <= i < |q.jobs|
      ensures i in Victims(q.cuttable, CutsOf(r)) <==> !q.jobs[i].aborted && CutBy(q.jobs[i], r)
    {
      assert q.jobs[i].kind == KindOf(q.jobs[i].req);
    }
  }

  lemma EnqueueLogs(q: Queue, r: Request, logout: bool)
    requires CuttableExact(q) && KindsHonest(q) && !q.closed
    ensures LogsCuts(q, Enqueue(q, r, KindOf(r), logout), r)
  {
    CutsExactly(r);
    forall i | 0 <= i < |q.jobs|
      ensures i in Victims(q.cuttable, CutsOf(r)) <==> !q.jobs[i].aborted && CutBy(q.jobs[i], r)
    {
      assert q.jobs[i].kind == KindOf(q.jobs[i].req);
    }
    var cut := set i | 0 <= i < |q.jobs| && !q.jobs[i].aborted && CutBy(q.jobs[i], r);
    assert Victims(q.cuttable, CutsOf(r)) == cut;
  }

  /** A request made on an open session waits at the end of the queue, and of the jobs
      before it exactly those are cut that it cuts; on a closed session it is refused
      and changes nothing. A reopened session accepts it, whatever happened before. */
  lemma RequestsAreQueued(q0: Queue, run: seq<Action>, r: Request)
    requires Initial(q0) && Possible(q0, run)
    ensures
      var q := After(q0, run);
      var q' := Next(q, Call(r));
      if q.closed then q' == q
      else
        && IsLast(q', r, q.epoch) && |q'.jobs| == |q.jobs| + 1 && LogsCuts(q, q', r)
        && forall i | 0 <= i < |q.jobs| ::
             q'.jobs[i] == q.jobs[i].(aborted := q.jobs[i].aborted || CutBy(q.jobs[i], r))
    ensures
      var q := Next(After(q0, run), Reopen);
      var q' := Next(q, Call(r));
      && q.jobs == After(q0, run).jobs && q.epoch == After(q0, run).epoch + 1
      && IsLast(q', r, q.epoch) && |q'.jobs| == |q.jobs| + 1
  {
    Reached(q0, run);
    var q := After(q0, run);
    if !q.closed {
      EnqueueCuts(q, r, false);
      EnqueueLogs(q, r, false);
    }
    EnqueueCuts(Next(q, Reopen), r, false);
  }

  lemma LogoutQueued(q: Queue)
    requires CuttableExact(q) && KindsHonest(q)
    ensures
      var q' := Next(q, Disconnect);
      if q.closed then q' == q
      else
        && q'.closed && |q'.jobs| == |q.jobs| + 1
        && IsLast(q', Request(GET, "/logout", NoBody, 0), q.epoch) && q'.jobs[|q.jobs|].logout
        && |q'.closes| == |q.closes| + 1
  {
    if !q.closed { EnqueueCuts(q, LogoutRequest, true); }
  }

  /** A close waits for what was accepted before it, and then its callback runs, once. */
  lemma CallbackFollowsTheQueue(q0: Queue, run: seq<Action>, k: nat)
    requires Initial(q0) && Possible(q0, run)
    ensures
      var q := After(q0, run);
      var q' := Next(q, Close);
      && q'.closed && |q'.closes| == |q.closes| + 1 && !q'.closes[|q.closes|].fired && q'.closes[|q.closes|].tail == |q.jobs|
      && q'.jobs == q.jobs
    ensures
      var q := After(q0, run);
      k < |q.closes| ==>
        && q.closes[k].tail <= |q.jobs|
        && (Enabled(q, CloseDone(k)) <==>
              !q.closes[k].fired && forall i | 0 <= i < q.closes[k].tail :: q.jobs[i].phase.Settled?)
        && (Enabled(q, CloseDone(k)) ==> Next(q, CloseDone(k)).closes[k].fired)
  {
    Reached(q0, run);
    if k < |After(q0, run).closes| { CallbackOf(After(q0, run), k); }
  }

  lemma CallbackOf(q: Queue, k: nat)
    requires OneAtATime(q) && ClosesCounted(q) && k < |q.closes|
    ensures q.closes[k].tail <= |q.jobs|
    ensures Enabled(q, CloseDone(k)) <==>
            !q.closes[k].fired && forall i | 0 <= i < q.closes[k].tail :: q.jobs[i].phase.Settled?
    ensures Enabled(q, CloseDone(k)) ==> Next(q, CloseDone(k)).closes[k].fired
  {
  }

  /** The disconnect of an open session queues one GET /logout and closes it; that of a
      closed one does nothing. */
  lemma DisconnectLogsOut(q0: Queue, run: seq<Action>)
    requires Initial(q0) && Possible(q0, run)
    ensures
      var q := After(q0, run);
      var q' := Next(q, Disconnect);
      if q.closed then q' == q
      else
        && q'.closed && |q'.jobs| == |q.jobs| + 1
        && IsLast(q', Request(GET, "/logout", NoBody, 0), q.epoch) && q'.jobs[|q.jobs|].logout
        && |q'.closes| == |q.closes| + 1
  {
    Reached(q0, run);
    LogoutQueued(After(q0, run));
  }

  /** A cut create starts and sends nothing afterwards, whatever it was waiting for; only
      creates are cut, each by a later reducing request. That a cut ends the retries
      inside a call is AuthCuts.CutEndsTheCall. */
  lemma CutCreatesStaySilent(q0: Queue, run: seq<Action>, p: nat, i: nat)
    requires Initial(q0) && Possible(q0, run)
    requires p < |After(q0, run).log| && After(q0, run).log[p].CutShort?
    requires i in After(q0, run).log[p].creates
    ensures
      var q := After(q0, run);
      var r := q.log[p].reducer;
      && i < r < |q.jobs|
      && Creates(q.jobs[i].req)
      && (Written(q.jobs[r].req, true) || Written(q.jobs[r].req, false))
      && forall s | p < s < |q.log| :: SenderOf(q.log[s]) != i
  {
    Reached(q0, run);
    CutsExactly(After(q0, run).jobs[After(q0, run).log[p].reducer].req);
  }

  /** `cuttable` holds exactly the creates that are accepted, unsettled and uncut,
      each with whether it was sent. */
  lemma CuttableIsExact(q0: Queue, run: seq<Action>, i: nat)
    requires Initial(q0) && Possible(q0, run)
    ensures
      var q := After(q0, run);
      && (i in q.cuttable <==>
            i < |q.jobs| && Creates(q.jobs[i].req) && !q.jobs[i].phase.Settled? && !q.jobs[i].aborted)
      && (i in q.cuttable ==> q.cuttable[i] == q.jobs[i].started)
  {
    Reached(q0, run);
  }

  /** Any two queue starts or dead-socket resends are at least the interval apart, and
      they follow the order of the jobs. */
  lemma StartsArePaced(q0: Queue, run: seq<Action>, p: nat, s: nat)
    requires Initial(q0) && Possible(q0, run)
    requires p < s < |After(q0, run).log|
    requires PacedEvent(After(q0, run).log[p]) && PacedEvent(After(q0, run).log[s])
    ensures
      var log := After(q0, run).log;
      && log[s].at >= log[p].at + q0.interval
      && log[p].job <= log[s].job
      && (log[s].Started? ==> log[p].job < log[s].job)
  {
    Reached(q0, run);
    IntervalFixed(q0, run);
    var log := After(q0, run).log;
    assert SenderOf(log[p]) == log[p].job && SenderOf(log[s]) == log[s].job;
  }

  lemma {:induction false} IntervalFixed(q: Queue, run: seq<Action>)
    requires Possible(q, run)
    ensures After(q, run).interval == q.interval
    decreases |run|
  {
    if run != [] { IntervalFixed(Next(q, run[0]), run[1..]); }
  }

  /** Requests run one at a time in the order they were accepted, and the promises
      settle 0, 1, 2, ...: each once, nothing sent for it afterwards, and none
      settles unless it was started or cut. */
  lemma RunsInOrderSettlesOnce(q0: Queue, run: seq<Action>)
    requires Initial(q0) && Possible(q0, run)
    ensures
      var q := After(q0, run);
      var done := DoneJobs(q.log);
      && (forall i, j | 0 <= i < j < |q.jobs| && !q.jobs[j].phase.Waiting? :: q.jobs[i].phase.Settled?)
      && |done| <= |q.jobs|
      && (forall n | 0 <= n < |done| :: done[n] == n)
      && (forall i | 0 <= i < |q.jobs| :: q.jobs[i].phase.Settled? <==> i < |done|)
      && (forall i | 0 <= i < |done| :: q.jobs[i].started || q.jobs[i].aborted)
      && (forall p, s | 0 <= p < s < |q.log| && q.log[p].Done? :: SenderOf(q.log[s]) != q.log[p].job)
  {
    Reached(q0, run);
  }

  /** Between two reopens a disconnect queues at most one /logout, and every
      request that starts after it belongs to a later epoch. */
  lemma NothingFollowsLogout(q0: Queue, run: seq<Action>, i: nat, j: nat)
    requires Initial(q0) && Possible(q0, run)
    requires i < |After(q0, run).jobs| && j < |After(q0, run).jobs| && i != j
    requires After(q0, run).jobs[i].logout
    ensures
      var q := After(q0, run);
      && (q.jobs[j].logout ==> q.jobs[j].epoch != q.jobs[i].epoch)
      && (forall p, s | 0 <= p < s < |q.log| && SenderOf(q.log[p]) == i && SenderOf(q.log[s]) == j ::
            q.jobs[j].epoch > q.jobs[i].epoch)
      && (q.jobs[i].epoch == q.epoch ==> q.closed)
  {
    Reached(q0, run);
  }

  lemma DestroyedAtRest(q: Queue, k: nat)
    requires OneAtATime(q) && ClosesCounted(q) && Enabled(q, CloseDone(k))
    requires q.closed && k == |q.closes| - 1
    ensures forall i | 0 <= i < |q.jobs| :: q.jobs[i].phase.Settled?
  {
    assert ChainSettled(q, |q.jobs|);
  }

  /** A close's callback destroys the agent exactly when the session is still
      closed by that very close, and then every accepted request has settled. */
  lemma AgentDestroyedAtRest(q0: Queue, run: seq<Action>, k: nat)
    requires Initial(q0) && Possible(q0, run) && Enabled(After(q0, run), CloseDone(k))
    ensures
      var q := After(q0, run);
      var destroys := Next(q, CloseDone(k)).closes[k].destroyed;
      && (destroys <==> q.closed && k == |q.closes| - 1)
      && (destroys ==> forall i | 0 <= i < |q.jobs| :: q.jobs[i].phase.Settled?)
  {
    Reached(q0, run);
    var q := After(q0, run);
    assert ClosesCounted(q);
    if q.closed && k == |q.closes| - 1 { DestroyedAtRest(q, k); }
  }

  // ─── Nothing gets stuck ───────────────────────────────────────────────────

  /** The first unsettled job. */
  function Head(q: Queue): nat {
    |DoneJobs(q.log)|
  }

  /** Everything before job h has settled, and h has not. */
  predicate MayMove(q: Queue, h: nat) {
    h < |q.jobs| && !q.jobs[h].phase.Settled? && ChainSettled(q, h)
  }

  /** The step that brings the head job closer to settling. */
  function MoveAt(q: Queue, h: nat): (a: Action)
    requires MayMove(q, h)
    ensures Enabled(q, a) && !a.Call? && !a.Disconnect?
  {
    match q.jobs[h].phase
    case Waiting => Begin(h)
    case Pausing(wake) => if wake <= q.now || q.jobs[h].aborted then Wake(h) else Tick(wake - q.now)
    case Running => Return(h)
    case Resending(wake) => if wake <= q.now then Resend(h) else Tick(wake - q.now)
    case Returned => Settle(h)
  }

  lemma HeadMayMove(q: Queue)
    requires SettledOnce(q) && Head(q) < |q.jobs|
    ensures MayMove(q, Head(q))
  {
  }

  function Move(q: Queue): Action
    requires Inv(q) && Head(q) < |q.jobs|
  {
    HeadMayMove(q);
    MoveAt(q, Head(q))
  }

  function Rank(q: Queue, j: Job): nat {
    match j.phase
    case Waiting => 9
    case Pausing(wake) => if wake <= q.now || j.aborted then 6 else 8
    case Running => 2
    case Resending(wake) => if wake <= q.now then 3 else 4
    case Returned => 1
    case Settled => 0
  }

  function Work(q: Queue): nat
    requires Inv(q)
  {
    if Head(q) == |q.jobs| then 0
    else Rank(q, q.jobs[Head(q)]) + 10 * (|q.jobs| - Head(q) - 1)
  }

  /** A step of job h leaves the other jobs alone. */
  predicate OnlyJob(q: Queue, q': Queue, h: nat)
    requires h < |q.jobs|
  {
    && |q'.jobs| == |q.jobs|
    && (forall i | 0 <= i < |q.jobs| && i != h :: q'.jobs[i] == q.jobs[i])
    && q'.jobs[h].aborted == q.jobs[h].aborted
  }

  lemma ResumeShape(q: Queue, h: nat)
    requires h < |q.jobs|
    ensures OnlyJob(q, Resume(q, h), h)
  {
  }

  lemma PhaseShape(q: Queue, h: nat, p: Phase)
    requires h < |q.jobs|
    ensures OnlyJob(q, SetPhase(q, h, p), h)
  {
  }

  lemma MoveShape(q: Queue, h: nat)
    requires MayMove(q, h)
    ensures OnlyJob(q, Next(q, MoveAt(q, h)), h)
  {
    match q.jobs[h].phase {
      case Waiting =>
        ResumeShape(q, h);
        PhaseShape(q, h, Pausing(q.now + (q.interval - (q.now - q.last))));
      case Pausing(_) => ResumeShape(q, h);
      case Running => PhaseShape(q, h, Returned);
      case Resending(_) => PhaseShape(q, h, Running);
      case Returned => PhaseShape(q, h, Settled);
    }
  }

  lemma MoveHead(q: Queue, h: nat)
    requires MayMove(q, h)
    ensures Head(Next(q, MoveAt(q, h))) == if MoveAt(q, h).Settle? then Head(q) + 1 else Head(q)
  {
    var q' := Next(q, MoveAt(q, h));
    if q'.log != q.log {
      assert q'.log[..|q.log|] == q.log;
      assert q'.log == q.log + [q'.log[|q.log|]];
    }
  }

  lemma MoveRank(q: Queue, h: nat)
    requires MayMove(q, h) && !MoveAt(q, h).Settle?
    ensures
      var q' := Next(q, MoveAt(q, h));
      |q'.jobs| == |q.jobs| && Rank(q', q'.jobs[h]) < Rank(q, q.jobs[h])
  {
  }

  lemma MoveWorks(q: Queue)
    requires Inv(q) && Head(q) < |q.jobs|
    ensures Enabled(q, Move(q)) && Inv(Next(q, Move(q)))
    ensures Work(Next(q, Move(q))) < Work(q)
    ensures Head(q) <= Head(Next(q, Move(q)))
    ensures |Next(q, Move(q)).jobs| == |q.jobs|
  {
    HeadMayMove(q);
    Kept(q, Move(q));
    MoveHead(q, Head(q));
    MoveShape(q, Head(q));
    if !Move(q).Settle? { MoveRank(q, Head(q)); }
  }

  /** The moves that settle the first `n` jobs. */
  function PlanTo(q: Queue, n: nat): seq<Action>
    requires Inv(q) && n <= |q.jobs|
    decreases Work(q)
  {
    if Head(q) >= n then []
    else
      MoveWorks(q);
      [Move(q)] + PlanTo(Next(q, Move(q)), n)
  }

  lemma {:induction false} PlanSettles(q: Queue, n: nat)
    requires Inv(q) && n <= |q.jobs|
    ensures Possible(q, PlanTo(q, n))
    ensures
      var q' := After(q, PlanTo(q, n));
      Inv(q') && |q'.jobs| == |q.jobs| && forall i | 0 <= i < n :: q'.jobs[i].phase.Settled?
    decreases Work(q)
  {
    if Head(q) < n {
      MoveWorks(q);
      var rest := PlanTo(Next(q, Move(q)), n);
      assert PlanTo(q, n)[0] == Move(q) && PlanTo(q, n)[1..] == rest;
      PlanSettles(Next(q, Move(q)), n);
    }
  }

  /** From every reachable state the accepted requests can all be driven to
      settle, and each uncut one then has run: no job is ever stuck or skipped. */
  lemma EveryAcceptedRequestRuns(q0: Queue, run: seq<Action>)
    requires Initial(q0) && Possible(q0, run)
    ensures Inv(After(q0, run))
    ensures
      var q := After(q0, run);
      var plan := PlanTo(q, |q.jobs|);
      && Possible(q, plan)
      && |After(q, plan).jobs| == |q.jobs|
      && forall i | 0 <= i < |q.jobs| ::
           var j := After(q, plan).jobs[i];
           j.phase.Settled? && (j.aborted || j.started)
  {
    Reached(q0, run);
    PlanSettles(After(q0, run), |After(q0, run).jobs|);
  }

  /** No time passes and nothing is sent in a plan that only clears cut creates. */
  predicate Silent(run: seq<Action>) {
    forall a | a in run :: a.Begin? || a.Wake? || a.Return? || a.Settle?
  }

  lemma SilentMove(q: Queue)
    requires Inv(q) && Head(q) < |q.jobs| && q.jobs[Head(q)].aborted && Enabled(q, Move(q))
    ensures Silent([Move(q)])
    ensures Next(q, Move(q)).now == q.now && Next(q, Move(q)).last == q.last
  {
    assert !q.jobs[Head(q)].phase.Resending?;
  }

  lemma SilentStep(q: Queue)
    requires Inv(q) && Head(q) < |q.jobs| && q.jobs[Head(q)].aborted
    ensures Enabled(q, Move(q)) && Silent([Move(q)])
    ensures
      var q' := Next(q, Move(q));
      && Inv(q') && Work(q') < Work(q) && Head(q) <= Head(q')
      && q'.now == q.now && q'.last == q.last && |q'.jobs| == |q.jobs|
      && forall i | 0 <= i < |q.jobs| :: q'.jobs[i].aborted == q.jobs[i].aborted && (i != Head(q) ==> q'.jobs[i] == q.jobs[i])
  {
    MoveWorks(q);
    MoveShape(q, Head(q));
    SilentMove(q);
  }

  lemma {:induction false} PlanIsSilent(q: Queue, n: nat)
    requires Inv(q) && n <= |q.jobs|
    requires forall i | Head(q) <= i < n :: q.jobs[i].aborted
    ensures Silent(PlanTo(q, n)) && Possible(q, PlanTo(q, n))
    ensures
      var q' := After(q, PlanTo(q, n));
      && q'.now == q.now && q'.last == q.last
      && forall i | n <= i < |q.jobs| && i < |q'.jobs| :: q'.jobs[i] == q.jobs[i]
    decreases Work(q)
  {
    if Head(q) < n {
      SilentStep(q);
      var q1 := Next(q, Move(q));
      var rest := PlanTo(q1, n);
      assert PlanTo(q, n)[0] == Move(q) && PlanTo(q, n)[1..] == rest;
      PlanIsSilent(q1, n);
    }
  }

  /** A stop, motors off, group delete or /logout waits only for requests that
      are not creates: once those before it have settled, its turn can come with
      no time passing, nothing sent and the pacing clock untouched. */
  lemma StopWaitsForNoCreate(q0: Queue, run: seq<Action>, r: nat)
    requires Initial(q0) && Possible(q0, run)
    requires r < |After(q0, run).jobs|
    requires After(q0, run).jobs[r].phase.Waiting? && Written(After(q0, run).jobs[r].req, true)
    requires forall i | 0 <= i < r && !After(q0, run).jobs[i].phase.Settled? ::
               Creates(After(q0, run).jobs[i].req)
    ensures Inv(After(q0, run))
    ensures
      var q := After(q0, run);
      var plan := PlanTo(q, r);
      && Possible(q, plan) && Silent(plan)
      && After(q, plan).now == q.now && After(q, plan).last == q.last
      && Enabled(After(q, plan), Begin(r))
  {
    Reached(q0, run);
    var q := After(q0, run);
    CutsExactly(q.jobs[r].req);
    PlanIsSilent(q, r);
    PlanSettles(q, r);
  }

  // ─── Every run from there ─────────────────────────────────────────────────

  /** The first r jobs were cut or have settled. */
  ghost predicate AllMute(q: Queue, r: nat) {
    r <= |q.jobs| && forall i | 0 <= i < r :: q.jobs[i].aborted || q.jobs[i].phase.Settled?
  }

  /** The log goes on from `log` without the first r jobs. */
  ghost predicate GoesOnWithout(log: seq<Event>, after: seq<Event>, r: nat) {
    log <= after && forall p | |log| <= p < |after| :: !(0 <= SenderOf(after[p]) < r)
  }

  lemma MuteEnqueue(q: Queue, req: Request, kind: Kind, logout: bool, r: nat)
    requires !q.closed && AllMute(q, r)
    ensures AllMute(Enqueue(q, req, kind, logout), r)
    ensures GoesOnWithout(q.log, Enqueue(q, req, kind, logout).log, r)
  {
  }

  lemma MuteStep(q: Queue, a: Action, r: nat)
    requires JobsWellFormed(q) && Enabled(q, a) && AllMute(q, r)
    ensures AllMute(Next(q, a), r) && GoesOnWithout(q.log, Next(q, a).log, r)
  {
    match a {
      case Call(req) => if !q.closed { MuteEnqueue(q, req, KindOf(req), false, r); }
      case Disconnect => if !q.closed { MuteEnqueue(q, LogoutRequest, KindOf(LogoutRequest), true, r); }
      case ResendWait(i) => assert JobOk(q.jobs[i]);
      case Resend(i) => assert JobOk(q.jobs[i]);
      case _ =>
    }
  }

  lemma {:induction false} MuteRun(q: Queue, run: seq<Action>, r: nat)
    requires Inv(q) && Possible(q, run) && AllMute(q, r)
    ensures AllMute(After(q, run), r) && GoesOnWithout(q.log, After(q, run).log, r)
    decreases |run|
  {
    if run != [] {
      MuteStep(q, run[0], r);
      InvStep(q, run[0]);
      MuteRun(Next(q, run[0]), run[1..], r);
    }
  }

  /** With only creates before it unsettled, a stop, motors off, group delete or /logout
      waits for nothing to be sent: in every run from there, no start, resend or sending
      of an earlier request is logged any more. */
  lemma NothingSentBeforeStop(q0: Queue, before: seq<Action>, r: nat, rest: seq<Action>)
    requires Initial(q0) && Possible(q0, before) && Possible(After(q0, before), rest)
    requires r < |After(q0, before).jobs| && Written(After(q0, before).jobs[r].req, true)
    requires forall i | 0 <= i < r && !After(q0, before).jobs[i].phase.Settled? ::
               Creates(After(q0, before).jobs[i].req)
    ensures
      var log := After(q0, before).log;
      var after := After(After(q0, before), rest).log;
      log <= after && forall p | |log| <= p < |after| :: !(0 <= SenderOf(after[p]) < r)
  {
    Reached(q0, before);
    var q := After(q0, before);
    forall i: nat | i < r ensures q.jobs[i].aborted || q.jobs[i].phase.Settled? {
      if !q.jobs[i].phase.Settled? { ReducerLeavesNoCreate(q0, before, i, r); }
    }
    MuteRun(q, rest, r);
  }

  // ─── Every busy run settles what was accepted ─────────────────────────────

  /** A job's turn comes, its pause ends, its call returns, or its promise settles. */
  predicate IsJobStep(a: Action) {
    a.Begin? || a.Wake? || a.Return? || a.Settle?
  }

  function JobSteps(run: seq<Action>): nat {
    if run == [] then 0 else (if IsJobStep(run[0]) then 1 else 0) + JobSteps(run[1..])
  }

  /** The job steps a job still has before it at most. */
  function StepsLeft(p: Phase): nat {
    match p
    case Waiting => 4
    case Pausing(_) => 3
    case Running => 2
    case Resending(_) => 2
    case Returned => 1
    case Settled => 0
  }

  function AllStepsLeft(q: Queue, n: nat): (k: nat)
    requires n <= |q.jobs|
    ensures k <= 4 * n
  {
    if n == 0 then 0 else AllStepsLeft(q, n - 1) + StepsLeft(q.jobs[n - 1].phase)
  }

  lemma {:induction false} SamePhases(q: Queue, q': Queue, n: nat)
    requires n <= |q.jobs| && n <= |q'.jobs|
    requires forall i | 0 <= i < n :: StepsLeft(q'.jobs[i].phase) == StepsLeft(q.jobs[i].phase)
    ensures AllStepsLeft(q', n) == AllStepsLeft(q, n)
  {
    if n > 0 { SamePhases(q, q', n - 1); }
  }

  lemma {:induction false} OneAdvanced(q: Queue, q': Queue, n: nat, i: nat)
    requires i < n <= |q.jobs| && n <= |q'.jobs|
    requires StepsLeft(q'.jobs[i].phase) < StepsLeft(q.jobs[i].phase)
    requires forall j | 0 <= j < n && j != i :: StepsLeft(q'.jobs[j].phase) == StepsLeft(q.jobs[j].phase)
    ensures AllStepsLeft(q', n) < AllStepsLeft(q, n)
  {
    if i == n - 1 { SamePhases(q, q', n - 1); } else { OneAdvanced(q, q', n - 1, i); }
  }

  lemma {:induction false} NoneLeft(q: Queue, n: nat)
    requires n <= |q.jobs|
    ensures AllStepsLeft(q, n) == 0 <==> forall i | 0 <= i < n :: q.jobs[i].phase.Settled?
  {
    if n > 0 { NoneLeft(q, n - 1); }
  }

  function JobOf(a: Action): nat
    requires IsJobStep(a)
  {
    a.job
  }

  /** A job step advances its own job only. */
  lemma JobStepAdvances(q: Queue, a: Action)
    requires Enabled(q, a) && IsJobStep(a)
    ensures
      var q' := Next(q, a);
      && JobOf(a) < |q.jobs| == |q'.jobs|
      && StepsLeft(q'.jobs[JobOf(a)].phase) < StepsLeft(q.jobs[JobOf(a)].phase)
      && ChainSettled(q, JobOf(a)) == ChainSettled(q', JobOf(a))
      && forall j | 0 <= j < |q.jobs| && j != JobOf(a) :: q'.jobs[j].phase == q.jobs[j].phase
  {
  }

  lemma EnqueuePhases(q: Queue, req: Request, kind: Kind, logout: bool)
    requires !q.closed
    ensures
      var q' := Enqueue(q, req, kind, logout);
      |q'.jobs| == |q.jobs| + 1 && forall j | 0 <= j < |q.jobs| :: q'.jobs[j].phase == q.jobs[j].phase
  {
  }

  /** Any other step leaves the steps to come as they were. */
  lemma OtherStep(q: Queue, a: Action)
    requires Enabled(q, a) && !IsJobStep(a)
    ensures
      var q' := Next(q, a);
      && |q.jobs| <= |q'.jobs|
      && forall j | 0 <= j < |q.jobs| :: StepsLeft(q'.jobs[j].phase) == StepsLeft(q.jobs[j].phase)
  {
    match a {
      case Call(req) => if !q.closed { EnqueuePhases(q, req, KindOf(req), false); }
      case Disconnect => if !q.closed { EnqueuePhases(q, LogoutRequest, KindOf(LogoutRequest), true); }
      case _ =>
    }
  }

  lemma StepsFall(q: Queue, a: Action, n: nat)
    requires Inv(q) && Enabled(q, a) && n <= |q.jobs|
    ensures n <= |Next(q, a).jobs|
    ensures AllStepsLeft(Next(q, a), n) + (if IsJobStep(a) then 1 else 0) <= AllStepsLeft(q, n)
            || AllStepsLeft(Next(q, a), n) == 0
  {
    var q' := Next(q, a);
    if IsJobStep(a) {
      JobStepAdvances(q, a);
      if JobOf(a) < n {
        OneAdvanced(q, q', n, JobOf(a));
      } else {
        BeforeIsSettled(q, a, n);
        NoneLeft(q', n);
      }
    } else {
      OtherStep(q, a);
      SamePhases(q, q', n);
    }
  }

  /** A job moves only when everything before it has settled. */
  lemma BeforeIsSettled(q: Queue, a: Action, n: nat)
    requires OneAtATime(q) && Enabled(q, a) && IsJobStep(a) && n <= JobOf(a)
    ensures forall i | 0 <= i < n :: Next(q, a).jobs[i].phase.Settled?
  {
    JobStepAdvances(q, a);
    var h := JobOf(a);
    if a.Begin? && h > 0 {
      assert q.jobs[h - 1].phase.Settled?;
      forall i | 0 <= i < n ensures q.jobs[i].phase.Settled? {
        if i < h - 1 { BehindTheHead(q, i, h - 1); }
      }
    } else {
      forall i | 0 <= i < n ensures q.jobs[i].phase.Settled? { BehindTheHead(q, i, h); }
    }
  }

  lemma {:induction false} BusyRunSettles(q: Queue, run: seq<Action>, n: nat)
    requires Inv(q) && Possible(q, run) && n <= |q.jobs|
    ensures n <= |After(q, run).jobs|
    ensures AllStepsLeft(After(q, run), n) + JobSteps(run) <= AllStepsLeft(q, n)
            || AllStepsLeft(After(q, run), n) == 0
    decreases |run|
  {
    if run != [] {
      StepsFall(q, run[0], n);
      InvStep(q, run[0]);
      BusyRunSettles(Next(q, run[0]), run[1..], n);
    }
  }

  lemma SettledHaveRun(q: Queue)
    requires JobsWellFormed(q)
    ensures forall i | 0 <= i < |q.jobs| && q.jobs[i].phase.Settled? :: q.jobs[i].aborted || q.jobs[i].started
  {
    forall i | 0 <= i < |q.jobs| && q.jobs[i].phase.Settled? ensures q.jobs[i].aborted || q.jobs[i].started {
      assert JobOk(q.jobs[i]);
    }
  }

  lemma BusyRunFrom(q: Queue, rest: seq<Action>)
    requires Inv(q) && Possible(q, rest) && JobSteps(rest) >= 4 * |q.jobs|
    ensures
      var q' := After(q, rest);
      && |q.jobs| <= |q'.jobs|
      && forall i | 0 <= i < |q.jobs| :: q'.jobs[i].phase.Settled? && (q'.jobs[i].aborted || q'.jobs[i].started)
  {
    BusyRunSettles(q, rest, |q.jobs|);
    RequestQueue.EveryRun(q, rest);
    NoneLeft(After(q, rest), |q.jobs|);
    SettledHaveRun(After(q, rest));
  }

  /** In every run, whatever else is queued, closed or reopened in it: after at most four
      job steps for each of the n requests accepted so far all n have settled, and each
      of them that was not cut has run. Until then a job step of the first unsettled one
      is enabled, or waits for its timer (`MoveAt`). */
  lemma EveryBusyRunSettles(q0: Queue, before: seq<Action>, rest: seq<Action>)
    requires Initial(q0) && Possible(q0, before) && Possible(After(q0, before), rest)
    requires JobSteps(rest) >= 4 * |After(q0, before).jobs|
    ensures
      var n := |After(q0, before).jobs|;
      var q := After(After(q0, before), rest);
      n <= |q.jobs| && forall i | 0 <= i < n :: q.jobs[i].phase.Settled? && (q.jobs[i].aborted || q.jobs[i].started)
  {
    Reached(q0, before);
    BusyRunFrom(After(q0, before), rest);
  }
}
