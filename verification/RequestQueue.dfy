/** The serial request queue of a session (HttpSession.enqueue, close, reopen and
    RwsClient.connect / disconnect) as a step system.

    A step is one promise continuation, one synchronous call, or time passing;
    the environment picks the steps, so a sequence of enabled steps is one
    interleaving of callers, timers and controller answers. What happens inside
    a request's turn (module HttpAuth) is here only "it sends" and "it returns". */
module RequestQueue {
  import opened Requests

  /** What the queue needs to know of a request. */
  datatype Kind = Kind(create: bool, cuts: Cuts, resendable: bool)

  function KindOf(r: Request): Kind {
    Kind(IsGroupCreate(r), CutsOf(r), MayResend(r))
  }

  /** `Returned`: the request's function has finished, its promise has not settled. */
  datatype Phase =
    | Waiting
    | Pausing(wake: int)
    | Running
    | Resending(wake: int)
    | Returned
    | Settled

  /** `logout` marks the /logout queued by a disconnect; `epoch` counts reopens. */
  datatype Job = Job(req: Request, kind: Kind, phase: Phase, started: bool, aborted: bool, logout: bool, epoch: nat)

  datatype Event =
    | Started(job: nat, at: int)
    | Resent(job: nat, at: int)
    | Sent(job: nat)
    | CutShort(creates: set<nat>, reducer: nat)
    | Done(job: nat)

  /** One close() call: its number and how many requests were accepted before it. */
  datatype CloseCall = CloseCall(number: nat, tail: nat, fired: bool, destroyed: bool)

  datatype Queue = Queue(
    interval: int,
    now: int,
    last: int,
    jobs: seq<Job>,
    cuttable: map<nat, bool>,
    closed: bool,
    closes: seq<CloseCall>,
    epoch: nat,
    log: seq<Event>)

  datatype Action =
    | Tick(ms: nat)
    | Call(req: Request)
    | Begin(job: nat)
    | Wake(job: nat)
    | Send(job: nat)
    | ResendWait(job: nat)
    | Resend(job: nat)
    | ResendTooLate(job: nat)
    | Return(job: nat)
    | Settle(job: nat)
    | Disconnect
    | Close
    | CloseDone(call: nat)
    | Reopen

  // ─── Steps ────────────────────────────────────────────────────────────────

  /** The creates a request of class `cuts` aborts. */
  function Victims(cuttable: map<nat, bool>, cuts: Cuts): set<nat> {
    set i | i in cuttable && (cuts == CutsSent || (cuts == CutsQueued && !cuttable[i]))
  }

  function Aborted(jobs: seq<Job>, victims: set<nat>): seq<Job> {
    seq(|jobs|, i requires 0 <= i < |jobs| =>
      if i in victims then jobs[i].(aborted := true) else jobs[i])
  }

  function Enqueue(q: Queue, r: Request, kind: Kind, logout: bool): Queue
    requires !q.closed
  {
    var n := |q.jobs|;
    var victims := Victims(q.cuttable, kind.cuts);
    var kept := q.cuttable - victims;
    q.(jobs := Aborted(q.jobs, victims) + [Job(r, kind, Waiting, false, false, logout, q.epoch)],
       cuttable := if kind.create then kept[n := false] else kept,
       log := if victims == {} then q.log else q.log + [CutShort(victims, n)])
  }

  function CloseNow(q: Queue): Queue {
    q.(closed := true, closes := q.closes + [CloseCall(|q.closes| + 1, |q.jobs|, false, false)])
  }

  /** What follows the pause: a request cut meanwhile throws, any other starts. */
  function Resume(q: Queue, i: nat): Queue
    requires i < |q.jobs|
  {
    var j := q.jobs[i];
    if j.aborted then q.(jobs := q.jobs[i := j.(phase := Returned)])
    else
      q.(jobs := q.jobs[i := j.(phase := Running, started := true)],
         cuttable := if i in q.cuttable then q.cuttable[i := true] else q.cuttable,
         last := q.now,
         log := q.log + [Started(i, q.now)])
  }

  function SetPhase(q: Queue, i: nat, p: Phase): Queue
    requires i < |q.jobs|
  {
    q.(jobs := q.jobs[i := q.jobs[i].(phase := p)])
  }

  /** The promise chain: everything before `tail` has settled. */
  predicate ChainSettled(q: Queue, tail: nat) {
    tail == 0 || (tail <= |q.jobs| && q.jobs[tail - 1].phase.Settled?)
  }

  predicate Enabled(q: Queue, a: Action) {
    match a
    case Tick(_) => true
    case Call(_) => true
    case Begin(i) => i < |q.jobs| && q.jobs[i].phase.Waiting? && ChainSettled(q, i)
    case Wake(i) =>
      i < |q.jobs| && q.jobs[i].phase.Pausing? && (q.jobs[i].phase.wake <= q.now || q.jobs[i].aborted)
    case Send(i) => i < |q.jobs| && q.jobs[i].phase.Running? && !q.jobs[i].aborted
    case ResendWait(i) => i < |q.jobs| && q.jobs[i].phase.Running? && q.jobs[i].kind.resendable
    case Resend(i) => i < |q.jobs| && q.jobs[i].phase.Resending? && q.jobs[i].phase.wake <= q.now
    case ResendTooLate(i) => i < |q.jobs| && q.jobs[i].phase.Resending? && q.jobs[i].phase.wake <= q.now
    case Return(i) => i < |q.jobs| && q.jobs[i].phase.Running?
    case Settle(i) => i < |q.jobs| && q.jobs[i].phase.Returned?
    case Disconnect => true
    case Close => true
    case CloseDone(k) => k < |q.closes| && !q.closes[k].fired && ChainSettled(q, q.closes[k].tail)
    case Reopen => true
  }

  function Next(q: Queue, a: Action): Queue
    requires Enabled(q, a)
  {
    match a
    case Tick(ms) => q.(now := q.now + ms)
    case Call(r) => if q.closed then q else Enqueue(q, r, KindOf(r), false)
    case Begin(i) =>
      var elapsed := q.now - q.last;
      if q.interval > 0 && elapsed < q.interval
      then SetPhase(q, i, Pausing(q.now + (q.interval - elapsed)))
      else Resume(q, i)
    case Wake(i) => Resume(q, i)
    case Send(i) => q.(log := q.log + [Sent(i)])
    case ResendWait(i) =>
      var wait := q.interval - (q.now - q.last);
      SetPhase(q, i, Resending(if q.interval > 0 && wait > 0 then q.now + wait else q.now))
    case Resend(i) => SetPhase(q, i, Running).(last := q.now, log := q.log + [Resent(i, q.now)])
    case ResendTooLate(i) => SetPhase(q, i, Running)
    case Return(i) => SetPhase(q, i, Returned)
    case Settle(i) => SetPhase(q, i, Settled).(cuttable := q.cuttable - {i}, log := q.log + [Done(i)])
    case Disconnect => if q.closed then q else CloseNow(Enqueue(q, LogoutRequest, KindOf(LogoutRequest), true))
    case Close => CloseNow(q)
    case CloseDone(k) =>
      var c := q.closes[k];
      q.(closes := q.closes[k := c.(fired := true, destroyed := q.closed && c.number == |q.closes|)])
    case Reopen => q.(closed := false, epoch := q.epoch + 1)
  }

  predicate Initial(q: Queue) {
    && q.jobs == [] && q.cuttable == map[] && q.closes == [] && q.log == [] && !q.closed
    && q.last == 0 <= q.now && q.epoch == 0
  }

  predicate Possible(q: Queue, run: seq<Action>)
    decreases |run|
  {
    run == [] || (Enabled(q, run[0]) && Possible(Next(q, run[0]), run[1..]))
  }

  function After(q: Queue, run: seq<Action>): Queue
    requires Possible(q, run)
    decreases |run|
  {
    if run == [] then q else After(Next(q, run[0]), run[1..])
  }

  // ─── What every step keeps ────────────────────────────────────────────────

  predicate KindOk(k: Kind) {
    k.create ==> k.cuts == CutsNothing && !k.resendable
  }

  /** The queue runs one job at a time, in the order they were accepted. */
  ghost predicate OneAtATime(q: Queue) {
    forall i, j | 0 <= i < j < |q.jobs| ::
      q.jobs[j].phase.Waiting? || q.jobs[i].phase.Settled?
  }

  predicate JobOk(j: Job) {
    && KindOk(j.kind)
    && (j.aborted ==> j.kind.create)
    && (j.phase.Waiting? || j.phase.Pausing? ==> !j.started)
    && (j.phase.Running? || j.phase.Resending? ==> j.started)
    && (j.phase.Resending? ==> j.kind.resendable)
    && (j.phase.Returned? || j.phase.Settled? ==> j.started || j.aborted)
  }

  ghost predicate JobsWellFormed(q: Queue) {
    forall i | 0 <= i < |q.jobs| :: JobOk(q.jobs[i])
  }

  ghost predicate KindsHonest(q: Queue) {
    forall i | 0 <= i < |q.jobs| :: q.jobs[i].kind == KindOf(q.jobs[i].req)
  }

  /** `cuttable` is exactly the creates accepted, not settled and not cut. */
  ghost predicate CuttableExact(q: Queue) {
    && (forall i | i in q.cuttable :: i < |q.jobs|)
    && forall i | 0 <= i < |q.jobs| ::
         var j := q.jobs[i];
         && (i in q.cuttable <==> j.kind.create && !j.phase.Settled? && !j.aborted)
         && (i in q.cuttable ==> q.cuttable[i] == j.started)
  }

  /** A create that may still send something. */
  predicate LiveCreate(j: Job) {
    j.kind.create && !j.phase.Settled? && !j.aborted
  }

  ghost predicate ReducersPassCreates(q: Queue) {
    forall i, r | 0 <= i < r < |q.jobs| ::
      && (q.jobs[r].kind.cuts == CutsSent ==> !LiveCreate(q.jobs[i]))
      && (q.jobs[r].kind.cuts == CutsQueued && LiveCreate(q.jobs[i]) ==> q.jobs[i].started)
  }

  function SenderOf(e: Event): int {
    match e
    case Started(i, _) => i
    case Resent(i, _) => i
    case Sent(i) => i
    case CutShort(_, _) => -1
    case Done(_) => -1
  }

  /** Every cut names queued creates cut by a later reducing request, and from
      then on nothing more is sent for them. */
  ghost predicate CutsAreFinal(q: Queue) {
    && (forall p | 0 <= p < |q.log| && q.log[p].CutShort? ::
          forall i | i in q.log[p].creates ::
            && i < q.log[p].reducer < |q.jobs|
            && q.jobs[i].aborted
            && q.jobs[q.log[p].reducer].kind.cuts != CutsNothing)
    && (forall p, s | 0 <= p < s < |q.log| && q.log[p].CutShort? :: SenderOf(q.log[s]) !in q.log[p].creates)
  }

  /** The jobs in the order their promises settled. */
  function DoneJobs(log: seq<Event>): seq<nat> {
    if log == [] then []
    else
      var rest := DoneJobs(log[..|log| - 1]);
      match log[|log| - 1]
      case Done(i) => rest + [i]
      case _ => rest
  }

  /** Jobs settle once each, in order: 0, 1, 2, ...; nothing is sent for one that has. */
  ghost predicate SettledOnce(q: Queue) {
    var done := DoneJobs(q.log);
    && |done| <= |q.jobs|
    && (forall n | 0 <= n < |done| :: done[n] == n)
    && (forall i | 0 <= i < |q.jobs| :: q.jobs[i].phase.Settled? <==> i < |done|)
    && (forall p, s | 0 <= p < s < |q.log| && q.log[p].Done? :: SenderOf(q.log[s]) != q.log[p].job)
    && (forall p | 0 <= p < |q.log| && q.log[p].Done? :: q.log[p].job < |done|)
  }

  /** Queue starts and dead-socket resends are paced; other retries are not. */
  predicate PacedEvent(e: Event) {
    e.Started? || e.Resent?
  }

  ghost predicate Paced(q: Queue) {
    && q.last <= q.now
    && (forall p | 0 <= p < |q.log| && PacedEvent(q.log[p]) :: q.log[p].at <= q.last)
    && (forall p, s | 0 <= p < s < |q.log| && PacedEvent(q.log[p]) && PacedEvent(q.log[s]) ::
          q.log[s].at >= q.log[p].at + q.interval)
    && (forall i | 0 <= i < |q.jobs| && (q.jobs[i].phase.Pausing? || q.jobs[i].phase.Resending?) ::
          q.jobs[i].phase.wake >= q.last + q.interval)
  }

  ghost predicate StartsInOrder(q: Queue) {
    && (forall p | 0 <= p < |q.log| && SenderOf(q.log[p]) >= 0 ::
          SenderOf(q.log[p]) < |q.jobs| && q.jobs[SenderOf(q.log[p])].started)
    && (forall p, s | 0 <= p < s < |q.log| && SenderOf(q.log[p]) >= 0 && SenderOf(q.log[s]) >= 0 ::
          && SenderOf(q.log[p]) <= SenderOf(q.log[s])
          && (q.log[s].Started? ==> SenderOf(q.log[p]) < SenderOf(q.log[s])))
  }

  /** A disconnect's /logout is the last request of its epoch. */
  ghost predicate LogoutEndsEpoch(q: Queue) {
    && (forall i, j | 0 <= i < j < |q.jobs| :: q.jobs[i].epoch <= q.jobs[j].epoch)
    && (forall i | 0 <= i < |q.jobs| :: q.jobs[i].epoch <= q.epoch)
    && (forall i, j | 0 <= i < j < |q.jobs| && q.jobs[i].logout :: q.jobs[i].epoch < q.jobs[j].epoch)
    && (forall i | 0 <= i < |q.jobs| && q.jobs[i].logout && q.jobs[i].epoch == q.epoch :: q.closed)
  }

  ghost predicate ClosesCounted(q: Queue) {
    && (forall k | 0 <= k < |q.closes| ::
          && q.closes[k].number == k + 1 && q.closes[k].tail <= |q.jobs|
          && (q.closes[k].destroyed ==> q.closes[k].fired))
    && (q.closed ==> |q.closes| > 0 && q.closes[|q.closes| - 1].tail == |q.jobs|)
  }

  ghost predicate Inv(q: Queue) {
    && OneAtATime(q) && JobsWellFormed(q) && CuttableExact(q) && ReducersPassCreates(q)
    && CutsAreFinal(q) && SettledOnce(q) && Paced(q) && StartsInOrder(q)
    && LogoutEndsEpoch(q) && ClosesCounted(q)
  }

  // ─── Preservation ─────────────────────────────────────────────────────────

  lemma OneAtATimeEnqueued(q: Queue, r: Request, kind: Kind, logout: bool)
    requires OneAtATime(q) && !q.closed
    ensures OneAtATime(Enqueue(q, r, kind, logout))
  {
  }

  lemma JobsWellFormedEnqueued(q: Queue, r: Request, kind: Kind, logout: bool)
    requires JobsWellFormed(q) && CuttableExact(q) && !q.closed && KindOk(kind)
    ensures JobsWellFormed(Enqueue(q, r, kind, logout))
  {
  }

  lemma CuttableExactEnqueued(q: Queue, r: Request, kind: Kind, logout: bool)
    requires CuttableExact(q) && JobsWellFormed(q) && OneAtATime(q) && !q.closed
    ensures CuttableExact(Enqueue(q, r, kind, logout))
  {
  }

  lemma ReducersPassCreatesEnqueued(q: Queue, r: Request, kind: Kind, logout: bool)
    requires ReducersPassCreates(q) && CuttableExact(q) && JobsWellFormed(q) && !q.closed
    ensures ReducersPassCreates(Enqueue(q, r, kind, logout))
  {
  }

  lemma CutsAreFinalEnqueued(q: Queue, r: Request, kind: Kind, logout: bool)
    requires CutsAreFinal(q) && JobsWellFormed(q) && CuttableExact(q) && !q.closed
    ensures CutsAreFinal(Enqueue(q, r, kind, logout))
  {
    var q' := Enqueue(q, r, kind, logout);
    assert forall p | 0 <= p < |q.log| :: q'.log[p] == q.log[p];
  }

  lemma SettledOnceEnqueued(q: Queue, r: Request, kind: Kind, logout: bool)
    requires SettledOnce(q) && OneAtATime(q) && JobsWellFormed(q) && !q.closed
    ensures SettledOnce(Enqueue(q, r, kind, logout))
  {
    var q' := Enqueue(q, r, kind, logout);
    if q'.log != q.log { assert q'.log[..|q.log|] == q.log; }
    assert forall i | 0 <= i < |q.jobs| :: q'.jobs[i].phase == q.jobs[i].phase;
  }

  lemma PacedEnqueued(q: Queue, r: Request, kind: Kind, logout: bool)
    requires Paced(q) && OneAtATime(q) && !q.closed
    ensures Paced(Enqueue(q, r, kind, logout))
  {
  }

  lemma StartsInOrderEnqueued(q: Queue, r: Request, kind: Kind, logout: bool)
    requires StartsInOrder(q) && !q.closed
    ensures StartsInOrder(Enqueue(q, r, kind, logout))
  {
    var q' := Enqueue(q, r, kind, logout);
    assert forall i | 0 <= i < |q.jobs| :: q'.jobs[i].started == q.jobs[i].started;
    assert forall p | 0 <= p < |q.log| :: q'.log[p] == q.log[p];
  }

  lemma LogoutEndsEpochEnqueued(q: Queue, r: Request, kind: Kind, logout: bool)
    requires LogoutEndsEpoch(q) && !q.closed
    ensures LogoutEndsEpoch(Enqueue(q, r, kind, logout).(closed := logout))
  {
    var q' := Enqueue(q, r, kind, logout).(closed := logout);
    EpochsAppended(q, q', q'.jobs[|q.jobs|]);
  }

  lemma EpochsAppended(q: Queue, q': Queue, j: Job)
    requires LogoutEndsEpoch(q) && !q.closed && q'.epoch == q.epoch == j.epoch && q'.closed == j.logout
    requires |q'.jobs| == |q.jobs| + 1 && q'.jobs[|q.jobs|] == j
    requires forall i | 0 <= i < |q.jobs| ::
               q'.jobs[i].logout == q.jobs[i].logout && q'.jobs[i].epoch == q.jobs[i].epoch
    ensures LogoutEndsEpoch(q')
  {
  }

  lemma ClosesCountedEnqueued(q: Queue, r: Request, kind: Kind, logout: bool)
    requires ClosesCounted(q) && !q.closed
    ensures ClosesCounted(Enqueue(q, r, kind, logout))
  {
  }

  lemma OneAtATimeKept(q: Queue, a: Action)
    requires OneAtATime(q)
    requires Enabled(q, a) && !a.Call? && !a.Disconnect?
    ensures OneAtATime(Next(q, a))
  {
  }

  /** A step of one job that leaves it well formed. */
  lemma JobsWellFormedUpdate(q: Queue, q': Queue, i: nat)
    requires JobsWellFormed(q) && i < |q.jobs| == |q'.jobs|
    requires forall j | 0 <= j < |q.jobs| && j != i :: q'.jobs[j] == q.jobs[j]
    requires JobOk(q'.jobs[i])
    ensures JobsWellFormed(q')
  {
  }

  lemma JobsWellFormedResume(q: Queue, i: nat)
    requires JobsWellFormed(q) && i < |q.jobs| && !q.jobs[i].phase.Settled?
    ensures JobsWellFormed(Resume(q, i))
  {
    assert JobOk(q.jobs[i]);
    JobsWellFormedUpdate(q, Resume(q, i), i);
  }

  lemma JobsWellFormedPhase(q: Queue, i: nat, p: Phase)
    requires JobsWellFormed(q) && i < |q.jobs| && JobOk(q.jobs[i].(phase := p))
    ensures JobsWellFormed(SetPhase(q, i, p))
  {
    JobsWellFormedUpdate(q, SetPhase(q, i, p), i);
  }

  lemma JobsWellFormedKept(q: Queue, a: Action)
    requires JobsWellFormed(q)
    requires Enabled(q, a) && !a.Call? && !a.Disconnect?
    ensures JobsWellFormed(Next(q, a))
  {
    match a {
      case Begin(i) =>
        assert JobOk(q.jobs[i]);
        JobsWellFormedResume(q, i);
        JobsWellFormedPhase(q, i, Pausing(q.now + (q.interval - (q.now - q.last))));
      case Wake(i) => JobsWellFormedResume(q, i);
      case ResendWait(i) =>
        assert JobOk(q.jobs[i]);
        JobsWellFormedPhase(q, i, Next(q, a).jobs[i].phase);
      case Resend(i) =>
        assert JobOk(q.jobs[i]);
        JobsWellFormedPhase(q, i, Running);
      case ResendTooLate(i) =>
        assert JobOk(q.jobs[i]);
        JobsWellFormedPhase(q, i, Running);
      case Return(i) =>
        assert JobOk(q.jobs[i]);
        JobsWellFormedPhase(q, i, Returned);
      case Settle(i) =>
        assert JobOk(q.jobs[i]);
        JobsWellFormedPhase(q, i, Settled);
      case _ =>
    }
  }

  lemma CuttableExactSetPhase(q: Queue, i: nat, p: Phase)
    requires CuttableExact(q) && i < |q.jobs|
    requires !q.jobs[i].phase.Settled? && !p.Settled?
    ensures CuttableExact(SetPhase(q, i, p))
  {
  }

  lemma CuttableExactResume(q: Queue, i: nat)
    requires CuttableExact(q) && i < |q.jobs| && !q.jobs[i].phase.Settled?
    ensures CuttableExact(Resume(q, i))
  {
  }

  lemma CuttableExactSettle(q: Queue, i: nat)
    requires CuttableExact(q) && Enabled(q, Settle(i))
    ensures CuttableExact(Next(q, Settle(i)))
  {
  }

  lemma CuttableExactKept(q: Queue, a: Action)
    requires CuttableExact(q)
    requires Enabled(q, a) && !a.Call? && !a.Disconnect?
    ensures CuttableExact(Next(q, a))
  {
    match a {
      case Begin(i) =>
        CuttableExactResume(q, i);
        CuttableExactSetPhase(q, i, Pausing(q.now + (q.interval - (q.now - q.last))));
      case Wake(i) => CuttableExactResume(q, i);
      case ResendWait(i) => CuttableExactSetPhase(q, i, Next(q, a).jobs[i].phase);
      case Resend(i) => CuttableExactSetPhase(q, i, Running);
      case ResendTooLate(i) => CuttableExactSetPhase(q, i, Running);
      case Return(i) => CuttableExactSetPhase(q, i, Returned);
      case Settle(i) => CuttableExactSettle(q, i);
      case _ =>
    }
  }

  lemma ReducersPassCreatesCarries(q: Queue, q': Queue)
    requires ReducersPassCreates(q) && |q'.jobs| == |q.jobs|
    requires forall i | 0 <= i < |q.jobs| ::
               && q'.jobs[i].kind == q.jobs[i].kind
               && (LiveCreate(q'.jobs[i]) ==> LiveCreate(q.jobs[i]))
               && (q.jobs[i].started ==> q'.jobs[i].started)
    ensures ReducersPassCreates(q')
  {
  }

  lemma ReducersPassCreatesKept(q: Queue, a: Action)
    requires ReducersPassCreates(q) && JobsWellFormed(q)
    requires Enabled(q, a) && !a.Call? && !a.Disconnect?
    ensures ReducersPassCreates(Next(q, a))
  {
    ReducersPassCreatesCarries(q, Next(q, a));
  }

  /** A step that logs at most an event of an uncut job keeps the cuts final. */
  lemma CutsAreFinalCarries(q: Queue, q': Queue)
    requires CutsAreFinal(q) && |q.jobs| == |q'.jobs|
    requires forall i | 0 <= i < |q.jobs| ::
               q.jobs[i].aborted == q'.jobs[i].aborted && q.jobs[i].kind == q'.jobs[i].kind
    requires q'.log == q.log
      || exists e: Event :: && q'.log == q.log + [e] && !e.CutShort?
                     && (0 <= SenderOf(e) < |q.jobs| ==> !q.jobs[SenderOf(e)].aborted)
    ensures CutsAreFinal(q')
  {
    if q'.log != q.log {
      assert |q'.log| == |q.log| + 1 && q'.log[..|q.log|] == q.log;
      assert forall p | 0 <= p < |q.log| :: q'.log[p] == q.log[p];
    }
  }

  lemma CutsAreFinalKept(q: Queue, a: Action)
    requires CutsAreFinal(q) && JobsWellFormed(q)
    requires Enabled(q, a) && !a.Call? && !a.Disconnect?
    ensures CutsAreFinal(Next(q, a))
  {
    var q' := Next(q, a);
    if q'.log != q.log {
      assert q'.log == q.log + [q'.log[|q.log|]];
    }
    CutsAreFinalCarries(q, q');
  }

  lemma SettledOnceCarries(q: Queue, q': Queue)
    requires SettledOnce(q) && |q.jobs| == |q'.jobs|
    requires forall i | 0 <= i < |q.jobs| :: q.jobs[i].phase.Settled? == q'.jobs[i].phase.Settled?
    requires q'.log == q.log
      || exists e: Event :: && q'.log == q.log + [e] && !e.Done?
                     && (0 <= SenderOf(e) < |q.jobs| ==> !q.jobs[SenderOf(e)].phase.Settled?)
    ensures SettledOnce(q')
  {
    if q'.log != q.log {
      assert q'.log[..|q.log|] == q.log;
      assert forall p | 0 <= p < |q.log| :: q'.log[p] == q.log[p];
    }
  }

  lemma BehindTheHead(q: Queue, n: nat, i: nat)
    requires OneAtATime(q) && n < i < |q.jobs| && !q.jobs[i].phase.Waiting?
    ensures q.jobs[n].phase.Settled?
  {
  }

  /** The job that settles is the next one. */
  lemma SettlesNext(q: Queue, i: nat)
    requires SettledOnce(q) && OneAtATime(q) && Enabled(q, Settle(i))
    ensures i == |DoneJobs(q.log)|
  {
    var n := |DoneJobs(q.log)|;
    if n < i {
      BehindTheHead(q, n, i);
      assert false;
    }
  }

  lemma DoneAppended(log: seq<Event>, i: nat)
    ensures DoneJobs(log + [Done(i)]) == DoneJobs(log) + [i]
  {
    assert (log + [Done(i)])[..|log|] == log;
  }

  lemma SettledOnceNext(q: Queue, q': Queue, i: nat)
    requires SettledOnce(q) && i == |DoneJobs(q.log)| < |q.jobs| == |q'.jobs|
    requires q'.log == q.log + [Done(i)] && DoneJobs(q'.log) == DoneJobs(q.log) + [i]
    requires q'.jobs[i].phase.Settled?
    requires forall j | 0 <= j < |q.jobs| && j != i :: q'.jobs[j].phase == q.jobs[j].phase
    ensures SettledOnce(q')
  {
    assert forall p | 0 <= p < |q.log| :: q'.log[p] == q.log[p];
  }

  lemma SettledOnceSettle(q: Queue, i: nat)
    requires SettledOnce(q) && OneAtATime(q) && Enabled(q, Settle(i))
    ensures SettledOnce(Next(q, Settle(i)))
  {
    SettlesNext(q, i);
    DoneAppended(q.log, i);
    SettledOnceNext(q, Next(q, Settle(i)), i);
  }

  lemma SettledOnceKept(q: Queue, a: Action)
    requires SettledOnce(q) && OneAtATime(q) && JobsWellFormed(q)
    requires Enabled(q, a) && !a.Call? && !a.Disconnect?
    ensures SettledOnce(Next(q, a))
  {
    var q' := Next(q, a);
    if a.Settle? {
      SettledOnceSettle(q, a.job);
    } else {
      if q'.log != q.log { assert q'.log == q.log + [q'.log[|q.log|]]; }
      SettledOnceCarries(q, q');
    }
  }

  predicate Timed(j: Job) {
    j.phase.Pausing? || j.phase.Resending?
  }

  /** A step that starts nothing. */
  lemma PacedCarries(q: Queue, q': Queue)
    requires Paced(q) && q'.interval == q.interval && q'.last == q.last && q.now <= q'.now
    requires q'.log == q.log || exists e: Event :: q'.log == q.log + [e] && !PacedEvent(e)
    requires |q'.jobs| == |q.jobs|
    requires forall i | 0 <= i < |q.jobs| && Timed(q'.jobs[i]) ::
               q'.jobs[i] == q.jobs[i] || q'.jobs[i].phase.wake >= q.last + q.interval
    ensures Paced(q')
  {
  }

  /** A step that starts something, when the last start is far enough back. */
  lemma PacedStart(q: Queue, q': Queue, e: Event)
    requires Paced(q) && q'.interval == q.interval && q'.last == q.now == q'.now
    requires q'.log == q.log + [e] && PacedEvent(e) && e.at == q.now
    requires q.now >= q.last + q.interval
    requires forall i | 0 <= i < |q'.jobs| :: !Timed(q'.jobs[i])
    ensures Paced(q')
  {
  }

  lemma OnlyOneTimed(q: Queue, q': Queue, i: nat)
    requires OneAtATime(q) && i < |q.jobs| && !q.jobs[i].phase.Settled? && ChainSettled(q, i)
    requires |q'.jobs| == |q.jobs| && !Timed(q'.jobs[i])
    requires forall j | 0 <= j < |q.jobs| && j != i :: q'.jobs[j] == q.jobs[j]
    ensures forall j | 0 <= j < |q.jobs| :: !Timed(q'.jobs[j])
  {
    assert i > 0 ==> q.jobs[i - 1].phase.Settled?;
    forall j | 0 <= j < i - 1 ensures q.jobs[j].phase.Settled? {
    }
  }

  lemma PacedResume(q: Queue, i: nat)
    requires Paced(q) && OneAtATime(q) && i < |q.jobs| && !q.jobs[i].phase.Settled? && ChainSettled(q, i)
    requires !q.jobs[i].aborted ==> q.now >= q.last + q.interval
    ensures Paced(Resume(q, i))
  {
    if q.jobs[i].aborted {
      PacedCarries(q, Resume(q, i));
    } else {
      OnlyOneTimed(q, Resume(q, i), i);
      PacedStart(q, Resume(q, i), Started(i, q.now));
    }
  }

  lemma HeadChain(q: Queue, i: nat)
    requires OneAtATime(q) && i < |q.jobs| && !q.jobs[i].phase.Waiting?
    ensures ChainSettled(q, i)
  {
  }

  lemma PacedBegin(q: Queue, i: nat)
    requires Paced(q) && OneAtATime(q) && Enabled(q, Begin(i))
    ensures Paced(Next(q, Begin(i)))
  {
    if q.interval > 0 && q.now - q.last < q.interval {
      PacedCarries(q, Next(q, Begin(i)));
    } else {
      PacedResume(q, i);
    }
  }

  lemma PacedResend(q: Queue, i: nat)
    requires Paced(q) && OneAtATime(q) && Enabled(q, Resend(i))
    ensures Paced(Next(q, Resend(i)))
  {
    HeadChain(q, i);
    OnlyOneTimed(q, Next(q, Resend(i)), i);
    PacedStart(q, Next(q, Resend(i)), Resent(i, q.now));
  }

  lemma PacedKept(q: Queue, a: Action)
    requires Paced(q) && OneAtATime(q)
    requires Enabled(q, a) && !a.Call? && !a.Disconnect?
    ensures Paced(Next(q, a))
  {
    var q' := Next(q, a);
    match a {
      case Begin(i) => PacedBegin(q, i);
      case Wake(i) =>
        HeadChain(q, i);
        PacedResume(q, i);
      case Resend(i) => PacedResend(q, i);
      case _ => PacedCarries(q, q');
    }
  }

  lemma StartsCarry(q: Queue, q': Queue)
    requires StartsInOrder(q) && |q'.jobs| == |q.jobs|
    requires forall i | 0 <= i < |q.jobs| && q.jobs[i].started :: q'.jobs[i].started
    requires q'.log == q.log || exists e: Event :: q'.log == q.log + [e] && SenderOf(e) < 0
    ensures StartsInOrder(q')
  {
  }

  /** The job at the head sends, or is started for the first time. */
  lemma HeadSends(q: Queue, q': Queue, e: Event)
    requires StartsInOrder(q) && OneAtATime(q) && JobsWellFormed(q)
    requires |q'.jobs| == |q.jobs| && q'.log == q.log + [e]
    requires forall i | 0 <= i < |q.jobs| && q.jobs[i].started :: q'.jobs[i].started
    requires 0 <= SenderOf(e) < |q.jobs| && !q.jobs[SenderOf(e)].phase.Settled? && q'.jobs[SenderOf(e)].started
    requires e.Started? ==> !q.jobs[SenderOf(e)].started
    ensures StartsInOrder(q')
  {
    var i := SenderOf(e);
    forall p | 0 <= p < |q.log| && SenderOf(q.log[p]) >= 0
      ensures SenderOf(q.log[p]) <= i && (e.Started? ==> SenderOf(q.log[p]) < i)
    {
      var j := SenderOf(q.log[p]);
      assert q.jobs[j].started && !q.jobs[j].phase.Waiting?;
    }
    assert q'.log[..|q.log|] == q.log;
  }

  lemma StartsResume(q: Queue, i: nat)
    requires StartsInOrder(q) && OneAtATime(q) && JobsWellFormed(q) && i < |q.jobs|
    requires q.jobs[i].phase.Waiting? || q.jobs[i].phase.Pausing?
    ensures StartsInOrder(Resume(q, i))
  {
    if q.jobs[i].aborted { StartsCarry(q, Resume(q, i)); } else { HeadSends(q, Resume(q, i), Started(i, q.now)); }
  }

  lemma StartsInOrderKept(q: Queue, a: Action)
    requires StartsInOrder(q) && OneAtATime(q) && JobsWellFormed(q)
    requires Enabled(q, a) && !a.Call? && !a.Disconnect?
    ensures StartsInOrder(Next(q, a))
  {
    var q' := Next(q, a);
    match a {
      case Begin(i) =>
        StartsResume(q, i);
        StartsCarry(q, SetPhase(q, i, Pausing(q.now + (q.interval - (q.now - q.last)))));
      case Wake(i) => StartsResume(q, i);
      case Send(i) => HeadSends(q, q', Sent(i));
      case Resend(i) => HeadSends(q, q', Resent(i, q.now));
      case _ => StartsCarry(q, q');
    }
  }

  ghost predicate SameEpochs(q: Queue, q': Queue) {
    && |q.jobs| == |q'.jobs|
    && forall i | 0 <= i < |q.jobs| ::
         q.jobs[i].logout == q'.jobs[i].logout && q.jobs[i].epoch == q'.jobs[i].epoch
  }

  lemma LogoutEndsEpochCarries(q: Queue, q': Queue)
    requires LogoutEndsEpoch(q) && SameEpochs(q, q')
    requires q'.epoch > q.epoch || (q'.epoch == q.epoch && (q.closed ==> q'.closed))
    ensures LogoutEndsEpoch(q')
  {
  }

  lemma LogoutEndsEpochKept(q: Queue, a: Action)
    requires LogoutEndsEpoch(q)
    requires Enabled(q, a) && !a.Call? && !a.Disconnect?
    ensures LogoutEndsEpoch(Next(q, a))
  {
    assert SameEpochs(q, Next(q, a));
    LogoutEndsEpochCarries(q, Next(q, a));
  }

  lemma ClosesCountedKept(q: Queue, a: Action)
    requires ClosesCounted(q)
    requires Enabled(q, a) && !a.Call? && !a.Disconnect?
    ensures ClosesCounted(Next(q, a))
  {
  }


  lemma KindsHonestCarries(q: Queue, q': Queue)
    requires KindsHonest(q) && |q.jobs| <= |q'.jobs|
    requires forall i | 0 <= i < |q.jobs| ::
               q'.jobs[i].kind == q.jobs[i].kind && q'.jobs[i].req == q.jobs[i].req
    requires forall i | |q.jobs| <= i < |q'.jobs| :: q'.jobs[i].kind == KindOf(q'.jobs[i].req)
    ensures KindsHonest(q')
  {
  }

  lemma Kept(q: Queue, a: Action)
    requires Inv(q) && Enabled(q, a) && !a.Call? && !a.Disconnect?
    ensures Inv(Next(q, a))
  {
    OneAtATimeKept(q, a);
    JobsWellFormedKept(q, a);
    CuttableExactKept(q, a);
    ReducersPassCreatesKept(q, a);
    CutsAreFinalKept(q, a);
    SettledOnceKept(q, a);
    PacedKept(q, a);
    StartsInOrderKept(q, a);
    LogoutEndsEpochKept(q, a);
    ClosesCountedKept(q, a);
  }

  /** Everything but the two invariants that read `closed` and `closes`. */
  ghost predicate OpenInv(q: Queue) {
    && OneAtATime(q) && JobsWellFormed(q) && CuttableExact(q) && ReducersPassCreates(q)
    && CutsAreFinal(q) && SettledOnce(q) && Paced(q) && StartsInOrder(q)
  }

  lemma OpenInvEnqueued(q: Queue, r: Request, kind: Kind, logout: bool)
    requires Inv(q) && !q.closed && KindOk(kind)
    ensures OpenInv(Enqueue(q, r, kind, logout))
  {
    OneAtATimeEnqueued(q, r, kind, logout);
    JobsWellFormedEnqueued(q, r, kind, logout);
    CuttableExactEnqueued(q, r, kind, logout);
    ReducersPassCreatesEnqueued(q, r, kind, logout);
    CutsAreFinalEnqueued(q, r, kind, logout);
    SettledOnceEnqueued(q, r, kind, logout);
    PacedEnqueued(q, r, kind, logout);
    StartsInOrderEnqueued(q, r, kind, logout);
  }

  lemma OnlyClosesDiffer(q: Queue, q': Queue)
    requires OpenInv(q) && q' == q.(closed := q'.closed, closes := q'.closes)
    ensures OpenInv(q')
  {
  }

  lemma OpenInvClosed(q: Queue)
    requires OpenInv(q)
    ensures OpenInv(CloseNow(q))
  {
    OnlyClosesDiffer(q, CloseNow(q));
  }

  lemma LogoutEndsEpochClosed(q: Queue)
    requires LogoutEndsEpoch(q.(closed := true))
    ensures LogoutEndsEpoch(CloseNow(q))
  {
    LogoutEndsEpochCarries(q.(closed := true), CloseNow(q));
  }

  lemma ClosesCountedClosed(q: Queue)
    requires ClosesCounted(q)
    ensures ClosesCounted(CloseNow(q))
  {
  }

  lemma InvClosed(q: Queue)
    requires OpenInv(q) && ClosesCounted(q) && LogoutEndsEpoch(q.(closed := true))
    ensures Inv(CloseNow(q))
  {
    OpenInvClosed(q);
    LogoutEndsEpochClosed(q);
    ClosesCountedClosed(q);
  }

  lemma InvStep(q: Queue, a: Action)
    requires Inv(q) && Enabled(q, a)
    ensures Inv(Next(q, a))
  {
    match a {
      case Call(r) =>
        if !q.closed {
          ReducingRequests(r);
          OpenInvEnqueued(q, r, KindOf(r), false);
          LogoutEndsEpochEnqueued(q, r, KindOf(r), false);
          ClosesCountedEnqueued(q, r, KindOf(r), false);
        }
      case Disconnect =>
        if !q.closed {
          ReducingRequests(LogoutRequest);
          var kind := KindOf(LogoutRequest);
          OpenInvEnqueued(q, LogoutRequest, kind, true);
          LogoutEndsEpochEnqueued(q, LogoutRequest, kind, true);
          ClosesCountedEnqueued(q, LogoutRequest, kind, true);
          InvClosed(Enqueue(q, LogoutRequest, kind, true));
        }
      case _ => Kept(q, a);
    }
  }

  lemma {:induction false} EveryRun(q: Queue, run: seq<Action>)
    requires Inv(q) && Possible(q, run)
    ensures Inv(After(q, run))
    decreases |run|
  {
    if run != [] {
      InvStep(q, run[0]);
      EveryRun(Next(q, run[0]), run[1..]);
    }
  }

  lemma KindsHonestStep(q: Queue, a: Action)
    requires KindsHonest(q) && Enabled(q, a)
    ensures KindsHonest(Next(q, a))
  {
    KindsHonestCarries(q, Next(q, a));
  }

  lemma {:induction false} KindsStayHonest(q: Queue, run: seq<Action>)
    requires KindsHonest(q) && Possible(q, run)
    ensures KindsHonest(After(q, run))
    decreases |run|
  {
    if run != [] {
      KindsHonestStep(q, run[0]);
      KindsStayHonest(Next(q, run[0]), run[1..]);
    }
  }
}
