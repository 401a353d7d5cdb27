/** The life of one WebSocket subscription (WsSubscriber.openWebSocket,
    scheduleReconnect, giveUp and the unsubscribe function) as a step system.

    A step is one event handler, timer or promise continuation. The environment
    chooses when sockets open, fail or close, how a re-registration ends, and when
    the owner stops. A socket closed while it connects never opens. */
module WsLifecycle {
  import opened Maybe

  /** `Doomed` and `Leaving`: close() was called while connecting or open. */
  datatype Socket = Connecting | Doomed | Open | Leaving | Gone

  /** The first open, a reopen of the stored poll URL, or one after re-registering. */
  datatype Kind = First | Stored | Fresh

  /** `Refused`: the open was rejected, what awaits it has not continued yet. */
  datatype Stage = Building | Dialing(socket: nat) | Refused | Registering

  datatype Attempt = Attempt(kind: Kind, stage: Stage)

  datatype Options = Options(maxAttempts: int, baseMs: int, capMs: int)

  const DefaultOptions := Options(6, 1000, 30000)

  datatype Sub = Sub(
    opts: Options,
    now: int,
    closed: bool,
    retryCount: nat,
    ws: Option<nat>,
    timer: Option<int>,
    attempt: Option<Attempt>,
    sockets: seq<Socket>,
    lostNotified: bool,
    // Counted by the model: opens, unasked closes, the two callbacks, and since the
    // last open the failed attempts and the delays waited.
    opens: nat,
    drops: nat,
    restored: nat,
    lost: nat,
    failed: nat,
    waited: int,
    // The clock at the last unasked close, and at the loss.
    droppedAt: int,
    lostAt: int)

  datatype Action =
    | Tick(ms: nat)
    | Build
    | SocketOpen(socket: nat)
    | SocketFail(socket: nat)
    | SocketClose(socket: nat)
    | TimerFire
    | Rejected
    | Registered(ok: bool)
    | Stop

  // ─── Backoff ──────────────────────────────────────────────────────────────

  function Pow2(n: nat): nat {
    if n == 0 then 1 else 2 * Pow2(n - 1)
  }

  function BackoffDelay(attempt: nat, o: Options): int {
    var d := o.baseMs * Pow2(attempt);
    if d <= o.capMs then d else o.capMs
  }

  /** The first `n` delays together. */
  function TotalBackoff(n: nat, o: Options): int {
    if n == 0 then 0 else TotalBackoff(n - 1, o) + BackoffDelay(n - 1, o)
  }

  // ─── Steps ────────────────────────────────────────────────────────────────

  function GiveUp(s: Sub): Sub {
    s.(ws := None, lost := s.lost + (if s.lostNotified then 0 else 1), lostNotified := true, lostAt := s.now)
  }

  function ScheduleReconnect(s: Sub): Sub {
    if s.closed then s
    else if s.retryCount >= s.opts.maxAttempts then GiveUp(s)
    else
      var delay := BackoffDelay(s.retryCount, s.opts);
      s.(retryCount := s.retryCount + 1, timer := Some(s.now + delay), waited := s.waited + delay)
  }

  /** The owner's unsubscribe, or closeAll. */
  function StopNow(s: Sub): Sub {
    s.(closed := true, timer := None, ws := None,
       sockets :=
         if s.ws.Some? && s.ws.value < |s.sockets| then
           s.sockets[s.ws.value :=
             match s.sockets[s.ws.value]
             case Connecting => Doomed
             case Open => Leaving
             case other => other]
         else s.sockets)
  }

  predicate AtStage(s: Sub, stage: Stage) {
    s.attempt.Some? && s.attempt.value.stage == stage
  }

  predicate Enabled(s: Sub, a: Action) {
    match a
    case Tick(_) => true
    case Build => AtStage(s, Building)
    case SocketOpen(k) => k < |s.sockets| && s.sockets[k].Connecting?
    case SocketFail(k) => k < |s.sockets| && (s.sockets[k].Connecting? || s.sockets[k].Doomed?)
    case SocketClose(k) => k < |s.sockets| && (s.sockets[k].Open? || s.sockets[k].Leaving?)
    case TimerFire => s.timer.Some? && s.timer.value <= s.now
    case Rejected => AtStage(s, Refused)
    case Registered(_) => AtStage(s, Registering)
    case Stop => true
  }

  function Next(s: Sub, a: Action): Sub
    requires Enabled(s, a)
  {
    match a
    case Tick(ms) => s.(now := s.now + ms)
    case Build =>
      if s.closed then s.(attempt := Some(s.attempt.value.(stage := Refused)))
      else
        s.(sockets := s.sockets + [Connecting], ws := Some(|s.sockets|),
           attempt := Some(s.attempt.value.(stage := Dialing(|s.sockets|))))
    case SocketOpen(k) =>
      s.(sockets := s.sockets[k := Open], attempt := None, opens := s.opens + 1,
         restored := s.restored + (if s.retryCount > 0 then 1 else 0),
         retryCount := 0, failed := 0, waited := 0)
    case SocketFail(k) =>
      s.(sockets := s.sockets[k := Gone],
         attempt := if AtStage(s, Dialing(k)) then Some(s.attempt.value.(stage := Refused)) else s.attempt)
    case SocketClose(k) =>
      var s1 := s.(sockets := s.sockets[k := Gone]);
      if s.closed then s1 else ScheduleReconnect(s1.(drops := s1.drops + 1, droppedAt := s.now))
    case TimerFire =>
      var s1 := s.(timer := None);
      if s.closed then s1 else s1.(attempt := Some(Attempt(Stored, Building)))
    case Rejected =>
      (match s.attempt.value.kind
       case First => s.(attempt := None, closed := true, ws := None)
       case Stored =>
         if s.closed then s.(attempt := None)
         else s.(attempt := Some(Attempt(Stored, Registering)))
       case Fresh => ScheduleReconnect(s.(attempt := None, failed := s.failed + 1)))
    case Registered(ok) =>
      if ok then s.(attempt := Some(Attempt(Fresh, Building)))
      else ScheduleReconnect(s.(attempt := None, failed := s.failed + 1))
    case Stop => StopNow(s)
  }

  predicate Initial(s: Sub) {
    && !s.closed && s.retryCount == 0 && s.ws == None && s.timer == None
    && s.attempt == Some(Attempt(First, Building)) && s.sockets == [] && !s.lostNotified
    && s.opens == 0 && s.drops == 0 && s.restored == 0 && s.lost == 0 && s.failed == 0 && s.waited == 0
  }

  predicate Possible(s: Sub, run: seq<Action>)
    decreases |run|
  {
    run == [] || (Enabled(s, run[0]) && Possible(Next(s, run[0]), run[1..]))
  }

  function After(s: Sub, run: seq<Action>): Sub
    requires Possible(s, run)
    decreases |run|
  {
    if run == [] then s else After(Next(s, run[0]), run[1..])
  }

  // ─── Invariants ───────────────────────────────────────────────────────────

  predicate Streaming(s: Sub) {
    s.sockets != [] && (s.sockets[|s.sockets| - 1].Open? || s.sockets[|s.sockets| - 1].Leaving?)
  }

  function One(b: bool): nat {
    if b then 1 else 0
  }

  /** A reconnect is under way: its timer runs or its attempt does. */
  predicate Recovering(s: Sub) {
    s.timer.Some? || (s.attempt.Some? && s.attempt.value.kind != First)
  }

  /** Only the newest socket can be connecting or open, and there is at most one of
      a reconnect timer, an attempt in flight and an open socket. */
  ghost predicate Exclusive(s: Sub) {
    && (forall k | 0 <= k < |s.sockets| - 1 :: s.sockets[k].Gone?)
    && One(s.timer.Some?) + One(s.attempt.Some?) + One(Streaming(s)) <= 1
    && (s.sockets != [] ==>
          var last := |s.sockets| - 1;
          && (s.sockets[last].Connecting? || s.sockets[last].Doomed? ==> AtStage(s, Dialing(last)))
          && (s.sockets[last].Connecting? || s.sockets[last].Open? ==> s.ws == Some(last) && !s.closed)
          && (s.sockets[last].Doomed? || s.sockets[last].Leaving? ==> s.closed))
    && (forall k: nat | AtStage(s, Dialing(k)) ::
          k == |s.sockets| - 1 && (s.sockets[k].Connecting? || s.sockets[k].Doomed?))
    && (s.ws.Some? ==> s.ws.value < |s.sockets|)
    && (s.closed ==> s.timer == None && s.ws == None)
  }

  ghost predicate Attempts(s: Sub) {
    && (AtStage(s, Registering) ==> s.attempt.value.kind == Stored)
    && (s.attempt.Some? && s.attempt.value.kind == First ==> s.opens == 0)
    && (s.opens == 0 ==>
          && s.restored == 0 && s.drops == 0 && s.lost == 0 && !Recovering(s) && !Streaming(s)
          && s.retryCount == 0 && s.failed == 0 && s.waited == 0
          && (s.attempt.Some? || s.closed))
  }

  ghost predicate Counts(s: Sub) {
    && (s.opens > 0 ==> s.opens == 1 + s.restored)
    && s.restored + s.lost <= s.drops <= s.restored + s.lost + 1
    && (!s.closed ==> s.drops == s.restored + s.lost + One(Recovering(s)))
    && s.lost == One(s.lostNotified)
    && (s.lost == 1 ==> s.timer == None && s.attempt == None && s.ws == None && !Streaming(s))
    && (s.lost == 0 && !s.closed ==> s.timer.Some? || s.attempt.Some? || Streaming(s))
  }

  ghost predicate Budget(s: Sub) {
    && (s.retryCount == 0 || s.retryCount <= s.opts.maxAttempts)
    && s.waited == TotalBackoff(s.retryCount, s.opts)
    && s.failed + One(Recovering(s)) <= s.retryCount
    && (!s.closed ==> s.retryCount == s.failed + One(Recovering(s)))
    && (Streaming(s) ==> s.retryCount == 0 && s.failed == 0)
    && (s.attempt.Some? && s.attempt.value.kind == First ==> s.retryCount == 0)
    && (s.lost == 1 ==> s.retryCount == s.failed == (if s.opts.maxAttempts < 0 then 0 else s.opts.maxAttempts))
    && (Recovering(s) ==> s.retryCount > 0)
  }

  /** The clock has passed every delay waited since the last drop. */
  ghost predicate Elapsed(s: Sub) {
    && (s.timer.Some? ==> s.timer.value >= s.droppedAt + s.waited)
    && (s.attempt.Some? && s.attempt.value.kind != First ==> s.now >= s.droppedAt + s.waited)
    && (s.lost == 1 ==> s.now >= s.lostAt >= s.droppedAt + s.waited)
  }

  ghost predicate Inv(s: Sub) {
    Exclusive(s) && Attempts(s) && Counts(s) && Budget(s) && Elapsed(s)
  }

  lemma TickKeeps(s: Sub, ms: nat)
    requires Inv(s) && Enabled(s, Tick(ms))
    ensures Inv(Next(s, Tick(ms)))
  {
  }

  lemma BuildKeeps(s: Sub)
    requires Inv(s) && Enabled(s, Build)
    ensures Inv(Next(s, Build))
  {
  }

  lemma SocketOpenKeeps(s: Sub, k: nat)
    requires Inv(s) && Enabled(s, SocketOpen(k))
    ensures Inv(Next(s, SocketOpen(k)))
  {
  }

  lemma SocketFailKeeps(s: Sub, k: nat)
    requires Inv(s) && Enabled(s, SocketFail(k))
    ensures Inv(Next(s, SocketFail(k)))
  {
  }

  lemma SocketCloseKeeps(s: Sub, k: nat)
    requires Inv(s) && Enabled(s, SocketClose(k))
    ensures Inv(Next(s, SocketClose(k)))
  {
  }

  lemma TimerFireKeeps(s: Sub)
    requires Inv(s) && Enabled(s, TimerFire)
    ensures Inv(Next(s, TimerFire))
  {
  }

  lemma RejectedKeeps(s: Sub)
    requires Inv(s) && Enabled(s, Rejected)
    ensures Inv(Next(s, Rejected))
  {
  }

  lemma RegisteredKeeps(s: Sub, ok: bool)
    requires Inv(s) && Enabled(s, Registered(ok))
    ensures Inv(Next(s, Registered(ok)))
  {
  }

  lemma StopKeeps(s: Sub)
    requires Inv(s) && Enabled(s, Stop)
    ensures Inv(Next(s, Stop))
  {
  }

  lemma InvStep(s: Sub, a: Action)
    requires Inv(s) && Enabled(s, a)
    ensures Inv(Next(s, a))
  {
    match a {
      case Tick(ms) => TickKeeps(s, ms);
      case Build => BuildKeeps(s);
      case SocketOpen(k) => SocketOpenKeeps(s, k);
      case SocketFail(k) => SocketFailKeeps(s, k);
      case SocketClose(k) => SocketCloseKeeps(s, k);
      case TimerFire => TimerFireKeeps(s);
      case Rejected => RejectedKeeps(s);
      case Registered(ok) => RegisteredKeeps(s, ok);
      case Stop => StopKeeps(s);
    }
  }

  lemma {:induction false} EveryRun(s: Sub, run: seq<Action>)
    requires Inv(s) && Possible(s, run)
    ensures Inv(After(s, run)) && After(s, run).opts == s.opts
    decreases |run|
  {
    if run != [] {
      InvStep(s, run[0]);
      EveryRun(Next(s, run[0]), run[1..]);
    }
  }

  // ─── Theorems ─────────────────────────────────────────────────────────────

  /** At most one of a reconnect timer, an attempt in flight and an open socket; and
      while the stream is neither stopped nor lost, exactly one: it never goes quiet
      without telling the owner. */
  lemma OneThingAtATime(s0: Sub, run: seq<Action>)
    requires Initial(s0) && Possible(s0, run)
    ensures
      var s := After(s0, run);
      var busy := One(s.timer.Some?) + One(s.attempt.Some?) + One(Streaming(s));
      && busy <= 1
      && (!s.closed && s.lost == 0 ==> busy == 1)
      && (forall k | 0 <= k < |s.sockets| - 1 :: s.sockets[k].Gone?)
  {
    EveryRun(s0, run);
  }

  /** Every open after the first is reported restored; every unasked close was made
      good, or lost, or is being recovered. */
  lemma DropsAreAccountedFor(s0: Sub, run: seq<Action>)
    requires Initial(s0) && Possible(s0, run)
    ensures
      var s := After(s0, run);
      && (s.opens > 0 ==> s.opens == 1 + s.restored)
      && s.restored + s.lost <= s.drops <= s.restored + s.lost + 1
      && (!s.closed ==> s.drops == s.restored + s.lost + One(Recovering(s)))
  {
    EveryRun(s0, run);
  }

  /** The stream is reported lost at most once, only after exactly the allowed number
      of failed attempts since the last open and the whole backoff: between the last
      drop and the loss the clock advanced by at least the sum of the delays, 61 000 ms
      by default. Then no timer, attempt or socket is left. */
  lemma LostAfterWholeBudget(s0: Sub, run: seq<Action>)
    requires Initial(s0) && Possible(s0, run)
    ensures
      var s := After(s0, run);
      var allowed := if s0.opts.maxAttempts < 0 then 0 else s0.opts.maxAttempts;
      && s.lost <= 1
      && s.failed <= allowed
      && (s.lost == 1 ==>
            && s.failed == allowed && s.waited == TotalBackoff(allowed, s0.opts)
            && s.lostAt - s.droppedAt >= TotalBackoff(allowed, s0.opts)
            && s.timer == None && s.attempt == None && s.ws == None && !Streaming(s))
      && (s.lost == 1 && s0.opts == DefaultOptions ==> s.waited == 61000 <= s.lostAt - s.droppedAt)
  {
    EveryRun(s0, run);
    DefaultBackoff();
  }

  /** 1 + 2 + 4 + 8 + 16 + 30 seconds. */
  lemma DefaultBackoff()
    ensures TotalBackoff(6, DefaultOptions) == 61000
  {
    assert Pow2(3) == 8;
    assert Pow2(5) == 32;
    assert TotalBackoff(3, DefaultOptions) == 7000;
  }

  /** After the owner stopped (or the loss was reported) no socket is built, none
      opens and neither callback fires, whatever still happens. */
  lemma {:induction false} SilentAfterStop(s: Sub, run: seq<Action>)
    requires Inv(s) && (s.closed || s.lost == 1) && Possible(s, run)
    ensures
      var s' := After(s, run);
      && |s'.sockets| == |s.sockets| && s'.opens == s.opens
      && s'.restored == s.restored && s'.lost == s.lost
      && (s'.closed || s'.lost == 1) && (s.closed ==> s'.closed)
    decreases |run|
  {
    if run != [] {
      InvStep(s, run[0]);
      SilentAfterStop(Next(s, run[0]), run[1..]);
    }
  }

  /** The same from any reached state: once a run has stopped the subscription, its
      sockets, opens and callbacks stay what they were. */
  lemma StopIsFinal(s0: Sub, before: seq<Action>, after: seq<Action>)
    requires Initial(s0) && Possible(s0, before) && Possible(StopNow(After(s0, before)), after)
    ensures
      var s := After(s0, before);
      var s' := After(StopNow(s), after);
      && |s'.sockets| == |s.sockets| && s'.opens == s.opens
      && s'.restored == s.restored && s'.lost == s.lost && s'.closed
  {
    EveryRun(s0, before);
    var s := After(s0, before);
    InvStep(s, Stop);
    SilentAfterStop(Next(s, Stop), after);
  }
}

/** One subscription as the source has it: an object whose handlers update its
    fields. Each method is one step of module WsLifecycle. */
module Subscription {
  import opened Maybe
  import opened WsLifecycle

  class ActiveSubscription {
    const opts: Options
    /** The clock; only the environment moves it. */
    var now: int
    var closed: bool
    var retryCount: nat
    var ws: Option<nat>
    var reconnectTimer: Option<int>
    var lostNotified: bool
    /** The promise chain of the attempt in flight, and the sockets made so far. */
    var attempt: Option<Attempt>
    var sockets: seq<Socket>
    ghost var opens: nat
    ghost var drops: nat
    ghost var restored: nat
    ghost var lost: nat
    ghost var failed: nat
    ghost var waited: int
    ghost var droppedAt: int
    ghost var lostAt: int

    constructor (opts: Options, now: int)
      ensures Initial(State()) && State().opts == opts && State().now == now
    {
      this.opts, this.now := opts, now;
      closed, retryCount, ws, reconnectTimer, lostNotified := false, 0, None, None, false;
      attempt, sockets := Some(Attempt(First, Building)), [];
      opens, drops, restored, lost, failed, waited, droppedAt, lostAt := 0, 0, 0, 0, 0, 0, 0, 0;
    }

    ghost function State(): Sub
      reads this
    {
      Sub(opts, now, closed, retryCount, ws, reconnectTimer, attempt, sockets, lostNotified,
          opens, drops, restored, lost, failed, waited, droppedAt, lostAt)
    }

    /** Make the socket, unless the subscription was closed meanwhile. */
    method BuildSocket()
      requires Enabled(State(), Build)
      modifies this
      ensures State() == Next(old(State()), Build)
    {
      if closed {
        attempt := Some(attempt.value.(stage := Refused));
        return;
      }
      attempt := Some(attempt.value.(stage := Dialing(|sockets|)));
      ws := Some(|sockets|);
      sockets := sockets + [Connecting];
    }

    method OnOpen(k: nat) returns (tellRestored: bool)
      requires Enabled(State(), SocketOpen(k))
      modifies this
      ensures State() == Next(old(State()), SocketOpen(k))
      ensures tellRestored == (old(retryCount) > 0)
    {
      tellRestored := retryCount > 0;
      retryCount := 0;
      attempt := None;
      sockets := sockets[k := Open];
      CountOpen(tellRestored);
    }

    ghost method CountOpen(restores: bool)
      modifies this`opens, this`failed, this`waited, this`restored
      ensures opens == old(opens) + 1 && failed == 0 && waited == 0 && restored == old(restored) + One(restores)
    {
      opens, failed, waited, restored := opens + 1, 0, 0, restored + One(restores);
    }

    /** The socket failed before it opened. */
    method OnFailure(k: nat)
      requires Enabled(State(), SocketFail(k))
      modifies this
      ensures State() == Next(old(State()), SocketFail(k))
    {
      sockets := sockets[k := Gone];
      if attempt.Some? && attempt.value.stage == Dialing(k) {
        attempt := Some(attempt.value.(stage := Refused));
      }
    }

    method OnClose(k: nat) returns (tellLost: bool)
      requires Enabled(State(), SocketClose(k))
      modifies this
      ensures State() == Next(old(State()), SocketClose(k))
      ensures lost == old(lost) + One(tellLost)
    {
      sockets := sockets[k := Gone];
      if closed { return false; }
      drops, droppedAt := drops + 1, now;
      tellLost := Reconnect();
    }

    method Reconnect() returns (tellLost: bool)
      modifies this
      ensures State() == ScheduleReconnect(old(State()))
      ensures lost == old(lost) + One(tellLost)
    {
      if closed { return false; }
      if retryCount >= opts.maxAttempts {
        ws := None;
        tellLost := !lostNotified;
        lostNotified := true;
        lost, lostAt := lost + One(tellLost), now;
        return;
      }
      var delay := BackoffDelay(retryCount, opts);
      retryCount := retryCount + 1;
      reconnectTimer := Some(now + delay);
      waited := waited + delay;
      return false;
    }

    method OnTimer()
      requires Enabled(State(), TimerFire)
      modifies this
      ensures State() == Next(old(State()), TimerFire)
    {
      reconnectTimer := None;
      if closed { return; }
      attempt := Some(Attempt(Stored, Building));
    }

    /** What awaited the open continues after its rejection. */
    method OnRejected() returns (tellLost: bool)
      requires Enabled(State(), Rejected)
      modifies this
      ensures State() == Next(old(State()), Rejected)
      ensures lost == old(lost) + One(tellLost)
    {
      tellLost := false;
      match attempt.value.kind {
        case First => attempt, closed, ws := None, true, None;
        case Stored => attempt := if closed then None else Some(Attempt(Stored, Registering));
        case Fresh =>
          attempt, failed := None, failed + 1;
          tellLost := Reconnect();
      }
    }

    /** The re-registration answered. */
    method OnRegistered(ok: bool) returns (tellLost: bool)
      requires Enabled(State(), Registered(ok))
      modifies this
      ensures State() == Next(old(State()), Registered(ok))
      ensures lost == old(lost) + One(tellLost)
    {
      if ok {
        attempt := Some(Attempt(Fresh, Building));
        return false;
      }
      attempt, failed := None, failed + 1;
      tellLost := Reconnect();
    }

    method Unsubscribe()
      modifies this
      ensures State() == Next(old(State()), Stop)
    {
      closed := true;
      reconnectTimer := None;
      if ws.Some? && ws.value < |sockets| {
        match sockets[ws.value] {
          case Connecting => sockets := sockets[ws.value := Doomed];
          case Open => sockets := sockets[ws.value := Leaving];
          case _ =>
        }
      }
      ws := None;
    }
  }
}
