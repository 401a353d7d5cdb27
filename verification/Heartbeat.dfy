/** The heartbeat of one open socket as a timed machine (WsSubscriber.startHeartbeat
    and stopHeartbeat). The interval timer fires on time. */
module Heartbeat {
  import opened Maybe

  /** `current`: the subscription is not closed and this socket is still its own. */
  datatype Heart = Heart(
    interval: int,
    now: int,
    nextTick: int,
    on: bool,
    awaitingPong: bool,
    current: bool,
    pings: seq<int>,
    terminated: Option<int>)

  datatype Action = Advance(ms: nat) | Tick | Pong | Leave | StopTimer

  predicate Enabled(h: Heart, a: Action) {
    match a
    case Advance(ms) => h.on ==> h.now + ms <= h.nextTick
    case Tick => h.on && h.now == h.nextTick
    case Pong => true
    case Leave => true
    case StopTimer => true
  }

  function Next(h: Heart, a: Action): Heart
    requires Enabled(h, a)
  {
    match a
    case Advance(ms) => h.(now := h.now + ms)
    case Tick =>
      var h' := h.(nextTick := h.nextTick + h.interval);
      if !h.current then h'.(on := false)
      else if h.awaitingPong then h'.(on := false, terminated := Some(h.now))
      else h'.(awaitingPong := true, pings := h.pings + [h.now])
    case Pong => h.(awaitingPong := false)
    case Leave => h.(current := false)
    case StopTimer => h.(on := false)
  }

  /** As set up when the socket opens. */
  predicate Started(h: Heart) {
    && h.interval > 0 && h.nextTick == h.now + h.interval
    && h.on && !h.awaitingPong && h.current && h.pings == [] && h.terminated == None
  }

  predicate Possible(h: Heart, run: seq<Action>)
    decreases |run|
  {
    run == [] || (Enabled(h, run[0]) && Possible(Next(h, run[0]), run[1..]))
  }

  function After(h: Heart, run: seq<Action>): Heart
    requires Possible(h, run)
    decreases |run|
  {
    if run == [] then h else After(Next(h, run[0]), run[1..])
  }

  predicate Inv(h: Heart) {
    h.interval > 0 && (h.on ==> h.nextTick - h.interval <= h.now <= h.nextTick && h.terminated == None)
  }

  lemma {:induction false} EveryRun(h: Heart, run: seq<Action>)
    requires Inv(h) && Possible(h, run)
    ensures Inv(After(h, run))
    decreases |run|
  {
    if run != [] { EveryRun(Next(h, run[0]), run[1..]); }
  }

  /** The peer answers nothing, and the subscription keeps the socket. */
  predicate Silence(run: seq<Action>) {
    forall i | 0 <= i < |run| :: run[i].Advance? || run[i].Tick?
  }

  /** `limit`: the latest tick that can still pass without the socket being terminated. */
  lemma {:induction false} SilenceEnds(h: Heart, run: seq<Action>, limit: int)
    requires Inv(h) && Possible(h, run) && Silence(run) && h.current
    requires h.on && h.nextTick + (if h.awaitingPong then 0 else h.interval) <= limit
    ensures
      var h' := After(h, run);
      if h'.on then h'.now <= limit else h'.terminated.Some? && h'.terminated.value <= limit
    decreases |run|
  {
    if run != [] {
      var h1 := Next(h, run[0]);
      if h1.on {
        SilenceEnds(h1, run[1..], limit);
      } else {
        StaysTerminated(h1, run[1..]);
      }
    }
  }

  lemma {:induction false} StaysTerminated(h: Heart, run: seq<Action>)
    requires !h.on && Possible(h, run)
    ensures !After(h, run).on && After(h, run).terminated == h.terminated && After(h, run).pings == h.pings
    decreases |run|
  {
    if run != [] { StaysTerminated(Next(h, run[0]), run[1..]); }
  }

  /** A socket whose peer stops answering at some moment is terminated within two
      intervals of that moment. */
  lemma HalfOpenIsTerminated(h0: Heart, before: seq<Action>, silence: seq<Action>)
    requires Started(h0) && Possible(h0, before)
    requires After(h0, before).on && After(h0, before).current
    requires Possible(After(h0, before), silence) && Silence(silence)
    requires After(After(h0, before), silence).now > After(h0, before).now + 2 * h0.interval
    ensures
      var t := After(h0, before).now;
      var h := After(After(h0, before), silence);
      h.terminated.Some? && h.terminated.value <= t + 2 * h0.interval
  {
    EveryRun(h0, before);
    IntervalFixed(h0, before);
    var h := After(h0, before);
    SilenceEnds(h, silence, h.now + 2 * h.interval);
  }

  lemma {:induction false} IntervalFixed(h: Heart, run: seq<Action>)
    requires Possible(h, run)
    ensures After(h, run).interval == h.interval
    decreases |run|
  {
    if run != [] { IntervalFixed(Next(h, run[0]), run[1..]); }
  }

  /** Between any two ticks there is a pong. */
  predicate AnswersInTime(run: seq<Action>) {
    forall i, j | 0 <= i < j < |run| && run[i].Tick? && run[j].Tick? :: exists k :: i < k < j && run[k].Pong?
  }

  /** A socket that answers every ping before the next tick is never terminated. */
  lemma {:induction false} AnsweredIsKept(h: Heart, run: seq<Action>)
    requires Possible(h, run) && AnswersInTime(run) && h.terminated == None
    requires h.awaitingPong ==>
               forall j | 0 <= j < |run| && run[j].Tick? :: exists k :: 0 <= k < j && run[k].Pong?
    ensures After(h, run).terminated == None
    decreases |run|
  {
    if run != [] {
      var h1 := Next(h, run[0]);
      var rest := run[1..];
      forall i, j | 0 <= i < j < |rest| && rest[i].Tick? && rest[j].Tick?
        ensures exists k :: i < k < j && rest[k].Pong?
      {
        var k :| i + 1 < k < j + 1 && run[k].Pong?;
        assert rest[k - 1].Pong?;
      }
      if h1.awaitingPong {
        forall j | 0 <= j < |rest| && rest[j].Tick?
          ensures exists k :: 0 <= k < j && rest[k].Pong?
        {
          assert run[j + 1].Tick?;
          var k :| 0 < k < j + 1 && run[k].Pong?;
          assert rest[k - 1].Pong?;
        }
      }
      AnsweredIsKept(h1, rest);
    }
  }

  /** No tick pings or terminates a socket that was closed or replaced. */
  lemma {:induction false} LeftSocketIsLeftAlone(h: Heart, run: seq<Action>)
    requires Possible(h, run) && !h.current
    ensures After(h, run).pings == h.pings && After(h, run).terminated == h.terminated
    decreases |run|
  {
    if run != [] { LeftSocketIsLeftAlone(Next(h, run[0]), run[1..]); }
  }

  /** While its timer runs the pings are exactly one at each whole interval that has passed,
      whose tick may still be due. */
  ghost predicate PingedOften(h: Heart, from: int) {
    && (forall i | 0 <= i < |h.pings| :: h.pings[i] == from + (i + 1) * h.interval)
    && h.nextTick == from + (|h.pings| + 1) * h.interval
    && h.nextTick - h.interval <= h.now <= h.nextTick
  }

  lemma PingedStep(h: Heart, a: Action, from: int)
    requires h.interval > 0 && h.on && PingedOften(h, from) && Enabled(h, a) && Next(h, a).on
    ensures PingedOften(Next(h, a), from)
  {
  }

  lemma {:induction false} PingedFrom(h: Heart, run: seq<Action>, from: int)
    requires h.interval > 0 && h.on && PingedOften(h, from) && Possible(h, run) && After(h, run).on
    ensures PingedOften(After(h, run), from)
    decreases |run|
  {
    if run != [] {
      if !Next(h, run[0]).on {
        StaysTerminated(Next(h, run[0]), run[1..]);
      } else {
        PingedStep(h, run[0], from);
        PingedFrom(Next(h, run[0]), run[1..], from);
      }
    }
  }

  /** A live socket is pinged once per interval. */
  lemma PingedEveryInterval(h0: Heart, run: seq<Action>)
    requires Started(h0) && Possible(h0, run) && After(h0, run).on
    ensures
      var h := After(h0, run);
      && (forall i | 0 <= i < |h.pings| :: h.pings[i] == h0.now + (i + 1) * h0.interval)
      && h0.now + |h.pings| * h0.interval <= h.now <= h0.now + (|h.pings| + 1) * h0.interval
  {
    IntervalFixed(h0, run);
    PingedFrom(h0, run, h0.now);
  }

  /** The timer of a current socket that answers runs on. */
  lemma {:induction false} AnsweredTimerRuns(h: Heart, run: seq<Action>)
    requires Possible(h, run) && AnswersInTime(run) && h.on && h.current
    requires forall a | a in run :: !a.Leave? && !a.StopTimer?
    requires h.awaitingPong ==>
               forall j | 0 <= j < |run| && run[j].Tick? :: exists k :: 0 <= k < j && run[k].Pong?
    ensures After(h, run).on && After(h, run).current
    decreases |run|
  {
    if run != [] {
      var h1, rest := Next(h, run[0]), run[1..];
      assert run[0] in run;
      forall i, j | 0 <= i < j < |rest| && rest[i].Tick? && rest[j].Tick?
        ensures exists k :: i < k < j && rest[k].Pong?
      {
        var k :| i + 1 < k < j + 1 && run[k].Pong?;
        assert rest[k - 1].Pong?;
      }
      if h1.awaitingPong {
        forall j | 0 <= j < |rest| && rest[j].Tick?
          ensures exists k :: 0 <= k < j && rest[k].Pong?
        {
          assert run[j + 1].Tick?;
          var k :| 0 < k < j + 1 && run[k].Pong?;
          assert rest[k - 1].Pong?;
        }
      }
      AnsweredTimerRuns(h1, rest);
    }
  }

  /** From any reached moment the next tick comes: it pings a current socket that answered,
      terminates one that did not, and ends the timer of one that was left. */
  lemma TickComes(h0: Heart, before: seq<Action>)
    requires Started(h0) && Possible(h0, before) && After(h0, before).on
    ensures
      var h := After(h0, before);
      && h.now <= h.nextTick
      && var run := [Advance(h.nextTick - h.now)] + [Tick];
      && Possible(h, run)
      && var h' := After(h, run);
      && h'.now == h.nextTick
      && (h'.on <==> h.current && !h.awaitingPong)
      && h'.pings == (if h.current && !h.awaitingPong then h.pings + [h.nextTick] else h.pings)
      && (h.current ==> h'.awaitingPong)
      && h'.terminated == (if h.current && h.awaitingPong then Some(h.nextTick) else None)
  {
    EveryRun(h0, before);
    var h := After(h0, before);
    var a := Advance(h.nextTick - h.now);
    assert ([a] + [Tick])[1..] == [Tick] && [Tick][1..] == [];
    assert After(Next(h, a), [Tick]) == Next(Next(h, a), Tick);
  }

  /** A pong, a closed or replaced socket and a stopped timer can come at any moment; a
      stopped timer pings and terminates no more. */
  lemma EventsCome(h: Heart, rest: seq<Action>)
    ensures Enabled(h, Pong) && !Next(h, Pong).awaitingPong
    ensures Enabled(h, Leave) && !Next(h, Leave).current
    ensures Enabled(h, StopTimer)
    ensures Possible(Next(h, StopTimer), rest) ==>
              After(Next(h, StopTimer), rest).pings == h.pings && After(Next(h, StopTimer), rest).terminated == h.terminated
  {
    if Possible(Next(h, StopTimer), rest) { StaysTerminated(Next(h, StopTimer), rest); }
  }
}
