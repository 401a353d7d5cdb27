/** How a dropped stream comes back (scheduleReconnect and reRegister in
    src/WsSubscriber.ts): the stored URL is tried first; when it is refused the controller
    is asked to register again; and nothing counts as a failed attempt before that. */
module WsRecovery {
  import opened Maybe
  import opened WsLifecycle

  // ─── Every failure asked to register again ────────────────────────────────

  /** One step on: n, or n + 1 if it begins a re-registration, or 0 at an open. */
  function Counted(s: Sub, s': Sub, n: nat): nat {
    if s'.opens > s.opens then 0
    else n + One(AtStage(s', Registering) && !AtStage(s, Registering))
  }

  /** How often a re-registration was begun since the last open, as seen from outside. */
  function AskedSince(s: Sub, run: seq<Action>, n: nat): nat
    requires Possible(s, run)
    decreases |run|
  {
    if run == [] then n else AskedSince(Next(s, run[0]), run[1..], Counted(s, Next(s, run[0]), n))
  }

  /** A re-registration is awaited, or the socket behind one. */
  predicate ReRegistering(s: Sub) {
    s.attempt.Some? && (s.attempt.value.stage.Registering? || s.attempt.value.kind.Fresh?)
  }

  ghost predicate CountIs(s: Sub, n: nat) {
    n == s.failed + One(ReRegistering(s))
  }

  lemma AskedStep(s: Sub, a: Action, n: nat)
    requires Inv(s) && Enabled(s, a) && CountIs(s, n)
    ensures CountIs(Next(s, a), Counted(s, Next(s, a), n))
  {
  }

  lemma {:induction false} AskedFrom(s: Sub, run: seq<Action>, n: nat)
    requires Inv(s) && Possible(s, run) && CountIs(s, n)
    ensures CountIs(After(s, run), AskedSince(s, run, n))
    decreases |run|
  {
    if run != [] {
      AskedStep(s, run[0], n);
      InvStep(s, run[0]);
      AskedFrom(Next(s, run[0]), run[1..], Counted(s, Next(s, run[0]), n));
    }
  }

  /** In every run each failed attempt since the last open asked the controller to register
      again, and the only other request is the one under way; so a stream is reported
      lost only after as many re-registrations as attempts are allowed. */
  lemma EachFailureAskedToRegister(s0: Sub, run: seq<Action>)
    requires Initial(s0) && Possible(s0, run)
    ensures
      var s := After(s0, run);
      var allowed := if s0.opts.maxAttempts < 0 then 0 else s0.opts.maxAttempts;
      && AskedSince(s0, run, 0) == s.failed + One(ReRegistering(s))
      && (s.lost == 1 ==> AskedSince(s0, run, 0) == allowed)
  {
    AskedFrom(s0, run, 0);
    EveryRun(s0, run);
  }

  /** An attempt fails only with a re-registration that fails, or with a socket behind one
      that succeeded. */
  lemma WhatFails(s: Sub, a: Action)
    requires Inv(s) && Enabled(s, a)
    ensures Next(s, a).failed > s.failed <==> a == Registered(false) || (a == Rejected && s.attempt.value.kind == Fresh)
    ensures
      var s' := Next(s, a);
      s'.attempt.Some? && s'.attempt.value.kind == Fresh ==>
        a == Registered(true) || (s.attempt.Some? && s.attempt.value.kind == Fresh)
  {
  }

  // ─── The way back ─────────────────────────────────────────────────────────

  /** The delay is the base doubled for each attempt before it, up to the cap. */
  lemma DelaysDouble(n: nat, o: Options)
    requires o.baseMs >= 0 && o.capMs >= 0
    ensures BackoffDelay(0, o) == if o.baseMs <= o.capMs then o.baseMs else o.capMs
    ensures BackoffDelay(n + 1, o) == if 2 * BackoffDelay(n, o) <= o.capMs then 2 * BackoffDelay(n, o) else o.capMs
  {
    assert o.baseMs * Pow2(n + 1) == 2 * (o.baseMs * Pow2(n));
  }

  ghost predicate Runs(s: Sub, run: seq<Action>, end: Sub) {
    Possible(s, run) && After(s, run) == end
  }

  /** One step in front of a run. */
  lemma OneFirst(s: Sub, a: Action, s1: Sub, rest: seq<Action>, end: Sub)
    requires Enabled(s, a) && Next(s, a) == s1 && Runs(s1, rest, end)
    ensures Runs(s, [a] + rest, end)
  {
    assert ([a] + rest)[1..] == rest;
  }

  /** Streaming again, this once more. */
  predicate IsRestored(s: Sub, s': Sub) {
    && !s'.closed && s'.lost == s.lost && Streaming(s') && s'.sockets[|s'.sockets| - 1].Open?
    && s'.attempt == None && s'.timer == None && s'.retryCount == 0 && s'.failed == 0
    && s'.opens == s.opens + 1 && s'.restored == s.restored + 1
  }

  /** A drop with attempts left sets the timer to the first delay. */
  lemma DropSetsTimer(s0: Sub, before: seq<Action>)
    requires Initial(s0) && Possible(s0, before)
    requires
      var s := After(s0, before);
      !s.closed && Streaming(s) && s0.opts.maxAttempts > 0
    ensures
      var s := After(s0, before);
      var k := |s.sockets| - 1;
      && Enabled(s, SocketClose(k))
      && var s' := Next(s, SocketClose(k));
         s'.timer == Some(s.now + BackoffDelay(0, s0.opts)) && !s'.closed && s'.drops == s.drops + 1 && s'.lost == s.lost
  {
    EveryRun(s0, before);
  }

  /** An attempt is about to dial. */
  predicate AboutToDial(s: Sub) {
    s.attempt.Some? && s.attempt.value.stage == Building && s.attempt.value.kind != Kind.First && !s.closed
  }

  /** The same subscription, but for the clock and what is under way. */
  predicate SameCounts(s: Sub, s': Sub) {
    s'.opens == s.opens && s'.restored == s.restored && s'.lost == s.lost
  }

  lemma DialledOpens(s: Sub) returns (end: Sub)
    requires Inv(s) && AboutToDial(s)
    ensures IsRestored(s, end) && Runs(s, [Build] + [SocketOpen(|s.sockets|)], end)
  {
    var k := |s.sockets|;
    var s1 := Next(s, Build);
    InvStep(s, Build);
    end := Next(s1, SocketOpen(k));
    OneFirst(s1, SocketOpen(k), end, [], end);
    OneFirst(s, Build, s1, [SocketOpen(k)], end);
  }

  lemma TimerTries(s: Sub, ms: nat, rest: seq<Action>, end: Sub)
    requires Inv(s) && s.timer.Some? && s.timer.value <= s.now + ms
    requires
      var s2 := s.(now := s.now + ms, timer := None, attempt := Some(Attempt(Stored, Building)));
      Runs(s2, rest, end)
    ensures
      var s2 := s.(now := s.now + ms, timer := None, attempt := Some(Attempt(Stored, Building)));
      AboutToDial(s2) && Inv(s2)
    ensures Runs(s, [Tick(ms)] + ([TimerFire] + rest), end)
  {
    var s1 := s.(now := s.now + ms);
    InvStep(s, Tick(ms));
    InvStep(s1, TimerFire);
    OneFirst(s1, TimerFire, Next(s1, TimerFire), rest, end);
    OneFirst(s, Tick(ms), s1, [TimerFire] + rest, end);
  }

  /** From any reached wait: when the timer has fired and the stored URL opens, the stream is
      restored. */
  lemma StoredUrlRestores(s0: Sub, before: seq<Action>, ms: nat) returns (end: Sub)
    requires Initial(s0) && Possible(s0, before)
    requires
      var s := After(s0, before);
      s.timer.Some? && s.timer.value <= s.now + ms
    ensures
      var s := After(s0, before);
      && IsRestored(s, end)
      && Runs(s, [Tick(ms)] + ([TimerFire] + ([Build] + [SocketOpen(|s.sockets|)])), end)
  {
    EveryRun(s0, before);
    var s := After(s0, before);
    Waited(s, ms);
    end := DialledOpens(s.(now := s.now + ms, timer := None, attempt := Some(Attempt(Stored, Building))));
    TimerTries(s, ms, [Build] + [SocketOpen(|s.sockets|)], end);
  }

  lemma Waited(s: Sub, ms: nat)
    requires Inv(s) && s.timer.Some? && s.timer.value <= s.now + ms
    ensures
      var s2 := s.(now := s.now + ms, timer := None, attempt := Some(Attempt(Stored, Building)));
      AboutToDial(s2) && Inv(s2)
  {
    InvStep(s, Tick(ms));
    InvStep(s.(now := s.now + ms), TimerFire);
  }

  /** A stored URL that is refused is followed by a re-registration, and that one by its own
      dialling. */
  lemma RefusedRegisters(s: Sub, rest: seq<Action>, end: Sub)
    requires AboutToDial(s) && s.attempt.value.kind == Stored
    requires
      var s4 := s.(sockets := s.sockets + [Gone], ws := Some(|s.sockets|), attempt := Some(Attempt(Fresh, Building)));
      Runs(s4, rest, end)
    ensures Runs(s, [Build] + ([SocketFail(|s.sockets|)] + ([Rejected] + ([Registered(true)] + rest))), end)
  {
    var k := |s.sockets|;
    var s1 := Next(s, Build);
    var s2 := Next(s1, SocketFail(k));
    var s3 := Next(s2, Rejected);
    var s4 := Next(s3, Registered(true));
    assert s4 == s.(sockets := s.sockets + [Gone], ws := Some(k), attempt := Some(Attempt(Fresh, Building)));
    OneFirst(s3, Registered(true), s4, rest, end);
    OneFirst(s2, Rejected, s3, [Registered(true)] + rest, end);
    OneFirst(s1, SocketFail(k), s2, [Rejected] + ([Registered(true)] + rest), end);
    OneFirst(s, Build, s1, [SocketFail(k)] + ([Rejected] + ([Registered(true)] + rest)), end);
  }

  lemma RestoredFrom(s: Sub, ms: nat) returns (end: Sub)
    requires Inv(s) && s.timer.Some? && s.timer.value <= s.now + ms
    ensures
      var k := |s.sockets|;
      var again := [Registered(true)] + ([Build] + [SocketOpen(k + 1)]);
      && IsRestored(s, end)
      && Runs(s, [Tick(ms)] + ([TimerFire] + ([Build] + ([SocketFail(k)] + ([Rejected] + again)))), end)
  {
    var k := |s.sockets|;
    Waited(s, ms);
    var s2 := s.(now := s.now + ms, timer := None, attempt := Some(Attempt(Stored, Building)));
    var s4 := s2.(sockets := s.sockets + [Gone], ws := Some(k), attempt := Some(Attempt(Fresh, Building)));
    RefusedIsInv(s2);
    end := DialledOpens(s4);
    var again := [Registered(true)] + ([Build] + [SocketOpen(k + 1)]);
    RefusedRegisters(s2, [Build] + [SocketOpen(k + 1)], end);
    TimerTries(s, ms, [Build] + ([SocketFail(k)] + ([Rejected] + again)), end);
  }

  /** From any reached wait, however many attempts failed before: when the stored URL is
      refused but the controller registers again and that socket opens, the stream is
      restored, once. */
  lemma RegisteringAgainRestores(s0: Sub, before: seq<Action>, ms: nat) returns (end: Sub)
    requires Initial(s0) && Possible(s0, before)
    requires
      var s := After(s0, before);
      s.timer.Some? && s.timer.value <= s.now + ms
    ensures
      var s := After(s0, before);
      var k := |s.sockets|;
      var again := [Registered(true)] + ([Build] + [SocketOpen(k + 1)]);
      && IsRestored(s, end)
      && Runs(s, [Tick(ms)] + ([TimerFire] + ([Build] + ([SocketFail(k)] + ([Rejected] + again)))), end)
  {
    EveryRun(s0, before);
    end := RestoredFrom(After(s0, before), ms);
  }

  lemma RefusedIsInv(s: Sub)
    requires Inv(s) && AboutToDial(s) && s.attempt.value.kind == Stored
    ensures
      var s4 := s.(sockets := s.sockets + [Gone], ws := Some(|s.sockets|), attempt := Some(Attempt(Fresh, Building)));
      Inv(s4) && AboutToDial(s4)
  {
    var s2 := s.(sockets := s.sockets + [Gone], ws := Some(|s.sockets|), attempt := Some(Attempt(Stored, Refused)));
    RefusedSocket(s);
    InvStep(s2, Rejected);
    InvStep(Next(s2, Rejected), Registered(true));
  }

  lemma RefusedSocket(s: Sub)
    requires Inv(s) && AboutToDial(s) && s.attempt.value.kind == Stored
    ensures Inv(s.(sockets := s.sockets + [Gone], ws := Some(|s.sockets|), attempt := Some(Attempt(Stored, Refused))))
  {
    var k := |s.sockets|;
    InvStep(s, Build);
    InvStep(Next(s, Build), SocketFail(k));
    assert Next(Next(s, Build), SocketFail(k)).sockets == s.sockets + [Gone];
  }

  // ─── The first open, and the end of every socket ──────────────────────────

  /** A first open that fails closes the subscription; there is no attempt, timer or socket
      left, and none comes. */
  lemma FirstOpenFails(s0: Sub, before: seq<Action>, rest: seq<Action>)
    requires Initial(s0) && Possible(s0, before) && Enabled(After(s0, before), Rejected)
    requires After(s0, before).attempt.value.kind == Kind.First && Possible(Next(After(s0, before), Rejected), rest)
    ensures
      var s := Next(After(s0, before), Rejected);
      && s.closed && s.attempt == None && s.timer == None && s.ws == None && s.opens == 0
      && After(s, rest).closed && After(s, rest).opens == 0 && |After(s, rest).sockets| == |s.sockets|
  {
    EveryRun(s0, before);
    InvStep(After(s0, before), Rejected);
    SilentAfterStop(Next(After(s0, before), Rejected), rest);
  }

  /** Every socket can still end, whatever was done with it, and a new subscription dials. */
  lemma SocketsEnd(s0: Sub, run: seq<Action>, k: nat)
    requires Initial(s0) && Possible(s0, run) && k < |After(s0, run).sockets|
    ensures Enabled(s0, Build)
    ensures
      var s := After(s0, run);
      !s.sockets[k].Gone? ==>
        && (Enabled(s, SocketFail(k)) || Enabled(s, SocketClose(k)))
        && (Enabled(s, SocketFail(k)) ==> Next(s, SocketFail(k)).sockets[k].Gone?)
        && (Enabled(s, SocketClose(k)) ==> Next(s, SocketClose(k)).sockets[k].Gone?)
  {
  }
}
