/** Two invariants every run of calls keeps: which challenge and count each
    Authorization header carried, and where each sent cookie came from. */
module AuthInvariants {
  import opened Requests
  import opened HttpAuth

  // ─── Nonce use counts ─────────────────────────────────────────────────────

  /** The nc values sent under the `g`-th adopted challenge, in sending order. */
  function Counts(wire: seq<Sending>, g: nat): seq<nat> {
    if wire == [] then []
    else
      var front := Counts(wire[..|wire| - 1], g);
      var x := wire[|wire| - 1];
      if x.credential.Some? && x.credential.value.adoption == g then front + [x.credential.value.nc] else front
  }

  predicate OneTwoThree(counts: seq<nat>) {
    forall i | 0 <= i < |counts| :: counts[i] == i + 1
  }

  ghost predicate Nonces(s: Session) {
    && (forall g: nat :: OneTwoThree(Counts(s.wire, g)))
    && (forall g: nat | g > s.adoptions :: Counts(s.wire, g) == [])
    && (s.challenge.Some? ==> |Counts(s.wire, s.adoptions)| == s.nonceCount)
    && (forall k | 0 <= k < |s.wire| && s.wire[k].credential.Some? ::
          var c := s.wire[k].credential.value;
          && c.adoption <= s.adoptions
          && (c.adoption == s.adoptions && s.challenge.Some? ==> c.nonce == s.challenge.value.nonce))
    && (forall i, k | 0 <= i < k < |s.wire| && s.wire[i].credential.Some? && s.wire[k].credential.Some? ::
          s.wire[i].credential.value.adoption == s.wire[k].credential.value.adoption ==>
            s.wire[i].credential.value.nonce == s.wire[k].credential.value.nonce)
  }

  lemma SendKeepsNonces(s: Session, w: World)
    requires Nonces(s) && CanAnswer(s)
    ensures Nonces(Send(s, w))
  {
    var s' := Send(s, w);
    assert s'.wire[..|s.wire|] == s.wire;
    forall g: nat
      ensures OneTwoThree(Counts(s'.wire, g)) && (g > s'.adoptions ==> Counts(s'.wire, g) == [])
      ensures g != s.adoptions ==> Counts(s'.wire, g) == Counts(s.wire, g)
    {
      assert OneTwoThree(Counts(s.wire, g));
    }
  }

  // ─── Where cookies come from ──────────────────────────────────────────────

  predicate Sets(x: Sending, cookie: (string, string)) {
    x.outcome.Answered? && cookie in x.outcome.answer.setCookies
  }

  /** `call` got an answer other than a 401 among `wire`. */
  ghost predicate GotThrough(wire: seq<Sending>, call: nat) {
    exists j :: 0 <= j < |wire| && wire[j].call == call && wire[j].outcome.Answered? && !Is401(wire[j].outcome)
  }

  /** Some answer in `wire` set the cookie and its call got a non-401 answer. */
  ghost predicate Vouched(wire: seq<Sending>, cookie: (string, string)) {
    exists k :: 0 <= k < |wire| && Sets(wire[k], cookie) && GotThrough(wire, wire[k].call)
  }

  /** An answer to this very call set the cookie. */
  ghost predicate OwnCall(wire: seq<Sending>, call: nat, cookie: (string, string)) {
    exists k :: 0 <= k < |wire| && Sets(wire[k], cookie) && wire[k].call == call
  }

  ghost predicate Origins(s: Session, saved: Jar) {
    && (forall c | c in s.cookies :: c in saved || Vouched(s.wire, c))
    && (forall c | c in s.challengeCookies :: OwnCall(s.wire, s.calls, c))
    && (forall m | 0 <= m < |s.wire| :: s.wire[m].call <= s.calls && CookiesExplained(s.wire, m, saved))
  }

  ghost predicate CookiesExplained(wire: seq<Sending>, m: nat, saved: Jar)
    requires m < |wire|
  {
    forall c | c in wire[m].cookies ::
      c in saved || Vouched(wire[..m], c) || OwnCall(wire[..m], wire[m].call, c)
  }

  lemma {:induction false} PutMembers(jar: Jar, name: string, value: string)
    ensures forall c | c in Put(jar, name, value) :: c in jar || c == (name, value)
  {
    if jar != [] && jar[0].0 != name { PutMembers(jar[1..], name, value); }
  }

  lemma {:induction false} PutAllMembers(jar: Jar, pairs: Jar)
    ensures forall c | c in PutAll(jar, pairs) :: c in jar || c in pairs
    decreases |pairs|
  {
    if pairs != [] {
      var front := pairs[..|pairs| - 1];
      PutAllMembers(jar, front);
      PutMembers(PutAll(jar, front), pairs[|pairs| - 1].0, pairs[|pairs| - 1].1);
    }
  }

  /** What is known of a wire stays known when more is sent. */
  lemma WireGrows(wire: seq<Sending>, x: Sending, c: (string, string))
    ensures Vouched(wire, c) ==> Vouched(wire + [x], c)
    ensures forall call: nat :: OwnCall(wire, call, c) ==> OwnCall(wire + [x], call, c)
  {
    var wire' := wire + [x];
    if Vouched(wire, c) {
      var k :| 0 <= k < |wire| && Sets(wire[k], c) && GotThrough(wire, wire[k].call);
      var j :| 0 <= j < |wire| && wire[j].call == wire[k].call && wire[j].outcome.Answered? && !Is401(wire[j].outcome);
      assert wire'[j] == wire[j] && wire'[k] == wire[k];
      assert GotThrough(wire', wire'[k].call);
    }
    forall call: nat | OwnCall(wire, call, c)
      ensures OwnCall(wire', call, c)
    {
      var k :| 0 <= k < |wire| && Sets(wire[k], c) && wire[k].call == call;
      assert wire'[k] == wire[k];
    }
  }

  lemma SendKeepsOrigins(s: Session, w: World, saved: Jar)
    requires Origins(s, saved) && CanAnswer(s)
    ensures Origins(Send(s, w), saved)
  {
    var s' := Send(s, w);
    var n := |s.wire|;
    var x := s'.wire[n];
    assert s'.wire == s.wire + [x] && s'.wire[..n] == s.wire;
    PutAllMembers(s.cookies, s.challengeCookies);
    assert CookiesExplained(s'.wire, n, saved);
    forall c { WireGrows(s.wire, x, c); }
    forall m | 0 <= m < n ensures CookiesExplained(s'.wire, m, saved) {
      assert s'.wire[m] == s.wire[m] && s'.wire[..m] == s.wire[..m];
      assert CookiesExplained(s.wire, m, saved);
    }
  }

  lemma StoreKeepsOrigins(s: Session, a: Answer, saved: Jar)
    requires Origins(s, saved)
    requires s.wire != [] && Last(s) == Answered(a) && s.wire[|s.wire| - 1].call == s.calls
    ensures Origins(StoreCookies(s, a), saved)
  {
    var last := |s.wire| - 1;
    if a.status == 401 {
      PutAllMembers(s.challengeCookies, a.setCookies);
      forall c | c in a.setCookies ensures OwnCall(s.wire, s.calls, c) {
        assert Sets(s.wire[last], c);
      }
    } else {
      PutAllMembers(s.cookies, s.challengeCookies + a.setCookies);
      assert GotThrough(s.wire, s.calls);
      forall c | c in s.challengeCookies + a.setCookies ensures Vouched(s.wire, c) {
        if c in a.setCookies {
          assert Sets(s.wire[last], c);
        } else {
          var k :| 0 <= k < |s.wire| && Sets(s.wire[k], c) && s.wire[k].call == s.calls;
        }
      }
    }
  }

  // ─── Both, along a call ───────────────────────────────────────────────────

  ghost predicate Inv(s: Session, saved: Jar) {
    Nonces(s) && Origins(s, saved)
  }

  lemma CounterKeeps(s: Session, saved: Jar)
    requires Inv(s, saved)
    ensures Inv(s.(fetches := s.fetches + 1), saved)
  {
  }

  lemma AttemptsKeep(s: Session, again: bool, w: World, saved: Jar)
    requires Inv(s, saved) && CanAnswer(s)
    ensures Inv(Attempts(s, again, w), saved)
  {
    SendKeeps(s, w, saved);
    if Resends(Send(s, w), again, w) { SendKeeps(Send(s, w), w, saved); }
  }

  lemma AnswerKeeps(s: Session, w: World, saved: Jar)
    requires Inv(s, saved) && s.wire != [] && s.wire[|s.wire| - 1].call == s.calls
    ensures Inv(Received(s, w).0, saved)
  {
    if Last(s).Answered? { StoreKeeps(s, Last(s).answer, saved); }
  }

  lemma ExchangeKeeps(s: Session, again: bool, w: World, saved: Jar)
    requires Inv(s, saved) && CanAnswer(s)
    ensures Inv(Received(Attempts(s, again, w), w).0, saved)
  {
    AttemptsKeep(s, again, w, saved);
    AttemptsSend(s, again, w);
    var s1 := Attempts(s, again, w);
    assert s1.wire[|s1.wire| - 1] in New(s, s1);
    AnswerKeeps(s1, w, saved);
  }

  lemma FetchKeeps(s: Session, again: bool, w: World, saved: Jar)
    requires Inv(s, saved)
    ensures Inv(RawFetch(s, again, w).0, saved)
  {
    var s0 := s.(fetches := s.fetches + 1);
    CounterKeeps(s, saved);
    var s' := RawFetch(s, again, w).0;
    if w.aborted(|s.wire|) || !CanAnswer(s) {
      assert s' == s0;
    } else {
      ExchangeKeeps(s0, again, w, saved);
      assert s' == Received(Attempts(s0, again, w), w).0;
    }
  }

  lemma SendKeeps(s: Session, w: World, saved: Jar)
    requires Inv(s, saved) && CanAnswer(s)
    ensures Inv(Send(s, w), saved)
  {
    SendKeepsNonces(s, w);
    SendKeepsOrigins(s, w, saved);
  }

  lemma StoreKeeps(s: Session, a: Answer, saved: Jar)
    requires Inv(s, saved)
    requires s.wire != [] && Last(s) == Answered(a) && s.wire[|s.wire| - 1].call == s.calls
    ensures Inv(StoreCookies(s, a), saved)
  {
    StoreKeepsOrigins(s, a, saved);
  }

  lemma AdoptKeeps(s: Session, c: Challenge, saved: Jar)
    requires Inv(s, saved)
    ensures Inv(Adopt(s, c), saved)
  {
  }

  lemma ForgetKeeps(s: Session, saved: Jar)
    requires Inv(s, saved)
    ensures Inv(ForgetChallengeCookies(s), saved)
    ensures Inv(FreshSession(s), saved)
    ensures Inv(DropChallenge(s), saved)
  {
  }

  lemma NewCallKeeps(s: Session, c: Call, saved: Jar)
    requires Inv(s, saved)
    ensures Inv(Opening(s, c), saved)
  {
    assert Nonces(Opening(s, c));
  }

  lemma AuthenticatedKeeps(s: Session, t: Try, saved: Jar)
    requires Inv(s, saved)
    ensures Inv(Authenticated(s, t).0, saved)
  {
    ForgetKeeps(s, saved);
  }

  lemma FreshFetchKeeps(s: Session, again: bool, w: World, c: Challenge, saved: Jar)
    requires Inv(s, saved)
    ensures Inv(RawFetch(Adopt(FreshSession(s), c), again, w).0, saved)
  {
    ForgetKeeps(s, saved);
    AdoptKeeps(FreshSession(s), c, saved);
    FetchKeeps(Adopt(FreshSession(s), c), again, w, saved);
  }

  lemma SecondAnswerKeeps(s: Session, again: bool, w: World, held: bool, t: Try, saved: Jar)
    requires Inv(s, saved)
    ensures Inv(SecondAnswer(s, again, w, held, t).0, saved)
  {
    AuthenticatedKeeps(s, t, saved);
    ForgetKeeps(s, saved);
    if t.Got? && t.answer.auth.Digest? {
      var c := t.answer.auth.challenge;
      FreshFetchKeeps(s, again, w, c, saved);
      var (s1, t1) := RawFetch(Adopt(FreshSession(s), c), again, w);
      AuthenticatedKeeps(s1, t1, saved);
    }
  }

  lemma AnsweredKeeps(s: Session, again: bool, w: World, held: bool, c: Challenge, saved: Jar)
    requires Inv(s, saved)
    ensures
      var (s1, t1) := RawFetch(Adopt(s, c), again, w);
      Inv(SecondAnswer(s1, again, w, held, t1).0, saved)
  {
    AdoptKeeps(s, c, saved);
    FetchKeeps(Adopt(s, c), again, w, saved);
    var (s1, t1) := RawFetch(Adopt(s, c), again, w);
    SecondAnswerKeeps(s1, again, w, held, t1, saved);
  }

  lemma HandshakeKeeps(s: Session, again: bool, w: World, held: bool, a: Answer, saved: Jar)
    requires Inv(s, saved)
    ensures Inv(Handshake(s, again, w, held, a).0, saved)
  {
    ForgetKeeps(s, saved);
    if a.auth.Digest? { AnsweredKeeps(s, again, w, held, a.auth.challenge, saved); }
  }

  lemma FirstAnswerKeeps(s0: Session, again: bool, w: World, held: bool, saved: Jar)
    requires Inv(s0, saved)
    ensures
      var (s1, t1) := RawFetch(s0, again, w);
      Inv((if t1.Got? then Handshake(s1, again, w, held, t1.answer) else (s1, t1)).0, saved)
  {
    FetchKeeps(s0, again, w, saved);
    var (s1, t1) := RawFetch(s0, again, w);
    if t1.Got? { HandshakeKeeps(s1, again, w, held, t1.answer, saved); }
  }

  lemma Retry503Keeps(s: Session, again: bool, w: World, t: Try, saved: Jar)
    requires Inv(s, saved)
    ensures Inv(Retry503(s, again, w, t).0, saved)
  {
    FetchKeeps(s, again, w, saved);
  }

  lemma ClosingKeeps(s: Session, c: Call, t: Try, saved: Jar)
    requires Inv(s, saved)
    ensures Inv(Closing(s, c, t).0, saved)
  {
  }

  lemma ExecuteKeeps(s: Session, c: Call, w: World, saved: Jar)
    requires Inv(s, saved)
    ensures Inv(Execute(s, c, w).0, saved)
  {
    var again := MayResend(c.req);
    var s0 := Opening(s, c);
    var held := s0.cookies != [];
    NewCallKeeps(s, c, saved);
    FirstAnswerKeeps(s0, again, w, held, saved);
    var (s1, t1) := RawFetch(s0, again, w);
    var (s2, t2) := if t1.Got? then Handshake(s1, again, w, held, t1.answer) else (s1, t1);
    Retry503Keeps(s2, again, w, t2, saved);
    ClosingKeeps(Retry503(s2, again, w, t2).0, c, Retry503(s2, again, w, t2).1, saved);
  }

  lemma {:induction false} EveryRun(s: Session, calls: seq<Call>, w: World)
    requires Initial(s)
    ensures Inv(Executed(s, calls, w), s.cookies)
    decreases |calls|
  {
    if calls != [] {
      var front := calls[..|calls| - 1];
      EveryRun(s, front, w);
      ExecuteKeeps(Executed(s, front, w), calls[|calls| - 1], w, s.cookies);
    }
  }

  // ─── The theorem on cookies ───────────────────────────────────────────────

  /** A cookie set only by 401 answers, none of whose calls got another answer, is
      never sent by a later call. */
  lemma RejectedCookieNeverLeaks(s: Session, calls: seq<Call>, w: World, m: nat, c: (string, string))
    requires Initial(s) && c !in s.cookies
    requires m < |Executed(s, calls, w).wire|
    requires
      var wire := Executed(s, calls, w).wire;
      forall k | 0 <= k < m && Sets(wire[k], c) ::
        wire[k].call != wire[m].call && !GotThrough(wire[..m], wire[k].call)
    ensures c !in Executed(s, calls, w).wire[m].cookies
  {
    EveryRun(s, calls, w);
    var wire := Executed(s, calls, w).wire;
    assert CookiesExplained(wire, m, s.cookies);
    assert forall k | 0 <= k < m :: wire[..m][k] == wire[k];
  }
}
