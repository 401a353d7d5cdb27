/** What holds over whole runs of calls: rejected logins, and a challenge that the client
    cannot answer (HttpSession.execute and buildAuthHeader). */
module AuthRuns {
  import opened Maybe
  import opened Requests
  import opened HttpAuth

  // ─── Rejected logins ──────────────────────────────────────────────────────

  /** Every answer is a 401 with a challenge the client can answer, whatever cookies
      it sets, and nothing is cut. */
  ghost predicate AlwaysRejects(w: World) {
    forall k: nat ::
      && !w.aborted(k)
      && Is401(w.outcome(k))
      && w.outcome(k).answer.auth.Digest?
      && w.outcome(k).answer.auth.challenge.usable
  }

  lemma RejectedFetch(s: Session, again: bool, w: World)
    requires AlwaysRejects(w) && CanAnswer(s)
    ensures
      var (s', t) := RawFetch(s, again, w);
      && t == Got(w.outcome(|s.wire|).answer)
      && |s'.wire| == |s.wire| + 1
      && s'.cookies == s.cookies && s'.replaced == s.replaced
      && s'.challenge == s.challenge
  {
  }

  lemma RejectedCall(s: Session, c: Call, w: World)
    requires AlwaysRejects(w) && CanAnswer(Opening(s, c))
    ensures
      var (s', t) := Execute(s, c, w);
      var held := if s.cookies != [] then 1 else 0;
      && t == Failed(AuthFailed)
      && |s'.wire| == |s.wire| + 2 + held
      && s'.replaced == s.replaced + held
      && s'.cookies == [] && s'.challengeCookies == []
      && s'.challenge.Some? && s'.challenge.value.usable
  {
    var again := MayResend(c.req);
    var s0 := Opening(s, c);
    RejectedFetch(s0, again, w);
    var (s1, t1) := RawFetch(s0, again, w);
    var s1' := Adopt(s1, t1.answer.auth.challenge);
    RejectedFetch(s1', again, w);
    var (s2, t2) := RawFetch(s1', again, w);
    if s0.cookies != [] {
      RejectedFetch(Adopt(FreshSession(s2), t2.answer.auth.challenge), again, w);
    }
  }

  /** n rejected calls in a row send exactly 2n requests and report no replaced
      session; a cookie held at the start costs one more request and one report. */
  lemma {:induction false} RejectedCalls(s: Session, calls: seq<Call>, w: World)
    requires AlwaysRejects(w)
    requires s.challenge.Some? ==> s.challenge.value.usable
    ensures
      var s' := Executed(s, calls, w);
      var held := if s.cookies != [] && calls != [] then 1 else 0;
      && |s'.wire| == |s.wire| + 2 * |calls| + held
      && s'.replaced == s.replaced + held
      && (calls != [] ==> s'.cookies == [])
      && (s'.challenge.Some? ==> s'.challenge.value.usable)
      && (calls == [] ==> s' == s)
    decreases |calls|
  {
    if calls != [] {
      var front := calls[..|calls| - 1];
      RejectedCalls(s, front, w);
      RejectedCall(Executed(s, front, w), calls[|calls| - 1], w);
    }
  }

  /** A held challenge that offers no qop the client knows silences the session:
      a call sends nothing exactly when it is cut first, or the challenge is still
      held when it starts; and the challenge is then still held afterwards. */
  lemma UnanswerableChallengeSilences(s: Session, c: Call, w: World)
    ensures
      var (s', t) := Execute(s, c, w);
      var unanswerable := s.challenge.Some? && !s.challenge.value.usable && !Expired(s, c.startsAt);
      && (s'.wire == s.wire <==> w.aborted(|s.wire|) || unanswerable)
      && (unanswerable ==> s'.challenge == s.challenge && s'.lastActivity == s.lastActivity)
      && (unanswerable && !w.aborted(|s.wire|) ==> t == Failed(AuthFailed))
  {
    ExecuteTraced(s, c, w);
    var again := MayResend(c.req);
    var s0 := Opening(s, c);
    RawFetchSends(s0, again, w);
    var (s1, t1) := RawFetch(s0, again, w);
    if s0.wire == s1.wire {
      assert t1.Failed?;
    } else {
      FirstSendingStays(s, c, w);
    }
  }

  /** A new session gets there with one 401 whose qop does not offer auth: its first call
      fails after one request, and the next one, if it starts in time, sends nothing. */
  lemma UnusableChallengeIsKept(s: Session, first: Call, second: Call, w: World, nonce: string)
    requires Initial(s) && !w.aborted(|s.wire|) && !w.aborted(|s.wire| + 1)
    requires w.outcome(|s.wire|) == Answered(Answer(401, Digest(Challenge(nonce, false)), []))
    requires second.startsAt - s.lastActivity <= SessionTimeoutMs
    ensures
      var (s1, t1) := Execute(s, first, w);
      var (s2, t2) := Execute(s1, second, w);
      && |s1.wire| == |s.wire| + 1 && t1 == Failed(AuthFailed)
      && s1.challenge == Some(Challenge(nonce, false))
      && s2.wire == s1.wire && t2 == Failed(AuthFailed) && s2.challenge == s1.challenge
  {
    var (s1, t1) := Execute(s, first, w);
    assert |s1.wire| == |s.wire| + 1 && s1.challenge == Some(Challenge(nonce, false));
    UnanswerableChallengeSilences(s1, second, w);
  }

  /** A session that never had a good answer does not expire: with such a challenge held
      no call ever sends anything again. */
  lemma {:induction false} SilentForGood(s: Session, calls: seq<Call>, w: World)
    requires s.challenge.Some? && !s.challenge.value.usable && s.lastActivity <= 0
    ensures
      var s' := Executed(s, calls, w);
      s'.wire == s.wire && s'.challenge == s.challenge && s'.lastActivity == s.lastActivity
    decreases |calls|
  {
    if calls != [] {
      var front := calls[..|calls| - 1];
      SilentForGood(s, front, w);
      UnanswerableChallengeSilences(Executed(s, front, w), calls[|calls| - 1], w);
    }
  }

  lemma SecondAnswerGrows(s: Session, again: bool, w: World, held: bool, t: Try)
    ensures |s.wire| <= |SecondAnswer(s, again, w, held, t).0.wire|
  {
    if t.Got? && t.answer.auth.Digest? {
      RawFetchSends(Adopt(FreshSession(s), t.answer.auth.challenge), again, w);
    }
  }

  lemma HandshakeGrows(s: Session, again: bool, w: World, held: bool, a: Answer)
    ensures |s.wire| <= |Handshake(s, again, w, held, a).0.wire|
  {
    if a.status == 401 && a.auth.Digest? {
      var s' := Adopt(s, a.auth.challenge);
      RawFetchSends(s', again, w);
      var (s1, t1) := RawFetch(s', again, w);
      SecondAnswerGrows(s1, again, w, held, t1);
    }
  }

  /** Later stages only add to the wire. */
  lemma FirstSendingStays(s: Session, c: Call, w: World)
    ensures |RawFetch(Opening(s, c), MayResend(c.req), w).0.wire| <= |Execute(s, c, w).0.wire|
  {
    var again := MayResend(c.req);
    var s0 := Opening(s, c);
    var held := s0.cookies != [];
    var (s1, t1) := RawFetch(s0, again, w);
    if t1.Got? { HandshakeGrows(s1, again, w, held, t1.answer); }
    var (s2, t2) := if t1.Got? then Handshake(s1, again, w, held, t1.answer) else (s1, t1);
    RawFetchSends(s2, again, w);
  }
}
