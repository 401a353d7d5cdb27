/** What a cut does inside a call (the check at the head of HttpSession.rawFetch): whichever
    retry would have come next, nothing more is sent. */
module AuthCuts {
  import opened Requests
  import opened HttpAuth

  /** From `s` to `after` something was sent only while the call was not cut. */
  ghost predicate SentUncut(s: Session, after: Session, w: World) {
    && s.wire <= after.wire
    && forall k | |s.wire| <= k < |after.wire| :: !w.aborted(k)
  }

  lemma Onward(s: Session, s1: Session, s2: Session, w: World)
    requires SentUncut(s, s1, w) && SentUncut(s1, s2, w)
    ensures SentUncut(s, s2, w)
  {
  }

  lemma RawFetchUncut(s: Session, again: bool, w: World)
    ensures SentUncut(s, RawFetch(s, again, w).0, w)
  {
    if !w.aborted(|s.wire|) && CanAnswer(s) {
      var s1 := Attempts(s.(fetches := s.fetches + 1), again, w);
      ReceivedKeepsWire(s1, w);
      assert SentUncut(s, s1, w);
    }
  }

  lemma SecondAnswerUncut(s: Session, again: bool, w: World, held: bool, t: Try)
    ensures SentUncut(s, SecondAnswer(s, again, w, held, t).0, w)
  {
    if t.Got? && t.answer.status == 401 && held && t.answer.auth.Digest? {
      RawFetchUncut(Adopt(FreshSession(s), t.answer.auth.challenge), again, w);
    }
  }

  lemma HandshakeUncut(s: Session, again: bool, w: World, held: bool, a: Answer)
    ensures SentUncut(s, Handshake(s, again, w, held, a).0, w)
  {
    if a.status == 401 && a.auth.Digest? {
      var s0 := Adopt(s, a.auth.challenge);
      var (s1, t1) := RawFetch(s0, again, w);
      RawFetchUncut(s0, again, w);
      SecondAnswerUncut(s1, again, w, held, t1);
      Onward(s0, s1, SecondAnswer(s1, again, w, held, t1).0, w);
    }
  }

  lemma Retry503Uncut(s: Session, again: bool, w: World, t: Try)
    ensures SentUncut(s, Retry503(s, again, w, t).0, w)
  {
    if t.Got? && t.answer.status == 503 { RawFetchUncut(s, again, w); }
  }

  /** No sending of a call, its first, a 401 answer's or a 503 answer's, goes out after
      the call was cut. */
  lemma SendsOnlyUncut(s: Session, c: Call, w: World)
    ensures SentUncut(s, Execute(s, c, w).0, w)
  {
    var again := MayResend(c.req);
    var s0 := Opening(s, c);
    var (s1, t1) := RawFetch(s0, again, w);
    RawFetchUncut(s0, again, w);
    var (s2, t2) := if t1.Got? then Handshake(s1, again, w, s0.cookies != [], t1.answer) else (s1, t1);
    if t1.Got? { HandshakeUncut(s1, again, w, s0.cookies != [], t1.answer); }
    Onward(s0, s1, s2, w);
    Retry503Uncut(s2, again, w, t2);
    Onward(s0, s2, Retry503(s2, again, w, t2).0, w);
  }

  /** A cut is never taken back. */
  ghost predicate CutsLast(w: World) {
    forall k: nat :: w.aborted(k) ==> w.aborted(k + 1)
  }

  lemma {:induction false} StaysCut(w: World, k: nat, j: nat)
    requires CutsLast(w) && w.aborted(k) && k <= j
    ensures w.aborted(j)
    decreases j - k
  {
    if k < j { StaysCut(w, k + 1, j); }
  }

  /** Cut when k sendings had gone out, the call adds none to them, whatever answers it
      had and whichever retry was next; cut before its first, it fails as cut short. */
  lemma CutEndsTheCall(s: Session, c: Call, w: World, k: nat)
    requires CutsLast(w) && w.aborted(k)
    ensures
      var (s', t) := Execute(s, c, w);
      && |s'.wire| <= (if k < |s.wire| then |s.wire| else k)
      && (k <= |s.wire| ==> s'.wire == s.wire && t == Failed(CutShort))
  {
    SendsOnlyUncut(s, c, w);
    var n := |Execute(s, c, w).0.wire|;
    if n > |s.wire| && n > k { StaysCut(w, k, n - 1); }
    if k <= |s.wire| { StaysCut(w, k, |s.wire|); }
  }
}
