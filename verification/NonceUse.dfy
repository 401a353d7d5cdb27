/** The nonce use counts of whole runs (HttpSession.buildAuthHeader, section 3.2.2 of
    RFC 2617): which challenge each Authorization header answers, and exactly when a
    nonce is sent twice with the same count. */
module NonceUse {
  import opened Maybe
  import opened Requests
  import opened HttpAuth
  import opened AuthInvariants

  // ─── Which challenge is answered ──────────────────────────────────────────

  /** This sending was answered with a 401 that carries the nonce. */
  predicate Challenges(x: Sending, nonce: string) {
    Is401(x.outcome) && x.outcome.answer.auth.Digest? && x.outcome.answer.auth.challenge.nonce == nonce
  }

  /** A count of 1 answers the very 401 before it. */
  predicate AnswersBefore(wire: seq<Sending>, k: nat)
    requires k < |wire|
  {
    wire[k].credential.Some? && wire[k].credential.value.nc == 1 ==>
      k > 0 && Challenges(wire[k - 1], wire[k].credential.value.nonce)
  }

  ghost predicate FromAnswers(s: Session) {
    && (forall k | 0 <= k < |s.wire| :: AnswersBefore(s.wire, k))
    && (s.challenge.Some? && s.nonceCount == 0 ==>
          s.wire != [] && Challenges(s.wire[|s.wire| - 1], s.challenge.value.nonce))
  }

  lemma SendFrom(s: Session, w: World)
    requires FromAnswers(s) && CanAnswer(s)
    ensures FromAnswers(Send(s, w))
  {
    var s' := Send(s, w);
    forall k | 0 <= k < |s.wire| ensures AnswersBefore(s'.wire, k) {
      assert AnswersBefore(s.wire, k);
    }
  }

  /** The wire, the challenge and its counter are all it speaks of. */
  lemma SameFrom(s: Session, s': Session)
    requires FromAnswers(s) && s'.wire == s.wire
    requires s'.challenge == None || (s'.challenge == s.challenge && s'.nonceCount == s.nonceCount)
    ensures FromAnswers(s')
  {
  }

  lemma AttemptsFrom(s: Session, again: bool, w: World)
    requires FromAnswers(s) && CanAnswer(s)
    ensures FromAnswers(Attempts(s, again, w))
  {
    SendFrom(s, w);
    if Resends(Send(s, w), again, w) { SendFrom(Send(s, w), w); }
  }

  lemma ReceivedFrom(s: Session, w: World)
    requires FromAnswers(s) && s.wire != []
    ensures FromAnswers(Received(s, w).0)
  {
    SameFrom(s, Received(s, w).0);
  }

  lemma RawFetchFrom(s: Session, again: bool, w: World)
    requires FromAnswers(s)
    ensures FromAnswers(RawFetch(s, again, w).0)
  {
    var s0 := s.(fetches := s.fetches + 1);
    SameFrom(s, s0);
    if !w.aborted(|s.wire|) && CanAnswer(s) {
      AttemptsFrom(s0, again, w);
      ReceivedFrom(Attempts(s0, again, w), w);
    }
  }

  lemma FetchFrom(s: Session, again: bool, w: World)
    requires FromAnswers(s)
    ensures
      var (s', t) := RawFetch(s, again, w);
      FromAnswers(s') && (t.Got? ==> s'.wire != [] && Last(s') == Answered(t.answer))
  {
    RawFetchFrom(s, again, w);
    RawFetchSends(s, again, w);
  }

  lemma AdoptFrom(s: Session, c: Challenge)
    requires FromAnswers(s) && s.wire != [] && Challenges(s.wire[|s.wire| - 1], c.nonce)
    ensures FromAnswers(Adopt(s, c))
  {
  }

  lemma SecondAnswerFrom(s: Session, again: bool, w: World, held: bool, t: Try)
    requires FromAnswers(s) && (t.Got? ==> s.wire != [] && Last(s) == Answered(t.answer))
    ensures FromAnswers(SecondAnswer(s, again, w, held, t).0)
  {
    var s' := SecondAnswer(s, again, w, held, t).0;
    if t.Got? && t.answer.status == 401 && held && t.answer.auth.Digest? {
      var c := t.answer.auth.challenge;
      SameFrom(s, FreshSession(s));
      AdoptFrom(FreshSession(s), c);
      FetchFrom(Adopt(FreshSession(s), c), again, w);
      SameFrom(RawFetch(Adopt(FreshSession(s), c), again, w).0, s');
    } else {
      SameFrom(s, s');
    }
  }

  lemma HandshakeFrom(s: Session, again: bool, w: World, held: bool, a: Answer)
    requires FromAnswers(s) && s.wire != [] && Last(s) == Answered(a)
    ensures FromAnswers(Handshake(s, again, w, held, a).0)
  {
    if a.status == 401 && a.auth.Digest? {
      AdoptFrom(s, a.auth.challenge);
      FetchFrom(Adopt(s, a.auth.challenge), again, w);
      var (s1, t1) := RawFetch(Adopt(s, a.auth.challenge), again, w);
      SecondAnswerFrom(s1, again, w, held, t1);
    } else {
      SameFrom(s, Handshake(s, again, w, held, a).0);
    }
  }

  lemma FirstAnswerFrom(s0: Session, again: bool, w: World, held: bool)
    requires FromAnswers(s0)
    ensures
      var (s1, t1) := RawFetch(s0, again, w);
      FromAnswers((if t1.Got? then Handshake(s1, again, w, held, t1.answer) else (s1, t1)).0)
  {
    FetchFrom(s0, again, w);
    var (s1, t1) := RawFetch(s0, again, w);
    if t1.Got? { HandshakeFrom(s1, again, w, held, t1.answer); }
  }

  lemma ClosingFrom(s: Session, c: Call, again: bool, w: World, t: Try)
    requires FromAnswers(s)
    ensures
      var (s', t') := Retry503(s, again, w, t);
      FromAnswers(Closing(s', c, t').0)
  {
    FetchFrom(s, again, w);
    var (s', t') := Retry503(s, again, w, t);
    SameFrom(s', Closing(s', c, t').0);
  }

  lemma ExecuteFrom(s: Session, c: Call, w: World)
    requires FromAnswers(s)
    ensures FromAnswers(Execute(s, c, w).0)
  {
    var again := MayResend(c.req);
    var s0 := Opening(s, c);
    SameFrom(s, s0);
    FirstAnswerFrom(s0, again, w, s0.cookies != []);
    var (s1, t1) := RawFetch(s0, again, w);
    var (s2, t2) := if t1.Got? then Handshake(s1, again, w, s0.cookies != [], t1.answer) else (s1, t1);
    ClosingFrom(s2, c, again, w, t2);
  }

  lemma {:induction false} EveryRunFrom(s: Session, calls: seq<Call>, w: World)
    requires Initial(s)
    ensures FromAnswers(Executed(s, calls, w))
    decreases |calls|
  {
    if calls != [] {
      var front := calls[..|calls| - 1];
      EveryRunFrom(s, front, w);
      ExecuteFrom(Executed(s, front, w), calls[|calls| - 1], w);
    }
  }

  // ─── The counts of one challenge ──────────────────────────────────────────

  /** Sending k answers the g-th challenge taken. */
  predicate Under(wire: seq<Sending>, k: nat, g: nat)
    requires k < |wire|
  {
    wire[k].credential.Some? && wire[k].credential.value.adoption == g
  }

  /** Under each adopted challenge the nonce use counts sent are 1, 2, 3, ... with no
      gap and no repeat, all with the nonce of the 401 that was answered by the first of
      them; the counter equals the headers built since the challenge was taken. */
  lemma NonceCountsRunOn(s: Session, calls: seq<Call>, w: World, g: nat)
    requires Initial(s)
    ensures
      var s' := Executed(s, calls, w);
      && OneTwoThree(Counts(s'.wire, g))
      && (s'.challenge.Some? && g == s'.adoptions ==> |Counts(s'.wire, g)| == s'.nonceCount)
      && (forall i, k | 0 <= i < k < |s'.wire| && Under(s'.wire, i, g) && Under(s'.wire, k, g) ::
            s'.wire[i].credential.value.nonce == s'.wire[k].credential.value.nonce)
      && (forall k | 0 <= k < |s'.wire| && Under(s'.wire, k, g) && s'.wire[k].credential.value.nc == 1 ::
            k > 0 && Challenges(s'.wire[k - 1], s'.wire[k].credential.value.nonce))
  {
    EveryRun(s, calls, w);
    EveryRunFrom(s, calls, w);
    var wire := Executed(s, calls, w).wire;
    forall k | 0 <= k < |wire| && Under(wire, k, g) && wire[k].credential.value.nc == 1
      ensures k > 0 && Challenges(wire[k - 1], wire[k].credential.value.nonce)
    {
      assert AnswersBefore(wire, k);
    }
  }

  lemma {:induction false} CountsOfFront(wire: seq<Sending>, g: nat, k: nat)
    requires k <= |wire|
    ensures Counts(wire[..k], g) <= Counts(wire, g)
    decreases |wire|
  {
    if k < |wire| {
      CountsOfFront(wire[..|wire| - 1], g, k);
      assert wire[..|wire| - 1][..k] == wire[..k];
    } else {
      assert wire[..k] == wire;
    }
  }

  /** The count of a sending is one more than the sendings before it under the same
      challenge. */
  lemma CountIs(wire: seq<Sending>, g: nat, k: nat)
    requires OneTwoThree(Counts(wire, g)) && k < |wire| && Under(wire, k, g)
    ensures wire[k].credential.value.nc == |Counts(wire[..k], g)| + 1
    ensures |Counts(wire[..k + 1], g)| == |Counts(wire[..k], g)| + 1
  {
    CountsOfFront(wire, g, k + 1);
    assert wire[..k + 1][..k] == wire[..k];
    var counts := Counts(wire[..k + 1], g);
    assert counts == Counts(wire[..k], g) + [wire[k].credential.value.nc];
    assert counts[|counts| - 1] == Counts(wire, g)[|counts| - 1];
  }

  /** Later sendings under a challenge have higher counts. */
  lemma CountsRise(wire: seq<Sending>, g: nat, i: nat, k: nat)
    requires OneTwoThree(Counts(wire, g)) && i < k < |wire| && Under(wire, i, g) && Under(wire, k, g)
    ensures wire[i].credential.value.nc < wire[k].credential.value.nc
  {
    CountIs(wire, g, i);
    CountIs(wire, g, k);
    CountsOfFront(wire[..k], g, i + 1);
    assert wire[..k][..i + 1] == wire[..i + 1];
  }

  /** Something was sent under the challenge, so its count 1 was. */
  lemma {:induction false} CountOne(wire: seq<Sending>, g: nat, k: nat) returns (j: nat)
    requires OneTwoThree(Counts(wire, g)) && k < |wire| && Under(wire, k, g)
    ensures j <= k && Under(wire, j, g) && wire[j].credential.value.nc == 1
    decreases k
  {
    CountIs(wire, g, k);
    if Counts(wire[..k], g) == [] {
      j := k;
    } else {
      var i := SomeUnder(wire[..k], g);
      j := CountOne(wire, g, i);
    }
  }

  lemma {:induction false} SomeUnder(wire: seq<Sending>, g: nat) returns (i: nat)
    requires Counts(wire, g) != []
    ensures i < |wire| && Under(wire, i, g)
    decreases |wire|
  {
    i := |wire| - 1;
    if !Under(wire, i, g) { i := SomeUnder(wire[..|wire| - 1], g); }
  }

  // ─── When a nonce is sent twice with one count ────────────────────────────

  /** No two Authorization headers carry the same nonce and the same count. */
  ghost predicate PairsDiffer(wire: seq<Sending>) {
    forall i, k | 0 <= i < k < |wire| && wire[i].credential.Some? && wire[k].credential.Some? ::
      || wire[i].credential.value.nonce != wire[k].credential.value.nonce
      || wire[i].credential.value.nc != wire[k].credential.value.nc
  }

  /** No two challenges that were answered carry the same nonce. */
  ghost predicate NoncesDiffer(wire: seq<Sending>) {
    forall i, k | 0 <= i < k < |wire| && wire[i].credential.Some? && wire[k].credential.Some?
                  && wire[i].credential.value.adoption != wire[k].credential.value.adoption ::
      wire[i].credential.value.nonce != wire[k].credential.value.nonce
  }

  lemma SharedNonceRepeats(s: Session, i: nat, k: nat)
    requires Nonces(s) && i < k < |s.wire| && s.wire[i].credential.Some? && s.wire[k].credential.Some?
    requires s.wire[i].credential.value.adoption != s.wire[k].credential.value.adoption
    requires s.wire[i].credential.value.nonce == s.wire[k].credential.value.nonce
    ensures !PairsDiffer(s.wire)
  {
    var g, h := s.wire[i].credential.value.adoption, s.wire[k].credential.value.adoption;
    assert OneTwoThree(Counts(s.wire, g)) && OneTwoThree(Counts(s.wire, h));
    var j := CountOne(s.wire, g, i);
    var l := CountOne(s.wire, h, k);
    assert s.wire[j].credential.value.nonce == s.wire[i].credential.value.nonce;
    assert s.wire[l].credential.value.nonce == s.wire[k].credential.value.nonce;
  }

  /** In every run: a nonce never goes out twice with one count if and only if no two of
      the challenges answered, taken from 401s, carry the same nonce. */
  lemma PairsDifferExactly(s: Session, calls: seq<Call>, w: World)
    requires Initial(s)
    ensures
      var wire := Executed(s, calls, w).wire;
      PairsDiffer(wire) <==> NoncesDiffer(wire)
  {
    EveryRun(s, calls, w);
    var s' := Executed(s, calls, w);
    var wire := s'.wire;
    if i, k :| 0 <= i < k < |wire| && wire[i].credential.Some? && wire[k].credential.Some?
               && wire[i].credential.value.adoption != wire[k].credential.value.adoption
               && wire[i].credential.value.nonce == wire[k].credential.value.nonce {
      SharedNonceRepeats(s', i, k);
    }
    forall i, k | 0 <= i < k < |wire| && wire[i].credential.Some? && wire[k].credential.Some?
                  && wire[i].credential.value.adoption == wire[k].credential.value.adoption
      ensures wire[i].credential.value.nc != wire[k].credential.value.nc
    {
      var g := wire[i].credential.value.adoption;
      assert OneTwoThree(Counts(wire, g));
      CountsRise(wire, g, i, k);
    }
  }

  /** Two sendings that share nonce and count. */
  lemma SharedPair(wire: seq<Sending>, i: nat, k: nat)
    requires i < k < |wire| && wire[i].credential.Some? && wire[k].credential.Some?
    requires wire[i].credential.value.nonce == wire[k].credential.value.nonce
    requires wire[i].credential.value.nc == wire[k].credential.value.nc
    ensures !PairsDiffer(wire)
  {
  }

  /** The k-th sending is answered with a 401 that carries the nonce and sets no cookie. */
  predicate Rejects(w: World, k: nat, nonce: string) {
    !w.aborted(k) && w.outcome(k) == Answered(Answer(401, Digest(Challenge(nonce, true)), []))
  }

  /** A fetch answered so adds its one sending. */
  lemma FetchRejected(s: Session, again: bool, w: World, nonce: string)
    requires CanAnswer(s) && Rejects(w, |s.wire|, nonce)
    ensures
      var (s1, t1) := RawFetch(s, again, w);
      && t1 == Got(Answer(401, Digest(Challenge(nonce, true)), []))
      && s1.adoptions == s.adoptions
      && |s1.wire| == |s.wire| + 1 && s1.wire[..|s.wire|] == s.wire
      && s1.wire[|s.wire|].credential ==
         if s.challenge.Some? then Some(Credential(s.adoptions, s.challenge.value.nonce, s.nonceCount + 1)) else None
  {
  }

  /** The handshake then sends twice, under one challenge after the other. */
  lemma HandshakeSendsTwice(s1: Session, again: bool, w: World, nonce: string) returns (h: Session, t: Try)
    requires forall k: nat :: Rejects(w, k, nonce)
    ensures Handshake(s1, again, w, true, Answer(401, Digest(Challenge(nonce, true)), [])) == (h, t) && t.Failed?
    ensures |h.wire| == |s1.wire| + 2
    ensures h.wire[|s1.wire|].credential == Some(Credential(s1.adoptions + 1, nonce, 1))
    ensures h.wire[|s1.wire| + 1].credential == Some(Credential(s1.adoptions + 2, nonce, 1))
  {
    var c := Challenge(nonce, true);
    FetchRejected(Adopt(s1, c), again, w, nonce);
    var s2 := RawFetch(Adopt(s1, c), again, w).0;
    FetchRejected(Adopt(FreshSession(s2), c), again, w, nonce);
    var s3 := RawFetch(Adopt(FreshSession(s2), c), again, w).0;
    assert s3.wire[|s1.wire|] == s3.wire[..|s1.wire| + 1][|s1.wire|];
    h := Handshake(s1, again, w, true, Answer(401, Digest(c), [])).0;
    t := Handshake(s1, again, w, true, Answer(401, Digest(c), [])).1;
  }

  /** A call whose handshake fails ends with it. */
  lemma EndsInHandshake(s: Session, c: Call, again: bool, w: World, s1: Session, a: Answer, h: Session, t: Try)
    requires s.cookies != [] && RawFetch(Opening(s, c), again, w) == (s1, Got(a))
    requires Handshake(s1, again, w, true, a) == (h, t) && t.Failed?
    ensures ExecuteWith(s, c, again, w) == (h, t)
  {
  }

  lemma ThreeSendings(s: Session, c: Call, again: bool, w: World, nonce: string, s1: Session) returns (h: Session)
    requires s.cookies != [] && s.wire == [] && |s1.wire| == 1 && s1.adoptions == s.adoptions
    requires RawFetch(Opening(s, c), again, w) == (s1, Got(Answer(401, Digest(Challenge(nonce, true)), [])))
    requires forall k: nat :: Rejects(w, k, nonce)
    ensures ExecuteWith(s, c, again, w).0 == h
    ensures |h.wire| == 3
    ensures h.wire[1].credential == Some(Credential(s.adoptions + 1, nonce, 1))
    ensures h.wire[2].credential == Some(Credential(s.adoptions + 2, nonce, 1))
  {
    var t;
    h, t := HandshakeSendsTwice(s1, again, w, nonce);
    EndsInHandshake(s, c, again, w, s1, Answer(401, Digest(Challenge(nonce, true)), []), h, t);
  }

  /** It does happen: with a held cookie and three 401s that carry one nonce, the second
      and third sendings of a single call carry that nonce with count 1. */
  lemma OneNonceSentTwice(s: Session, c: Call, w: World, nonce: string) returns (h: Session)
    requires Initial(s) && s.cookies != []
    requires forall k: nat :: Rejects(w, k, nonce)
    ensures Execute(s, c, w).0 == h
    ensures |h.wire| == 3
    ensures h.wire[1].credential == Some(Credential(s.adoptions + 1, nonce, 1))
    ensures h.wire[2].credential == Some(Credential(s.adoptions + 2, nonce, 1))
    ensures !PairsDiffer(h.wire)
  {
    var again := MayResend(c.req);
    FetchRejected(Opening(s, c), again, w, nonce);
    h := ThreeSendings(s, c, again, w, nonce, RawFetch(Opening(s, c), again, w).0);
    SharedPair(h.wire, 1, 2);
  }
}
