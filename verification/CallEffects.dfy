/** What one call sends and returns, by what is answered: which cookies and which
    credential go out, what is sent again, and how each status ends it
    (HttpSession.execute). */
module CallEffects {
  import opened Maybe
  import opened Requests
  import opened RequestForms
  import opened HttpAuth

  // ─── Cookies ──────────────────────────────────────────────────────────────

  /** The last value that the pairs give a name. */
  function LastSet(pairs: Jar, name: string): Option<string>
    decreases |pairs|
  {
    if pairs == [] then None
    else if pairs[|pairs| - 1].0 == name then Some(pairs[|pairs| - 1].1)
    else LastSet(pairs[..|pairs| - 1], name)
  }

  predicate OneOfEach(jar: Jar) {
    forall i, j | 0 <= i < j < |jar| :: jar[i].0 != jar[j].0
  }

  /** Each name once; its value is the last that `pairs` gives it, or else the one in
      `held`. */
  ghost predicate Holds(jar: Jar, held: Jar, pairs: Jar) {
    && (OneOfEach(held) ==> OneOfEach(jar))
    && forall name :: Lookup(jar, name) ==
         if LastSet(pairs, name).Some? then LastSet(pairs, name) else Lookup(held, name)
  }

  lemma {:induction false} PutHolds(jar: Jar, name: string, value: string)
    ensures forall other :: Lookup(Put(jar, name, value), other) == if other == name then Some(value) else Lookup(jar, other)
    ensures forall p | p in Put(jar, name, value) :: p.0 == name || p in jar
    ensures OneOfEach(jar) ==> OneOfEach(Put(jar, name, value))
    decreases |jar|
  {
    if jar != [] && jar[0].0 != name {
      PutHolds(jar[1..], name, value);
      var rest := Put(jar[1..], name, value);
      if OneOfEach(jar) {
        forall j | 0 <= j < |rest| ensures rest[j].0 != jar[0].0 {
          assert rest[j] in rest;
          if rest[j] in jar[1..] { var k :| 0 <= k < |jar| - 1 && jar[1..][k] == rest[j]; }
        }
      }
    }
  }

  lemma {:induction false} PutAllHolds(jar: Jar, pairs: Jar)
    ensures Holds(PutAll(jar, pairs), jar, pairs)
    decreases |pairs|
  {
    if pairs != [] {
      var n := |pairs| - 1;
      PutAllHolds(jar, pairs[..n]);
      PutHolds(PutAll(jar, pairs[..n]), pairs[n].0, pairs[n].1);
    }
  }

  lemma {:induction false} LookupIsIn(jar: Jar, name: string, value: string)
    requires OneOfEach(jar)
    ensures Lookup(jar, name) == Some(value) <==> (name, value) in jar
    decreases |jar|
  {
    if jar != [] {
      LookupIsIn(jar[1..], name, value);
      assert jar == [jar[0]] + jar[1..];
      if (name, value) in jar[1..] { var k :| 0 <= k < |jar| - 1 && jar[1..][k] == (name, value); }
    }
  }

  /** What the session cookie was before pair i is set. */
  function SessionBefore(held: Jar, pairs: Jar, i: nat): Option<string>
    requires i <= |pairs|
  {
    if LastSet(pairs[..i], "-http-session-").Some? then LastSet(pairs[..i], "-http-session-")
    else Lookup(held, "-http-session-")
  }

  /** Setting the pairs one by one gives a session cookie that is there another value. */
  predicate SessionChanges(held: Jar, pairs: Jar) {
    exists i | 0 <= i < |pairs| ::
      pairs[i].0 == "-http-session-" && SessionBefore(held, pairs, i).Some?
      && SessionBefore(held, pairs, i).value != pairs[i].1
  }

  function Count(b: bool): nat {
    if b then 1 else 0
  }

  lemma {:induction false} ReplacesExactly(held: Jar, pairs: Jar)
    ensures Replaces(held, pairs) <==> SessionChanges(held, pairs)
    decreases |pairs|
  {
    if pairs != [] {
      var n := |pairs| - 1;
      var front := pairs[..n];
      ReplacesExactly(held, front);
      PutAllHolds(held, front);
      assert forall i | 0 <= i < n :: front[..i] == pairs[..i] && front[i] == pairs[i];
      assert forall i | 0 <= i < n :: SessionBefore(held, front, i) == SessionBefore(held, pairs, i);
      assert SessionBefore(held, pairs, n) == Lookup(PutAll(held, front), "-http-session-");
    }
  }

  // ─── The first sending ────────────────────────────────────────────────────

  /** The challenge held when the call starts, unless five minutes went by since the last
      good answer. */
  function ChallengeAtStart(s: Session, c: Call): Option<Challenge> {
    if s.lastActivity > 0 && c.startsAt - s.lastActivity > 300000 then None else s.challenge
  }

  /** The call is not cut first, and holds no challenge that it cannot answer. */
  predicate Sends(s: Session, c: Call, w: World) {
    && !w.aborted(|s.wire|)
    && (ChallengeAtStart(s, c).Some? ==> ChallengeAtStart(s, c).value.usable)
  }

  /** A sending of this call with the cookies held, in which later pairs replace earlier
      ones, answered as the world says. */
  ghost predicate SentWith(x: Sending, call: nat, held: Jar, pairs: Jar, credential: Option<Credential>, outcome: Outcome) {
    x.call == call && Holds(x.cookies, held, pairs) && x.credential == credential && x.outcome == outcome
  }

  /** `cookies` of the session behind an answer that set `pairs`. */
  ghost predicate Keeps(s': Session, held: Jar, pairs: Jar) {
    Holds(s'.cookies, held, pairs) && s'.challengeCookies == []
  }

  /** One sending, answered: what it carried and what it leaves. */
  lemma FetchAnswered(s: Session, again: bool, w: World, a: Answer)
    requires !w.aborted(|s.wire|) && CanAnswer(s) && w.outcome(|s.wire|) == Answered(a)
    ensures
      var (s', t) := RawFetch(s, again, w);
      var nc := if s.challenge.Some? then s.nonceCount + 1 else s.nonceCount;
      && t == Got(a) && |s'.wire| == |s.wire| + 1 && s.wire <= s'.wire
      && SentWith(s'.wire[|s.wire|], s.calls, s.cookies, s.challengeCookies,
                  if s.challenge.Some? then Some(Credential(s.adoptions, s.challenge.value.nonce, nc)) else None, Answered(a))
      && (a.status == 401 ==> s'.cookies == s.cookies && s'.replaced == s.replaced
                              && s'.challengeCookies == PutAll(s.challengeCookies, a.setCookies))
      && (a.status != 401 ==>
            && Keeps(s', s.cookies, s.challengeCookies + a.setCookies)
            && s'.replaced == s.replaced + Count(SessionChanges(s.cookies, s.challengeCookies + a.setCookies)))
      && s' == s.(fetches := s'.fetches, wire := s'.wire, nonceCount := nc, cookies := s'.cookies,
                  challengeCookies := s'.challengeCookies, replaced := s'.replaced)
  {
    PutAllHolds(s.cookies, s.challengeCookies);
    PutAllHolds(s.cookies, s.challengeCookies + a.setCookies);
    ReplacesExactly(s.cookies, s.challengeCookies + a.setCookies);
  }

  /** What stands in the Authorization header of the first sending. */
  function FirstCredential(s: Session, c: Call): Option<Credential> {
    var challenge := ChallengeAtStart(s, c);
    if challenge.Some? then Some(Credential(s.adoptions, challenge.value.nonce, s.nonceCount + 1)) else None
  }

  lemma OpeningIs(s: Session, c: Call)
    ensures
      var s0 := Opening(s, c);
      && s0.challenge == ChallengeAtStart(s, c)
      && s0 == s.(calls := s.calls + 1, challenge := s0.challenge, challengeCookies := [],
                  nonceCount := if s0.challenge == None && s.challenge.Some? then 0 else s0.nonceCount)
      && (s0.challenge.Some? ==> s0.nonceCount == s.nonceCount)
  {
  }

  lemma AttemptsBegin(s: Session, again: bool, w: World)
    requires CanAnswer(s)
    ensures
      var s' := Attempts(s, again, w);
      && |s.wire| < |s'.wire| && s.wire <= s'.wire
      && SentWith(s'.wire[|s.wire|], s.calls, s.cookies, s.challengeCookies,
                  if s.challenge.Some? then Some(Credential(s.adoptions, s.challenge.value.nonce, s.nonceCount + 1)) else None,
                  w.outcome(|s.wire|))
  {
    PutAllHolds(s.cookies, s.challengeCookies);
  }

  lemma FetchBegins(s: Session, again: bool, w: World)
    requires !w.aborted(|s.wire|) && CanAnswer(s)
    ensures
      var s' := RawFetch(s, again, w).0;
      && |s.wire| < |s'.wire|
      && SentWith(s'.wire[|s.wire|], s.calls, s.cookies, s.challengeCookies,
                  if s.challenge.Some? then Some(Credential(s.adoptions, s.challenge.value.nonce, s.nonceCount + 1)) else None,
                  w.outcome(|s.wire|))
  {
    AttemptsBegin(s.(fetches := s.fetches + 1), again, w);
    ReceivedKeepsWire(Attempts(s.(fetches := s.fetches + 1), again, w), w);
  }

  /** What a call has sent stays as it was sent. */
  lemma FirstFetchStays(s: Session, c: Call, w: World)
    ensures RawFetch(Opening(s, c), MayResend(c.req), w).0.wire <= Execute(s, c, w).0.wire
  {
    var again := MayResend(c.req);
    var s0 := Opening(s, c);
    var held := s0.cookies != [];
    var (s1, t1) := RawFetch(s0, again, w);
    var (s2, t2) := if t1.Got? then Handshake(s1, again, w, held, t1.answer) else (s1, t1);
    if t1.Got? { HandshakeAdds(s1, again, w, held, t1.answer); }
    RawFetchSends(s2, again, w);
  }

  lemma SecondAnswerAdds(s: Session, again: bool, w: World, held: bool, t: Try)
    ensures s.wire <= SecondAnswer(s, again, w, held, t).0.wire
  {
    if t.Got? && t.answer.auth.Digest? { RawFetchSends(Adopt(FreshSession(s), t.answer.auth.challenge), again, w); }
  }

  lemma HandshakeAdds(s: Session, again: bool, w: World, held: bool, a: Answer)
    ensures s.wire <= Handshake(s, again, w, held, a).0.wire
  {
    if a.status == 401 && a.auth.Digest? {
      var s' := Adopt(s, a.auth.challenge);
      RawFetchSends(s', again, w);
      var (s1, t1) := RawFetch(s', again, w);
      SecondAnswerAdds(s1, again, w, held, t1);
    }
  }

  lemma SilentCall(s: Session, c: Call, w: World)
    requires !Sends(s, c, w)
    ensures Execute(s, c, w).0.wire == s.wire
  {
    OpeningIs(s, c);
  }

  /** A call that is not cut first and can answer its challenge sends; first with the
      cookies held, each name once, and with the next count of the challenge unless five
      idle minutes dropped it. Any other call sends nothing. */
  lemma FirstSending(s: Session, c: Call, w: World)
    ensures
      var s' := Execute(s, c, w).0;
      if Sends(s, c, w) then
        && |s.wire| < |s'.wire|
        && SentWith(s'.wire[|s.wire|], s.calls + 1, s.cookies, [], FirstCredential(s, c), w.outcome(|s.wire|))
      else s'.wire == s.wire
  {
    OpeningIs(s, c);
    FirstFetchStays(s, c, w);
    if Sends(s, c, w) {
      FetchBegins(Opening(s, c), MayResend(c.req), w);
    } else {
      SilentCall(s, c, w);
    }
  }

  /** An answer other than 401 and 503 ends the call: it is returned if its status is
      2xx, else the call fails with it; its cookies are kept, and a session cookie that
      changed its value is reported once. */
  lemma AnsweredAtOnce(s: Session, c: Call, w: World, a: Answer)
    requires Sends(s, c, w) && w.outcome(|s.wire|) == Answered(a) && a.status != 401 && a.status != 503
    ensures
      var (s', t) := Execute(s, c, w);
      var ok := 200 <= a.status < 300;
      && t == (if ok then Got(a) else Failed(Refused(a.status)))
      && |s'.wire| == |s.wire| + 1
      && Keeps(s', s.cookies, a.setCookies)
      && s'.replaced == s.replaced + Count(SessionChanges(s.cookies, a.setCookies))
      && s'.lastActivity == (if ok then c.endsAt else s.lastActivity)
      && s'.challenge == ChallengeAtStart(s, c)
  {
    OpeningIs(s, c);
    FetchAnswered(Opening(s, c), MayResend(c.req), w, a);
    assert [] + a.setCookies == a.setCookies;
  }

  /** How an answer that is not a 401 ends a call that was busy before. */
  function AfterBusy(b: Answer): Try {
    if b.status == 503 then Failed(Busy)
    else if 200 <= b.status < 300 then Got(b)
    else Failed(Refused(b.status))
  }

  lemma HoldsOn(first: Jar, second: Jar, third: Jar, pairs: Jar)
    requires Holds(second, first, pairs) && Holds(third, second, [])
    ensures Holds(third, first, pairs)
  {
  }

  /** The retry behind a 503 that was answered on `s`. */
  lemma RetryBusy(s: Session, again: bool, w: World, a: Answer)
    requires a.status == 503 && CanAnswer(s) && s.challengeCookies == []
    ensures
      var n := |s.wire|;
      var (s', t) := Retry503(s, again, w, Got(a));
      if w.aborted(n) then s'.wire == s.wire && t == Failed(CutShort)
      else
        && |s'.wire| > n && s'.wire[n].outcome == w.outcome(n) && Holds(s'.wire[n].cookies, s.cookies, [])
        && (w.outcome(n).Answered? ==>
              var b := w.outcome(n).answer;
              |s'.wire| == n + 1 && t == if b.status == 503 then Failed(Busy) else Got(b))
  {
    if !w.aborted(|s.wire|) {
      FetchBegins(s, again, w);
      if w.outcome(|s.wire|).Answered? { FetchAnswered(s, again, w, w.outcome(|s.wire|).answer); }
    }
  }

  /** A 503 is followed by one more sending, with the cookies it set, unless the call is cut
      meanwhile; another 503 then fails the call as busy. */
  lemma BusyIsRetried(s: Session, c: Call, w: World, a: Answer)
    requires Sends(s, c, w) && w.outcome(|s.wire|) == Answered(a) && a.status == 503
    ensures
      var n := |s.wire|;
      var (s', t) := Execute(s, c, w);
      if w.aborted(n + 1) then |s'.wire| == n + 1 && t == Failed(CutShort)
      else
        && |s'.wire| > n + 1
        && s'.wire[n + 1].outcome == w.outcome(n + 1) && Holds(s'.wire[n + 1].cookies, s.cookies, a.setCookies)
        && (w.outcome(n + 1).Answered? ==> |s'.wire| == n + 2 && t == AfterBusy(w.outcome(n + 1).answer))
  {
    OpeningIs(s, c);
    var s0 := Opening(s, c);
    var again := MayResend(c.req);
    FetchAnswered(s0, again, w, a);
    var (s1, t1) := RawFetch(s0, again, w);
    assert [] + a.setCookies == a.setCookies;
    RetryBusy(s1, again, w, a);
    var (s2, t2) := Retry503(s1, again, w, Got(a));
    assert Execute(s, c, w) == Closing(s2, c, t2);
    if !w.aborted(|s.wire| + 1) { HoldsOn(s.cookies, s1.cookies, s2.wire[|s.wire| + 1].cookies, a.setCookies); }
  }

  // ─── Challenges ───────────────────────────────────────────────────────────

  lemma {:induction false} LastOfBoth(pairs: Jar, more: Jar, name: string)
    ensures LastSet(pairs + more, name) ==
            if LastSet(more, name).Some? then LastSet(more, name) else LastSet(pairs, name)
    decreases |more|
  {
    if more == [] {
      assert pairs + more == pairs;
    } else {
      LastOfBoth(pairs, more[..|more| - 1], name);
      assert (pairs + more)[..|pairs + more| - 1] == pairs + more[..|more| - 1];
    }
  }

  lemma {:induction false} OneOfEachLast(jar: Jar, name: string)
    requires OneOfEach(jar)
    ensures LastSet(jar, name) == Lookup(jar, name)
    decreases |jar|
  {
    if jar != [] {
      var front, last := jar[..|jar| - 1], jar[|jar| - 1];
      OneOfEachLast(front, name);
      LookupAppended(front, last, name);
      assert jar == front + [last];
      if Lookup(front, name).Some? {
        LookupIsIn(front, name, Lookup(front, name).value);
        var k :| 0 <= k < |front| && front[k] == (name, Lookup(front, name).value);
        assert jar[k].0 == name;
      }
    }
  }

  lemma {:induction false} LookupAppended(jar: Jar, last: (string, string), name: string)
    ensures Lookup(jar + [last], name) ==
            if Lookup(jar, name).Some? then Lookup(jar, name)
            else if last.0 == name then Some(last.1) else None
    decreases |jar|
  {
    if jar != [] {
      LookupAppended(jar[1..], last, name);
      assert (jar + [last])[1..] == jar[1..] + [last];
    }
  }

  /** The jar of a challenge says what the pairs it was filled with say. */
  lemma Tentative(pairs: Jar, more: Jar)
    ensures forall name :: LastSet(PutAll([], pairs) + more, name) == LastSet(pairs + more, name)
  {
    PutAllHolds([], pairs);
    forall name ensures LastSet(PutAll([], pairs) + more, name) == LastSet(pairs + more, name) {
      OneOfEachLast(PutAll([], pairs), name);
      LastOfBoth(PutAll([], pairs), more, name);
      LastOfBoth(pairs, more, name);
    }
  }

  lemma TentativeHolds(jar: Jar, held: Jar, pairs: Jar, more: Jar)
    requires Holds(jar, held, PutAll([], pairs) + more)
    ensures Holds(jar, held, pairs + more)
  {
    Tentative(pairs, more);
  }

  /** How an answer ends a call, but for a 401 and a first 503. */
  function Ending(b: Answer): Try {
    if 200 <= b.status < 300 then Got(b) else Failed(Refused(b.status))
  }

  /** The sending that answers a challenge of the answer `a`. */
  lemma AnswersChallenge(s: Session, again: bool, w: World, a: Answer, ch: Challenge)
    requires !w.aborted(|s.wire|) && ch.usable && s.challengeCookies == PutAll([], a.setCookies)
    ensures
      var n := |s.wire|;
      var (s', t) := RawFetch(Adopt(s, ch), again, w);
      && |s'.wire| > n
      && SentWith(s'.wire[n], s.calls, s.cookies, a.setCookies, Some(Credential(s.adoptions + 1, ch.nonce, 1)), w.outcome(n))
      && (w.outcome(n).Answered? ==>
            var b := w.outcome(n).answer;
            && |s'.wire| == n + 1 && t == Got(b) && s'.challenge == Some(ch) && s'.adoptions == s.adoptions + 1
            && s'.calls == s.calls
            && (b.status != 401 ==> Keeps(s', s.cookies, a.setCookies + b.setCookies))
            && (b.status == 401 ==> s'.cookies == s.cookies && s'.replaced == s.replaced))
  {
    var s0 := Adopt(s, ch);
    var n := |s.wire|;
    FetchBegins(s0, again, w);
    var x := RawFetch(s0, again, w).0.wire[n];
    assert s0.challengeCookies + [] == s0.challengeCookies && a.setCookies + [] == a.setCookies;
    TentativeHolds(x.cookies, s.cookies, a.setCookies, []);
    if w.outcome(n).Answered? {
      var b := w.outcome(n).answer;
      FetchAnswered(s0, again, w, b);
      if b.status != 401 { TentativeHolds(RawFetch(s0, again, w).0.cookies, s.cookies, a.setCookies, b.setCookies); }
    }
  }

  /** The handshake behind a first sending answered 401. */
  lemma HandshakeAnswers(s: Session, again: bool, w: World, held: bool, a: Answer)
    requires a.status == 401 && s.challengeCookies == PutAll([], a.setCookies)
    ensures
      var n := |s.wire|;
      var (s', t) := Handshake(s, again, w, held, a);
      if !a.auth.Digest? then s'.wire == s.wire && t == Failed(AuthFailed)
      else if w.aborted(n) then s'.wire == s.wire && t == Failed(CutShort)
      else if !a.auth.challenge.usable then s'.wire == s.wire && t == Failed(AuthFailed)
      else
        && |s'.wire| > n
        && SentWith(s'.wire[n], s.calls, s.cookies, a.setCookies,
                    Some(Credential(s.adoptions + 1, a.auth.challenge.nonce, 1)), w.outcome(n))
        && (w.outcome(n).Answered? && w.outcome(n).answer.status != 401 ==>
              var b := w.outcome(n).answer;
              && |s'.wire| == n + 1 && t == Got(b) && s'.challenge == Some(a.auth.challenge)
              && Keeps(s', s.cookies, a.setCookies + b.setCookies))
  {
    if a.auth.Digest? && a.auth.challenge.usable && !w.aborted(|s.wire|) {
      var (s1, t1) := RawFetch(Adopt(s, a.auth.challenge), again, w);
      AnswersChallenge(s, again, w, a, a.auth.challenge);
      SecondAnswerAdds(s1, again, w, held, t1);
    }
  }

  /** What is left of a call behind its handshake. */
  lemma FinishAdds(s: Session, c: Call, w: World, again: bool, t: Try)
    ensures
      var (s1, t1) := Retry503(s, again, w, t);
      var (s', t') := Closing(s1, c, t1);
      && s.wire <= s'.wire
      && (t.Failed? ==> s' == s && t' == t)
      && (t.Got? && t.answer.status != 503 ==>
            t' == Ending(t.answer) && s' == s.(lastActivity := s'.lastActivity))
  {
    RawFetchSends(s, again, w);
  }

  /** A call whose first sending is answered, with what its handshake comes to. */
  lemma BehindHandshake(s: Session, c: Call, w: World, a: Answer, s2: Session, t2: Try)
    requires Sends(s, c, w) && w.outcome(|s.wire|) == Answered(a) && a.status == 401
    requires
      var s0 := Opening(s, c);
      (s2, t2) == Handshake(RawFetch(s0, MayResend(c.req), w).0, MayResend(c.req), w, s0.cookies != [], a)
    ensures
      var (s', t) := Execute(s, c, w);
      && s2.wire <= s'.wire
      && (t2.Failed? ==> s' == s2 && t == t2)
      && (t2.Got? && t2.answer.status != 503 ==> t == Ending(t2.answer) && s' == s2.(lastActivity := s'.lastActivity))
  {
    OpeningIs(s, c);
    FetchAnswered(Opening(s, c), MayResend(c.req), w, a);
    FinishAdds(s2, c, w, MayResend(c.req), t2);
  }

  /** A 401 is answered once: with its challenge under count 1, and with the cookies it set;
      unless it brings no challenge that can be answered, or the call is cut meanwhile.
      What the controller says then ends the call. */
  lemma ChallengeIsAnswered(s: Session, c: Call, w: World, a: Answer)
    requires Sends(s, c, w) && w.outcome(|s.wire|) == Answered(a) && a.status == 401
    ensures
      var n := |s.wire|;
      var (s', t) := Execute(s, c, w);
      if !a.auth.Digest? then |s'.wire| == n + 1 && t == Failed(AuthFailed)
      else if w.aborted(n + 1) then |s'.wire| == n + 1 && t == Failed(CutShort)
      else if !a.auth.challenge.usable then |s'.wire| == n + 1 && t == Failed(AuthFailed)
      else
        && |s'.wire| > n + 1
        && SentWith(s'.wire[n + 1], s.calls + 1, s.cookies, a.setCookies,
                    Some(Credential(s.adoptions + 1, a.auth.challenge.nonce, 1)), w.outcome(n + 1))
        && (w.outcome(n + 1).Answered? && w.outcome(n + 1).answer.status !in {401, 503} ==>
              var b := w.outcome(n + 1).answer;
              && |s'.wire| == n + 2 && t == Ending(b) && s'.challenge == Some(a.auth.challenge)
              && Keeps(s', s.cookies, a.setCookies + b.setCookies))
  {
    OpeningIs(s, c);
    var s0 := Opening(s, c);
    var again := MayResend(c.req);
    FetchAnswered(s0, again, w, a);
    var (s1, t1) := RawFetch(s0, again, w);
    var held := s0.cookies != [];
    HandshakeAnswers(s1, again, w, held, a);
    var (s2, t2) := Handshake(s1, again, w, held, a);
    BehindHandshake(s, c, w, a, s2, t2);
  }

  // ─── A session that is gone ───────────────────────────────────────────────

  /** The challenge that a new session answers. */
  predicate Offers(a: Answer) {
    a.auth.Digest? && a.auth.challenge.usable
  }

  /** The first fetch of a session without cookies, its challenge just taken. */
  lemma FreshFetch(s: Session, again: bool, w: World)
    requires !w.aborted(|s.wire|) && s.challenge.Some? && s.challenge.value.usable
    requires s.cookies == [] && s.challengeCookies == [] && s.nonceCount == 0
    ensures
      var n := |s.wire|;
      var (s', t) := RawFetch(s, again, w);
      && |s'.wire| > n
      && SentWith(s'.wire[n], s.calls, [], [], Some(Credential(s.adoptions, s.challenge.value.nonce, 1)), w.outcome(n))
      && (w.outcome(n).Answered? ==>
            && |s'.wire| == n + 1 && t == Got(w.outcome(n).answer)
            && (w.outcome(n).answer.status != 401 ==> Keeps(s', [], w.outcome(n).answer.setCookies)))
  {
    FetchBegins(s, again, w);
    if w.outcome(|s.wire|).Answered? {
      var a := w.outcome(|s.wire|).answer;
      FetchAnswered(s, again, w, a);
      assert [] + a.setCookies == a.setCookies;
    }
  }

  /** The answer to a second 401, where a cookie is held and the challenge cannot be answered
      or the call is cut: all cookies are dropped. */
  lemma FreshRefused(s: Session, again: bool, w: World, b: Answer)
    requires b.status == 401 && b.auth != Absent && (!Offers(b) || w.aborted(|s.wire|))
    ensures
      var (s', t) := SecondAnswer(s, again, w, true, Got(b));
      && s'.wire == s.wire && t == Failed(if b.auth.Digest? && w.aborted(|s.wire|) then CutShort else AuthFailed)
      && s'.cookies == [] && s'.replaced == s.replaced + 1
  {
  }

  /** Otherwise the challenge is answered as a new session's. */
  lemma FreshAnswers(s: Session, again: bool, w: World, b: Answer)
    requires b.status == 401 && Offers(b) && !w.aborted(|s.wire|)
    ensures
      var n := |s.wire|;
      var (s', t) := SecondAnswer(s, again, w, true, Got(b));
      && |s'.wire| > n
      && SentWith(s'.wire[n], s.calls, [], [], Some(Credential(s.adoptions + 1, b.auth.challenge.nonce, 1)), w.outcome(n))
      && (w.outcome(n).Answered? ==>
            var d := w.outcome(n).answer;
            && |s'.wire| == n + 1 && t == (if d.status == 401 then Failed(AuthFailed) else Got(d))
            && (d.status != 401 ==> Keeps(s', [], d.setCookies)))
  {
    FreshFetch(Adopt(FreshSession(s), b.auth.challenge), again, w);
  }

  /** The first two answers of the call are 401s, the first with a challenge that it answers. */
  predicate RejectedTwice(s: Session, c: Call, w: World, a: Answer, b: Answer) {
    && Sends(s, c, w) && w.outcome(|s.wire|) == Answered(a) && a.status == 401 && Offers(a)
    && !w.aborted(|s.wire| + 1) && w.outcome(|s.wire| + 1) == Answered(b) && b.status == 401
  }

  /** The session behind the second 401. */
  lemma Rejected(s: Session, c: Call, w: World, a: Answer, b: Answer) returns (s2: Session)
    requires RejectedTwice(s, c, w, a, b)
    ensures |s2.wire| == |s.wire| + 2 && s2.cookies == s.cookies && s2.replaced == s.replaced
    ensures s2.calls == s.calls + 1 && s2.adoptions == s.adoptions + 1
    ensures
      var again, s0 := MayResend(c.req), Opening(s, c);
      Handshake(RawFetch(s0, again, w).0, again, w, s0.cookies != [], a) == SecondAnswer(s2, again, w, s.cookies != [], Got(b))
  {
    OpeningIs(s, c);
    var s0 := Opening(s, c);
    FetchAnswered(s0, MayResend(c.req), w, a);
    var (s1, t1) := RawFetch(s0, MayResend(c.req), w);
    AnswersChallenge(s1, MayResend(c.req), w, a, a.auth.challenge);
    s2 := RawFetch(Adopt(s1, a.auth.challenge), MayResend(c.req), w).0;
  }

  /** A second 401 fails the call if no cookie was held before it. */
  lemma SecondRejectionFails(s: Session, c: Call, w: World, a: Answer, b: Answer)
    requires RejectedTwice(s, c, w, a, b) && (s.cookies == [] || b.auth == Absent)
    ensures
      var (s', t) := Execute(s, c, w);
      |s'.wire| == |s.wire| + 2 && t == Failed(AuthFailed) && s'.cookies == s.cookies && s'.replaced == s.replaced
  {
    var s2 := Rejected(s, c, w, a, b);
    var (s3, t3) := SecondAnswer(s2, MayResend(c.req), w, s.cookies != [], Got(b));
    BehindHandshake(s, c, w, a, s3, t3);
  }

  /** With a cookie held the session is reported as replaced, and a new one, without any
      cookie, answers the second challenge, unless it cannot or the call is cut. */
  lemma LostSessionLogsInAgain(s: Session, c: Call, w: World, a: Answer, b: Answer)
    requires RejectedTwice(s, c, w, a, b) && s.cookies != [] && b.auth != Absent
    ensures
      var n := |s.wire|;
      var (s', t) := Execute(s, c, w);
      if !Offers(b) || w.aborted(n + 2) then
        |s'.wire| == n + 2 && t.Failed? && s'.cookies == [] && s'.replaced == s.replaced + 1
      else
        && |s'.wire| > n + 2
        && SentWith(s'.wire[n + 2], s.calls + 1, [], [], Some(Credential(s.adoptions + 2, b.auth.challenge.nonce, 1)), w.outcome(n + 2))
        && (w.outcome(n + 2).Answered? && w.outcome(n + 2).answer.status != 503 ==>
              var d := w.outcome(n + 2).answer;
              && |s'.wire| == n + 3 && t == (if d.status == 401 then Failed(AuthFailed) else Ending(d))
              && (d.status != 401 ==> Keeps(s', [], d.setCookies)))
  {
    var s2 := Rejected(s, c, w, a, b);
    if !Offers(b) || w.aborted(|s.wire| + 2) {
      FreshRefused(s2, MayResend(c.req), w, b);
    } else {
      FreshAnswers(s2, MayResend(c.req), w, b);
    }
    var (s3, t3) := SecondAnswer(s2, MayResend(c.req), w, true, Got(b));
    BehindHandshake(s, c, w, a, s3, t3);
  }

  // ─── A connection that was dead ───────────────────────────────────────────

  /** The call's first sending met a dead pooled connection. It is sent again, with the same
      cookies, exactly if it is a read that changes nothing and is not held, goes through
      node:http, has time left and is not cut meanwhile; else the call fails. */
  lemma DroppedIsResentExactly(s: Session, c: Call, w: World)
    requires Sends(s, c, w) && w.outcome(|s.wire|) == Dropped(true)
    ensures
      var n := |s.wire|;
      var (s', t) := Execute(s, c, w);
      if s.nodeHttp && Repeatable(c.req) && w.timeLeft(n + 1) && !w.aborted(n + 1) then
        && |s'.wire| > n + 1
        && s'.wire[n + 1].outcome == w.outcome(n + 1) && s'.wire[n + 1].cookies == s'.wire[n].cookies
        && (w.outcome(n + 1).Answered? && w.outcome(n + 1).answer.status !in {401, 503} ==>
              |s'.wire| == n + 2 && t == Ending(w.outcome(n + 1).answer))
      else |s'.wire| == n + 1 && t == Failed(if w.aborted(n + 1) then CutShort else Network)
  {
    OpeningIs(s, c);
    MayResendExactly(c.req);
    FirstFetchStays(s, c, w);
    var s0 := Opening(s, c);
    var again := MayResend(c.req);
    FetchDropped(s0, again, w);
  }

  lemma FetchDropped(s: Session, again: bool, w: World)
    requires !w.aborted(|s.wire|) && CanAnswer(s) && w.outcome(|s.wire|) == Dropped(true)
    ensures
      var n := |s.wire|;
      var (s', t) := RawFetch(s, again, w);
      if s.nodeHttp && again && w.timeLeft(n + 1) && !w.aborted(n + 1) then
        && |s'.wire| == n + 2
        && s'.wire[n + 1].outcome == w.outcome(n + 1) && s'.wire[n + 1].cookies == s'.wire[n].cookies
        && (w.outcome(n + 1).Answered? ==> t == Got(w.outcome(n + 1).answer))
      else |s'.wire| == n + 1 && t == Failed(if w.aborted(n + 1) then CutShort else Network)
  {
  }
}
