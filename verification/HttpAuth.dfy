/** One request's turn: digest handshake, cookies a 401 set, the fresh-session
    retry, the 503 retry and the dead-socket resend (HttpSession.execute, rawFetch,
    viaNodeHttp, storeCookies, buildAuthHeader).

    The controller is the environment: it chooses the outcome of every sending,
    when a cut lands and whether time is left for a resend. */
module HttpAuth {
  import opened Maybe
  import opened Requests
  import opened RequestForms

  /** Name and value pairs in insertion order, one per name, as in a JS Map. */
  type Jar = seq<(string, string)>

  const SessionCookie := "-http-session-"

  /** `usable`: no qop, or a qop that offers auth. */
  datatype Challenge = Challenge(nonce: string, usable: bool)

  datatype AuthHeader = Absent | Unreadable | Digest(challenge: Challenge)

  datatype Answer = Answer(status: nat, auth: AuthHeader, setCookies: Jar)

  /** `stale`: the failure looks like a pooled connection that was already closed. */
  datatype Outcome = Answered(answer: Answer) | Dropped(stale: bool)

  /** What buildAuthHeader put in the Authorization header: the nonce use count
      `nc` under the `adoption`-th challenge taken. */
  datatype Credential = Credential(adoption: nat, nonce: string, nc: nat)

  /** One request handed to the transport, and what came of it. */
  datatype Sending = Sending(call: nat, cookies: Jar, credential: Option<Credential>, outcome: Outcome)

  datatype Error = AuthFailed | Network | Busy | CutShort | Refused(status: nat)

  datatype Try = Got(answer: Answer) | Failed(error: Error)

  /** Indexed by the number of sendings so far. */
  datatype World = World(
    outcome: nat -> Outcome,
    aborted: nat -> bool,
    timeLeft: nat -> bool)

  datatype Call = Call(req: Request, startsAt: int, endsAt: int)

  const SessionTimeoutMs := 5 * 60 * 1000

  datatype Session = Session(
    nodeHttp: bool,
    cookies: Jar,
    challengeCookies: Jar,
    challenge: Option<Challenge>,
    nonceCount: nat,
    lastActivity: int,
    // Counted by the model.
    calls: nat,
    fetches: nat,
    adoptions: nat,
    replaced: nat,
    wire: seq<Sending>)

  // ─── Cookies ──────────────────────────────────────────────────────────────

  function Put(jar: Jar, name: string, value: string): Jar {
    if jar == [] then [(name, value)]
    else if jar[0].0 == name then [(name, value)] + jar[1..]
    else [jar[0]] + Put(jar[1..], name, value)
  }

  function Lookup(jar: Jar, name: string): Option<string> {
    if jar == [] then None
    else if jar[0].0 == name then Some(jar[0].1)
    else Lookup(jar[1..], name)
  }

  function PutAll(jar: Jar, pairs: Jar): Jar
    decreases |pairs|
  {
    if pairs == [] then jar
    else
      var front := PutAll(jar, pairs[..|pairs| - 1]);
      Put(front, pairs[|pairs| - 1].0, pairs[|pairs| - 1].1)
  }

  /** Setting `pairs` one by one gives the session cookie a different value. */
  predicate Replaces(jar: Jar, pairs: Jar)
    decreases |pairs|
  {
    pairs != [] &&
    var front := pairs[..|pairs| - 1];
    var (name, value) := pairs[|pairs| - 1];
    || Replaces(jar, front)
    || (name == SessionCookie && Lookup(PutAll(jar, front), name) !in {None, Some(value)})
  }

  function StoreCookies(s: Session, a: Answer): Session {
    if a.status == 401 then s.(challengeCookies := PutAll(s.challengeCookies, a.setCookies))
    else
      var taken := s.challengeCookies + a.setCookies;
      s.(cookies := PutAll(s.cookies, taken), challengeCookies := [],
         replaced := s.replaced + if Replaces(s.cookies, taken) then 1 else 0)
  }

  // ─── Sending ──────────────────────────────────────────────────────────────

  /** buildAuthHeader throws for a challenge it cannot answer: nothing is sent. */
  predicate CanAnswer(s: Session) {
    s.challenge.Some? ==> s.challenge.value.usable
  }

  function Send(s: Session, w: World): Session
    requires CanAnswer(s)
  {
    var n := |s.wire|;
    var nc := if s.challenge.Some? then s.nonceCount + 1 else s.nonceCount;
    var credential := if s.challenge.Some? then Some(Credential(s.adoptions, s.challenge.value.nonce, nc)) else None;
    s.(nonceCount := nc,
       wire := s.wire + [Sending(s.calls, PutAll(s.cookies, s.challengeCookies), credential, w.outcome(n))])
  }

  function Last(s: Session): Outcome
    requires s.wire != []
  {
    s.wire[|s.wire| - 1].outcome
  }

  /** The dead-socket resend of viaNodeHttp, for a request that may go out `again`;
      fetch never sends a request twice. */
  predicate Resends(s: Session, again: bool, w: World)
    requires s.wire != []
  {
    && s.nodeHttp && Last(s).Dropped? && Last(s).stale && again
    && w.timeLeft(|s.wire|) && !w.aborted(|s.wire|)
  }

  /** One sending, or two when the first met a dead pooled connection. */
  function Attempts(s: Session, again: bool, w: World): Session
    requires CanAnswer(s)
  {
    var s1 := Send(s, w);
    if Resends(s1, again, w) then Send(s1, w) else s1
  }

  /** The cookies of every answer are taken before anything can throw. */
  function Received(s: Session, w: World): (Session, Try)
    requires s.wire != []
  {
    match Last(s)
    case Answered(a) => (StoreCookies(s, a), Got(a))
    case Dropped(_) => (s, Failed(if w.aborted(|s.wire|) then CutShort else Network))
  }

  function RawFetch(s: Session, again: bool, w: World): (Session, Try) {
    var s0 := s.(fetches := s.fetches + 1);
    if w.aborted(|s.wire|) then (s0, Failed(CutShort))
    else if !CanAnswer(s) then (s0, Failed(AuthFailed))
    else
      Received(Attempts(s0, again, w), w)
  }

  function Adopt(s: Session, c: Challenge): Session {
    s.(challenge := Some(c), nonceCount := 0, adoptions := s.adoptions + 1)
  }

  function DropChallenge(s: Session): Session {
    s.(challenge := None, nonceCount := 0)
  }

  function ForgetChallengeCookies(s: Session): Session {
    s.(challengeCookies := [])
  }

  /** The dead-cookie retry: a new session, reported as a replaced one. */
  function FreshSession(s: Session): Session {
    s.(cookies := [], challengeCookies := [], replaced := s.replaced + 1)
  }

  // ─── One call ─────────────────────────────────────────────────────────────

  predicate Expired(s: Session, now: int) {
    s.lastActivity > 0 && now - s.lastActivity > SessionTimeoutMs
  }

  /** Up to the first sending. */
  function Opening(s: Session, c: Call): Session {
    var s0 := s.(calls := s.calls + 1);
    ForgetChallengeCookies(if Expired(s0, c.startsAt) then DropChallenge(s0) else s0)
  }

  /** The last part of a handshake: another 401 is a failed authentication. */
  function Authenticated(s: Session, t: Try): (Session, Try) {
    if t.Got? && t.answer.status == 401 then (ForgetChallengeCookies(s), Failed(AuthFailed)) else (s, t)
  }

  /** The second sending was answered `t`; `held`: a cookie was held before the call. */
  function SecondAnswer(s: Session, again: bool, w: World, held: bool, t: Try): (Session, Try) {
    if t.Got? && t.answer.status == 401 && t.answer.auth != Absent && held then
      var s1 := FreshSession(s);
      match t.answer.auth
      case Digest(c) =>
        var (s2, t2) := RawFetch(Adopt(s1, c), again, w);
        Authenticated(s2, t2)
      case _ => (s1, Failed(AuthFailed))
    else Authenticated(s, t)
  }

  /** The first sending was answered `a`. */
  function Handshake(s: Session, again: bool, w: World, held: bool, a: Answer): (Session, Try) {
    if a.status != 401 then (s, Got(a))
    else
      match a.auth
      case Absent => (ForgetChallengeCookies(s), Failed(AuthFailed))
      case Unreadable => (s, Failed(AuthFailed))
      case Digest(c) =>
        var (s1, t1) := RawFetch(Adopt(s, c), again, w);
        SecondAnswer(s1, again, w, held, t1)
  }

  function Retry503(s: Session, again: bool, w: World, t: Try): (Session, Try) {
    if t.Got? && t.answer.status == 503 then
      var (s1, t1) := RawFetch(s, again, w);
      if t1.Got? && t1.answer.status == 503 then (s1, Failed(Busy)) else (s1, t1)
    else (s, t)
  }

  predicate IsOk(status: nat) {
    200 <= status < 300
  }

  function Closing(s: Session, c: Call, t: Try): (Session, Try) {
    if t.Failed? then (s, t)
    else if !IsOk(t.answer.status) then (s, Failed(Refused(t.answer.status)))
    else (s.(lastActivity := c.endsAt), t)
  }

  function Execute(s: Session, c: Call, w: World): (Session, Try) {
    ExecuteWith(s, c, MayResend(c.req), w)
  }

  /** `again`: the request may go out again on a dead connection. */
  function ExecuteWith(s: Session, c: Call, again: bool, w: World): (Session, Try) {
    var s0 := Opening(s, c);
    var held := s0.cookies != [];
    var (s1, t1) := RawFetch(s0, again, w);
    var (s2, t2) := if t1.Got? then Handshake(s1, again, w, held, t1.answer) else (s1, t1);
    var (s3, t3) := Retry503(s2, again, w, t2);
    Closing(s3, c, t3)
  }

  function Executed(s: Session, calls: seq<Call>, w: World): Session
    decreases |calls|
  {
    if calls == [] then s
    else Execute(Executed(s, calls[..|calls| - 1], w), calls[|calls| - 1], w).0
  }

  predicate Initial(s: Session) {
    s.challengeCookies == [] && s.challenge == None && s.nonceCount == 0 && s.calls == 0
    && s.fetches == 0 && s.adoptions == 0 && s.replaced == 0 && s.wire == []
  }

  // ─── What each part sends ─────────────────────────────────────────────────

  predicate Is401(o: Outcome) {
    o.Answered? && o.answer.status == 401
  }

  /** A controller that acts only when it does not answer 401 or 503 may act on this. */
  predicate MayAct(x: Sending) {
    !(x.outcome.Answered? && x.outcome.answer.status in {401, 503})
  }

  /** The sendings of `after` beyond those of `before`. */
  function New(before: Session, after: Session): seq<Sending>
    requires |before.wire| <= |after.wire|
  {
    after.wire[|before.wire|..]
  }

  /** What may go out once more after `o`: anything after a 401 or 503 answer, and
      a repeatable read also after a dead pooled connection. */
  predicate MayFollow(o: Outcome, resendable: bool) {
    || (o.Answered? && o.answer.status in {401, 503})
    || (resendable && o == Dropped(true))
  }

  ghost predicate Chained(sendings: seq<Sending>, resendable: bool) {
    forall k | 0 <= k < |sendings| - 1 :: MayFollow(sendings[k].outcome, resendable)
  }

  /** From `before` on, `s` has sent a chain ending in the answer `t`, in at most `n` fetches. */
  ghost predicate Traced(before: Session, s: Session, t: Try, resendable: bool, n: nat) {
    && before.wire <= s.wire
    && before.calls == s.calls
    && Chained(New(before, s), resendable)
    && (forall x | x in New(before, s) :: x.call == s.calls)
    && (t.Got? ==> |before.wire| < |s.wire| && Last(s) == Answered(t.answer))
    && before.fetches <= s.fetches <= before.fetches + n
    && |New(before, s)| <= (if resendable then 2 * n else n)
  }

  /** What one fetch adds to the wire: one sending, or two when a dead connection
      allowed the second. */
  ghost predicate Fetches(before: Session, after: Session, again: bool) {
    && before.wire <= after.wire
    && after.calls == before.calls
    && |New(before, after)| <= (if again then 2 else 1)
    && (|New(before, after)| == 2 ==> New(before, after)[0].outcome == Dropped(true))
    && forall x | x in New(before, after) :: x.call == before.calls
  }

  lemma AttemptsSend(s: Session, again: bool, w: World)
    requires CanAnswer(s)
    ensures
      var s' := Attempts(s, again, w);
      Fetches(s, s', again) && |s.wire| < |s'.wire| && s'.fetches == s.fetches
  {
  }

  lemma ReceivedKeepsWire(s: Session, w: World)
    requires s.wire != []
    ensures
      var (s', t) := Received(s, w);
      && s'.wire == s.wire && s'.calls == s.calls && s'.fetches == s.fetches
      && (t.Got? ==> Last(s) == Answered(t.answer))
  {
  }

  lemma SameWires(s0: Session, s1: Session, before: Session, after: Session, again: bool)
    requires Fetches(s0, s1, again)
    requires before.wire == s0.wire && before.calls == s0.calls
    requires after.wire == s1.wire && after.calls == s1.calls
    ensures Fetches(before, after, again)
  {
    assert New(before, after) == New(s0, s1);
  }

  lemma NothingSent(s: Session, s': Session, again: bool)
    requires s'.wire == s.wire && s'.calls == s.calls
    ensures Fetches(s, s', again)
  {
    assert New(s, s') == [];
  }

  /** Fetched by `before` as `after`, with answer t. */
  ghost predicate Fetched(before: Session, after: Session, t: Try, again: bool) {
    && Fetches(before, after, again)
    && after.fetches == before.fetches + 1
    && (t.Got? ==> |before.wire| < |after.wire| && Last(after) == Answered(t.answer))
  }

  lemma AttemptsReceived(s: Session, again: bool, w: World)
    requires CanAnswer(s) && s.fetches > 0
    ensures
      var (s', t) := Received(Attempts(s, again, w), w);
      Fetched(s.(fetches := s.fetches - 1), s', t, again)
  {
    var s1 := Attempts(s, again, w);
    AttemptsSend(s, again, w);
    ReceivedKeepsWire(s1, w);
    SameWires(s, s1, s.(fetches := s.fetches - 1), Received(s1, w).0, again);
  }

  lemma RawFetchSends(s: Session, again: bool, w: World)
    ensures var (s', t) := RawFetch(s, again, w); Fetched(s, s', t, again)
  {
    var s0 := s.(fetches := s.fetches + 1);
    if w.aborted(|s.wire|) || !CanAnswer(s) {
      NothingSent(s, s0, again);
    } else {
      AttemptsReceived(s0, again, w);
      assert s0.(fetches := s.fetches) == s;
    }
  }

  lemma ChainExtends(sent: seq<Sending>, more: seq<Sending>, again: bool)
    requires Chained(sent, again)
    requires sent != [] ==> MayFollow(sent[|sent| - 1].outcome, false)
    requires |more| <= (if again then 2 else 1)
    requires |more| == 2 ==> more[0].outcome == Dropped(true)
    ensures Chained(sent + more, again)
  {
  }

  /** One more fetch, made at the start or after a 401 or 503 answer. */
  lemma FetchTraced(before: Session, s: Session, again: bool, w: World, n: nat)
    requires before.wire <= s.wire && before.calls == s.calls
    requires Chained(New(before, s), again)
    requires forall x | x in New(before, s) :: x.call == s.calls
    requires before.fetches <= s.fetches <= before.fetches + n
    requires |New(before, s)| <= (if again then 2 * n else n)
    requires |before.wire| < |s.wire| ==> MayFollow(Last(s), false)
    ensures var (s', t') := RawFetch(s, again, w); Traced(before, s', t', again, n + 1)
  {
    RawFetchSends(s, again, w);
    var s' := RawFetch(s, again, w).0;
    NewJoins(before, s, s');
    ChainExtends(New(before, s), New(s, s'), again);
  }

  lemma NewJoins(s: Session, s1: Session, s2: Session)
    requires s.wire <= s1.wire <= s2.wire
    ensures New(s, s2) == New(s, s1) + New(s1, s2)
  {
    assert s2.wire == s1.wire + New(s1, s2);
  }

  lemma SecondAnswerTraced(before: Session, s: Session, again: bool, w: World, held: bool, t: Try)
    requires Traced(before, s, t, again, 2)
    ensures var (s', t') := SecondAnswer(s, again, w, held, t);
            Traced(before, s', t', again, 3) && (t'.Got? ==> t'.answer.status != 401)
  {
    if t.Got? && t.answer.status == 401 && held && t.answer.auth.Digest? {
      var s1 := Adopt(FreshSession(s), t.answer.auth.challenge);
      assert New(before, s1) == New(before, s);
      FetchTraced(before, s1, again, w, 2);
    }
  }

  lemma HandshakeTraced(before: Session, s: Session, again: bool, w: World, held: bool, a: Answer)
    requires Traced(before, s, Got(a), again, 1)
    ensures var (s', t') := Handshake(s, again, w, held, a);
            Traced(before, s', t', again, 3) && (t'.Got? ==> t'.answer.status != 401)
  {
    if a.status == 401 && a.auth.Digest? {
      var s1 := Adopt(s, a.auth.challenge);
      assert New(before, s1) == New(before, s);
      FetchTraced(before, s1, again, w, 1);
      var (s2, t2) := RawFetch(s1, again, w);
      SecondAnswerTraced(before, s2, again, w, held, t2);
    }
  }

  lemma Retry503Traced(before: Session, s: Session, again: bool, w: World, t: Try)
    requires Traced(before, s, t, again, 3)
    ensures var (s', t') := Retry503(s, again, w, t); Traced(before, s', t', again, 4)
  {
    if t.Got? && t.answer.status == 503 { FetchTraced(before, s, again, w, 3); }
  }

  lemma FirstAnswerTraced(s0: Session, again: bool, w: World, held: bool)
    ensures
      var (s1, t1) := RawFetch(s0, again, w);
      var (s2, t2) := if t1.Got? then Handshake(s1, again, w, held, t1.answer) else (s1, t1);
      Traced(s0, s2, t2, again, 3)
  {
    FetchTraced(s0, s0, again, w, 0);
    var (s1, t1) := RawFetch(s0, again, w);
    if t1.Got? { HandshakeTraced(s0, s1, again, w, held, t1.answer); }
  }

  /** Every call: at most four fetches, and every sending after its first follows a
      401 or 503 answer (or, for a read that changes nothing and is not held, a dead
      pooled connection). */
  lemma ExecuteTraced(s: Session, c: Call, w: World)
    ensures
      var (s', t) := Execute(s, c, w);
      && s'.calls == s.calls + 1
      && Traced(s.(calls := s'.calls), s', t, Repeatable(c.req), 4)
      && (t.Got? ==> IsOk(t.answer.status))
  {
    var again := MayResend(c.req);
    MayResendExactly(c.req);
    var s0 := Opening(s, c);
    var held := s0.cookies != [];
    FirstAnswerTraced(s0, again, w, held);
    var (s1, t1) := RawFetch(s0, again, w);
    var (s2, t2) := if t1.Got? then Handshake(s1, again, w, held, t1.answer) else (s1, t1);
    Retry503Traced(s0, s2, again, w, t2);
    var (s3, t3) := Retry503(s2, again, w, t2);
    ClosingTraced(s0, s3, c, t3, again);
  }

  lemma ClosingTraced(s0: Session, s: Session, c: Call, t: Try, again: bool)
    requires Traced(s0, s, t, again, 4)
    ensures var (s', t') := Closing(s, c, t);
            Traced(s0, s', t', again, 4) && (t'.Got? ==> IsOk(t'.answer.status))
  {
  }

  /** A write, a DIPC read, a /logout or a held request is never sent again after a
      sending the controller may have acted on: it acts at most once per call. */
  lemma ActsAtMostOnce(s: Session, c: Call, w: World, j: nat, k: nat)
    requires c.req.verb != GET || c.req.holdMs > 0 || ReadsDipc(c.req.path) || LogsOut(c.req.path)
    requires |s.wire| <= j < k < |Execute(s, c, w).0.wire|
    ensures !MayAct(Execute(s, c, w).0.wire[j])
  {
    ExecuteTraced(s, c, w);
    var s' := Execute(s, c, w).0;
    assert New(s, s')[j - |s.wire|] == s'.wire[j];
    assert MayFollow(New(s, s')[j - |s.wire|].outcome, false);
  }
}
