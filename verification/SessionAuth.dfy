/** The authentication part of HttpSession as the source has it: an object updating
    its cookies, challenge and nonce counter, one request at a time. Each method is
    proved to be the function of the same name in module HttpAuth. */
module SessionAuth {
  import opened Maybe
  import opened Requests
  import opened HttpAuth

  class HttpSession {
    const nodeHttp: bool
    var cookies: Jar
    var challengeCookies: Jar
    var digestChallenge: Option<Challenge>
    var nonceCount: nat
    var lastActivityTime: int
    // What the model counts and records of the environment.
    var calls: nat
    var fetches: nat
    var adoptions: nat
    var replaced: nat
    var wire: seq<Sending>

    constructor (nodeHttp: bool, sessionCookie: Jar)
      ensures Initial(State()) && State().cookies == PutAll([], sessionCookie) && State().nodeHttp == nodeHttp
    {
      this.nodeHttp := nodeHttp;
      cookies, challengeCookies, digestChallenge, nonceCount := PutAll([], sessionCookie), [], None, 0;
      lastActivityTime, calls, fetches, adoptions, replaced, wire := 0, 0, 0, 0, 0, [];
    }

    function State(): Session
      reads this
    {
      Session(nodeHttp, cookies, challengeCookies, digestChallenge, nonceCount, lastActivityTime,
              calls, fetches, adoptions, replaced, wire)
    }

    /** The cookies of a 401 are tentative. */
    method StoreChallengeCookies(a: Answer)
      modifies this`challengeCookies
      ensures challengeCookies == PutAll(old(challengeCookies), a.setCookies)
    {
      for i := 0 to |a.setCookies|
        invariant challengeCookies == PutAll(old(challengeCookies), a.setCookies[..i])
      {
        var (name, value) := a.setCookies[i];
        challengeCookies := Put(challengeCookies, name, value);
        assert a.setCookies[..i + 1][..i] == a.setCookies[..i];
      }
      assert a.setCookies[..|a.setCookies|] == a.setCookies;
    }

    /** Any other answer's cookies are the session's, and so are the tentative ones. */
    method StoreSessionCookies(a: Answer)
      modifies this`cookies, this`challengeCookies, this`replaced
      ensures
        var taken := old(challengeCookies) + a.setCookies;
        && cookies == PutAll(old(cookies), taken)
        && challengeCookies == []
        && replaced == old(replaced) + if Replaces(old(cookies), taken) then 1 else 0
    {
      var taken := challengeCookies + a.setCookies;
      challengeCookies := [];
      var different := false;
      for i := 0 to |taken|
        invariant challengeCookies == [] && replaced == old(replaced)
        invariant cookies == PutAll(old(cookies), taken[..i])
        invariant different == Replaces(old(cookies), taken[..i])
      {
        var (name, value) := taken[i];
        var before := Lookup(cookies, name);
        assert taken[..i + 1][..i] == taken[..i];
        if name == SessionCookie && before != None && before != Some(value) { different := true; }
        cookies := Put(cookies, name, value);
      }
      assert taken[..|taken|] == taken;
      if different { replaced := replaced + 1; }
    }

    method StoreCookies(a: Answer)
      modifies this
      ensures State() == HttpAuth.StoreCookies(old(State()), a)
    {
      if a.status == 401 { StoreChallengeCookies(a); } else { StoreSessionCookies(a); }
    }

    /** The headers are built, counting the nonce use, and the request goes out. */
    method SendOnce(w: World) returns (o: Outcome)
      requires CanAnswer(State())
      modifies this
      ensures State() == Send(old(State()), w)
      ensures o == Last(State())
    {
      var credential := None;
      if digestChallenge.Some? {
        nonceCount := nonceCount + 1;
        credential := Some(Credential(adoptions, digestChallenge.value.nonce, nonceCount));
      }
      o := w.outcome(|wire|);
      wire := wire + [Sending(calls, PutAll(cookies, challengeCookies), credential, o)];
    }

    method RawFetch(again: bool, w: World) returns (t: Try)
      modifies this
      ensures (State(), t) == HttpAuth.RawFetch(old(State()), again, w)
    {
      fetches := fetches + 1;
      if w.aborted(|wire|) { return Failed(CutShort); }
      if digestChallenge.Some? && !digestChallenge.value.usable { return Failed(AuthFailed); }
      var o := SendOnce(w);
      if nodeHttp && o == Dropped(true) && again && w.timeLeft(|wire|) && !w.aborted(|wire|) {
        o := SendOnce(w);
      }
      match o {
        case Answered(a) =>
          StoreCookies(a);
          return Got(a);
        case Dropped(_) =>
          return Failed(if w.aborted(|wire|) then CutShort else Network);
      }
    }

    method AdoptChallenge(c: Challenge)
      modifies this`digestChallenge, this`nonceCount, this`adoptions
      ensures State() == Adopt(old(State()), c)
    {
      digestChallenge, nonceCount, adoptions := Some(c), 0, adoptions + 1;
    }

    /** The branch taken when the first answer is a 401. */
    method Handshake(again: bool, w: World, held: bool, a: Answer) returns (t: Try)
      requires a.status == 401
      modifies this
      ensures (State(), t) == HttpAuth.Handshake(old(State()), again, w, held, a)
    {
      if a.auth == Absent {
        challengeCookies := [];
        return Failed(AuthFailed);
      }
      if a.auth == Unreadable { return Failed(AuthFailed); }
      AdoptChallenge(a.auth.challenge);
      t := RawFetch(again, w);
      t := AnswerAgain(again, w, held, t);
    }

    /** A second 401 on a held session is answered once more on a fresh one. */
    method AnswerAgain(again: bool, w: World, held: bool, first: Try) returns (t: Try)
      modifies this
      ensures (State(), t) == SecondAnswer(old(State()), again, w, held, first)
    {
      t := first;
      if t.Failed? { return; }
      if t.answer.status == 401 && t.answer.auth != Absent && held {
        cookies, challengeCookies, replaced := [], [], replaced + 1;
        if t.answer.auth == Unreadable { return Failed(AuthFailed); }
        AdoptChallenge(t.answer.auth.challenge);
        t := RawFetch(again, w);
        if t.Failed? { return; }
      }
      if t.answer.status == 401 {
        challengeCookies := [];
        t := Failed(AuthFailed);
      }
    }

    /** The authentication state is dropped when the session may have expired; the
        cookies stay, so that the controller reuses its session slot. */
    method Open(c: Call) returns (held: bool)
      modifies this
      ensures State() == Opening(old(State()), c)
      ensures held == (cookies != [])
    {
      calls := calls + 1;
      if lastActivityTime > 0 && c.startsAt - lastActivityTime > SessionTimeoutMs {
        digestChallenge, nonceCount := None, 0;
      }
      challengeCookies := [];
      held := cookies != [];
    }

    /** The 503 retry, and what the caller is told. */
    method Finish(c: Call, again: bool, w: World, a: Answer) returns (t: Try)
      modifies this
      ensures
        var (s, u) := Retry503(old(State()), again, w, Got(a));
        (State(), t) == Closing(s, c, u)
    {
      t := Got(a);
      if a.status == 503 {
        t := RawFetch(again, w);
        if t.Failed? { return; }
        if t.answer.status == 503 { return Failed(Busy); }
      }
      if !IsOk(t.answer.status) { return Failed(Refused(t.answer.status)); }
      lastActivityTime := c.endsAt;
    }

    method Execute(c: Call, w: World) returns (t: Try)
      modifies this
      ensures (State(), t) == HttpAuth.Execute(old(State()), c, w)
    {
      var again := MayResend(c.req);
      var held := Open(c);
      t := RawFetch(again, w);
      if t.Failed? { return; }
      if t.answer.status == 401 {
        t := Handshake(again, w, held, t.answer);
        if t.Failed? { return; }
      }
      t := Finish(c, again, w, t.answer);
    }
  }
}

/** The nc field of the Authorization header: the count in lower-case hex, padded
    to eight digits (section 3.2.2 of RFC 2617). */
module NonceCountHex {

  function Digit(d: nat): char
    requires d < 16
  {
    "0123456789abcdef"[d]
  }

  function DigitValue(c: char): nat {
    if '0' <= c <= '9' then (c - '0') as nat
    else if 'a' <= c <= 'f' then (c - 'a') as nat + 10
    else 0
  }

  function ToHex(n: nat): string {
    if n < 16 then [Digit(n)] else ToHex(n / 16) + [Digit(n % 16)]
  }

  function PadStart(s: string): string
    decreases 8 - |s|
  {
    if |s| >= 8 then s else PadStart("0" + s)
  }

  function NcField(n: nat): string {
    PadStart(ToHex(n))
  }

  function Value(s: string): nat {
    if s == "" then 0 else 16 * Value(s[..|s| - 1]) + DigitValue(s[|s| - 1])
  }

  function Pow16(k: nat): nat {
    if k == 0 then 1 else 16 * Pow16(k - 1)
  }

  lemma {:induction false} HexValue(n: nat)
    ensures Value(ToHex(n)) == n
    ensures forall k: nat | k > 0 :: n < Pow16(k) <==> |ToHex(n)| <= k
  {
    assert forall d: nat | d < 16 :: DigitValue(Digit(d)) == d;
    if n < 16 {
      assert Value([Digit(n)][..0]) == 0;
      forall k: nat | k > 0 ensures n < Pow16(k) { Pow16AtLeast(k); }
    } else {
      HexValue(n / 16);
      var s := ToHex(n);
      assert s[..|s| - 1] == ToHex(n / 16);
      forall k: nat | k > 0 ensures n < Pow16(k) <==> |s| <= k {
        if k == 1 {
          assert Pow16(1) == 16;
        } else {
          assert n < Pow16(k) <==> n / 16 < Pow16(k - 1);
        }
      }
    }
  }

  lemma {:induction false} Pow16AtLeast(k: nat)
    requires k > 0
    ensures Pow16(k) >= 16
  {
    if k > 1 { Pow16AtLeast(k - 1); }
  }

  lemma {:induction false} PadValue(s: string)
    ensures Value(PadStart(s)) == Value(s)
    ensures |PadStart(s)| == if |s| < 8 then 8 else |s|
    decreases 8 - |s|
  {
    if |s| < 8 {
      LeadingZero(s);
      PadValue("0" + s);
    }
  }

  lemma {:induction false} LeadingZero(s: string)
    ensures Value("0" + s) == Value(s)
    decreases |s|
  {
    if s == "" {
      assert ("0" + s)[..0] == "";
    } else {
      LeadingZero(s[..|s| - 1]);
      assert ("0" + s)[..|s|] == "0" + s[..|s| - 1];
    }
  }

  /** The field names the count exactly (so no two counts share one), and has eight
      digits exactly below 2^32. */
  lemma NcFieldIsExact(n: nat)
    ensures Value(NcField(n)) == n
    ensures |NcField(n)| == 8 <==> n < 0x1_0000_0000
  {
    HexValue(n);
    PadValue(ToHex(n));
    assert Pow16(8) == 0x1_0000_0000 by {
      assert Pow16(4) == 0x1_0000;
      assert Pow16(6) == 0x100_0000;
    }
  }

  lemma NcFieldInjective(m: nat, n: nat)
    requires NcField(m) == NcField(n)
    ensures m == n
  {
    NcFieldIsExact(m);
    NcFieldIsExact(n);
  }
}
