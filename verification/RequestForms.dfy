/** The requests that cut, and those that are never repeated, by what is written on the
    wire: request lines and bodies put together from their parts (REDUCING,
    NOT_REPEATABLE and IDEMPOTENT in src/HttpSession.ts). */
module RequestForms {
  import opened Requests
  import opened SubscriptionBody

  /** A request that only takes something away. `tail`: the rest of the request line;
      `before` and `after`: the other fields of the body. */
  datatype Line =
    | StopRapid(tail: string)
    | MotorsOff(tail: string, before: string, after: string)
    | GroupDelete(id: string)
    | Logout(tail: string)
    | ReleaseAll(tail: string)
    | ReleaseOne(domain: string, tail: string)
    | RmmpCancel(tail: string)

  /** Nothing more, or more behind an '&'. */
  predicate MoreFields(tail: string) {
    tail == "" || tail[0] == '&'
  }

  predicate Segment(s: string) {
    s != "" && '/' !in s && '?' !in s
  }

  predicate WellFormed(l: Line) {
    match l
    case StopRapid(tail) => MoreFields(tail)
    case MotorsOff(tail, before, after) =>
      MoreFields(tail) && (before == "" || before[|before| - 1] == '&') && MoreFields(after)
    case GroupDelete(id) => Segment(id)
    case Logout(tail) => tail == "" || tail[0] == '?' || tail[0] == '#'
    case ReleaseAll(tail) => MoreFields(tail)
    case ReleaseOne(domain, tail) => Segment(domain) && MoreFields(tail)
    case RmmpCancel(tail) => MoreFields(tail)
  }

  /** The request has this line, and motors off this body. */
  predicate Writes(l: Line, r: Request) {
    match l
    case StopRapid(tail) => r.verb == POST && r.path == "/rw/rapid/execution?action=stop" + tail
    case MotorsOff(tail, before, after) =>
      && r.verb == POST && r.path == "/rw/panel/ctrlstate?action=setctrlstate" + tail
      && r.body == Form(before + "ctrl-state=motoroff" + after)
    case GroupDelete(id) => r.verb == DELETE && r.path == "/subscription/" + id
    case Logout(tail) => r.verb == GET && r.path == "/logout" + tail
    case ReleaseAll(tail) => r.verb == POST && r.path == "/rw/mastership?action=release" + tail
    case ReleaseOne(domain, tail) => r.verb == POST && r.path == "/rw/mastership/" + domain + "?action=release" + tail
    case RmmpCancel(tail) => r.verb == POST && r.path == "/users/rmmp?action=cancel" + tail
  }

  /** These cut a create already sent too; the others only one not sent yet. */
  predicate CutsSentOnes(l: Line) {
    l.StopRapid? || l.MotorsOff? || l.GroupDelete? || l.Logout?
  }

  /** The subscription group create. */
  predicate Creates(r: Request) {
    r.verb == POST && r.path == "/subscription"
  }

  ghost predicate Written(r: Request, sent: bool) {
    exists l :: WellFormed(l) && CutsSentOnes(l) == sent && Writes(l, r)
  }

  // ─── Prefixes ─────────────────────────────────────────────────────────────

  lemma PrefixThenIs(p: string, stops: set<char>, s: string)
    requires PrefixThen(p, stops, s)
    ensures s == p + s[|p|..] && (s[|p|..] == "" || s[|p|..][0] in stops)
  {
  }

  lemma WrittenPrefix(p: string, stops: set<char>, tail: string)
    requires tail == "" || tail[0] in stops
    ensures PrefixThen(p, stops, p + tail)
  {
    assert (p + tail)[..|p|] == p;
  }

  lemma OtherPrefix(p: string, q: string, tail: string, k: nat)
    requires k < |p| && k < |q| && p[k] != q[k]
    ensures !Prefix(p, q + tail)
  {
    assert (q + tail)[k] == q[k];
    assert |p| <= |q + tail| ==> (q + tail)[..|p|][k] == q[k];
  }

  /** A field in a form stands between its ends or '&'s. */
  lemma FieldStands(before: string, field: string, after: string)
    requires (before == "" || before[|before| - 1] == '&') && MoreFields(after)
    ensures HasField(field, before + field + after)
  {
    var s := before + field + after;
    WrittenPrefix(field, {'&'}, after);
    assert s[|before|..] == field + after;
    assert before != "" ==> s[|before| - 1] == '&';
  }

  lemma FieldFound(field: string, s: string) returns (before: string, after: string)
    requires HasField(field, s)
    ensures s == before + field + after
    ensures (before == "" || before[|before| - 1] == '&') && MoreFields(after)
  {
    var i :| 0 <= i <= |s| && (i == 0 || s[i - 1] == '&') && PrefixThen(field, {'&'}, s[i..]);
    PrefixThenIs(field, {'&'}, s[i..]);
    before, after := s[..i], s[i..][|field|..];
  }

  lemma Regrouped(a: string, b: string, c: string, d: string)
    ensures a + (b + (c + d)) == a + b + c + d
  {
  }

  lemma Rejoins(p: string, s: string)
    requires Prefix(p, s)
    ensures s == p + s[|p|..]
  {
  }

  lemma SegmentStands(domain: string, rest: string, tail: string)
    requires Segment(domain) && MoreFields(tail)
    ensures SegmentThen(rest, domain + (rest + tail))
  {
    var s := domain + (rest + tail);
    WrittenPrefix(rest, {'&'}, tail);
    assert s[|domain|..] == rest + tail;
    assert forall k | 0 <= k < |domain| :: s[k] == domain[k] && domain[k] in domain;
  }

  lemma SegmentFound(rest: string, s: string) returns (domain: string, tail: string)
    requires SegmentThen(rest, s)
    ensures Segment(domain) && MoreFields(tail) && s == domain + (rest + tail)
  {
    var i :| 0 < i <= |s| && (forall k | 0 <= k < i :: s[k] != '/' && s[k] != '?') && PrefixThen(rest, {'&'}, s[i..]);
    PrefixThenIs(rest, {'&'}, s[i..]);
    domain, tail := s[..i], s[i..][|rest|..];
    assert s == domain + s[i..];
  }

  // ─── What each form cuts ──────────────────────────────────────────────────

  lemma StopCuts(l: Line, r: Request)
    requires l.StopRapid? && WellFormed(l) && Writes(l, r)
    ensures CutsOf(r) == CutsSent
  {
    WrittenPrefix("/rw/rapid/execution?action=stop", {'&'}, l.tail);
    assert IsStop(r);
  }

  lemma MotorsOffCuts(l: Line, r: Request)
    requires l.MotorsOff? && WellFormed(l) && Writes(l, r)
    ensures CutsOf(r) == CutsSent
  {
    WrittenPrefix("/rw/panel/ctrlstate?action=setctrlstate", {'&'}, l.tail);
    FieldStands(l.before, "ctrl-state=motoroff", l.after);
    assert IsMotorsOff(r);
  }

  lemma DeleteCuts(l: Line, r: Request)
    requires l.GroupDelete? && WellFormed(l) && Writes(l, r)
    ensures CutsOf(r) == CutsSent
  {
    var start := "/subscription/";
    assert r.path[..|start|] == start;
    assert forall k | |start| <= k < |r.path| :: r.path[k] == l.id[k - |start|] && r.path[k] in l.id;
    assert IsGroupDelete(r);
  }

  lemma LogoutCuts(l: Line, r: Request)
    requires l.Logout? && WellFormed(l) && Writes(l, r)
    ensures CutsOf(r) == CutsSent
  {
    WrittenPrefix("/logout", {'?', '#'}, l.tail);
    assert IsLogout(r);
  }

  /** A request to these resources is no stop and no motors off. */
  lemma NotSent(p: string, tail: string, r: Request)
    requires r.verb == POST && r.path == p + tail
    requires |p| > 4 && (p[1] != 'r' || (p[4] != 'r' && p[4] != 'p'))
    ensures !IsStop(r) && !IsMotorsOff(r) && !IsGroupDelete(r) && !IsLogout(r)
  {
    var k := if p[1] != 'r' then 1 else 4;
    OtherPrefix("/rw/rapid/execution?action=stop", p, tail, k);
    OtherPrefix("/rw/panel/ctrlstate?action=setctrlstate", p, tail, k);
  }

  lemma ReleaseAllCuts(l: Line, r: Request)
    requires l.ReleaseAll? && WellFormed(l) && Writes(l, r)
    ensures CutsOf(r) == CutsQueued
  {
    NotSent("/rw/mastership?action=release", l.tail, r);
    WrittenPrefix("/rw/mastership?action=release", {'&'}, l.tail);
    assert IsRelease(r);
  }

  lemma ReleaseOneCuts(l: Line, r: Request)
    requires l.ReleaseOne? && WellFormed(l) && Writes(l, r)
    ensures CutsOf(r) == CutsQueued
  {
    var start, rest := "/rw/mastership/", l.domain + ("?action=release" + l.tail);
    Regrouped(start, l.domain, "?action=release", l.tail);
    NotSent(start, rest, r);
    SegmentStands(l.domain, "?action=release", l.tail);
    assert r.path[..|start|] == start && r.path[|start|..] == rest;
    assert IsRelease(r);
  }

  lemma RmmpCancelCuts(l: Line, r: Request)
    requires l.RmmpCancel? && WellFormed(l) && Writes(l, r)
    ensures CutsOf(r) == CutsQueued
  {
    NotSent("/users/rmmp?action=cancel", l.tail, r);
    WrittenPrefix("/users/rmmp?action=cancel", {'&'}, l.tail);
    assert IsRmmpCancel(r);
  }

  lemma LineCuts(l: Line, r: Request)
    requires WellFormed(l) && Writes(l, r)
    ensures CutsOf(r) == if CutsSentOnes(l) then CutsSent else CutsQueued
  {
    match l
    case StopRapid(_) => StopCuts(l, r);
    case MotorsOff(_, _, _) => MotorsOffCuts(l, r);
    case GroupDelete(_) => DeleteCuts(l, r);
    case Logout(_) => LogoutCuts(l, r);
    case ReleaseAll(_) => ReleaseAllCuts(l, r);
    case ReleaseOne(_, _) => ReleaseOneCuts(l, r);
    case RmmpCancel(_) => RmmpCancelCuts(l, r);
  }

  // ─── Nothing else cuts ────────────────────────────────────────────────────

  lemma SentIsWritten(r: Request) returns (l: Line)
    requires CutsOf(r) == CutsSent
    ensures WellFormed(l) && Writes(l, r)
  {
    if IsStop(r) {
      PrefixThenIs("/rw/rapid/execution?action=stop", {'&'}, r.path);
      l := StopRapid(r.path[|"/rw/rapid/execution?action=stop"|..]);
    } else if IsMotorsOff(r) {
      l := MotorsOffIsWritten(r);
    } else if IsGroupDelete(r) {
      var start := "/subscription/";
      l := GroupDelete(r.path[|start|..]);
      assert r.path == start + l.id;
    } else {
      PrefixThenIs("/logout", {'?', '#'}, r.path);
      l := Logout(r.path[|"/logout"|..]);
    }
  }

  lemma MotorsOffIsWritten(r: Request) returns (l: Line)
    requires IsMotorsOff(r)
    ensures WellFormed(l) && Writes(l, r)
  {
    var start := "/rw/panel/ctrlstate?action=setctrlstate";
    PrefixThenIs(start, {'&'}, r.path);
    var before, after := FieldFound("ctrl-state=motoroff", if r.body.Form? then r.body.text else "");
    l := MotorsOff(r.path[|start|..], before, after);
  }

  lemma RmmpIsWritten(r: Request) returns (l: Line)
    requires IsRmmpCancel(r)
    ensures l.RmmpCancel? && WellFormed(l) && Writes(l, r)
  {
    PrefixThenIs("/users/rmmp?action=cancel", {'&'}, r.path);
    l := RmmpCancel(r.path[|"/users/rmmp?action=cancel"|..]);
  }

  lemma ReleaseAllIsWritten(r: Request) returns (l: Line)
    requires r.verb == POST && PrefixThen("/rw/mastership?action=release", {'&'}, r.path)
    ensures l.ReleaseAll? && WellFormed(l) && Writes(l, r)
  {
    PrefixThenIs("/rw/mastership?action=release", {'&'}, r.path);
    l := ReleaseAll(r.path[|"/rw/mastership?action=release"|..]);
  }

  lemma ReleaseOneIsWritten(r: Request) returns (l: Line)
    requires r.verb == POST && Prefix("/rw/mastership/", r.path)
    requires SegmentThen("?action=release", r.path[|"/rw/mastership/"|..])
    ensures l.ReleaseOne? && WellFormed(l) && Writes(l, r)
  {
    var start := "/rw/mastership/";
    var domain, tail := SegmentFound("?action=release", r.path[|start|..]);
    l := ReleaseOne(domain, tail);
    Rejoins(start, r.path);
    Regrouped(start, domain, "?action=release", tail);
  }

  lemma QueuedIsWritten(r: Request) returns (l: Line)
    requires CutsOf(r) == CutsQueued
    ensures WellFormed(l) && Writes(l, r)
  {
    if IsRmmpCancel(r) {
      l := RmmpIsWritten(r);
    } else if PrefixThen("/rw/mastership?action=release", {'&'}, r.path) {
      l := ReleaseAllIsWritten(r);
    } else {
      l := ReleaseOneIsWritten(r);
    }
  }

  /** A request cuts creates already sent exactly if it is a written stop, motors off,
      group delete or /logout; only those not sent exactly if it is a written release or
      RMMP cancel; and nothing exactly if it is none of these. */
  lemma CutsExactly(r: Request)
    ensures CutsOf(r) == CutsSent <==> Written(r, true)
    ensures CutsOf(r) == CutsQueued <==> Written(r, false)
    ensures CutsOf(r) == CutsNothing <==> !Written(r, true) && !Written(r, false)
  {
    forall l | WellFormed(l) && Writes(l, r) ensures CutsOf(r) == if CutsSentOnes(l) then CutsSent else CutsQueued {
      LineCuts(l, r);
    }
    if CutsOf(r) == CutsSent { var l := SentIsWritten(r); }
    if CutsOf(r) == CutsQueued { var l := QueuedIsWritten(r); }
  }

  /** Motors off among any fields of the body. */
  lemma MotorsOffField(fields: seq<string>, i: nat, tail: string, holdMs: int)
    requires i < |fields| && fields[i] == "ctrl-state=motoroff" && MoreFields(tail)
    ensures
      var r := Request(POST, "/rw/panel/ctrlstate?action=setctrlstate" + tail, Form(JoinFields(fields)), holdMs);
      CutsOf(r) == CutsSent
  {
    var before, after := FieldOfForm(fields, i);
    MotorsOffCuts(MotorsOff(tail, before, after),
                  Request(POST, "/rw/panel/ctrlstate?action=setctrlstate" + tail, Form(JoinFields(fields)), holdMs));
  }

  lemma {:induction false} FieldOfForm(fields: seq<string>, i: nat) returns (before: string, after: string)
    requires i < |fields|
    ensures JoinFields(fields) == before + fields[i] + after
    ensures (before == "" || before[|before| - 1] == '&') && MoreFields(after)
    decreases |fields|
  {
    if i == 0 {
      before, after := "", if |fields| == 1 then "" else "&" + JoinFields(fields[1..]);
    } else {
      before, after := FieldOfForm(fields[1..], i - 1);
      before := fields[0] + "&" + before;
      assert JoinFields(fields) == before + fields[i] + after;
    }
  }

  // ─── What may be repeated ─────────────────────────────────────────────────

  /** `word` is `lower`, in any letter case. */
  predicate AnyCase(word: string, lower: string) {
    && |word| == |lower|
    && forall k | 0 <= k < |word| ::
         word[k] == lower[k] || ('a' <= lower[k] <= 'z' && word[k] as int + 32 == lower[k] as int)
  }

  /** A DIPC read: the parameter stands behind '?' or '&', and ends or is followed by '&'. */
  ghost predicate ReadsDipc(path: string) {
    exists before, mark, word, after :: IsDipc(path, before, mark, word, after)
  }

  predicate IsDipc(path: string, before: string, mark: char, word: string, after: string) {
    && path == before + [mark] + word + after
    && mark in {'?', '&'} && AnyCase(word, "action=dipc-read") && MoreFields(after)
  }

  ghost predicate LogsOut(path: string) {
    exists word, after ::
      && path == word + after
      && AnyCase(word, "/logout") && (after == "" || after[0] == '?' || after[0] == '#')
  }

  /** A read that changes nothing, and that the controller does not hold. */
  ghost predicate Repeatable(r: Request) {
    r.verb == GET && r.holdMs <= 0 && !ReadsDipc(r.path) && !LogsOut(r.path)
  }

  predicate IsLower(s: string) {
    forall k | 0 <= k < |s| :: !('A' <= s[k] <= 'Z')
  }

  lemma LowerIsAnyCase(word: string, lower: string)
    requires IsLower(lower)
    ensures LowerAll(word) == lower <==> AnyCase(word, lower)
  {
    if AnyCase(word, lower) {
      forall k | 0 <= k < |word| ensures LowerAll(word)[k] == lower[k] { }
    }
    if LowerAll(word) == lower {
      forall k | 0 <= k < |word|
        ensures word[k] == lower[k] || ('a' <= lower[k] <= 'z' && word[k] as int + 32 == lower[k] as int)
      {
        assert LowerAll(word)[k] == lower[k];
      }
    }
  }

  /** A word in any case at the head of what is left from `i`. */
  lemma HeadAnyCase(path: string, i: nat, lower: string, stops: set<char>)
    requires i <= |path| && IsLower(lower) && (forall c | c in stops :: !('A' <= c <= 'Z') && !('a' <= c <= 'z'))
    ensures
      var rest := path[i..];
      PrefixThen(lower, stops, LowerAll(path)[i..]) <==>
      && |lower| <= |rest| && AnyCase(rest[..|lower|], lower)
      && (rest[|lower|..] == "" || rest[|lower|..][0] in stops)
  {
    var rest := path[i..];
    assert LowerAll(path)[i..] == LowerAll(rest);
    if |lower| <= |rest| {
      assert LowerAll(rest)[..|lower|] == LowerAll(rest[..|lower|]);
      LowerIsAnyCase(rest[..|lower|], lower);
    }
  }

  lemma LogsOutExactly(path: string)
    ensures PrefixThen("/logout", {'?', '#'}, LowerAll(path)) <==> LogsOut(path)
  {
    HeadAnyCase(path, 0, "/logout", {'?', '#'});
    assert path[0..] == path && LowerAll(path)[0..] == LowerAll(path);
    if PrefixThen("/logout", {'?', '#'}, LowerAll(path)) {
      assert path == path[..7] + path[7..];
    }
    if word, after :| path == word + after && AnyCase(word, "/logout") && (after == "" || after[0] == '?' || after[0] == '#') {
      assert path[..7] == word && path[7..] == after;
    }
  }

  predicate DipcAt(path: string, i: nat)
    requires i < |path|
  {
    (LowerAll(path)[i] == '?' || LowerAll(path)[i] == '&') && PrefixThen("action=dipc-read", {'&'}, LowerAll(path)[i + 1..])
  }

  lemma Rejoined(s: string, i: nat, n: nat)
    requires i + 1 + n <= |s|
    ensures s == s[..i] + [s[i]] + s[i + 1..][..n] + s[i + 1..][n..]
  {
  }

  lemma DipcAtReads(path: string, i: nat)
    requires i < |path| && DipcAt(path, i)
    ensures ReadsDipc(path)
  {
    HeadAnyCase(path, i + 1, "action=dipc-read", {'&'});
    var rest := path[i + 1..];
    var word, after := rest[..16], rest[16..];
    assert LowerAll(path)[i] == Lower(path[i]);
    Rejoined(path, i, 16);
    assert IsDipc(path, path[..i], path[i], word, after);
  }

  lemma DipcStands(path: string, before: string, mark: char, word: string, after: string)
    requires IsDipc(path, before, mark, word, after)
    ensures |before| < |path| && path[|before|] == mark
    ensures |word| == 16 <= |path[|before| + 1..]|
    ensures path[|before| + 1..][..16] == word && path[|before| + 1..][16..] == after
  {
    assert path[|before| + 1..] == word + after;
  }

  lemma ReadsDipcAt(path: string) returns (i: nat)
    requires ReadsDipc(path)
    ensures i < |path| && DipcAt(path, i)
  {
    var before, mark, word, after :| IsDipc(path, before, mark, word, after);
    i := |before|;
    DipcStands(path, before, mark, word, after);
    HeadAnyCase(path, i + 1, "action=dipc-read", {'&'});
  }

  lemma NotRepeatableExactly(path: string)
    ensures NotRepeatable(path) <==> LogsOut(path) || ReadsDipc(path)
  {
    LogsOutExactly(path);
    if NotRepeatable(path) && !LogsOut(path) {
      var p := LowerAll(path);
      var i :| 0 <= i < |p| && (p[i] == '?' || p[i] == '&') && PrefixThen("action=dipc-read", {'&'}, p[i + 1..]);
      DipcAtReads(path, i);
    }
    if ReadsDipc(path) { var i := ReadsDipcAt(path); }
  }

  /** A request may be sent again on a fresh connection exactly if it is a GET without a
      hold, and neither /logout nor a DIPC read in any letter case. */
  lemma MayResendExactly(r: Request)
    ensures MayResend(r) <==> Repeatable(r)
  {
    NotRepeatableExactly(r.path);
  }
}
