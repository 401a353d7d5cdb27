/** The form body of POST /subscription and its rewriting when the controller holds a
    panel resource in the other spelling (buildSubscriptionBody,
    swapSubscriptionResources, otherPanelSpelling). */
module SubscriptionBody {
  import opened Maybe
  import opened Requests

  // ─── Building ─────────────────────────────────────────────────────────────

  predicate IsDigit(c: char) {
    '0' <= c <= '9'
  }

  function Dec(n: nat): (s: string)
    ensures s != "" && forall c | c in s :: IsDigit(c)
  {
    var digit := ["0123456789"[n % 10]];
    if n < 10 then digit else Dec(n / 10) + digit
  }

  function JoinFields(fields: seq<string>): string {
    if fields == [] then ""
    else if |fields| == 1 then fields[0]
    else fields[0] + "&" + JoinFields(fields[1..])
  }

  /** The three form fields of each path, numbered from `i`. */
  function Fields(paths: seq<string>, i: nat): seq<string>
    decreases |paths|
  {
    if paths == [] then []
    else ["resources=" + Dec(i), Dec(i) + "=" + paths[0], Dec(i) + "-p=1"] + Fields(paths[1..], i + 1)
  }

  function Body(paths: seq<string>): string {
    JoinFields(Fields(paths, 1))
  }

  /** Each path once, where it first stands. */
  function Distinct(paths: seq<string>): seq<string>
    decreases |paths|
  {
    if paths == [] then []
    else
      var front := Distinct(paths[..|paths| - 1]);
      var last := paths[|paths| - 1];
      if last in front then front else front + [last]
  }

  function BuildBody(paths: seq<string>): string {
    Body(Distinct(paths))
  }

  predicate AllDistinct(paths: seq<string>) {
    forall i, j | 0 <= i < j < |paths| :: paths[i] != paths[j]
  }

  lemma {:induction false} DistinctIsDistinct(paths: seq<string>)
    ensures AllDistinct(Distinct(paths))
    ensures forall p :: p in paths <==> p in Distinct(paths)
    ensures AllDistinct(paths) ==> Distinct(paths) == paths
    decreases |paths|
  {
    if paths != [] {
      var front := paths[..|paths| - 1];
      DistinctIsDistinct(front);
      assert paths == front + [paths[|paths| - 1]];
    }
  }

  // ─── Swapping in the text ─────────────────────────────────────────────────

  function DigitsEnd(s: string, p: nat): (e: nat)
    requires p <= |s|
    ensures p <= e <= |s|
    ensures forall k | p <= k < e :: IsDigit(s[k])
    ensures e < |s| ==> !IsDigit(s[e])
    decreases |s| - p
  {
    if p < |s| && IsDigit(s[p]) then DigitsEnd(s, p + 1) else p
  }

  /** A field `<digits>=<from>` starts at `p`. */
  predicate MatchAt(s: string, p: nat, from: string)
    requires p <= |s|
  {
    && (p == 0 || s[p - 1] == '&')
    && var e := DigitsEnd(s, p);
       e > p && e < |s| && s[e] == '=' && PrefixThen(from, {'&'}, s[e + 1..])
  }

  function FirstMatch(s: string, p: nat, from: string): (m: Option<nat>)
    requires p <= |s|
    ensures m.Some? ==> p <= m.value <= |s| && MatchAt(s, m.value, from)
    decreases |s| - p
  {
    if MatchAt(s, p, from) then Some(p)
    else if p < |s| then FirstMatch(s, p + 1, from)
    else None
  }

  function SwapOne(s: string, from: string, to: string): string {
    ReplaceMatch(s, FirstMatch(s, 0, from), from, to)
  }

  function ReplaceMatch(s: string, m: Option<nat>, from: string, to: string): string
    requires m.Some? ==> m.value <= |s| && MatchAt(s, m.value, from)
  {
    if m.Some? then Replace(s, m.value, from, to) else s
  }

  /** The value of the field matched at `p`, replaced. */
  function Replace(s: string, p: nat, from: string, to: string): string
    requires p <= |s| && MatchAt(s, p, from)
  {
    var v := DigitsEnd(s, p) + 1;
    s[..v] + to + s[v + |from|..]
  }

  type Swap = (string, string)

  function SwapAll(body: string, swaps: seq<Swap>): string
    decreases |swaps|
  {
    if swaps == [] then body
    else
      var last := swaps[|swaps| - 1];
      SwapOne(SwapAll(body, swaps[..|swaps| - 1]), last.0, last.1)
  }

  /** The loop of the source. */
  method SwapResources(body: string, swaps: seq<Swap>) returns (out: string)
    ensures out == SwapAll(body, swaps)
  {
    out := body;
    for i := 0 to |swaps|
      invariant out == SwapAll(body, swaps[..i])
    {
      assert swaps[..i + 1][..i] == swaps[..i];
      out := SwapOne(out, swaps[i].0, swaps[i].1);
    }
    assert swaps[..|swaps|] == swaps;
  }

  // ─── Swapping fields ──────────────────────────────────────────────────────

  predicate NoAmp(s: string) {
    forall k | 0 <= k < |s| :: s[k] != '&'
  }

  predicate FieldIs(f: string, from: string) {
    var e := DigitsEnd(f, 0);
    e > 0 && e < |f| && f[e] == '=' && f[e + 1..] == from
  }

  function SwapField(fields: seq<string>, from: string, to: string): seq<string>
    decreases |fields|
  {
    if fields == [] then []
    else if FieldIs(fields[0], from) then
      [fields[0][..DigitsEnd(fields[0], 0) + 1] + to] + fields[1..]
    else [fields[0]] + SwapField(fields[1..], from, to)
  }

  /** A field of its own and the same field with more form after it look alike. */
  lemma DigitsWithin(f: string, rest: string)
    requires rest == "" || rest[0] == '&'
    ensures DigitsEnd(f + rest, 0) == DigitsEnd(f, 0)
  {
    DigitsWithinFrom(f, rest, 0);
  }

  lemma {:induction false} DigitsWithinFrom(f: string, rest: string, p: nat)
    requires p <= |f| && (rest == "" || rest[0] == '&')
    ensures DigitsEnd(f + rest, p) == DigitsEnd(f, p)
    decreases |f| - p
  {
    if p < |f| && IsDigit(f[p]) { DigitsWithinFrom(f, rest, p + 1); }
  }

  lemma FromIsWholeValue(g: string, rest: string, from: string)
    requires NoAmp(g) && NoAmp(from) && (rest == "" || rest[0] == '&')
    requires PrefixThen(from, {'&'}, g + rest)
    ensures |from| == |g|
  {
    var s := g + rest;
    assert forall k | 0 <= k < |from| :: from[k] == s[..|from|][k] == s[k];
    assert forall k | 0 <= k < |g| :: s[k] == g[k];
    assert rest != "" ==> s[|g|] == '&';
  }

  lemma MatchAtFirstField(f: string, rest: string, from: string)
    requires NoAmp(f) && NoAmp(from) && (rest == "" || rest[0] == '&')
    ensures MatchAt(f + rest, 0, from) <==> FieldIs(f, from)
  {
    DigitsWithin(f, rest);
    var s := f + rest;
    var e := DigitsEnd(f, 0);
    if e < |f| {
      var g := f[e + 1..];
      assert s[e + 1..] == g + rest;
      if PrefixThen(from, {'&'}, g + rest) {
        FromIsWholeValue(g, rest, from);
        assert from == (g + rest)[..|from|] == g;
      }
      if g == from {
        assert (g + rest)[..|from|] == from;
      }
    } else if e < |s| {
      assert s[e] == '&';
    }
  }

  lemma {:induction false} DigitsShift(head: string, t: string, p: nat)
    requires p <= |t|
    ensures DigitsEnd(head + t, |head| + p) == |head| + DigitsEnd(t, p)
    decreases |t| - p
  {
    if p < |t| && IsDigit(t[p]) { DigitsShift(head, t, p + 1); }
  }

  /** Matching after a separator is matching in the rest of the form. */
  lemma MatchShift(head: string, t: string, p: nat, from: string)
    requires p <= |t| && head != "" && head[|head| - 1] == '&'
    ensures MatchAt(head + t, |head| + p, from) <==> MatchAt(t, p, from)
  {
    DigitsShift(head, t, p);
    var e := DigitsEnd(t, p);
    if e < |t| { assert (head + t)[|head| + e + 1..] == t[e + 1..]; }
  }

  function Further(m: Option<nat>, n: nat): Option<nat> {
    if m.Some? then Some(n + m.value) else None
  }

  lemma {:induction false} FirstMatchShift(head: string, t: string, p: nat, from: string)
    requires p <= |t| && head != "" && head[|head| - 1] == '&'
    ensures
      var m := FirstMatch(t, p, from);
      FirstMatch(head + t, |head| + p, from) == Further(m, |head|)
    decreases |t| - p
  {
    MatchShift(head, t, p, from);
    if p < |t| { FirstMatchShift(head, t, p + 1, from); }
  }

  /** No match starts inside a field. */
  lemma {:induction false} FirstMatchSkips(s: string, p: nat, q: nat, from: string)
    requires 0 < p <= q <= |s|
    requires forall k | p - 1 <= k < q - 1 :: s[k] != '&'
    ensures FirstMatch(s, p, from) == FirstMatch(s, q, from)
    decreases q - p
  {
    if p < q { FirstMatchSkips(s, p + 1, q, from); }
  }

  /** The first field matches: its value is replaced in place. */
  lemma SwapFirstField(f: string, t: string, from: string, to: string)
    requires NoAmp(f) && NoAmp(from) && FieldIs(f, from)
    ensures SwapOne(f + "&" + t, from, to) == f[..DigitsEnd(f, 0) + 1] + to + "&" + t
  {
    var rest := "&" + t;
    var s := f + "&" + t;
    assert s == f + rest;
    MatchAtFirstField(f, rest, from);
    DigitsWithin(f, rest);
    assert FirstMatch(s, 0, from) == Some(0);
    ReplaceAtStart(f, rest, DigitsEnd(f, 0) + 1, from, to);
    assert f[..DigitsEnd(f, 0) + 1] + to + rest == f[..DigitsEnd(f, 0) + 1] + to + "&" + t;
  }

  lemma ReplaceAtStart(f: string, rest: string, v: nat, from: string, to: string)
    requires v <= |f| && f[v..] == from
    ensures (f + rest)[..v] == f[..v] && v + |from| == |f| && (f + rest)[v + |from|..] == rest
  {
  }

  /** It does not: the search goes on behind its separator. */
  lemma SwapLaterField(f: string, t: string, from: string, to: string)
    requires NoAmp(f) && NoAmp(from) && !FieldIs(f, from)
    ensures SwapOne(f + "&" + t, from, to) == f + "&" + SwapOne(t, from, to)
  {
    var head := f + "&";
    var s := head + t;
    assert s == f + ("&" + t);
    MatchAtFirstField(f, "&" + t, from);
    FirstMatchSkips(s, 1, |f| + 1, from);
    SwapShift(head, t, from, to);
  }

  /** Swapping in the text is swapping the first field that matches. */
  lemma {:induction false} SwapOneJoin(fields: seq<string>, from: string, to: string)
    requires NoAmp(from) && forall f | f in fields :: NoAmp(f)
    ensures SwapOne(JoinFields(fields), from, to) == JoinFields(SwapField(fields, from, to))
    decreases |fields|
  {
    if |fields| == 1 {
      SwapOneSingle(fields[0], from, to);
    } else if fields != [] {
      var f := fields[0];
      var t := JoinFields(fields[1..]);
      var swapped := SwapField(fields, from, to);
      if FieldIs(f, from) {
        SwapFirstField(f, t, from, to);
        assert swapped[1..] == fields[1..];
      } else {
        SwapLaterField(f, t, from, to);
        SwapOneJoin(fields[1..], from, to);
        SwapFieldLength(fields[1..], from, to);
        assert swapped[1..] == SwapField(fields[1..], from, to);
      }
    }
  }

  lemma SwapOneSingle(f: string, from: string, to: string)
    requires NoAmp(from) && NoAmp(f)
    ensures SwapOne(f, from, to) == JoinFields(SwapField([f], from, to))
  {
    assert f + "" == f;
    MatchAtFirstField(f, "", from);
    if FieldIs(f, from) {
      var v := DigitsEnd(f, 0) + 1;
      assert f[v + |from|..] == "";
    } else if f != "" {
      FirstMatchSkips(f, 1, |f|, from);
      assert f[|f| - 1] != '&';
    }
  }

  lemma ReplaceShift(head: string, t: string, p: nat, from: string, to: string)
    requires head != "" && head[|head| - 1] == '&'
    requires p <= |t| && MatchAt(t, p, from)
    ensures MatchAt(head + t, |head| + p, from)
    ensures Replace(head + t, |head| + p, from, to) == head + Replace(t, p, from, to)
  {
    MatchShift(head, t, p, from);
    DigitsShift(head, t, p);
    var v := DigitsEnd(t, p) + 1;
    assert (head + t)[..|head| + v] == head + t[..v];
    assert (head + t)[|head| + v + |from|..] == t[v + |from|..];
  }

  lemma ReplaceMatchShift(head: string, t: string, m: Option<nat>, from: string, to: string)
    requires head != "" && head[|head| - 1] == '&'
    requires m.Some? ==> m.value <= |t| && MatchAt(t, m.value, from)
    ensures m.Some? ==> MatchAt(head + t, |head| + m.value, from)
    ensures ReplaceMatch(head + t, Further(m, |head|), from, to) == head + ReplaceMatch(t, m, from, to)
  {
    if m.Some? {
      ReplaceShift(head, t, m.value, from, to);
    } else {
      assert ReplaceMatch(t, m, from, to) == t;
    }
  }

  lemma SwapShift(head: string, t: string, from: string, to: string)
    requires head != "" && head[|head| - 1] == '&'
    requires FirstMatch(head + t, 0, from) == FirstMatch(head + t, |head|, from)
    ensures SwapOne(head + t, from, to) == head + SwapOne(t, from, to)
  {
    FirstMatchShift(head, t, 0, from);
    ReplaceMatchShift(head, t, FirstMatch(t, 0, from), from, to);
  }

  lemma {:induction false} SwapFieldLength(fields: seq<string>, from: string, to: string)
    ensures |SwapField(fields, from, to)| == |fields|
    decreases |fields|
  {
    if fields != [] { SwapFieldLength(fields[1..], from, to); }
  }

  // ─── Swapping paths ───────────────────────────────────────────────────────

  function ReplaceFirst(paths: seq<string>, from: string, to: string): (r: seq<string>)
    ensures |r| == |paths|
    decreases |paths|
  {
    if paths == [] then []
    else if paths[0] == from then [to] + paths[1..]
    else [paths[0]] + ReplaceFirst(paths[1..], from, to)
  }

  function ReplaceAll(paths: seq<string>, swaps: seq<Swap>): seq<string>
    decreases |swaps|
  {
    if swaps == [] then paths
    else
      var last := swaps[|swaps| - 1];
      ReplaceFirst(ReplaceAll(paths, swaps[..|swaps| - 1]), last.0, last.1)
  }

  lemma {:induction false} AllDigitsEnd(d: string, rest: string, p: nat)
    requires p <= |d| && (forall c | c in d :: IsDigit(c)) && rest != "" && !IsDigit(rest[0])
    ensures DigitsEnd(d + rest, p) == |d|
    decreases |d| - p
  {
    if p < |d| {
      assert (d + rest)[p] in d;
      AllDigitsEnd(d, rest, p + 1);
    }
  }

  /** Of a path's three fields only the middle one can match, by its whole value. */
  lemma EntryFields(i: nat, path: string, from: string)
    ensures !FieldIs("resources=" + Dec(i), from) && !FieldIs(Dec(i) + "-p=1", from)
    ensures FieldIs(Dec(i) + "=" + path, from) <==> path == from
    ensures DigitsEnd(Dec(i) + "=" + path, 0) == |Dec(i)|
  {
    var d := Dec(i);
    AllDigitsEnd(d, "-p=1", 0);
    AllDigitsEnd(d, "=" + path, 0);
    assert d + "=" + path == d + ("=" + path);
    assert (d + "=" + path)[|d| + 1..] == path;
    assert ("resources=" + d)[0] == 'r';
  }

  /** The three fields of the path at the head of the list. */
  lemma SwapEntry(a: string, b: string, c: string, rest: seq<string>, from: string, to: string)
    requires !FieldIs(a, from) && !FieldIs(c, from)
    ensures SwapField([a, b, c] + rest, from, to) ==
            if FieldIs(b, from) then [a, b[..DigitsEnd(b, 0) + 1] + to, c] + rest
            else [a, b, c] + SwapField(rest, from, to)
  {
    SwapFieldCons(a, [b] + ([c] + rest), from, to);
    SwapFieldCons(b, [c] + rest, from, to);
    SwapFieldCons(c, rest, from, to);
    assert [a, b, c] + rest == [a] + ([b] + ([c] + rest));
  }

  lemma ReplaceFirstCons(paths: seq<string>, from: string, to: string)
    requires paths != []
    ensures
      var r := ReplaceFirst(paths, from, to);
      r[0] == (if paths[0] == from then to else paths[0])
      && r[1..] == if paths[0] == from then paths[1..] else ReplaceFirst(paths[1..], from, to)
  {
  }

  lemma FieldsCons(paths: seq<string>, i: nat)
    requires paths != []
    ensures Fields(paths, i) ==
            ["resources=" + Dec(i), Dec(i) + "=" + paths[0], Dec(i) + "-p=1"] + Fields(paths[1..], i + 1)
  {
  }

  lemma {:induction false} SwapFieldPaths(paths: seq<string>, i: nat, from: string, to: string)
    ensures SwapField(Fields(paths, i), from, to) == Fields(ReplaceFirst(paths, from, to), i)
    decreases |paths|
  {
    if paths != [] {
      var d := Dec(i);
      var b := d + "=" + paths[0];
      FieldsCons(paths, i);
      EntryFields(i, paths[0], from);
      SwapEntry("resources=" + d, b, d + "-p=1", Fields(paths[1..], i + 1), from, to);
      assert b[..|d| + 1] + to == d + "=" + to;
      ReplaceFirstCons(paths, from, to);
      FieldsCons(ReplaceFirst(paths, from, to), i);
      SwapFieldPaths(paths[1..], i + 1, from, to);
    }
  }

  lemma SwapFieldCons(f: string, fields: seq<string>, from: string, to: string)
    ensures SwapField([f] + fields, from, to) ==
            if FieldIs(f, from) then [f[..DigitsEnd(f, 0) + 1] + to] + fields
            else [f] + SwapField(fields, from, to)
  {
    assert ([f] + fields)[1..] == fields;
  }

  lemma {:induction false} FieldsNoAmp(paths: seq<string>, i: nat)
    requires forall p | p in paths :: NoAmp(p)
    ensures forall f | f in Fields(paths, i) :: NoAmp(f)
    decreases |paths|
  {
    if paths != [] {
      var d := Dec(i);
      assert forall k | 0 <= k < |d| :: d[k] in d;
      assert paths[0] in paths;
      assert NoAmp("resources=" + d) && NoAmp(d + "=" + paths[0]) && NoAmp(d + "-p=1");
      assert Fields(paths, i) == ["resources=" + d, d + "=" + paths[0], d + "-p=1"] + Fields(paths[1..], i + 1);
      FieldsNoAmp(paths[1..], i + 1);
    }
  }

  lemma {:induction false} ReplaceFirstMembers(paths: seq<string>, from: string, to: string)
    ensures forall p | p in ReplaceFirst(paths, from, to) :: p in paths || p == to
    decreases |paths|
  {
    if paths != [] && paths[0] != from { ReplaceFirstMembers(paths[1..], from, to); }
  }

  /** Rewriting the serialised body is rewriting the list of paths. */
  lemma {:induction false} SwapBody(paths: seq<string>, swaps: seq<Swap>)
    requires forall p | p in paths :: NoAmp(p)
    requires forall w | w in swaps :: NoAmp(w.0) && NoAmp(w.1)
    ensures SwapAll(Body(paths), swaps) == Body(ReplaceAll(paths, swaps))
    ensures forall p | p in ReplaceAll(paths, swaps) :: NoAmp(p)
    decreases |swaps|
  {
    if swaps != [] {
      var front := swaps[..|swaps| - 1];
      var last := swaps[|swaps| - 1];
      SwapBody(paths, front);
      var before := ReplaceAll(paths, front);
      FieldsNoAmp(before, 1);
      SwapOneJoin(Fields(before, 1), last.0, last.1);
      SwapFieldPaths(before, 1, last.0, last.1);
      ReplaceFirstMembers(before, last.0, last.1);
    }
  }

  // ─── All swaps at once ────────────────────────────────────────────────────

  function Target(path: string, swaps: seq<Swap>): string
    decreases |swaps|
  {
    if swaps == [] then path
    else if swaps[0].0 == path then swaps[0].1
    else Target(path, swaps[1..])
  }

  function Retarget(paths: seq<string>, swaps: seq<Swap>): seq<string> {
    seq(|paths|, i requires 0 <= i < |paths| => Target(paths[i], swaps))
  }

  /** No swap's target is a swap's source. */
  predicate Unchained(swaps: seq<Swap>) {
    forall i, j | 0 <= i < |swaps| && 0 <= j < |swaps| :: swaps[i].1 != swaps[j].0
  }

  lemma {:induction false} ReplaceFirstAt(paths: seq<string>, from: string, to: string, k: nat)
    requires k < |paths|
    requires forall i, j | 0 <= i < j < |paths| :: paths[i] != from || paths[j] != from
    ensures ReplaceFirst(paths, from, to)[k] == if paths[k] == from then to else paths[k]
    decreases |paths|
  {
    if paths[0] != from && k > 0 { ReplaceFirstAt(paths[1..], from, to, k - 1); }
    if paths[0] == from && k > 0 { assert paths[k] != from; }
  }

  lemma {:induction false} TargetLast(path: string, swaps: seq<Swap>)
    requires swaps != [] && Unchained(swaps)
    ensures
      var front := Target(path, swaps[..|swaps| - 1]);
      var last := swaps[|swaps| - 1];
      && Target(path, swaps) == (if front == last.0 then last.1 else front)
      && (front == last.0 ==> path == last.0)
    decreases |swaps|
  {
    if |swaps| > 1 && swaps[0].0 != path {
      assert swaps[1..][..|swaps| - 2] == swaps[..|swaps| - 1][1..];
      TargetLast(path, swaps[1..]);
    }
  }

  /** On distinct paths, with unchained swaps, the swaps applied one after the other
      are the swaps applied all at once. */
  lemma {:induction false} ReplaceAllIsRetarget(paths: seq<string>, swaps: seq<Swap>)
    requires AllDistinct(paths) && Unchained(swaps)
    ensures ReplaceAll(paths, swaps) == Retarget(paths, swaps)
    decreases |swaps|
  {
    if swaps != [] {
      var front := swaps[..|swaps| - 1];
      var last := swaps[|swaps| - 1];
      ReplaceAllIsRetarget(paths, front);
      var before := Retarget(paths, front);
      forall i | 0 <= i < |paths| ensures before[i] == last.0 ==> paths[i] == last.0 { TargetLast(paths[i], swaps); }
      forall k | 0 <= k < |paths| ensures ReplaceAll(paths, swaps)[k] == Target(paths[k], swaps) {
        ReplaceFirstAt(before, last.0, last.1, k);
        TargetLast(paths[k], swaps);
      }
    }
  }

  // ─── Panel spellings ──────────────────────────────────────────────────────

  const PanelPrefix := "/rw/panel/"

  const TwoSpellings := {"ctrlstate", "opmode", "speedratio", "coldetstate"}

  function PrefixLength(s: string, c: char): (i: nat)
    ensures i <= |s|
    ensures forall k | 0 <= k < i :: s[k] != c
    ensures i < |s| ==> s[i] == c
  {
    if s == "" || s[0] == c then 0 else 1 + PrefixLength(s[1..], c)
  }

  /** The other spelling of a panel resource that has two. */
  function OtherSpelling(uri: string): Option<string> {
    if !Prefix(PanelPrefix, uri) then None
    else
      var rest := uri[|PanelPrefix|..];
      var end := PrefixLength(rest, ';');
      var word := rest[..end];
      if word !in TwoSpellings then None
      else if end == |rest| then Some(PanelPrefix + word + ";" + word)
      else if rest[end + 1..] == word then Some(PanelPrefix + word)
      else None
  }

  /** The resource a path names, whichever way it is spelled. */
  function Bare(uri: string): string {
    if OtherSpelling(uri) == None then uri
    else PanelPrefix + uri[|PanelPrefix|..][..PrefixLength(uri[|PanelPrefix|..], ';')]
  }

  lemma WordEnds(word: string, tail: string)
    requires ';' !in word && (tail == "" || tail[0] == ';')
    ensures PrefixLength(word + tail, ';') == |word|
    ensures (word + tail)[..|word|] == word
  {
    var rest := word + tail;
    assert forall k | 0 <= k < |word| :: rest[k] == word[k] && word[k] in word;
    assert tail != "" ==> rest[|word|] == ';';
  }

  lemma BareSpelling(word: string)
    requires word in TwoSpellings && ';' !in word
    ensures OtherSpelling(PanelPrefix + word) == Some(PanelPrefix + word + ";" + word)
    ensures Bare(PanelPrefix + word) == PanelPrefix + word
  {
    var uri := PanelPrefix + word;
    WordEnds(word, "");
    assert uri[..|PanelPrefix|] == PanelPrefix && uri[|PanelPrefix|..] == word + "";
  }

  lemma SuffixedRest(word: string)
    requires ';' !in word
    ensures
      var uri := PanelPrefix + word + ";" + word;
      var rest := uri[|PanelPrefix|..];
      && Prefix(PanelPrefix, uri)
      && PrefixLength(rest, ';') == |word| && rest[..|word|] == word
      && |rest| > |word| && rest[|word| + 1..] == word
  {
    var uri := PanelPrefix + word + ";" + word;
    var tail := ";" + word;
    WordEnds(word, tail);
    assert uri[..|PanelPrefix|] == PanelPrefix && uri[|PanelPrefix|..] == word + tail;
    assert (word + tail)[|word| + 1..] == word;
  }

  lemma SuffixedSpelling(word: string)
    requires word in TwoSpellings && ';' !in word
    ensures OtherSpelling(PanelPrefix + word + ";" + word) == Some(PanelPrefix + word)
    ensures Bare(PanelPrefix + word + ";" + word) == PanelPrefix + word
  {
    SuffixedRest(word);
  }

  lemma BareWord(word: string)
    requires word in TwoSpellings
    ensures OtherSpelling(PanelPrefix + word) == Some(PanelPrefix + word + ";" + word)
    ensures OtherSpelling(PanelPrefix + word + ";" + word) == Some(PanelPrefix + word)
    ensures Bare(PanelPrefix + word) == PanelPrefix + word == Bare(PanelPrefix + word + ";" + word)
  {
    WordLetters(word);
    BareSpelling(word);
    SuffixedSpelling(word);
  }

  lemma WordLetters(word: string)
    requires word in TwoSpellings
    ensures ';' !in word && NoAmp(word)
  {
  }

  lemma NoAmpConcat(a: string, b: string)
    requires NoAmp(a) && NoAmp(b)
    ensures NoAmp(a + b)
  {
  }

  lemma SpellingsNoAmp(word: string)
    requires word in TwoSpellings
    ensures NoAmp(PanelPrefix + word) && NoAmp(PanelPrefix + word + ";" + word)
  {
    WordLetters(word);
    NoAmpConcat(PanelPrefix, word);
    NoAmpConcat(PanelPrefix + word, ";");
    NoAmpConcat(PanelPrefix + word + ";", word);
  }

  lemma Regroup(a: string, b: string, d: string)
    ensures a + (b + ";" + d) == a + b + ";" + d
  {
  }

  lemma RestIsSpelling(rest: string, end: nat)
    requires end < |rest| && rest[end] == ';' && rest[end + 1..] == rest[..end]
    ensures PanelPrefix + rest == PanelPrefix + rest[..end] + ";" + rest[..end]
  {
    assert rest == rest[..end] + ";" + rest[end + 1..];
    Regroup(PanelPrefix, rest[..end], rest[..end]);
  }

  /** A path with two spellings is one of the two. */
  lemma IsSpelling(uri: string) returns (word: string)
    requires OtherSpelling(uri).Some?
    ensures word in TwoSpellings && (uri == PanelPrefix + word || uri == PanelPrefix + word + ";" + word)
  {
    var rest := uri[|PanelPrefix|..];
    var end := PrefixLength(rest, ';');
    word := rest[..end];
    assert uri == PanelPrefix + rest;
    if end < |rest| { RestIsSpelling(rest, end); }
  }

  lemma SpellingsDiffer(word: string)
    ensures |PanelPrefix + word + ";" + word| != |PanelPrefix + word|
  {
  }

  /** The two spellings are each other's other spelling, and name one resource. */
  lemma OtherSpellingInvolution(uri: string)
    requires OtherSpelling(uri).Some?
    ensures
      var other := OtherSpelling(uri).value;
      && OtherSpelling(other) == Some(uri) && other != uri
      && Bare(other) == Bare(uri)
      && NoAmp(uri) && NoAmp(other)
  {
    var word := IsSpelling(uri);
    BareWord(word);
    SpellingsNoAmp(word);
    SpellingsDiffer(word);
  }

  // ─── The retried body ─────────────────────────────────────────────────────

  /** One swap for each refused panel resource, in the order refused. */
  function SwapsOf(refused: seq<string>): seq<Swap>
    decreases |refused|
  {
    if refused == [] then []
    else
      var front := SwapsOf(refused[..|refused| - 1]);
      var uri := refused[|refused| - 1];
      if OtherSpelling(uri).Some? then front + [(uri, OtherSpelling(uri).value)] else front
  }

  /** No resource is refused in both its spellings. */
  predicate OneSpellingEach(refused: seq<string>) {
    forall i, j | 0 <= i < |refused| && 0 <= j < |refused| :: OtherSpelling(refused[i]) != Some(refused[j])
  }

  lemma {:induction false} SwapsOfMembers(refused: seq<string>)
    ensures forall w | w in SwapsOf(refused) :: w.0 in refused && OtherSpelling(w.0) == Some(w.1)
    ensures forall u | u in refused && OtherSpelling(u).Some? :: (u, OtherSpelling(u).value) in SwapsOf(refused)
    decreases |refused|
  {
    if refused != [] {
      SwapsOfMembers(refused[..|refused| - 1]);
      assert refused == refused[..|refused| - 1] + [refused[|refused| - 1]];
    }
  }

  lemma {:induction false} TargetOf(path: string, swaps: seq<Swap>)
    requires forall w | w in swaps :: OtherSpelling(w.0) == Some(w.1)
    ensures
      if OtherSpelling(path).Some? && (path, OtherSpelling(path).value) in swaps
      then Target(path, swaps) == OtherSpelling(path).value
      else Target(path, swaps) == path
    decreases |swaps|
  {
    if swaps != [] {
      assert swaps == [swaps[0]] + swaps[1..];
      TargetOf(path, swaps[1..]);
    }
  }

  /** The retried body is the body of the same resources, with exactly the refused
      panel ones in their other spelling. */
  lemma RetriedBody(paths: seq<string>, refused: seq<string>)
    requires forall p | p in paths :: NoAmp(p)
    requires OneSpellingEach(refused)
    ensures
      var sent := Distinct(paths);
      var retried := Retarget(sent, SwapsOf(refused));
      && SwapAll(BuildBody(paths), SwapsOf(refused)) == Body(retried)
      && (AllDistinct(retried) ==> SwapAll(BuildBody(paths), SwapsOf(refused)) == BuildBody(retried))
      && |retried| == |sent|
      && forall i | 0 <= i < |sent| ::
           && Bare(retried[i]) == Bare(sent[i])
           && retried[i] == (if OtherSpelling(sent[i]).Some? && sent[i] in refused
                             then OtherSpelling(sent[i]).value else sent[i])
  {
    var sent := Distinct(paths);
    var swaps := SwapsOf(refused);
    DistinctIsDistinct(paths);
    SwapsOfMembers(refused);
    forall w | w in swaps ensures NoAmp(w.0) && NoAmp(w.1) { OtherSpellingInvolution(w.0); }
    assert Unchained(swaps) by {
      forall i, j | 0 <= i < |swaps| && 0 <= j < |swaps| ensures swaps[i].1 != swaps[j].0 {
        assert swaps[i] in swaps && swaps[j] in swaps;
      }
    }
    SwapBody(sent, swaps);
    ReplaceAllIsRetarget(sent, swaps);
    var retried := Retarget(sent, swaps);
    DistinctIsDistinct(retried);
    forall i | 0 <= i < |sent|
      ensures Bare(retried[i]) == Bare(sent[i])
      ensures retried[i] == if OtherSpelling(sent[i]).Some? && sent[i] in refused
                            then OtherSpelling(sent[i]).value else sent[i]
    {
      TargetOf(sent[i], swaps);
      if OtherSpelling(sent[i]).Some? { OtherSpellingInvolution(sent[i]); }
    }
  }

  /** Why ReplaceAllIsRetarget asks for unchained swaps: of chained ones the order matters;
      one way they undo each other, the other way they exchange the two paths. */
  lemma BothSpellingsUndo(u: string, o: string)
    requires u != o
    ensures ReplaceAll([u, o], [(u, o), (o, u)]) == [u, o]
    ensures ReplaceAll([u, o], [(o, u), (u, o)]) == [o, u]
    ensures Retarget([u, o], [(u, o), (o, u)]) == [o, u]
  {
    var swaps, turned := [(u, o), (o, u)], [(o, u), (u, o)];
    assert swaps[..1] == [(u, o)] && swaps[..1][..0] == [];
    assert turned[..1] == [(o, u)] && turned[..1][..0] == [];
    assert ReplaceAll([u, o], swaps[..1]) == [o] + [u, o][1..] == [o, o];
    assert [u, o][1..] == [o] && ReplaceFirst([o], o, u) == [u];
    assert ReplaceAll([u, o], turned[..1]) == [u] + [u] == [u, u];
    assert ReplaceFirst([o, o], o, u) == [u, o] && ReplaceFirst([u, u], u, o) == [o, u];
    assert Target(o, swaps[1..]) == u;
  }
}
