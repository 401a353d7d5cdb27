/** What the second create of a registration asks for when the controller refused panel
    resources (WsSubscriber.register), and exactly when that is each refused panel
    resource in its other spelling. */
module Respelling {
  import opened Maybe
  import opened SubscriptionBody

  /** Where `x` first stands; the length, if it does not. */
  function At(list: seq<string>, x: string): (i: nat)
    ensures i <= |list|
    ensures i < |list| ==> list[i] == x
    ensures forall j | 0 <= j < i :: list[j] != x
  {
    if list == [] || list[0] == x then 0 else 1 + At(list[1..], x)
  }

  /** A spelling that has another is the other's other. */
  ghost predicate Paired(other: string -> Option<string>) {
    forall u :: other(u).Some? ==> other(u).value != u && other(other(u).value) == Some(u)
  }

  /** One swap for each refused resource that has another spelling. */
  function SwapsBy(other: string -> Option<string>, refused: seq<string>): seq<Swap>
    decreases |refused|
  {
    if refused == [] then []
    else
      var front := SwapsBy(other, refused[..|refused| - 1]);
      var u := refused[|refused| - 1];
      if other(u).Some? then front + [(u, other(u).value)] else front
  }

  /** The sent resources with the refused ones in their other spelling. */
  function Respelled(other: string -> Option<string>, sent: seq<string>, refused: seq<string>): (r: seq<string>)
    ensures |r| == |sent|
  {
    seq(|sent|, i requires 0 <= i < |sent| =>
      if other(sent[i]).Some? && sent[i] in refused then other(sent[i]).value else sent[i])
  }

  /** Of two spellings, the one sent later was refused first. */
  predicate Exchanges(sent: seq<string>, refused: seq<string>, u: string, o: string) {
    (At(sent, u) < At(sent, o)) == (At(refused, o) < At(refused, u))
  }

  predicate LaterFirst(other: string -> Option<string>, sent: seq<string>, refused: seq<string>) {
    forall u, o | u in refused && o in refused && other(u) == Some(o) :: Exchanges(sent, refused, u, o)
  }

  /** What the swaps make of a sent resource. */
  function Value(other: string -> Option<string>, sent: seq<string>, refused: seq<string>, p: string): string {
    if other(p) == None || p !in refused then p
    else if other(p).value in refused && !Exchanges(sent, refused, p, other(p).value) then p
    else other(p).value
  }

  function Values(other: string -> Option<string>, sent: seq<string>, refused: seq<string>): (r: seq<string>)
    ensures |r| == |sent|
  {
    seq(|sent|, i requires 0 <= i < |sent| => Value(other, sent, refused, sent[i]))
  }

  // ─── The swaps, one after the other ───────────────────────────────────────

  lemma {:induction false} ReplaceFirstIs(list: seq<string>, from: string, to: string, m: nat)
    requires m < |list| && list[m] == from && forall k | 0 <= k < m :: list[k] != from
    ensures ReplaceFirst(list, from, to) == list[m := to]
    decreases |list|
  {
    if m > 0 {
      ReplaceFirstIs(list[1..], from, to, m - 1);
      assert list[m := to] == [list[0]] + list[1..][m - 1 := to];
    } else {
      assert list[0 := to] == [to] + list[1..];
    }
  }

  lemma {:induction false} AtFront(front: seq<string>, last: string, x: string)
    ensures x in front ==> At(front + [last], x) == At(front, x) < |front|
    ensures x !in front && x == last ==> At(front + [last], x) == |front|
  {
    if front != [] {
      assert (front + [last])[1..] == front[1..] + [last];
      AtFront(front[1..], last, x);
    }
  }

  predicate Drawn(sent: seq<string>, refused: seq<string>) {
    AllDistinct(sent) && AllDistinct(refused) && forall r | r in refused :: r in sent
  }

  lemma DrawnFront(sent: seq<string>, refused: seq<string>)
    requires Drawn(sent, refused) && refused != []
    ensures Drawn(sent, refused[..|refused| - 1])
    ensures refused[|refused| - 1] !in refused[..|refused| - 1] && refused[|refused| - 1] in sent
  {
    assert refused[|refused| - 1] in refused;
  }

  /** One more refusal changes only what becomes of it and its other spelling. */
  lemma ValueElsewhere(other: string -> Option<string>, sent: seq<string>, front: seq<string>, last: string, p: string)
    requires last !in front && p != last && other(p) != Some(last)
    ensures Value(other, sent, front + [last], p) == Value(other, sent, front, p)
  {
    AtFront(front, last, p);
    if other(p).Some? { AtFront(front, last, other(p).value); }
  }

  /** The newly refused resource. */
  lemma ValueOfRefused(other: string -> Option<string>, sent: seq<string>, front: seq<string>, u: string, o: string)
    requires Paired(other) && u !in front && other(u) == Some(o)
    ensures Value(other, sent, front, u) == u
    ensures Value(other, sent, front + [u], u) == if o in front && !(At(sent, u) < At(sent, o)) then u else o
  {
    AtFront(front, u, u);
    AtFront(front, u, o);
  }

  /** Its other spelling. */
  lemma ValueOfOther(other: string -> Option<string>, sent: seq<string>, front: seq<string>, u: string, o: string)
    requires Paired(other) && u !in front && other(u) == Some(o)
    requires o in sent && u in sent
    ensures Value(other, sent, front, o) == if o in front then u else o
    ensures Value(other, sent, front + [u], o) == if o in front && At(sent, u) < At(sent, o) then u else o
  {
    AtFront(front, u, u);
    AtFront(front, u, o);
  }

  lemma IndexAt(list: seq<string>, i: nat)
    requires AllDistinct(list) && i < |list|
    ensures At(list, list[i]) == i
  {
  }

  /** One more swap. */
  lemma SwapOnValues(other: string -> Option<string>, sent: seq<string>, front: seq<string>, u: string, o: string)
    requires Paired(other) && Drawn(sent, front) && u in sent && u !in front && other(u) == Some(o)
    ensures ReplaceFirst(Values(other, sent, front), u, o) == Values(other, sent, front + [u])
  {
    var before, now := Values(other, sent, front), Values(other, sent, front + [u]);
    var a, b := At(sent, u), At(sent, o);
    ValueOfRefused(other, sent, front, u, o);
    if o in sent { ValueOfOther(other, sent, front, u, o); }
    forall i: nat | i < |sent| && i != a && i != b
      ensures before[i] != u && now[i] == before[i]
    {
      IndexAt(sent, i);
      ValueElsewhere(other, sent, front, u, sent[i]);
    }
    var m := if o in front && b < a then b else a;
    ReplaceFirstIs(before, u, o, m);
    assert before[m := o] == now;
  }

  lemma NoOther(other: string -> Option<string>, sent: seq<string>, front: seq<string>, u: string)
    requires Paired(other) && u !in front && other(u) == None
    ensures Values(other, sent, front + [u]) == Values(other, sent, front)
  {
    forall i: nat | i < |sent| ensures Value(other, sent, front + [u], sent[i]) == Value(other, sent, front, sent[i]) {
      if sent[i] != u { ValueElsewhere(other, sent, front, u, sent[i]); }
    }
  }

  /** All swaps, in the order refused. */
  lemma {:induction false} SwapsGiveValues(other: string -> Option<string>, sent: seq<string>, refused: seq<string>)
    requires Paired(other) && Drawn(sent, refused)
    ensures ReplaceAll(sent, SwapsBy(other, refused)) == Values(other, sent, refused)
    decreases |refused|
  {
    if refused != [] {
      var front := refused[..|refused| - 1];
      var u := refused[|refused| - 1];
      DrawnFront(sent, refused);
      SwapsGiveValues(other, sent, front);
      assert refused == front + [u];
      if other(u).Some? {
        var swaps := SwapsBy(other, refused);
        assert swaps[..|swaps| - 1] == SwapsBy(other, front);
        SwapOnValues(other, sent, front, u, other(u).value);
      } else {
        NoOther(other, sent, front, u);
      }
    }
  }

  lemma ValuesRespell(other: string -> Option<string>, sent: seq<string>, refused: seq<string>)
    requires Paired(other) && Drawn(sent, refused)
    ensures Values(other, sent, refused) == Respelled(other, sent, refused) <==> LaterFirst(other, sent, refused)
  {
    var values, respelled := Values(other, sent, refused), Respelled(other, sent, refused);
    if u, o :| u in refused && o in refused && other(u) == Some(o) && !Exchanges(sent, refused, u, o) {
      var a := At(sent, u);
      assert values[a] == u && respelled[a] == o;
    }
    if LaterFirst(other, sent, refused) {
      forall i | 0 <= i < |sent| ensures values[i] == respelled[i] {
        var p := sent[i];
        if other(p).Some? && p in refused && other(p).value in refused {
          assert Exchanges(sent, refused, p, other(p).value);
        }
      }
    }
  }

  lemma Exchanged(u: string, o: string, other: string -> Option<string>)
    requires Paired(other) && other(u) == Some(o)
    ensures ReplaceAll([u, o], SwapsBy(other, [u, o])) == [u, o] && !LaterFirst(other, [u, o], [u, o])
    ensures ReplaceAll([u, o], SwapsBy(other, [o, u])) == [o, u] && LaterFirst(other, [u, o], [o, u])
  {
    var uo, ou := [u, o], [o, u];
    IndexAt(uo, 0);
    IndexAt(uo, 1);
    IndexAt(ou, 0);
    IndexAt(ou, 1);
    assert u in uo && o in uo && u in ou && o in ou;
    assert !Exchanges(uo, uo, u, o) && !Exchanges(uo, uo, o, u);
    assert Exchanges(uo, ou, u, o) && Exchanges(uo, ou, o, u);
    SwapsGiveValues(other, uo, uo);
    SwapsGiveValues(other, uo, ou);
    assert Values(other, uo, uo) == uo && Values(other, uo, ou) == ou;
  }

  // ─── The body names its resources ─────────────────────────────────────────

  lemma FirstAmp(f: string, rest: string, n: nat)
    requires NoAmp(f) && n < |f + "&" + rest| && (f + "&" + rest)[n] == '&'
    ensures |f| <= n
  {
  }

  lemma SameFirst(f: string, rest: string, g: string, others: string)
    requires NoAmp(f) && NoAmp(g) && f + "&" + rest == g + "&" + others
    ensures f == g && rest == others
  {
    var s, t := f + "&" + rest, g + "&" + others;
    assert s[|f|] == '&' && t[|g|] == '&';
    FirstAmp(f, rest, |g|);
    FirstAmp(g, others, |f|);
    assert f == s[..|f|] && g == t[..|g|] && rest == s[|f| + 1..] && others == t[|g| + 1..];
  }

  lemma {:induction false} JoinInjective(fs: seq<string>, gs: seq<string>)
    requires |fs| == |gs| && JoinFields(fs) == JoinFields(gs)
    requires (forall f | f in fs :: NoAmp(f)) && (forall g | g in gs :: NoAmp(g))
    ensures fs == gs
    decreases |fs|
  {
    if |fs| > 1 {
      var f, g := fs[0], gs[0];
      assert f in fs && g in gs;
      SameFirst(f, JoinFields(fs[1..]), g, JoinFields(gs[1..]));
      JoinInjective(fs[1..], gs[1..]);
      assert fs == [f] + fs[1..] && gs == [g] + gs[1..];
    }
  }

  lemma {:induction false} FieldsInjective(ps: seq<string>, qs: seq<string>, i: nat)
    requires |ps| == |qs| && Fields(ps, i) == Fields(qs, i)
    ensures ps == qs
    decreases |ps|
  {
    if ps != [] {
      var d := Dec(i);
      assert Fields(ps, i)[1] == d + "=" + ps[0] && Fields(qs, i)[1] == d + "=" + qs[0];
      assert (d + "=" + ps[0])[|d| + 1..] == ps[0] && (d + "=" + qs[0])[|d| + 1..] == qs[0];
      assert Fields(ps, i)[3..] == Fields(ps[1..], i + 1) && Fields(qs, i)[3..] == Fields(qs[1..], i + 1);
      FieldsInjective(ps[1..], qs[1..], i + 1);
      assert ps == [ps[0]] + ps[1..] && qs == [qs[0]] + qs[1..];
    }
  }

  lemma {:induction false} FieldsCount(ps: seq<string>, i: nat)
    ensures |Fields(ps, i)| == 3 * |ps|
    decreases |ps|
  {
    if ps != [] { FieldsCount(ps[1..], i + 1); }
  }

  /** Two lists of as many resources make the same body only if they are the same. */
  lemma BodyInjective(ps: seq<string>, qs: seq<string>)
    requires |ps| == |qs| && Body(ps) == Body(qs)
    requires (forall p | p in ps :: NoAmp(p)) && (forall q | q in qs :: NoAmp(q))
    ensures ps == qs
  {
    FieldsNoAmp(ps, 1);
    FieldsNoAmp(qs, 1);
    FieldsCount(ps, 1);
    FieldsCount(qs, 1);
    JoinInjective(Fields(ps, 1), Fields(qs, 1));
    FieldsInjective(ps, qs, 1);
  }

  // ─── Panel spellings ──────────────────────────────────────────────────────

  lemma SpellingsPaired()
    ensures Paired(OtherSpelling)
  {
    forall u | OtherSpelling(u).Some?
      ensures OtherSpelling(u).value != u && OtherSpelling(OtherSpelling(u).value) == Some(u)
    {
      OtherSpellingInvolution(u);
    }
  }

  lemma {:induction false} SwapsOfSpellings(refused: seq<string>)
    ensures SwapsOf(refused) == SwapsBy(OtherSpelling, refused)
    decreases |refused|
  {
    if refused != [] { SwapsOfSpellings(refused[..|refused| - 1]); }
  }

  /** A resource in one spelling or the other. */
  lemma EitherSpelling(p: string, q: string)
    requires NoAmp(p) && (q == p || OtherSpelling(p) == Some(q))
    ensures Bare(q) == Bare(p) && NoAmp(q)
  {
    if q != p { OtherSpellingInvolution(p); }
  }

  lemma EitherIs(other: string -> Option<string>, sent: seq<string>, refused: seq<string>, i: nat)
    requires i < |sent|
    ensures Values(other, sent, refused)[i] == sent[i] || other(sent[i]) == Some(Values(other, sent, refused)[i])
    ensures Respelled(other, sent, refused)[i] == sent[i] || other(sent[i]) == Some(Respelled(other, sent, refused)[i])
  {
  }

  lemma SameResources(sent: seq<string>, refused: seq<string>)
    requires forall p | p in sent :: NoAmp(p)
    ensures forall i | 0 <= i < |sent| :: Bare(Values(OtherSpelling, sent, refused)[i]) == Bare(sent[i])
    ensures forall p | p in Values(OtherSpelling, sent, refused) :: NoAmp(p)
    ensures forall p | p in Respelled(OtherSpelling, sent, refused) :: NoAmp(p)
  {
    var values, respelled := Values(OtherSpelling, sent, refused), Respelled(OtherSpelling, sent, refused);
    forall i | 0 <= i < |sent| ensures Bare(values[i]) == Bare(sent[i]) && NoAmp(values[i]) && NoAmp(respelled[i]) {
      assert sent[i] in sent;
      EitherIs(OtherSpelling, sent, refused, i);
      EitherSpelling(sent[i], values[i]);
      EitherSpelling(sent[i], respelled[i]);
    }
  }

  lemma SwapsAreClean(refused: seq<string>)
    ensures forall w | w in SwapsOf(refused) :: NoAmp(w.0) && NoAmp(w.1)
  {
    SwapsOfMembers(refused);
    forall w | w in SwapsOf(refused) ensures NoAmp(w.0) && NoAmp(w.1) { OtherSpellingInvolution(w.0); }
  }

  /** For any refused resources drawn from the sent ones: the second create names the
      same resources, and it asks for exactly the refused panel ones in their other
      spelling if and only if, of each resource refused in both spellings, the one sent
      later was refused first. */
  lemma RetriedExactly(paths: seq<string>, refused: seq<string>)
    requires forall p | p in paths :: NoAmp(p)
    requires AllDistinct(refused) && forall r | r in refused :: r in paths
    ensures
      var sent := Distinct(paths);
      var retried := SwapAll(BuildBody(paths), SwapsOf(refused));
      && retried == Body(Values(OtherSpelling, sent, refused))
      && (forall i | 0 <= i < |sent| :: Bare(Values(OtherSpelling, sent, refused)[i]) == Bare(sent[i]))
      && (retried == Body(Respelled(OtherSpelling, sent, refused)) <==> LaterFirst(OtherSpelling, sent, refused))
  {
    var sent := Distinct(paths);
    DistinctIsDistinct(paths);
    SwapsAreClean(refused);
    SwapBody(sent, SwapsOf(refused));
    SpellingsPaired();
    SwapsOfSpellings(refused);
    SwapsGiveValues(OtherSpelling, sent, refused);
    SameResources(sent, refused);
    ValuesRespell(OtherSpelling, sent, refused);
    var values, respelled := Values(OtherSpelling, sent, refused), Respelled(OtherSpelling, sent, refused);
    if Body(values) == Body(respelled) { BodyInjective(values, respelled); }
  }

  /** Both happen: refused in the order sent, the two swaps undo each other and the same
      body goes out again; refused in the other order, the two are exchanged. */
  lemma BothSpellings(u: string, o: string)
    requires OtherSpelling(u) == Some(o)
    ensures ReplaceAll([u, o], SwapsOf([u, o])) == [u, o]
    ensures ReplaceAll([u, o], SwapsOf([o, u])) == [o, u]
    ensures !LaterFirst(OtherSpelling, [u, o], [u, o]) && LaterFirst(OtherSpelling, [u, o], [o, u])
  {
    SpellingsPaired();
    Exchanged(u, o, OtherSpelling);
    SwapsOfSpellings([u, o]);
    SwapsOfSpellings([o, u]);
  }
}
