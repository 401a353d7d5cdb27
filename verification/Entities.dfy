/** The ordered entity decoder of span values (decodeEntities): six replacements of
    the whole text, one after the other, the ampersand last. The entities are the
    predefined ones of section 4.6 of XML 1.0, with HTML's `&#39;` beside `&apos;`. */
module Entities {
  import opened Maybe
  import opened Requests

  type Entity = (string, char)

  const EntityTable: seq<Entity> :=
    [("&lt;", '<'), ("&gt;", '>'), ("&quot;", '"'), ("&#39;", '\''), ("&apos;", '\''), ("&amp;", '&')]

  /** Every occurrence of `e`, from the left, without overlap. */
  function Replace(s: string, e: Entity): string
    requires e.0 != ""
  {
    if s == "" then ""
    else if Prefix(e.0, s) then [e.1] + Replace(s[|e.0|..], e)
    else [s[0]] + Replace(s[1..], e)
  }

  function Decode(s: string): string {
    Replace(Replace(Replace(Replace(Replace(Replace(s,
      ("&lt;", '<')), ("&gt;", '>')), ("&quot;", '"')), ("&#39;", '\'')), ("&apos;", '\'')), ("&amp;", '&'))
  }

  // ─── One scan ─────────────────────────────────────────────────────────────

  /** The entity of the table that `s` begins with. */
  function HeadEntity(s: string, table: seq<Entity>): (e: Option<Entity>)
    ensures e.Some? ==> e.value in table && Prefix(e.value.0, s)
    ensures e.None? ==> forall x | x in table :: !Prefix(x.0, s)
  {
    if table == [] then None
    else if Prefix(table[0].0, s) then Some(table[0])
    else HeadEntity(s, table[1..])
  }

  predicate NonEmptyNames(table: seq<Entity>) {
    forall e | e in table :: e.0 != ""
  }

  /** One pass from the left: an entity becomes its character, anything else stays,
      and what was written is never looked at again. */
  function Scan(s: string, table: seq<Entity>): string
    requires NonEmptyNames(table)
    decreases |s|
  {
    if s == "" then ""
    else
      var e := HeadEntity(s, table);
      if e.Some? then [e.value.1] + Scan(s[|e.value.0|..], table)
      else [s[0]] + Scan(s[1..], table)
  }

  /** Names begin with the only '&' they have, end with the only ';' they have, and
      hold none of the characters the entities of `table` stand for. */
  predicate Separable(table: seq<Entity>, e: Entity) {
    && WellNamed(e.0)
    && (forall x | x in table :: WellNamed(x.0) && x.1 != '&' && x.0 != e.0 && x.1 !in e.0)
  }

  predicate WellNamed(name: string) {
    && |name| >= 2 && name[0] == '&' && name[|name| - 1] == ';'
    && (forall k | 1 <= k < |name| :: name[k] != '&')
    && (forall k | 0 <= k < |name| - 1 :: name[k] != ';')
  }

  lemma PrefixSame(a: string, b: string, s: string)
    requires |a| >= 2 && |b| >= 2 && Prefix(a, s) && Prefix(b, s)
    requires a[|a| - 1] == ';' == b[|b| - 1]
    requires forall k | 0 <= k < |a| - 1 :: a[k] != ';'
    requires forall k | 0 <= k < |b| - 1 :: b[k] != ';'
    ensures a == b
  {
    assert forall k | 0 <= k < |a| :: a[k] == s[k];
    assert forall k | 0 <= k < |b| :: b[k] == s[k];
  }

  /** Text without '&' and without decoded characters shows up in a scan's output only
      where it stood in its input. */
  lemma {:induction false} ScanHidesNothing(q: string, t: string, table: seq<Entity>)
    requires NonEmptyNames(table)
    requires '&' !in q && forall x | x in table :: x.1 !in q && x.0[0] == '&'
    ensures Prefix(q, Scan(t, table)) <==> Prefix(q, t)
    decreases |q|
  {
    if q != "" && t != "" {
      var e := HeadEntity(t, table);
      if e.Some? {
        assert t[0] == t[..|e.value.0|][0] == '&';
        assert q[0] in q && q[0] != '&' && q[0] != e.value.1;
        assert Scan(t, table)[0] == e.value.1;
        assert q[..1][0] == q[0];
        HeadDiffers(q, t);
        HeadDiffers(q, Scan(t, table));
      } else {
        ScanHidesNothing(q[1..], t[1..], table);
        assert Scan(t, table) == [t[0]] + Scan(t[1..], table);
        PrefixStep(q, t);
        PrefixStep(q, Scan(t, table));
      }
    }
  }

  lemma HeadDiffers(q: string, s: string)
    requires q != "" && s != "" && q[0] != s[0]
    ensures !Prefix(q, s)
  {
    PrefixStep(q, s);
  }

  lemma PrefixStep(q: string, s: string)
    requires q != "" && s != ""
    ensures Prefix(q, s) <==> q[0] == s[0] && Prefix(q[1..], s[1..])
  {
    if |q| <= |s| {
      assert s[..|q|] == [s[0]] + s[1..][..|q| - 1];
      assert q == [q[0]] + q[1..];
    }
  }

  lemma NoEntityHere(s: string, table: seq<Entity>)
    requires s != "" && s[0] != '&' && forall x | x in table :: x.0 != "" && x.0[0] == '&'
    ensures HeadEntity(s, table) == None
  {
    forall x | x in table ensures !Prefix(x.0, s) { HeadDiffers(x.0, s); }
  }

  /** A scan copies text without '&'. */
  lemma {:induction false} ScanCopies(q: string, t: string, table: seq<Entity>)
    requires NonEmptyNames(table) && '&' !in q
    requires forall x | x in table :: x.0[0] == '&'
    ensures Scan(q + t, table) == q + Scan(t, table)
    decreases |q|
  {
    if q == "" {
      assert q + t == t;
    } else {
      assert (q + t)[1..] == q[1..] + t;
      assert q[0] in q;
      NoEntityHere(q + t, table);
      ScanCopies(q[1..], t, table);
    }
  }

  lemma {:induction false} HeadEntityAppend(s: string, table: seq<Entity>, e: Entity)
    ensures
      var h := HeadEntity(s, table);
      HeadEntity(s, table + [e]) == if h.Some? then h else if Prefix(e.0, s) then Some(e) else None
    decreases |table|
  {
    if table != [] {
      assert (table + [e])[1..] == table[1..] + [e];
      HeadEntityAppend(s, table[1..], e);
    }
  }

  /** Replacing one more entity in what a scan wrote is scanning for it as well. */
  lemma {:induction false} ReplaceAfterScan(s: string, table: seq<Entity>, e: Entity)
    requires Separable(table, e) && NonEmptyNames(table) && NonEmptyNames(table + [e])
    ensures Replace(Scan(s, table), e) == Scan(s, table + [e])
    decreases |s|
  {
    if s != "" {
      HeadEntityAppend(s, table, e);
      var h := HeadEntity(s, table);
      if h.Some? {
        var rest := s[|h.value.0|..];
        ReplaceAfterScan(rest, table, e);
        var out := [h.value.1] + Scan(rest, table);
        assert out[1..] == Scan(rest, table);
        HeadDiffers(e.0, out);
      } else if Prefix(e.0, s) {
        var rest := s[|e.0|..];
        var tail := e.0[1..];
        assert s == e.0 + rest && e.0 == [e.0[0]] + tail;
        assert s[1..] == tail + rest;
        assert '&' !in tail;
        ScanCopies(tail, rest, table);
        var out := [s[0]] + Scan(s[1..], table);
        assert out == e.0 + Scan(rest, table);
        assert out[..|e.0|] == e.0 && out[|e.0|..] == Scan(rest, table);
        ReplaceAfterScan(rest, table, e);
      } else {
        ReplaceAfterScan(s[1..], table, e);
        var out := [s[0]] + Scan(s[1..], table);
        assert out[1..] == Scan(s[1..], table);
        NotCompleted(s, table, e);
      }
    }
  }

  /** Decoding what follows cannot complete an entity that was not there. */
  lemma NotCompleted(s: string, table: seq<Entity>, e: Entity)
    requires s != "" && Separable(table, e) && NonEmptyNames(table)
    requires !Prefix(e.0, s)
    ensures !Prefix(e.0, [s[0]] + Scan(s[1..], table))
  {
    var out := [s[0]] + Scan(s[1..], table);
    var tail := e.0[1..];
    assert out[1..] == Scan(s[1..], table);
    PrefixStep(e.0, out);
    PrefixStep(e.0, s);
    ScanHidesNothing(tail, s[1..], table);
  }

  lemma {:induction false} ScanNothing(s: string)
    ensures Scan(s, []) == s
  {
    if s != "" { ScanNothing(s[1..]); }
  }

  lemma TableIsWellNamed()
    ensures forall e | e in EntityTable :: WellNamed(e.0)
  {
    assert WellNamed("&lt;") && WellNamed("&gt;") && WellNamed("&quot;");
    assert WellNamed("&#39;") && WellNamed("&apos;") && WellNamed("&amp;");
  }

  /** The first `k` entities of the table leave the next one separable. */
  lemma TableIsSeparable(k: nat)
    requires k < |EntityTable|
    ensures Separable(EntityTable[..k], EntityTable[k]) && NonEmptyNames(EntityTable[..k])
    ensures EntityTable[..k] + [EntityTable[k]] == EntityTable[..k + 1] && NonEmptyNames(EntityTable[..k + 1])
  {
    TableIsWellNamed();
    assert forall i | 0 <= i < k :: EntityTable[i] in EntityTable;
    assert forall c | c in EntityTable[k].0 :: c !in {'<', '>', '"', '\''};
  }

  /** The first `k` replacements. */
  function DecodeFirst(s: string, k: nat): string
    requires k <= |EntityTable|
  {
    if k == 0 then s else Replace(DecodeFirst(s, k - 1), EntityTable[k - 1])
  }

  lemma {:induction false} DecodeFirstIsScan(s: string, k: nat)
    requires k <= |EntityTable|
    ensures NonEmptyNames(EntityTable[..k]) && DecodeFirst(s, k) == Scan(s, EntityTable[..k])
  {
    if k == 0 {
      ScanNothing(s);
    } else {
      DecodeFirstIsScan(s, k - 1);
      TableIsSeparable(k - 1);
      ReplaceAfterScan(s, EntityTable[..k - 1], EntityTable[k - 1]);
    }
  }

  lemma DecodeUnfolds(s: string, k: nat)
    requires k < |EntityTable|
    ensures DecodeFirst(s, k + 1) == Replace(DecodeFirst(s, k), EntityTable[k])
  {
  }

  lemma DecodeIsSixReplacements(s: string)
    ensures Decode(s) == DecodeFirst(s, 6)
  {
    DecodeUnfolds(s, 0);
    DecodeUnfolds(s, 1);
    DecodeUnfolds(s, 2);
    DecodeUnfolds(s, 3);
    DecodeUnfolds(s, 4);
    DecodeUnfolds(s, 5);
    assert DecodeFirst(s, 0) == s;
  }

  /** The six replacements are one left-to-right scan that never reads its output. */
  lemma DecodeIsOneScan(s: string)
    ensures Decode(s) == Scan(s, EntityTable)
  {
    DecodeFirstIsScan(s, 6);
    DecodeIsSixReplacements(s);
    assert EntityTable[..6] == EntityTable;
  }

  // ─── Escaping ─────────────────────────────────────────────────────────────

  /** The standard escape; the apostrophe in XML's or in HTML's spelling. */
  function EscapeChar(c: char, xml: bool): string {
    match c
    case '<' => "&lt;"
    case '>' => "&gt;"
    case '"' => "&quot;"
    case '\'' => if xml then "&apos;" else "&#39;"
    case '&' => "&amp;"
    case _ => [c]
  }

  function Escape(s: string, xml: bool): string {
    if s == "" then "" else EscapeChar(s[0], xml) + Escape(s[1..], xml)
  }

  lemma ScanEscaped(c: char, xml: bool, rest: string)
    ensures Scan(EscapeChar(c, xml) + rest, EntityTable) == [c] + Scan(rest, EntityTable)
  {
    var e := EscapeChar(c, xml);
    var s := e + rest;
    if c in {'<', '>', '"', '\'', '&'} {
      assert s[..|e|] == e && s[|e|..] == rest;
      assert (e, c) in EntityTable;
      var h := HeadEntity(s, EntityTable);
      PrefixSame(h.value.0, e, s);
    } else {
      TableIsWellNamed();
      NoEntityHere(s, EntityTable);
      assert s[1..] == rest;
    }
  }

  /** Decoding the standard escape of any text gives the text back. */
  lemma {:induction false} DecodeEscape(s: string, xml: bool)
    ensures Decode(Escape(s, xml)) == s
  {
    DecodeIsOneScan(Escape(s, xml));
    if s != "" {
      DecodeEscape(s[1..], xml);
      DecodeIsOneScan(Escape(s[1..], xml));
      ScanEscaped(s[0], xml, Escape(s[1..], xml));
    }
  }

  lemma {:induction false} ReplaceCopies(q: string, e: Entity)
    requires '&' !in q && WellNamed(e.0)
    ensures Replace(q, e) == q
    decreases |q|
  {
    if q != "" {
      assert q[0] in q;
      HeadDiffers(e.0, q);
      ReplaceCopies(q[1..], e);
    }
  }

  lemma ReplaceHit(e: Entity, rest: string)
    requires WellNamed(e.0)
    ensures Replace(e.0 + rest, e) == [e.1] + Replace(rest, e)
  {
    var s := e.0 + rest;
    assert s[..|e.0|] == e.0 && s[|e.0|..] == rest;
  }

  lemma EscapedLevelKept()
    ensures Decode("&amp;" + "lt;") == "&lt;"
  {
    EscapePlain("lt;", false);
    assert "&lt;"[1..] == "lt;";
    DecodeEscape("&lt;", false);
  }

  lemma {:induction false} EscapePlain(s: string, xml: bool)
    requires forall k | 0 <= k < |s| :: s[k] !in {'<', '>', '"', '\'', '&'}
    ensures Escape(s, xml) == s
  {
    if s != "" {
      EscapePlain(s[1..], xml);
    }
  }

  lemma EscapedLevelLost()
    ensures Replace(Replace("&amp;" + "lt;", ("&amp;", '&')), ("&lt;", '<')) == "<"
  {
    TableIsWellNamed();
    ReplaceHit(("&amp;", '&'), "lt;");
    ReplaceCopies("lt;", ("&amp;", '&'));
    ReplaceHit(("&lt;", '<'), "");
    assert ['&'] + "lt;" == "&lt;" + "";
  }

  /** With the ampersand first a doubly escaped text would lose a level. */
  lemma AmpersandMustBeLast()
    ensures Decode("&amp;" + "lt;") == "&lt;"
    ensures Replace(Replace("&amp;" + "lt;", ("&amp;", '&')), ("&lt;", '<')) == "<"
  {
    EscapedLevelKept();
    EscapedLevelLost();
  }
}
