/** The repair of a JSON text with trailing commas (HalJsonParser.dropTrailingCommas),
    against the strict grammar of RFC 8259. */
module JsonRepair {
  import opened Maybe

  /** What `\s` matches in a JavaScript regular expression. */
  predicate IsSpace(c: char) {
    c in {'\t', '\n', '\U{000b}', '\U{000c}', '\r', ' ', '\U{00a0}', '\U{1680}', '\U{2028}', '\U{2029}',
          '\U{202f}', '\U{205f}', '\U{3000}', '\U{feff}'}
    || '\U{2000}' <= c <= '\U{200a}'
  }

  predicate AllSpace(s: string) {
    forall k | 0 <= k < |s| :: IsSpace(s[k])
  }

  function SkipSpace(s: string, j: nat): (k: nat)
    requires j <= |s|
    ensures j <= k <= |s|
    ensures forall m | j <= m < k :: IsSpace(s[m])
    ensures k < |s| ==> !IsSpace(s[k])
    decreases |s| - j
  {
    if j < |s| && IsSpace(s[j]) then SkipSpace(s, j + 1) else j
  }

  predicate IsCloser(c: char) {
    c == '}' || c == ']'
  }

  /** After white space from `j` on comes a closing brace or bracket. */
  predicate CloserAhead(s: string, j: nat)
    requires j <= |s|
  {
    var k := SkipSpace(s, j);
    k < |s| && IsCloser(s[k])
  }

  /** What is written for the rest `s` of the text, inside or outside a literal. */
  function Repair(s: string, inString: bool): string
    decreases |s|
  {
    if s == "" then ""
    else if inString then
      if s[0] == '\\' && |s| > 1 then s[..2] + Repair(s[2..], true)
      else [s[0]] + Repair(s[1..], s[0] != '"')
    else if s[0] == '"' then [s[0]] + Repair(s[1..], true)
    else if s[0] == ',' && CloserAhead(s, 1) then Repair(s[1..], false)
    else [s[0]] + Repair(s[1..], false)
  }

  lemma {:induction false} SkipSpaceShift(s: string, i: nat, j: nat)
    requires i <= j <= |s|
    ensures SkipSpace(s, j) == i + SkipSpace(s[i..], j - i)
    decreases |s| - j
  {
    if j < |s| {
      assert s[i..][j - i] == s[j];
      if IsSpace(s[j]) { SkipSpaceShift(s, i, j + 1); }
    }
  }

  lemma CloserAheadShift(t: string, i: nat)
    requires i < |t|
    ensures CloserAhead(t[i..], 1) == CloserAhead(t, i + 1)
  {
    SkipSpaceShift(t, i, i + 1);
    var k := SkipSpace(t, i + 1);
    assert k < |t| ==> t[k] == t[i..][k - i];
  }

  /** One step of the repair, by position. */
  lemma RepairAt(t: string, i: nat, inString: bool)
    requires i < |t|
    ensures
      Repair(t[i..], inString) ==
        if inString && t[i] == '\\' && i + 1 < |t| then [t[i], t[i + 1]] + Repair(t[i + 2..], true)
        else if inString then [t[i]] + Repair(t[i + 1..], t[i] != '"')
        else if t[i] == ',' && CloserAhead(t, i + 1) then Repair(t[i + 1..], false)
        else [t[i]] + Repair(t[i + 1..], t[i] == '"')
  {
    CloserAheadShift(t, i);
    var s := t[i..];
    assert s[0] == t[i] && s[1..] == t[i + 1..];
    if i + 1 < |t| { assert s[..2] == [t[i], t[i + 1]] && s[2..] == t[i + 2..]; }
  }

  /** The inner loop of the source: white space is skipped behind the comma at `i`. */
  method CloserFollows(text: string, i: nat) returns (b: bool)
    requires i < |text|
    ensures b == CloserAhead(text, i + 1)
  {
    var j := i + 1;
    while j < |text| && IsSpace(text[j])
      invariant i < j <= |text|
      invariant SkipSpace(text, i + 1) == SkipSpace(text, j)
    {
      j := j + 1;
    }
    b := j < |text| && IsCloser(text[j]);
  }

  lemma Appended(out: string, piece: string, rest: string)
    ensures out + (piece + rest) == (out + piece) + rest
  {
  }

  /** One round of the outer loop: what it writes and where it goes on. */
  lemma Round(t: string, i: nat, inString: bool, out: string)
    requires i < |t|
    ensures inString && t[i] == '\\' && i + 1 < |t| ==>
              out + Repair(t[i..], inString) == out + [t[i], t[i + 1]] + Repair(t[i + 2..], true)
    ensures inString && !(t[i] == '\\' && i + 1 < |t|) ==>
              out + Repair(t[i..], inString) == out + [t[i]] + Repair(t[i + 1..], t[i] != '"')
    ensures !inString && t[i] == ',' && CloserAhead(t, i + 1) ==>
              out + Repair(t[i..], inString) == out + Repair(t[i + 1..], false)
    ensures !inString && !(t[i] == ',' && CloserAhead(t, i + 1)) ==>
              out + Repair(t[i..], inString) == out + [t[i]] + Repair(t[i + 1..], t[i] == '"')
  {
    RepairAt(t, i, inString);
    if inString && t[i] == '\\' && i + 1 < |t| {
      Appended(out, [t[i], t[i + 1]], Repair(t[i + 2..], true));
    } else if inString {
      Appended(out, [t[i]], Repair(t[i + 1..], t[i] != '"'));
    } else {
      Appended(out, [t[i]], Repair(t[i + 1..], t[i] == '"'));
    }
  }

  /** The outer loop of the source. */
  method DropTrailingCommas(text: string) returns (out: string)
    ensures out == Repair(text, false)
  {
    out := "";
    var inString := false;
    var i := 0;
    assert text[0..] == text;
    while i < |text|
      invariant i <= |text|
      invariant Repair(text, false) == out + Repair(text[i..], inString)
    {
      Round(text, i, inString, out);
      var c := text[i];
      if inString {
        if c == '\\' && i + 1 < |text| {
          out := out + [c, text[i + 1]];
          i := i + 2;
        } else {
          out := out + [c];
          inString := c != '"';
          i := i + 1;
        }
        continue;
      }
      var drop := false;
      if c == ',' { drop := CloserFollows(text, i); }
      if !drop {
        out := out + [c];
        inString := c == '"';
      }
      i := i + 1;
    }
    assert text[i..] == "";
  }

  // ─── Exactly which characters go ──────────────────────────────────────────

  datatype Place = Outside | Inside | Escaped

  /** Where the scanner is before position `i`. */
  function PlaceAt(t: string, i: nat): Place
    requires i <= |t|
  {
    if i == 0 then Outside
    else
      var c := t[i - 1];
      match PlaceAt(t, i - 1)
      case Outside => if c == '"' then Inside else Outside
      case Inside => if c == '"' then Outside else if c == '\\' then Escaped else Inside
      case Escaped => Inside
  }

  predicate Dropped(t: string, i: nat)
    requires i < |t|
  {
    PlaceAt(t, i) == Outside && t[i] == ',' && CloserAhead(t, i + 1)
  }

  function KeptFrom(t: string, i: nat): string
    requires i <= |t|
    decreases |t| - i
  {
    if i == |t| then ""
    else (if Dropped(t, i) then "" else [t[i]]) + KeptFrom(t, i + 1)
  }

  lemma KeptNot(t: string, i: nat)
    requires i < |t| && PlaceAt(t, i) != Outside
    ensures KeptFrom(t, i) == [t[i]] + KeptFrom(t, i + 1)
  {
  }

  /** An escaped character is passed over together with its backslash. */
  lemma KeptEscape(t: string, i: nat)
    requires i + 1 < |t| && PlaceAt(t, i) == Inside && t[i] == '\\'
    ensures PlaceAt(t, i + 2) == Inside
    ensures KeptFrom(t, i) == [t[i], t[i + 1]] + KeptFrom(t, i + 2)
  {
    assert PlaceAt(t, i + 1) == Escaped;
    KeptNot(t, i);
    KeptNot(t, i + 1);
    Appended([t[i]], [t[i + 1]], KeptFrom(t, i + 2));
    assert [t[i]] + [t[i + 1]] == [t[i], t[i + 1]];
  }

  lemma {:induction false} InsideIsKept(t: string, i: nat)
    requires i < |t| && PlaceAt(t, i) == Inside
    ensures Repair(t[i..], true) == KeptFrom(t, i)
    decreases |t| - i, 0
  {
    RepairAt(t, i, true);
    if t[i] == '\\' && i + 1 < |t| {
      KeptEscape(t, i);
      RepairIsKept(t, i + 2);
    } else if t[i] == '\\' {
      assert t[i + 1..] == "";
    } else {
      RepairIsKept(t, i + 1);
    }
  }

  lemma {:induction false} OutsideIsKept(t: string, i: nat)
    requires i < |t| && PlaceAt(t, i) == Outside
    ensures Repair(t[i..], false) == KeptFrom(t, i)
    decreases |t| - i, 0
  {
    RepairAt(t, i, false);
    RepairIsKept(t, i + 1);
  }

  lemma {:induction false} RepairIsKept(t: string, i: nat)
    requires i <= |t| && PlaceAt(t, i) != Escaped
    ensures Repair(t[i..], PlaceAt(t, i) == Inside) == KeptFrom(t, i)
    decreases |t| - i, 1
  {
    if i == |t| {
      assert t[i..] == "";
    } else if PlaceAt(t, i) == Inside {
      InsideIsKept(t, i);
    } else {
      OutsideIsKept(t, i);
    }
  }

  /** The repair removes exactly the commas outside string literals that only white
      space separates from a closer; all else, literals included, stays verbatim. */
  lemma RemovesExactlyTrailingCommas(t: string)
    ensures Repair(t, false) == KeptFrom(t, 0)
  {
    RepairIsKept(t, 0);
    assert t[0..] == t;
  }

  // ─── JSON values with their layout ────────────────────────────────────────

  /** `text` is a number, true, false or null; `body` the inside of a literal as
      written; a box is an object or array, with the white space of an empty one or
      before the closer. */
  datatype Value =
    | Atom(text: string)
    | Literal(body: string)
    | Box(isObject: bool, pad: string, items: Items)

  /** White space around each element, and the name of an object's member. */
  datatype Items = End | Item(lead: string, name: Option<Name>, value: Value, trail: string, rest: Items)

  datatype Name = Name(body: string, gap: string, gap2: string)

  predicate AtomText(s: string) {
    s != "" && forall k | 0 <= k < |s| :: !IsSpace(s[k]) && s[k] !in {'"', ',', '[', ']', '{', '}', ':'}
  }

  /** Every quote is escaped and no escape is cut. */
  predicate LiteralBody(s: string) {
    s == "" ||
    (if s[0] == '\\' then |s| > 1 && LiteralBody(s[2..]) else s[0] != '"' && LiteralBody(s[1..]))
  }

  predicate WellFormed(v: Value) {
    match v
    case Atom(text) => AtomText(text)
    case Literal(body) => LiteralBody(body)
    case Box(isObject, pad, items) => AllSpace(pad) && ItemsWellFormed(items, isObject)
  }

  predicate ItemsWellFormed(items: Items, named: bool) {
    match items
    case End => true
    case Item(lead, name, value, trail, rest) =>
      && AllSpace(lead) && AllSpace(trail) && WellFormed(value)
      && name.Some? == named
      && (named ==> LiteralBody(name.value.body) && AllSpace(name.value.gap) && AllSpace(name.value.gap2))
      && ItemsWellFormed(rest, named)
  }

  function Quoted(body: string): string {
    "\"" + body + "\""
  }

  /** With `commas`, a comma stands before the closer of every non-empty box. */
  function Print(v: Value, commas: bool): string
    decreases v, 0
  {
    match v
    case Atom(text) => text
    case Literal(body) => Quoted(body)
    case Box(isObject, pad, items) =>
      (if isObject then "{" else "[") + PrintItems(items, commas)
      + ((if commas && items.Item? then "," else "") + (pad + (if isObject then "}" else "]")))
  }

  function PrintName(name: Option<Name>): string {
    if name.None? then "" else Quoted(name.value.body) + (name.value.gap + ":" + name.value.gap2)
  }

  function PrintItems(items: Items, commas: bool): string
    decreases items, 0
  {
    match items
    case End => ""
    case Item(lead, name, value, trail, rest) =>
      lead + (PrintName(name) + (Print(value, commas) + (trail + PrintRest(rest, commas))))
  }

  function PrintRest(rest: Items, commas: bool): string
    decreases rest, 1
  {
    if rest.End? then "" else "," + PrintItems(rest, commas)
  }

  // ─── Repairing a print ────────────────────────────────────────────────────

  /** Whatever follows, outside a literal, `q` is repaired to `q'`. */
  ghost predicate Rewrites(q: string, q': string) {
    forall r: string :: Repair(q + r, false) == q' + Repair(r, false)
  }

  lemma InOrder(a: string, a': string, b: string, b': string)
    requires Rewrites(a, a') && Rewrites(b, b')
    ensures Rewrites(a + b, a' + b')
  {
    forall r: string
      ensures Repair(a + b + r, false) == a' + b' + Repair(r, false)
    {
      assert a + b + r == a + (b + r);
      assert a' + (b' + Repair(r, false)) == a' + b' + Repair(r, false);
    }
  }

  predicate Plain(s: string) {
    forall k | 0 <= k < |s| :: s[k] != '"' && s[k] != ','
  }

  lemma {:induction false} PlainCopiedBefore(q: string, r: string)
    requires Plain(q)
    ensures Repair(q + r, false) == q + Repair(r, false)
    decreases |q|
  {
    if q == "" {
      assert q + r == r;
    } else {
      assert (q + r)[1..] == q[1..] + r;
      PlainCopiedBefore(q[1..], r);
    }
  }

  lemma PlainCopied(q: string)
    requires Plain(q)
    ensures Rewrites(q, q)
  {
    forall r: string ensures Repair(q + r, false) == q + Repair(r, false) { PlainCopiedBefore(q, r); }
  }

  lemma {:induction false} InsideCopied(body: string, r: string)
    requires LiteralBody(body)
    ensures Repair(body + ("\"" + r), true) == body + ("\"" + Repair(r, false))
    decreases |body|
  {
    var s := body + ("\"" + r);
    if body == "" {
      assert s == "\"" + r && s[1..] == r;
    } else if body[0] == '\\' {
      assert s[..2] == body[..2] && s[2..] == body[2..] + ("\"" + r);
      InsideCopied(body[2..], r);
    } else {
      assert s[1..] == body[1..] + ("\"" + r);
      InsideCopied(body[1..], r);
    }
  }

  lemma QuotedCopiedBefore(body: string, r: string)
    requires LiteralBody(body)
    ensures Repair(Quoted(body) + r, false) == Quoted(body) + Repair(r, false)
  {
    var inside := body + ("\"" + r);
    var s := Quoted(body) + r;
    assert s[0] == '"' && s[1..] == inside;
    InsideCopied(body, r);
    assert "\"" + (body + ("\"" + Repair(r, false))) == Quoted(body) + Repair(r, false);
  }

  lemma QuotedCopied(body: string)
    requires LiteralBody(body)
    ensures Rewrites(Quoted(body), Quoted(body))
  {
    forall r: string ensures Repair(Quoted(body) + r, false) == Quoted(body) + Repair(r, false) {
      QuotedCopiedBefore(body, r);
    }
  }

  lemma {:induction false} SkipAll(ws: string, r: string, j: nat)
    requires AllSpace(ws) && r != "" && !IsSpace(r[0]) && j <= |ws|
    ensures SkipSpace(ws + r, j) == |ws|
    decreases |ws| - j
  {
    if j < |ws| { SkipAll(ws, r, j + 1); }
  }

  /** A comma's fate is settled by the first character behind the white space. */
  lemma CommaFate(ws: string, r: string)
    requires AllSpace(ws) && r != "" && !IsSpace(r[0])
    ensures Repair("," + (ws + r), false) ==
            (if IsCloser(r[0]) then "" else ",") + Repair(ws + r, false)
  {
    var t := ws + r;
    var s := "," + t;
    assert s[1..] == t;
    SkipSpaceShift(s, 1, 1);
    SkipAll(ws, r, 0);
    assert s[1 + |ws|] == r[0];
  }

  /** The comma before `ws + solid`, which starts with no white space. */
  lemma CommaBefore(ws: string, solid: string, q': string)
    requires AllSpace(ws) && solid != "" && !IsSpace(solid[0]) && Rewrites(ws + solid, q')
    ensures Rewrites("," + (ws + solid), (if IsCloser(solid[0]) then "" else ",") + q')
  {
    var comma := if IsCloser(solid[0]) then "" else ",";
    forall r: string
      ensures Repair("," + (ws + solid) + r, false) == comma + q' + Repair(r, false)
    {
      assert "," + (ws + solid) + r == "," + (ws + (solid + r));
      CommaFate(ws, solid + r);
      assert ws + (solid + r) == ws + solid + r;
      assert comma + (q' + Repair(r, false)) == comma + q' + Repair(r, false);
    }
  }

  /** What is printed behind an element's leading white space. */
  function Solid(items: Items, commas: bool): string
    requires items.Item?
  {
    PrintName(items.name) + (Print(items.value, commas) + (items.trail + PrintRest(items.rest, commas)))
  }

  lemma ValueStarts(v: Value, commas: bool)
    requires WellFormed(v)
    ensures var s := Print(v, commas); s != "" && !IsSpace(s[0]) && !IsCloser(s[0])
  {
    match v {
      case Atom(text) =>
      case Literal(_) => assert Print(v, commas)[0] == '"';
      case Box(isObject, _, _) => assert Print(v, commas)[0] == if isObject then '{' else '[';
    }
  }

  /** It starts with something that is neither white space nor a closer. */
  lemma SolidStarts(items: Items, commas: bool, named: bool)
    requires items.Item? && ItemsWellFormed(items, named)
    ensures var s := Solid(items, commas); s != "" && !IsSpace(s[0]) && !IsCloser(s[0])
  {
    ValueStarts(items.value, commas);
    if items.name.Some? {
      assert PrintName(items.name)[0] == '"';
    } else {
      assert PrintName(items.name) == "";
    }
  }

  lemma {:induction false} PrintRepaired(v: Value, commas: bool)
    requires WellFormed(v)
    ensures Rewrites(Print(v, commas), Print(v, false))
    decreases v, 0
  {
    match v {
      case Atom(text) => PlainCopied(text);
      case Literal(body) => QuotedCopied(body);
      case Box(isObject, pad, items) =>
        var open := if isObject then "{" else "[";
        PlainCopied(open);
        ItemsRepaired(items, isObject, commas);
        InOrder(open, open, PrintItems(items, commas), PrintItems(items, false));
        TailRepaired(pad, isObject, commas && items.Item?);
        var close := if isObject then "}" else "]";
        InOrder(open + PrintItems(items, commas), open + PrintItems(items, false),
                (if commas && items.Item? then "," else "") + (pad + close), "" + (pad + close));
    }
  }

  /** The closer, with its trailing comma removed. */
  lemma TailRepaired(pad: string, isObject: bool, comma: bool)
    requires AllSpace(pad)
    ensures
      var close := if isObject then "}" else "]";
      Rewrites((if comma then "," else "") + (pad + close), "" + (pad + close))
  {
    var close := if isObject then "}" else "]";
    PlainCopied(pad + close);
    if comma {
      CommaBefore(pad, close, pad + close);
    } else {
      assert "" + (pad + close) == pad + close;
    }
  }

  lemma {:induction false} ItemsRepaired(items: Items, named: bool, commas: bool)
    requires ItemsWellFormed(items, named)
    ensures Rewrites(PrintItems(items, commas), PrintItems(items, false))
    decreases items, 0
  {
    match items {
      case End => PlainCopied("");
      case Item(lead, name, value, trail, rest) =>
        var r, r' := PrintRest(rest, commas), PrintRest(rest, false);
        var v, v' := Print(value, commas), Print(value, false);
        PlainCopied(lead);
        NameRepaired(name);
        PrintRepaired(value, commas);
        PlainCopied(trail);
        RestRepaired(rest, named, commas);
        InOrder(trail, trail, r, r');
        InOrder(v, v', trail + r, trail + r');
        InOrder(PrintName(name), PrintName(name), v + (trail + r), v' + (trail + r'));
        InOrder(lead, lead, PrintName(name) + (v + (trail + r)), PrintName(name) + (v' + (trail + r')));
    }
  }

  lemma NameRepaired(name: Option<Name>)
    requires name.Some? ==>
               LiteralBody(name.value.body) && AllSpace(name.value.gap) && AllSpace(name.value.gap2)
    ensures Rewrites(PrintName(name), PrintName(name))
  {
    if name.Some? {
      var colon := name.value.gap + ":" + name.value.gap2;
      QuotedCopied(name.value.body);
      PlainCopied(colon);
      InOrder(Quoted(name.value.body), Quoted(name.value.body), colon, colon);
    } else {
      PlainCopied("");
    }
  }

  lemma {:induction false} RestRepaired(rest: Items, named: bool, commas: bool)
    requires ItemsWellFormed(rest, named)
    ensures Rewrites(PrintRest(rest, commas), PrintRest(rest, false))
    decreases rest, 1
  {
    if rest.End? {
      PlainCopied("");
    } else {
      ItemsRepaired(rest, named, commas);
      SolidStarts(rest, commas, named);
      CommaBefore(rest.lead, Solid(rest, commas), PrintItems(rest, false));
    }
  }

  /** Whatever the value and its layout: with a comma before the closer of every
      non-empty object and array, the repair gives the strict print, and it leaves a
      strict print as it is. */
  lemma RepairsEveryPrint(v: Value)
    requires WellFormed(v)
    ensures Repair(Print(v, true), false) == Print(v, false)
    ensures Repair(Print(v, false), false) == Print(v, false)
  {
    PrintRepaired(v, true);
    PrintRepaired(v, false);
    assert Repair(Print(v, true) + "", false) == Print(v, false) + Repair("", false);
    assert Repair(Print(v, false) + "", false) == Print(v, false) + Repair("", false);
    assert Print(v, true) + "" == Print(v, true) && Print(v, false) + "" == Print(v, false);
  }

  /** Of two commas in a row only the last goes: the repair is not idempotent. */
  lemma NotIdempotent()
    ensures Repair("[1" + ",,]", false) == "[1" + ",]"
    ensures Repair("[1" + ",]", false) == "[1" + "]"
  {
    PlainCopiedBefore("[1", ",,]");
    PlainCopiedBefore("[1", ",]");
    PlainCopiedBefore("]", "");
    assert "]" + "" == "]";
    CommaFate("", "]");
    assert "," + ("" + "]") == ",]" && "" + "]" == "]";
    CommaFate("", ",]");
    assert "," + ("" + ",]") == ",,]" && "" + ",]" == ",]";
  }

  // ─── When a second repair changes nothing ─────────────────────────────────

  /** Behind white space stands a comma that the repair drops. */
  predicate DroppedAhead(u: string, j: nat)
    requires j <= |u|
  {
    var k := SkipSpace(u, j);
    k < |u| && u[k] == ',' && CloserAhead(u, k + 1)
  }

  /** A comma outside a literal, with only white space before another comma, which only
      white space separates from a closer. */
  predicate DoubleComma(t: string, i: nat)
    requires i < |t|
  {
    PlaceAt(t, i) == Outside && t[i] == ',' && DroppedAhead(t, i + 1)
  }

  /** The same, along the repair of the rest `s` of a text. */
  predicate HasDouble(s: string, inString: bool)
    decreases |s|
  {
    if s == "" then false
    else if inString then
      if s[0] == '\\' && |s| > 1 then HasDouble(s[2..], true) else HasDouble(s[1..], s[0] != '"')
    else (s[0] == ',' && DroppedAhead(s, 1)) || HasDouble(s[1..], s[0] == '"')
  }

  lemma SkipCons(c: char, u: string)
    ensures SkipSpace([c] + u, 1) == SkipSpace(u, 0) + 1
    ensures SkipSpace([c] + u, 0) == if IsSpace(c) then SkipSpace(u, 0) + 1 else 0
  {
    assert ([c] + u)[1..] == u;
    SkipSpaceShift([c] + u, 1, 1);
  }

  /** Behind the first character a closer follows or not. */
  lemma CloserCons(c: char, u: string, k: nat)
    requires k <= |u|
    ensures CloserAhead([c] + u, k + 1) == CloserAhead(u, k)
  {
    assert ([c] + u)[1..] == u;
    SkipSpaceShift([c] + u, 1, k + 1);
    var m := SkipSpace(u, k);
    assert m < |u| ==> ([c] + u)[m + 1] == u[m];
  }

  /** The first character of a text, before what follows it. */
  lemma ConsCloser(c: char, u: string)
    ensures CloserAhead([c] + u, 0) == if IsSpace(c) then CloserAhead(u, 0) else IsCloser(c)
    ensures CloserAhead([c] + u, 1) == CloserAhead(u, 0)
    ensures DroppedAhead([c] + u, 0) ==
            if IsSpace(c) then DroppedAhead(u, 0) else c == ',' && CloserAhead(u, 0)
    ensures DroppedAhead([c] + u, 1) == DroppedAhead(u, 0)
  {
    SkipCons(c, u);
    CloserCons(c, u, 0);
    var k := SkipSpace(u, 0);
    if k < |u| {
      assert ([c] + u)[k + 1] == u[k];
      CloserCons(c, u, k + 1);
    }
  }

  /** What the repaired rest starts with: a closer, at once or behind a comma dropped. */
  lemma {:induction false} CloserAfterRepair(u: string)
    ensures CloserAhead(Repair(u, false), 0) == (CloserAhead(u, 0) || DroppedAhead(u, 0))
    decreases |u|
  {
    if u != "" {
      var c, rest := u[0], u[1..];
      assert u == [c] + rest;
      ConsCloser(c, rest);
      CloserAfterRepair(rest);
      if c == ',' && CloserAhead(rest, 0) {
        assert Repair(u, false) == Repair(rest, false);
      } else {
        ConsCloser(c, Repair(rest, c == '"'));
      }
    }
  }

  lemma {:induction false} NeverLonger(s: string, inString: bool)
    ensures |Repair(s, inString)| <= |s|
    decreases |s|
  {
    if s != "" {
      if inString && s[0] == '\\' && |s| > 1 {
        NeverLonger(s[2..], true);
      } else {
        NeverLonger(s[1..], if inString then s[0] != '"' else s[0] == '"');
      }
    }
  }

  /** One character copied, inside a literal or outside it. */
  lemma RepairCons(c: char, u: string, inString: bool)
    requires inString ==> c != '\\' || u == ""
    ensures Repair([c] + u, inString) ==
            if !inString && c == ',' && CloserAhead(u, 0) then Repair(u, false)
            else [c] + Repair(u, if inString then c != '"' else c == '"')
  {
    assert ([c] + u)[1..] == u;
    ConsCloser(c, u);
  }

  lemma RepairEscape(c: char, d: char, u: string)
    requires c == '\\'
    ensures Repair([c, d] + u, true) == [c, d] + Repair(u, true)
  {
    assert ([c, d] + u)[..2] == [c, d] && ([c, d] + u)[2..] == u;
  }

  lemma {:induction false} StableInside(s: string)
    requires s != ""
    ensures Repair(Repair(s, true), true) == Repair(s, true) <==> !HasDouble(s, true)
    decreases |s|, 0
  {
    if s[0] == '\\' && |s| > 1 {
      assert s == [s[0], s[1]] + s[2..];
      var r := Repair(s[2..], true);
      RepairEscape(s[0], s[1], s[2..]);
      RepairEscape(s[0], s[1], r);
      Stable(s[2..], true);
      SameTail([s[0], s[1]], Repair(r, true), r);
    } else {
      assert s == [s[0]] + s[1..];
      var b := s[0] != '"';
      var r := Repair(s[1..], b);
      RepairCons(s[0], s[1..], true);
      NeverLonger(s[1..], b);
      RepairCons(s[0], r, true);
      Stable(s[1..], b);
      SameTail([s[0]], Repair(r, b), r);
    }
  }

  lemma SameTail(head: string, a: string, b: string)
    ensures head + a == head + b <==> a == b
  {
    assert (head + a)[|head|..] == a && (head + b)[|head|..] == b;
  }

  lemma {:induction false} StableOutside(s: string)
    requires s != ""
    ensures Repair(Repair(s, false), false) == Repair(s, false) <==> !HasDouble(s, false)
    decreases |s|, 0
  {
    var c, rest := s[0], s[1..];
    assert s == [c] + rest;
    var b := c == '"';
    var r := Repair(rest, b);
    RepairCons(c, rest, false);
    RepairCons(c, r, false);
    ConsCloser(c, rest);
    Stable(rest, b);
    if c == ',' {
      CloserAfterRepair(rest);
      if CloserAhead(rest, 0) {
        NotBoth(rest);
      } else if DroppedAhead(rest, 0) {
        NeverLonger(r, false);
      } else {
        SameTail([c], Repair(r, b), r);
      }
    } else {
      SameTail([c], Repair(r, b), r);
    }
  }

  lemma NotBoth(u: string)
    requires CloserAhead(u, 0)
    ensures !DroppedAhead(u, 0)
  {
  }

  lemma {:induction false} Stable(s: string, inString: bool)
    ensures Repair(Repair(s, inString), inString) == Repair(s, inString) <==> !HasDouble(s, inString)
    decreases |s|, 1
  {
    if s != "" {
      if inString { StableInside(s); } else { StableOutside(s); }
    }
  }

  lemma DroppedAheadAt(t: string, i: nat)
    requires i < |t|
    ensures DroppedAhead(t[i..], 1) == DroppedAhead(t, i + 1)
  {
    SkipSpaceShift(t, i, i + 1);
    var k := SkipSpace(t, i + 1);
    if k < |t| {
      assert t[i..][k - i] == t[k];
      SkipSpaceShift(t, i, k + 1);
      var m := SkipSpace(t, k + 1);
      assert m < |t| ==> t[i..][m - i] == t[m];
    }
  }

  /** One step of the scanner. */
  lemma DoubleStep(t: string, i: nat)
    requires i < |t| && PlaceAt(t, i) != Escaped
    ensures PlaceAt(t, i + 1) != Escaped ==>
              HasDouble(t[i..], PlaceAt(t, i) == Inside) ==
              (DoubleComma(t, i) || HasDouble(t[i + 1..], PlaceAt(t, i + 1) == Inside))
    ensures PlaceAt(t, i + 1) == Escaped && i + 1 < |t| ==>
              PlaceAt(t, i + 2) == Inside && HasDouble(t[i..], PlaceAt(t, i) == Inside) == HasDouble(t[i + 2..], true)
    ensures PlaceAt(t, i + 1) == Escaped && i + 1 == |t| ==> !HasDouble(t[i..], PlaceAt(t, i) == Inside)
  {
    var s := t[i..];
    assert s[0] == t[i] && s[1..] == t[i + 1..];
    DroppedAheadAt(t, i);
    if i + 1 < |t| { assert s[2..] == t[i + 2..]; }
  }

  ghost predicate DoubleFrom(t: string, i: nat) {
    exists k :: i <= k < |t| && DoubleComma(t, k)
  }

  lemma DoubleFromStep(t: string, i: nat)
    requires i < |t|
    ensures DoubleFrom(t, i) == (DoubleComma(t, i) || DoubleFrom(t, i + 1))
  {
    if k :| i <= k < |t| && DoubleComma(t, k) && k != i { assert i + 1 <= k; }
  }

  /** Where the scanner stands, the two readings of a double comma agree. */
  lemma {:induction false} DoublesFrom(t: string, i: nat)
    requires i <= |t| && PlaceAt(t, i) != Escaped
    ensures HasDouble(t[i..], PlaceAt(t, i) == Inside) == DoubleFrom(t, i)
    decreases |t| - i
  {
    if i < |t| {
      DoubleStep(t, i);
      DoubleFromStep(t, i);
      if PlaceAt(t, i + 1) != Escaped {
        DoublesFrom(t, i + 1);
      } else if i + 1 < |t| {
        DoubleFromStep(t, i + 1);
        DoublesFrom(t, i + 2);
      }
    }
  }

  /** A second repair changes nothing if and only if no comma outside a literal stands,
      but for white space, right before another that the first repair drops. */
  lemma IdempotentExactly(t: string)
    ensures Repair(Repair(t, false), false) == Repair(t, false) <==>
            forall i | 0 <= i < |t| :: !DoubleComma(t, i)
  {
    Stable(t, false);
    DoublesFrom(t, 0);
    assert t[0..] == t;
    if i :| 0 <= i < |t| && DoubleComma(t, i) { assert DoubleFrom(t, 0); }
  }

  // ─── White space and atoms ────────────────────────────────────────────────

  /** The characters skipped, by code: ECMAScript's white space and line terminators. */
  lemma SpaceByCode(c: char)
    ensures IsSpace(c) <==>
            || c as int in {9, 10, 11, 12, 13, 32, 160, 5760, 8232, 8233, 8239, 8287, 12288, 65279}
            || 8192 <= c as int <= 8202
  {
  }

  /** The white space of RFC 8259 is white space here. */
  lemma LayoutsAreCovered(s: string)
    requires forall c | c in s :: c == ' ' || c == '\t' || c == '\n' || c == '\r'
    ensures AllSpace(s)
  {
    forall k | 0 <= k < |s| ensures IsSpace(s[k]) { assert s[k] in s; }
  }

  /** So are its numbers, and the words true, false and null, atoms. */
  lemma AtomsAreCovered(s: string)
    requires s != "" && forall c | c in s :: 'a' <= c <= 'z' || '0' <= c <= '9' || c in {'-', '+', '.', 'E'}
    ensures AtomText(s)
  {
    forall k | 0 <= k < |s| ensures !IsSpace(s[k]) && s[k] !in {'"', ',', '[', ']', '{', '}', ':'} { assert s[k] in s; }
  }
}
