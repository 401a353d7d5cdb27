/** What stands in the body of POST /subscription, and which resources have two spellings
    (buildSubscriptionBody and otherPanelSpelling in src/WsSubscriber.ts), character by
    character. */
module BodyText {
  import opened Maybe
  import opened Requests
  import opened SubscriptionBody

  // ─── Numbers ──────────────────────────────────────────────────────────────

  /** The number that decimal digits write. */
  function ValueOf(s: string): int {
    if s == "" then 0 else 10 * ValueOf(s[..|s| - 1]) + (s[|s| - 1] as int - '0' as int)
  }

  /** A number is written in decimal digits, without leading zeros. */
  lemma {:induction false} DecIsDecimal(n: nat)
    ensures ValueOf(Dec(n)) == n
    ensures forall c | c in Dec(n) :: '0' <= c <= '9'
    ensures n > 0 ==> Dec(n)[0] != '0'
    ensures n < 10 ==> |Dec(n)| == 1
  {
    var digit := "0123456789"[n % 10];
    assert digit as int == '0' as int + n % 10;
    if n >= 10 {
      DecIsDecimal(n / 10);
      assert Dec(n)[..|Dec(n)| - 1] == Dec(n / 10);
    } else {
      assert Dec(n)[..0] == "";
    }
  }

  /** The three fields of the resource at index k carry the number i + k. */
  lemma {:induction false} FieldsAreNumbered(paths: seq<string>, i: nat, k: nat)
    requires k < |paths|
    ensures |Fields(paths, i)| == 3 * |paths|
    ensures Fields(paths, i)[3 * k] == "resources=" + Dec(i + k)
    ensures Fields(paths, i)[3 * k + 1] == Dec(i + k) + "=" + paths[k]
    ensures Fields(paths, i)[3 * k + 2] == Dec(i + k) + "-p=1"
    decreases |paths|
  {
    var rest := Fields(paths[1..], i + 1);
    assert Fields(paths, i) == ["resources=" + Dec(i), Dec(i) + "=" + paths[0], Dec(i) + "-p=1"] + rest;
    if k > 0 {
      FieldsAreNumbered(paths[1..], i + 1, k - 1);
    } else if |paths| > 1 {
      FieldsAreNumbered(paths[1..], i + 1, 0);
    }
  }

  /** The text of some fields, and then some more. */
  lemma {:induction false} JoinOfBoth(fields: seq<string>, more: seq<string>)
    requires fields != [] && more != []
    ensures JoinFields(fields + more) == JoinFields(fields) + "&" + JoinFields(more)
    decreases |fields|
  {
    assert (fields + more)[1..] == fields[1..] + more;
    if |fields| > 1 {
      JoinOfBoth(fields[1..], more);
      assert JoinFields(fields + more) == fields[0] + "&" + (JoinFields(fields[1..]) + "&" + JoinFields(more));
    }
  }

  // ─── Each path once ───────────────────────────────────────────────────────

  lemma InDistinct(paths: seq<string>, p: string)
    ensures p in Distinct(paths) <==> p in paths
  {
    DistinctIsDistinct(paths);
  }

  predicate FirstOf(paths: seq<string>, i: nat)
    requires i < |paths|
  {
    forall j | 0 <= j < i :: paths[j] != paths[i]
  }

  /** The paths sent are those at the indices in `at`: exactly the first occurrences, in
      order. */
  lemma {:induction false} DistinctAreFirsts(paths: seq<string>) returns (at: seq<nat>)
    ensures |at| == |Distinct(paths)|
    ensures forall k | 0 <= k < |at| :: at[k] < |paths| && FirstOf(paths, at[k]) && Distinct(paths)[k] == paths[at[k]]
    ensures forall j, k | 0 <= j < k < |at| :: at[j] < at[k]
    ensures forall i | 0 <= i < |paths| && FirstOf(paths, i) :: i in at
    decreases |paths|
  {
    if paths == [] {
      at := [];
    } else {
      var n := |paths| - 1;
      var front := paths[..n];
      at := DistinctAreFirsts(front);
      InDistinct(front, paths[n]);
      forall i: nat | i < n ensures FirstOf(front, i) == FirstOf(paths, i) {
        assert forall j | 0 <= j <= i :: front[j] == paths[j];
      }
      if paths[n] !in front {
        forall j | 0 <= j < n ensures paths[j] != paths[n] { assert front[j] in front; }
        at := at + [n];
      } else {
        var j :| 0 <= j < n && front[j] == paths[n];
        assert paths[j] == paths[n] && !FirstOf(paths, n);
      }
    }
  }

  // ─── The two spellings ────────────────────────────────────────────────────

  /** The bare and the suffixed spelling of a panel resource. */
  predicate AreSpellings(bare: string, suffixed: string) {
    || (bare == "/rw/panel/ctrlstate" && suffixed == "/rw/panel/ctrlstate;ctrlstate")
    || (bare == "/rw/panel/opmode" && suffixed == "/rw/panel/opmode;opmode")
    || (bare == "/rw/panel/speedratio" && suffixed == "/rw/panel/speedratio;speedratio")
    || (bare == "/rw/panel/coldetstate" && suffixed == "/rw/panel/coldetstate;coldetstate")
  }

  /** Spelled out: the words, and what is written of each. */
  lemma SpelledOut(word: string, bare: string, suffixed: string)
    requires word in TwoSpellings && bare == PanelPrefix + word && suffixed == bare + ";" + word
    ensures AreSpellings(bare, suffixed)
  {
  }

  lemma WordOf(bare: string, suffixed: string) returns (word: string)
    requires AreSpellings(bare, suffixed)
    ensures word in TwoSpellings && bare == PanelPrefix + word && suffixed == bare + ";" + word
  {
    word := bare[|PanelPrefix|..];
  }

  /** Exactly these four resources have two spellings, each the other's other one. */
  lemma SpellingsExactly(uri: string, other: string)
    ensures OtherSpelling(uri) == Some(other) <==> AreSpellings(uri, other) || AreSpellings(other, uri)
  {
    if OtherSpelling(uri) == Some(other) {
      var word := IsSpelling(uri);
      BareWord(word);
      SpellingsDiffer(word);
      SpelledOut(word, PanelPrefix + word, PanelPrefix + word + ";" + word);
    }
    if AreSpellings(uri, other) {
      var word := WordOf(uri, other);
      BareWord(word);
    } else if AreSpellings(other, uri) {
      var word := WordOf(other, uri);
      BareWord(word);
    }
  }
}
