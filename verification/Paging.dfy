/** Reading a paged listing by its `next` links (readPages, listAllSignals and
    getEventLog). How a body's link is read is a parameter. */
module Paging {
  import opened Maybe

  /** The k-th GET fails, or answers `body(k)`; `link` is nextPagePath. */
  datatype World = World(
    fails: nat -> bool,
    body: nat -> string,
    link: (string, string) -> string)

  /** What stands before the first '?'. */
  function Resource(path: string): string {
    if path == "" || path[0] == '?' then "" else [path[0]] + Resource(path[1..])
  }

  // ─── The walk ─────────────────────────────────────────────────────────────

  /** A link, if it stays on the resource, else "". */
  function StayOn(first: string, next: string): string {
    if Resource(next) == Resource(first) then next else ""
  }

  /** The link followed behind page k. */
  function Follow(w: World, first: string, k: nat): string {
    StayOn(first, w.link(w.body(k), Resource(first)))
  }

  /** The path of page k along the links. */
  function PathOf(w: World, first: string, k: nat): string {
    if k == 0 then first else Follow(w, first, k - 1)
  }

  /** The first n links stay on the resource, name no path twice, and are at most
      `maxPages`. */
  predicate IsWalk(w: World, first: string, maxPages: nat, n: nat) {
    && n <= maxPages
    && (forall k | 0 <= k < n :: PathOf(w, first, k) != "")
    && (forall j, k | 0 <= j < k < n :: PathOf(w, first, j) != PathOf(w, first, k))
  }

  /** The first n GETs answer. */
  predicate AllAnswer(w: World, n: nat) {
    forall k | 0 <= k < n :: !w.fails(k)
  }

  function Paths(w: World, first: string, n: nat): seq<string> {
    seq(n, k requires 0 <= k < n => PathOf(w, first, k))
  }

  function Bodies(w: World, n: nat): seq<string> {
    seq(n, k requires 0 <= k < n => w.body(k))
  }

  /** The paths of the first n pages, as the `read` set holds them. */
  function PathSet(w: World, first: string, n: nat): set<string> {
    if n == 0 then {} else PathSet(w, first, n - 1) + {PathOf(w, first, n - 1)}
  }

  lemma {:induction false} PathSetMembers(w: World, first: string, n: nat)
    ensures forall k | 0 <= k < n :: PathOf(w, first, k) in PathSet(w, first, n)
    ensures forall p | p in PathSet(w, first, n) :: exists k :: 0 <= k < n && PathOf(w, first, k) == p
  {
    if n > 0 {
      PathSetMembers(w, first, n - 1);
      forall p | p in PathSet(w, first, n) ensures exists k :: 0 <= k < n && PathOf(w, first, k) == p {
        if p in PathSet(w, first, n - 1) {
          var k :| 0 <= k < n - 1 && PathOf(w, first, k) == p;
        } else {
          assert PathOf(w, first, n - 1) == p;
        }
      }
    }
  }

  /** A path not walked yet, with pages left, lengthens the walk; any other ends it. */
  lemma WalkStep(w: World, first: string, maxPages: nat, n: nat)
    requires IsWalk(w, first, maxPages, n)
    ensures IsWalk(w, first, maxPages, n + 1) <==>
            PathOf(w, first, n) != "" && n < maxPages && PathOf(w, first, n) !in PathSet(w, first, n)
  {
    PathSetMembers(w, first, n);
    if PathOf(w, first, n) in PathSet(w, first, n) {
      var j :| 0 <= j < n && PathOf(w, first, j) == PathOf(w, first, n);
    }
  }

  /** readPages: the bodies of the longest walk along the links, each page asked for
      once and in order; a page that fails fails the whole read. */
  method ReadPages(first: string, w: World, maxPages: nat)
    returns (bodies: Option<seq<string>>, asked: seq<string>)
    ensures asked == Paths(w, first, |asked|) && IsWalk(w, first, maxPages, |asked|)
    ensures bodies.Some? ==>
              && bodies.value == Bodies(w, |asked|)
              && AllAnswer(w, |asked|)
              && !IsWalk(w, first, maxPages, |asked| + 1)
    ensures bodies.None? ==>
              |asked| > 0 && w.fails(|asked| - 1) && AllAnswer(w, |asked| - 1)
  {
    var out: seq<string> := [];
    var read: set<string> := {};
    var path := first;
    asked := [];
    while path != "" && |out| < maxPages && path !in read
      invariant |out| == |asked| && out == Bodies(w, |out|) && asked == Paths(w, first, |asked|)
      invariant IsWalk(w, first, maxPages, |out|)
      invariant read == PathSet(w, first, |out|)
      invariant path == PathOf(w, first, |out|)
      invariant AllAnswer(w, |out|)
      decreases maxPages - |out|
    {
      ghost var n := |out|;
      WalkStep(w, first, maxPages, n);
      read := read + {path};
      asked := asked + [path];
      if w.fails(|out|) { return None, asked; }
      var body := w.body(|out|);
      out := out + [body];
      var next := w.link(body, Resource(first));
      path := StayOn(first, next);
    }
    WalkStep(w, first, maxPages, |out|);
    return Some(out), asked;
  }

  /** There is only one longest walk. */
  lemma LongestWalkIsUnique(w: World, first: string, maxPages: nat, m: nat, n: nat)
    requires IsWalk(w, first, maxPages, m) && !IsWalk(w, first, maxPages, m + 1)
    requires IsWalk(w, first, maxPages, n) && !IsWalk(w, first, maxPages, n + 1)
    ensures m == n
  {
    if m < n { assert IsWalk(w, first, maxPages, m + 1); }
    if n < m { assert IsWalk(w, first, maxPages, n + 1); }
  }

  // ─── What a walk stays on ─────────────────────────────────────────────────

  /** `before` is the text of the path before its first '?'. */
  predicate IsBefore(before: string, path: string) {
    && |before| <= |path| && path[..|before|] == before && '?' !in before
    && (|path| > |before| ==> path[|before|] == '?')
  }

  lemma {:induction false} ResourceIsBefore(path: string)
    ensures IsBefore(Resource(path), path)
    decreases |path|
  {
    if path != "" && path[0] != '?' {
      ResourceIsBefore(path[1..]);
      assert path == [path[0]] + path[1..];
    }
  }

  lemma BeforeIsUnique(path: string, a: string, b: string)
    requires IsBefore(a, path) && IsBefore(b, path)
    ensures a == b
  {
    forall k | 0 <= k < |a| ensures path[k] == a[k] && path[k] != '?' { assert a[k] in a; }
    forall k | 0 <= k < |b| ensures path[k] == b[k] && path[k] != '?' { assert b[k] in b; }
  }

  /** A walk goes on to a link exactly if that names what stands before the first '?' of the
      first path, is not empty, was not read yet, and pages are left. */
  lemma WalkGoesOnExactly(w: World, first: string, maxPages: nat, n: nat, resource: string, before: string)
    requires n > 0 && IsWalk(w, first, maxPages, n) && IsBefore(resource, first)
    requires IsBefore(before, w.link(w.body(n - 1), resource))
    ensures
      var next := w.link(w.body(n - 1), resource);
      IsWalk(w, first, maxPages, n + 1) <==>
        && n < maxPages && next != "" && before == resource
        && forall k | 0 <= k < n :: PathOf(w, first, k) != next
    ensures
      IsWalk(w, first, maxPages, n + 1) ==> PathOf(w, first, n) == w.link(w.body(n - 1), resource)
  {
    var next := w.link(w.body(n - 1), resource);
    ResourceIsBefore(first);
    BeforeIsUnique(first, Resource(first), resource);
    ResourceIsBefore(next);
    BeforeIsUnique(next, Resource(next), before);
    assert PathOf(w, first, n) == if before == resource then next else "";
    if IsWalk(w, first, maxPages, n + 1) {
      forall k | 0 <= k < n ensures PathOf(w, first, k) != next { }
    }
  }

  /** A walk begins at the first path, if that is not empty and a page may be read. */
  lemma WalkBegins(w: World, first: string, maxPages: nat)
    ensures IsWalk(w, first, maxPages, 0)
    ensures IsWalk(w, first, maxPages, 1) <==> maxPages > 0 && first != ""
    ensures PathOf(w, first, 0) == first
  {
    assert PathOf(w, first, 0) == first;
  }

  // ─── Signals ──────────────────────────────────────────────────────────────

  function Concat<T>(parts: seq<seq<T>>): seq<T> {
    if parts == [] then [] else Concat(parts[..|parts| - 1]) + parts[|parts| - 1]
  }

  function Pages<T>(w: World, parse: string -> seq<T>, n: nat): seq<seq<T>> {
    seq(n, k requires 0 <= k < n => parse(w.body(k)))
  }

  lemma PagesStep<T>(w: World, first: string, parse: string -> seq<T>, n: nat)
    ensures Concat(Pages(w, parse, n + 1)) == Concat(Pages(w, parse, n)) + parse(w.body(n))
    ensures Paths(w, first, n + 1) == Paths(w, first, n) + [PathOf(w, first, n)]
  {
    assert Pages(w, parse, n + 1)[..n] == Pages(w, parse, n);
  }

  datatype Signal = Signal(name: string, value: string)

  /** The first n pages list something. */
  predicate AllListSome(w: World, parse: string -> seq<Signal>, n: int) {
    forall k | 0 <= k < n :: parse(w.body(k)) != []
  }

  /** The links behind pages that list something. */
  function CutAfterEmpty(w: World, parse: string -> seq<Signal>): World {
    w.(link := (body: string, resource: string) => if parse(body) == [] then "" else w.link(body, resource))
  }

  lemma CutPath(w: World, first: string, parse: string -> seq<Signal>, k: nat)
    ensures PathOf(CutAfterEmpty(w, parse), first, k) ==
            if k > 0 && parse(w.body(k - 1)) == [] then "" else PathOf(w, first, k)
  {
  }

  /** The walk of the cut links is the same walk, cut after an empty page. */
  lemma CutWalk(w: World, first: string, parse: string -> seq<Signal>, maxPages: nat, n: nat)
    ensures IsWalk(CutAfterEmpty(w, parse), first, maxPages, n) <==>
            IsWalk(w, first, maxPages, n) && AllListSome(w, parse, n - 1)
  {
    var c := CutAfterEmpty(w, parse);
    forall k: nat | k < n { CutPath(w, first, parse, k); }
    if IsWalk(c, first, maxPages, n) {
      forall k | 0 <= k < n - 1 ensures parse(w.body(k)) != [] {
        assert PathOf(c, first, k + 1) != "";
      }
      forall k | 0 <= k < n ensures PathOf(w, first, k) == PathOf(c, first, k) {
      }
    }
  }

  /** The answer of listAllSignals: the entries of the pages along the longest walk, or up
      to the first page without entries; each page asked for once and in order, none
      behind an empty one, and nothing is returned once a page failed. */
  ghost predicate SignalsRead(w: World, first: string, parse: string -> seq<Signal>, maxPages: nat,
                              signals: Option<seq<Signal>>, asked: seq<string>)
  {
    var n := |asked|;
    && asked == Paths(w, first, n) && IsWalk(w, first, maxPages, n)
    && AllListSome(w, parse, n - 1)
    && match signals
       case Some(entries) =>
         && entries == Concat(Pages(w, parse, n))
         && AllAnswer(w, n)
         && (!IsWalk(w, first, maxPages, n + 1) || (n > 0 && parse(w.body(n - 1)) == []))
       case None =>
         n > 0 && w.fails(n - 1) && AllAnswer(w, n - 1)
  }

  /** After n pages of the cut walk. */
  ghost predicate Listed(w: World, first: string, parse: string -> seq<Signal>, maxPages: nat,
                         n: nat, out: seq<Signal>, asked: seq<string>)
  {
    && IsWalk(CutAfterEmpty(w, parse), first, maxPages, n)
    && asked == Paths(w, first, n)
    && out == Concat(Pages(w, parse, n))
    && AllAnswer(w, n)
  }

  /** One more page of the cut walk. */
  lemma SignalStep(w: World, first: string, parse: string -> seq<Signal>, maxPages: nat,
                   n: nat, out: seq<Signal>, asked: seq<string>)
    requires
      var c := CutAfterEmpty(w, parse);
      && Listed(w, first, parse, maxPages, n, out, asked)
      && PathOf(c, first, n) != "" && n < maxPages && PathOf(c, first, n) !in PathSet(c, first, n)
    ensures
      var c := CutAfterEmpty(w, parse);
      var path := PathOf(c, first, n);
      && (!w.fails(n) ==>
            Listed(w, first, parse, maxPages, n + 1, out + parse(w.body(n)), asked + [path]))
      && (w.fails(n) ==> SignalsRead(w, first, parse, maxPages, None, asked + [path]))
      && PathSet(c, first, n + 1) == PathSet(c, first, n) + {path}
      && PathOf(c, first, n + 1) ==
         StayOn(first, if |parse(w.body(n))| > 0 then w.link(w.body(n), Resource(first)) else "")
  {
    WalkStep(CutAfterEmpty(w, parse), first, maxPages, n);
    CutWalk(w, first, parse, maxPages, n + 1);
    PagesStep(w, first, parse, n);
    CutPath(w, first, parse, n);
    CutPath(w, first, parse, n + 1);
  }

  /** The cut walk ends where the walk does, or behind an empty page. */
  lemma SignalEnd(w: World, first: string, parse: string -> seq<Signal>, maxPages: nat,
                  n: nat, out: seq<Signal>, asked: seq<string>)
    requires
      var c := CutAfterEmpty(w, parse);
      && Listed(w, first, parse, maxPages, n, out, asked)
      && !(PathOf(c, first, n) != "" && n < maxPages && PathOf(c, first, n) !in PathSet(c, first, n))
    ensures SignalsRead(w, first, parse, maxPages, Some(out), asked)
  {
    WalkStep(CutAfterEmpty(w, parse), first, maxPages, n);
    CutWalk(w, first, parse, maxPages, n);
    CutWalk(w, first, parse, maxPages, n + 1);
  }

  /** listAllSignals: the entries of the pages along the same walk, cut after an
      empty page. */
  method ListAllSignals(first: string, w: World, parse: string -> seq<Signal>, maxPages: nat)
    returns (signals: Option<seq<Signal>>, asked: seq<string>)
    ensures SignalsRead(w, first, parse, maxPages, signals, asked)
  {
    ghost var c := CutAfterEmpty(w, parse);
    assert Listed(w, first, parse, maxPages, 0, [], []);
    var out: seq<Signal> := [];
    var read: set<string> := {};
    var path := first;
    var n: nat := 0;
    asked := [];
    while path != "" && n < maxPages && path !in read
      invariant |asked| == n && Listed(w, first, parse, maxPages, n, out, asked)
      invariant read == PathSet(c, first, n) && path == PathOf(c, first, n)
      decreases maxPages - n
    {
      SignalStep(w, first, parse, maxPages, n, out, asked);
      read := read + {path};
      asked := asked + [path];
      if w.fails(n) { return None, asked; }
      var body := w.body(n);
      var page := parse(body);
      out := out + page;
      var next := if |page| > 0 then w.link(body, Resource(first)) else "";
      path := StayOn(first, next);
      n := n + 1;
    }
    SignalEnd(w, first, parse, maxPages, n, out, asked);
    return Some(out), asked;
  }

  // ─── The event log ────────────────────────────────────────────────────────

  datatype Message = Message(seqnum: nat, text: string)

  /** Each sequence number where it first stands. */
  function KeepFirst(messages: seq<Message>): seq<Message> {
    if messages == [] then []
    else
      var front := KeepFirst(messages[..|messages| - 1]);
      var last := messages[|messages| - 1];
      if last.seqnum in Numbers(messages[..|messages| - 1]) then front else front + [last]
  }

  function Numbers(messages: seq<Message>): set<nat> {
    set m | m in messages :: m.seqnum
  }

  predicate First(messages: seq<Message>, i: nat)
    requires i < |messages|
  {
    forall j | 0 <= j < i :: messages[j].seqnum != messages[i].seqnum
  }

  /** `KeepFirst` is the subsequence at the indices in `at`: exactly the first
      occurrences, in order. */
  lemma {:induction false} KeepFirstIsFirsts(messages: seq<Message>) returns (at: seq<nat>)
    ensures |at| == |KeepFirst(messages)|
    ensures forall k | 0 <= k < |at| ::
              at[k] < |messages| && First(messages, at[k]) && KeepFirst(messages)[k] == messages[at[k]]
    ensures forall j, k | 0 <= j < k < |at| :: at[j] < at[k]
    ensures forall i | 0 <= i < |messages| && First(messages, i) :: i in at
  {
    if messages == [] {
      at := [];
    } else {
      var n := |messages| - 1;
      var front := messages[..n];
      at := KeepFirstIsFirsts(front);
      forall i: nat | i < n ensures First(front, i) == First(messages, i) {
        assert forall j | 0 <= j <= i :: front[j] == messages[j];
      }
      if messages[n].seqnum !in Numbers(front) {
        forall j | 0 <= j < n ensures messages[j].seqnum != messages[n].seqnum {
          assert front[j] in front;
        }
        at := at + [n];
      } else {
        var m :| m in front && m.seqnum == messages[n].seqnum;
        var j :| 0 <= j < n && front[j] == m;
        assert messages[j].seqnum == messages[n].seqnum;
        assert !First(messages, n);
      }
    }
  }

  /** The filter over `seen`. */
  method DropRepeats(messages: seq<Message>) returns (kept: seq<Message>)
    ensures kept == KeepFirst(messages)
  {
    kept := [];
    var seen: set<nat> := {};
    for i := 0 to |messages|
      invariant kept == KeepFirst(messages[..i]) && seen == Numbers(messages[..i])
    {
      var m := messages[i];
      assert messages[..i + 1][..i] == messages[..i];
      assert messages[..i + 1] == messages[..i] + [m];
      if m.seqnum !in seen { kept := kept + [m]; }
      seen := seen + {m.seqnum};
    }
    assert messages[..|messages|] == messages;
  }

  /** A later page that fails reads as the empty body. */
  function Tolerant(w: World): World {
    w.(fails := (k: nat) => k == 0 && w.fails(0),
       body := (k: nat) => if k > 0 && w.fails(k) then "" else w.body(k))
  }

  /** An empty body links nothing and lists nothing. */
  ghost predicate EmptyBodyIsEmpty(w: World, parse: string -> seq<Message>) {
    parse("") == [] && forall resource :: w.link("", resource) == ""
  }

  /** Pages before a failure are the same walk, tolerant or not. */
  lemma TolerantWalk(w: World, first: string, maxPages: nat, n: nat)
    requires forall k | 0 < k < n - 1 :: !w.fails(k)
    ensures forall k | 0 <= k < n :: PathOf(Tolerant(w), first, k) == PathOf(w, first, k)
    ensures IsWalk(Tolerant(w), first, maxPages, n) <==> IsWalk(w, first, maxPages, n)
  {
    forall k | 0 <= k < n ensures PathOf(Tolerant(w), first, k) == PathOf(w, first, k) {
      if k > 0 { assert Tolerant(w).body(k - 1) == w.body(k - 1); }
    }
  }

  /** The first failing page before `n`, or `n`. */
  function FirstFailure(w: World, n: nat): (k: nat)
    ensures k <= n && (k < n ==> w.fails(k)) && forall j | 0 <= j < k :: !w.fails(j)
  {
    if n == 0 then 0
    else
      var k := FirstFailure(w, n - 1);
      if k < n - 1 || w.fails(n - 1) then k else n
  }

  /** With a later page failing, the tolerant walk ends just behind it, and it adds
      nothing. */
  lemma TolerantEnd(w: World, first: string, maxPages: nat, parse: string -> seq<Message>, total: nat)
    requires EmptyBodyIsEmpty(w, parse) && IsWalk(Tolerant(w), first, maxPages, total)
    requires FirstFailure(w, total) < total && FirstFailure(w, total) > 0
    ensures
      var n := FirstFailure(w, total);
      total == n + 1
      && Concat(Pages(Tolerant(w), parse, total)) == Concat(Pages(w, parse, n))
  {
    var t := Tolerant(w);
    var n := FirstFailure(w, total);
    assert t.body(n) == "";
    assert Follow(t, first, n) == "";
    assert PathOf(t, first, n + 1) == "";
    var pages := Pages(t, parse, n + 1);
    assert pages[..n] == Pages(w, parse, n) by {
      assert forall k | 0 <= k < n :: t.body(k) == w.body(k);
    }
    assert pages[n] == [];
  }

  method ParseAll(bodies: seq<string>, parse: string -> seq<Message>) returns (messages: seq<Message>)
    ensures messages == Concat(seq(|bodies|, k requires 0 <= k < |bodies| => parse(bodies[k])))
  {
    messages := [];
    ghost var pages := seq(|bodies|, k requires 0 <= k < |bodies| => parse(bodies[k]));
    for i := 0 to |bodies|
      invariant messages == Concat(pages[..i])
    {
      messages := messages + parse(bodies[i]);
      assert pages[..i + 1][..i] == pages[..i];
    }
    assert pages[..|bodies|] == pages;
  }

  /** What getEventLog returns when it reads `total` pages of which the first n did not
      fail: the messages of those n, on the longest walk or up to a failing page. */
  ghost predicate LogOf(w: World, first: string, parse: string -> seq<Message>, maxPages: nat,
                        log: seq<Message>, total: nat, n: nat)
  {
    && n <= total <= n + 1
    && log == KeepFirst(Concat(Pages(w, parse, n)))
    && AllAnswer(w, n)
    && if total == n then !IsWalk(w, first, maxPages, n + 1) else n > 0 && w.fails(n)
  }

  /** What readPages gives over the tolerant world, in terms of the controller's own. */
  lemma LogOfTolerant(w: World, first: string, parse: string -> seq<Message>, maxPages: nat, total: nat)
    returns (n: nat)
    requires EmptyBodyIsEmpty(w, parse) && !(total > 0 && w.fails(0))
    requires IsWalk(Tolerant(w), first, maxPages, total) && !IsWalk(Tolerant(w), first, maxPages, total + 1)
    ensures LogOf(w, first, parse, maxPages, KeepFirst(Concat(Pages(Tolerant(w), parse, total))), total, n)
  {
    n := FirstFailure(w, total);
    if n < total {
      TolerantEnd(w, first, maxPages, parse, total);
    } else {
      TolerantWalk(w, first, maxPages, n + 1);
      forall k: nat | k < n ensures Tolerant(w).body(k) == w.body(k) {
      }
      assert Pages(Tolerant(w), parse, n) == Pages(w, parse, n);
    }
  }

  /** All pages asked for but the last did not fail, so they are the controller's walk. */
  lemma TolerantAsked(w: World, first: string, parse: string -> seq<Message>, maxPages: nat, total: nat)
    requires EmptyBodyIsEmpty(w, parse) && IsWalk(Tolerant(w), first, maxPages, total)
    requires total <= 1 || !w.fails(0)
    ensures IsWalk(w, first, maxPages, total) && Paths(Tolerant(w), first, total) == Paths(w, first, total)
  {
    var n := FirstFailure(w, total);
    if 0 < n < total { TolerantEnd(w, first, maxPages, parse, total); }
    TolerantWalk(w, first, maxPages, total);
  }

  /** getEventLog: each message once, where it first stands, over the longest walk, or
      over the pages before the first later page that fails; a failing first page
      fails the read. */
  method GetEventLog(first: string, w: World, parse: string -> seq<Message>, maxPages: nat)
    returns (log: Option<seq<Message>>, asked: seq<string>)
    requires EmptyBodyIsEmpty(w, parse)
    ensures IsWalk(w, first, maxPages, |asked|) && asked == Paths(w, first, |asked|)
    ensures log.None? <==> |asked| > 0 && w.fails(0)
    ensures log.Some? ==> exists n :: LogOf(w, first, parse, maxPages, log.value, |asked|, n)
  {
    var tolerant := Tolerant(w);
    var bodies;
    bodies, asked := ReadPages(first, tolerant, maxPages);
    ghost var total := |asked|;
    assert total > 0 && bodies.Some? ==> !tolerant.fails(0);
    TolerantAsked(w, first, parse, maxPages, total);
    if bodies.None? { return None, asked; }
    ghost var n := LogOfTolerant(w, first, parse, maxPages, total);
    var messages := ParseAll(bodies.value, parse);
    assert seq(total, k requires 0 <= k < total => parse(bodies.value[k])) == Pages(tolerant, parse, total);
    var kept := DropRepeats(messages);
    return Some(kept), asked;
  }
}
