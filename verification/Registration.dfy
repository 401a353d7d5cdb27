/** One registration as the source runs it: at most two creates, with the group of the
    first deleted before the second (WsSubscriber.register and createGroup). */
module Registration {
  import opened Maybe
  import opened SubscriptionBody
  import opened Groups

  /** The controller's answer to a POST /subscription. A 201 makes a group whatever
      its Location header looks like. */
  datatype Reply =
    | NotCreated
    | NoLocation(made: string)
    | BadLocation(made: string)
    | Made(id: string, refused: seq<string>)

  datatype Script = Script(post: nat -> Reply, deleteWorks: nat -> bool)

  datatype Kept = Kept(id: string, body: string, unbound: seq<string>)

  function NonPanel(refused: seq<string>): seq<string>
    decreases |refused|
  {
    if refused == [] then []
    else
      var front := NonPanel(refused[..|refused| - 1]);
      var uri := refused[|refused| - 1];
      if OtherSpelling(uri) == None then front + [uri] else front
  }

  lemma {:induction false} NoPanelMeansNoSwap(refused: seq<string>)
    ensures SwapsOf(refused) == [] <==> !HasPanel(refused)
    ensures !HasPanel(refused) ==> NonPanel(refused) == refused
    decreases |refused|
  {
    if refused != [] {
      var front := refused[..|refused| - 1];
      NoPanelMeansNoSwap(front);
      assert HasPanel(refused) <==> HasPanel(front) || OtherSpelling(refused[|refused| - 1]).Some?;
      assert refused == front + [refused[|refused| - 1]];
    }
  }

  class Controller {
    const script: Script
    var posts: nat
    var deletes: nat
    /** This client's groups on the controller, and the bodies they were made from. */
    var groups: set<string>
    var bodies: map<string, string>

    constructor (script: Script)
    {
      this.script, posts, deletes, groups, bodies := script, 0, 0, {}, map[];
    }

    method Post(body: string) returns (r: Reply)
      modifies this
      ensures r == script.post(old(posts)) && posts == old(posts) + 1 && deletes == old(deletes)
      ensures r == NotCreated ==> groups == old(groups) && bodies == old(bodies)
      ensures r.Made? ==> groups == old(groups) + {r.id} && bodies == old(bodies)[r.id := body]
      ensures r.NoLocation? || r.BadLocation? ==> groups == old(groups) + {r.made}
    {
      r := script.post(posts);
      posts := posts + 1;
      match r {
        case NotCreated =>
        case NoLocation(m) => groups, bodies := groups + {m}, bodies[m := body];
        case BadLocation(m) => groups, bodies := groups + {m}, bodies[m := body];
        case Made(id, _) => groups, bodies := groups + {id}, bodies[id := body];
      }
    }

    method Delete(id: string)
      modifies this
      ensures posts == old(posts) && deletes == old(deletes) + 1
      ensures groups == (if script.deleteWorks(old(deletes)) then old(groups) - {id} else old(groups))
      ensures bodies == old(bodies)
    {
      if script.deleteWorks(deletes) { groups := groups - {id}; }
      deletes := deletes + 1;
    }
  }

  /** Every answer from the `n`-th on is no group, or one with a usable Location and
      an id not held before; and deletes take effect. */
  ghost predicate Sound(s: Script, held: set<string>) {
    && (forall n: nat :: s.deleteWorks(n))
    && (forall n: nat :: s.post(n) == NotCreated || (s.post(n).Made? && s.post(n).id !in held))
  }

  /** register: the kept group, or None for a throw. */
  method Register(c: Controller, body: string) returns (r: Option<Kept>)
    modifies c
    ensures old(c.posts) < c.posts <= old(c.posts) + 2 && c.deletes <= old(c.deletes) + 2
    ensures
      Sound(c.script, old(c.groups)) ==>
        if r.Some? then
          && c.groups == old(c.groups) + {r.value.id} && r.value.id !in old(c.groups)
          && r.value.id in c.bodies && c.bodies[r.value.id] == r.value.body
          && c.script.post(c.posts - 1) == Made(r.value.id, r.value.unbound)
          && !HasPanel(r.value.unbound)
        else c.groups == old(c.groups)
    ensures
      var first := c.script.post(old(c.posts));
      && (r.Some? && c.posts == old(c.posts) + 1 ==> r.value.body == body)
      && (r.Some? && c.posts == old(c.posts) + 2 ==>
            first.Made? && r.value.body == SwapAll(body, SwapsOf(first.refused)))
      && (first.NoLocation? ==> r == None && c.groups == old(c.groups) + {first.made})
    // When it succeeds, and what is sent.
    ensures
      var first := c.script.post(old(c.posts));
      if !first.Made? then r == None && c.posts == old(c.posts) + 1 && c.deletes == old(c.deletes)
      else if !HasPanel(first.refused) then
        && r == Some(Kept(first.id, body, first.refused))
        && c.posts == old(c.posts) + 1 && c.deletes == old(c.deletes)
      else
        var second := c.script.post(old(c.posts) + 1);
        var kept := second.Made? && !HasPanel(second.refused);
        && r == (if kept then Some(Kept(second.id, SwapAll(body, SwapsOf(first.refused)), second.refused)) else None)
        && c.posts == old(c.posts) + 2
        && c.deletes == old(c.deletes) + if second.Made? && HasPanel(second.refused) then 2 else 1
  {
    var first := c.Post(body);
    if first.NotCreated? || first.NoLocation? { return None; }
    if first.BadLocation? { return None; }
    if first.refused == [] {
      assert !HasPanel(first.refused);
      return Some(Kept(first.id, body, []));
    }
    var swaps: seq<Swap>, others: seq<string> := [], [];
    for i := 0 to |first.refused|
      invariant swaps == SwapsOf(first.refused[..i]) && others == NonPanel(first.refused[..i])
    {
      var uri := first.refused[i];
      assert first.refused[..i + 1][..i] == first.refused[..i];
      var other := OtherSpelling(uri);
      if other.Some? { swaps := swaps + [(uri, other.value)]; } else { others := others + [uri]; }
    }
    assert first.refused[..|first.refused|] == first.refused;
    NoPanelMeansNoSwap(first.refused);
    if swaps == [] { return Some(Kept(first.id, body, others)); }
    c.Delete(first.id);
    var retryBody := SwapResources(body, swaps);
    var second := c.Post(retryBody);
    if second.NotCreated? || second.NoLocation? { return None; }
    if second.BadLocation? { return None; }
    NoPanelMeansNoSwap(second.refused);
    if SwapsOf(second.refused) != [] {
      c.Delete(second.id);
      return None;
    }
    return Some(Kept(second.id, retryBody, NonPanel(second.refused)));
  }
}
