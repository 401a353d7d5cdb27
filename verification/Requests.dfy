/** Which requests cut a subscription group create short, which one is cut, and
    which may be sent again on a fresh connection (src/HttpSession.ts). */
module Requests {

  datatype Verb = GET | POST | PUT | DELETE

  /** A body is a form text, raw bytes (never matched as text), or absent. */
  datatype Body = NoBody | Form(text: string) | Raw

  datatype Request = Request(verb: Verb, path: string, body: Body, holdMs: int)

  /** What a reducing request cuts. */
  datatype Cuts = CutsNothing | CutsQueued | CutsSent

  predicate Prefix(p: string, s: string) {
    |p| <= |s| && s[..|p|] == p
  }

  /** `s` is `p`, or `p` followed by one of `stops`. */
  predicate PrefixThen(p: string, stops: set<char>, s: string) {
    Prefix(p, s) && (|s| == |p| || s[|p|] in stops)
  }

  /** `field` stands in `s` as a whole field of a form: between '&'s or the ends. */
  predicate HasField(field: string, s: string) {
    exists i | 0 <= i <= |s| ::
      (i == 0 || s[i - 1] == '&') && PrefixThen(field, {'&'}, s[i..])
  }

  /** A non-empty path segment, then `tail`, then '&' or the end. */
  predicate SegmentThen(tail: string, s: string) {
    exists i | 0 < i <= |s| ::
      (forall k | 0 <= k < i :: s[k] != '/' && s[k] != '?') && PrefixThen(tail, {'&'}, s[i..])
  }

  predicate IsGroupCreate(r: Request) {
    r.verb == POST && r.path == "/subscription"
  }

  predicate IsStop(r: Request) {
    r.verb == POST && PrefixThen("/rw/rapid/execution?action=stop", {'&'}, r.path)
  }

  predicate IsMotorsOff(r: Request) {
    && r.verb == POST
    && PrefixThen("/rw/panel/ctrlstate?action=setctrlstate", {'&'}, r.path)
    && HasField("ctrl-state=motoroff", if r.body.Form? then r.body.text else "")
  }

  predicate IsGroupDelete(r: Request) {
    && r.verb == DELETE
    && Prefix("/subscription/", r.path) && |r.path| > |"/subscription/"|
    && forall k | |"/subscription/"| <= k < |r.path| :: r.path[k] != '/' && r.path[k] != '?'
  }

  predicate IsLogout(r: Request) {
    r.verb == GET && PrefixThen("/logout", {'?', '#'}, r.path)
  }

  predicate IsRelease(r: Request) {
    && r.verb == POST
    && (|| PrefixThen("/rw/mastership?action=release", {'&'}, r.path)
        || (Prefix("/rw/mastership/", r.path)
            && SegmentThen("?action=release", r.path[|"/rw/mastership/"|..])))
  }

  predicate IsRmmpCancel(r: Request) {
    r.verb == POST && PrefixThen("/users/rmmp?action=cancel", {'&'}, r.path)
  }

  function CutsOf(r: Request): Cuts {
    if IsStop(r) || IsMotorsOff(r) || IsGroupDelete(r) || IsLogout(r) then CutsSent
    else if IsRelease(r) || IsRmmpCancel(r) then CutsQueued
    else CutsNothing
  }

  function Lower(c: char): char {
    if 'A' <= c <= 'Z' then ((c as int) + 32) as char else c
  }

  function LowerAll(s: string): string {
    seq(|s|, i requires 0 <= i < |s| => Lower(s[i]))
  }

  /** A DIPC read takes its message off the queue; /logout ends the session. */
  predicate NotRepeatable(path: string) {
    var p := LowerAll(path);
    || PrefixThen("/logout", {'?', '#'}, p)
    || exists i | 0 <= i < |p| ::
         (p[i] == '?' || p[i] == '&') && PrefixThen("action=dipc-read", {'&'}, p[i + 1..])
  }

  predicate MayResend(r: Request) {
    r.verb == GET && r.holdMs <= 0 && !NotRepeatable(r.path)
  }

  const LogoutRequest := Request(GET, "/logout", NoBody, 0)

  /** The create a reducing request cuts is never itself reducing, so queueing it
      never cuts an earlier create; and no reducing request is sent twice by
      the dead-socket resend. */
  lemma ReducingRequests(r: Request)
    ensures IsGroupCreate(r) ==> CutsOf(r) == CutsNothing
    ensures CutsOf(r) != CutsNothing ==> !MayResend(r)
    ensures IsGroupCreate(r) ==> !MayResend(r)
    ensures IsLogout(r) ==> CutsOf(r) == CutsSent
    ensures IsLogout(LogoutRequest)
  {
    if IsGroupCreate(r) {
      assert |r.path| == 13;
    }
    if IsLogout(r) {
      var p := LowerAll(r.path);
      assert forall k | 0 <= k < 7 :: r.path[k] == r.path[..7][k] == "/logout"[k] && p[k] == r.path[k];
      assert p[..7] == "/logout";
      assert |p| > 7 ==> p[7] == r.path[7];
    }
  }

  /** Deleting a group cuts creates already sent, whichever group it is. */
  lemma GroupDeletesCut(id: string)
    requires id != "" && '/' !in id && '?' !in id
    ensures CutsOf(Request(DELETE, "/subscription/" + id, NoBody, 0)) == CutsSent
  {
    var path := "/subscription/" + id;
    assert path[..|"/subscription/"|] == "/subscription/";
    assert forall k | |"/subscription/"| <= k < |path| :: path[k] == id[k - |"/subscription/"|] && path[k] in id;
  }
}
