/** The controllers a discovery reports from the records it has gathered
    (buildControllers). How parseInt reads a string is a parameter. */
module DnsControllers {
  import opened Maybe
  import opened DnsNames
  import opened DnsRecords

  datatype Protocol = Rws1 | Rws2 | Unknown
  datatype Place = Resolved(address: Address) | Responder(srcAddr: string)

  datatype Controller = Controller(
    instanceName: string,
    systemName: string,
    host: Place,
    port: nat,
    rwVersion: Option<string>,
    sysGuid: Option<string>,
    robApiPort: Option<nat>,
    probableProtocol: Protocol)

  /** An entry that is there and not empty. */
  function Entry(txt: map<string, string>, key: string): Option<string> {
    if key in txt && txt[key] != "" then Some(txt[key]) else None
  }

  function PositiveInt(parseInt: string -> Option<int>, value: Option<string>): (n: Option<nat>)
    ensures n.Some? ==> n.value > 0
  {
    if value.Some? && parseInt(value.value).Some? && parseInt(value.value).value > 0
    then Some(parseInt(value.value).value)
    else None
  }

  function TxtAtKey(s: Records, key: string): map<string, string> {
    if key in s.txt then s.txt[key] else map[]
  }

  /** The port to connect to, if one was announced: RwsPort before the SRV port. */
  function PortOf(parseInt: string -> Option<int>, s: Records, key: string): (port: Option<nat>)
    ensures port.Some? ==> port.value > 0
  {
    var announced := PositiveInt(parseInt, Entry(TxtAtKey(s, key), "rwsport"));
    if announced.Some? then announced
    else if key in s.srv && s.srv[key].port > 0 then Some(s.srv[key].port)
    else None
  }

  function PlaceOf(c: Codec, s: Records, key: string): Place
    requires key in s.instances
  {
    if key in s.srv && c.lower(s.srv[key].target) in s.a
    then Resolved(s.a[c.lower(s.srv[key].target)])
    else Responder(s.instances[key].srcAddr)
  }

  function ProtocolOf(txt: map<string, string>): Protocol {
    if txt == map[] then Rws1
    else if Entry(txt, "rwsport").Some? || Entry(txt, "rwver").Some? then Rws2
    else Unknown
  }

  function ControllerAt(c: Codec, parseInt: string -> Option<int>, s: Records, key: string, port: nat): Controller
    requires key in s.instances
  {
    var name := s.instances[key].instanceLabel;
    var txt := TxtAtKey(s, key);
    Controller(name, if |name| < |InstancePrefix| then "" else name[|InstancePrefix|..],
               PlaceOf(c, s, key), port, Entry(txt, "rwver"), Entry(txt, "sysguid"),
               PositiveInt(parseInt, Entry(txt, "robapip")), ProtocolOf(txt))
  }

  /** The store's instance keys in the order they were first heard. */
  ghost predicate IsOrder(s: Records, keys: seq<string>) {
    && (forall key :: key in keys <==> key in s.instances)
    && (forall i, j | 0 <= i < j < |keys| :: keys[i] != keys[j])
  }

  /** The first instance of its name that has a port. */
  ghost predicate Leads(parseInt: string -> Option<int>, s: Records, keys: seq<string>, i: nat)
    requires i < |keys| && forall key | key in keys :: key in s.instances
  {
    && PortOf(parseInt, s, keys[i]).Some?
    && forall j | 0 <= j < i ::
         PortOf(parseInt, s, keys[j]).Some? ==> s.instances[keys[j]].instanceLabel != s.instances[keys[i]].instanceLabel
  }

  /** The controllers stand for the keys at the indices in `at`: those that lead, among
      the first n. */
  ghost predicate Reports(c: Codec, parseInt: string -> Option<int>, s: Records, keys: seq<string>, n: nat,
                          controllers: seq<Controller>, at: seq<nat>)
    requires n <= |keys| && forall key | key in keys :: key in s.instances
  {
    && |at| == |controllers|
    && (forall k | 0 <= k < |at| ::
          && at[k] < n && Leads(parseInt, s, keys, at[k])
          && controllers[k] == ControllerAt(c, parseInt, s, keys[at[k]], PortOf(parseInt, s, keys[at[k]]).value))
    && (forall j, k | 0 <= j < k < |at| :: at[j] < at[k])
    && (forall i | 0 <= i < n && Leads(parseInt, s, keys, i) :: i in at)
  }

  /** The names reported so far. */
  function NamesOf(controllers: seq<Controller>): set<string> {
    if controllers == [] then {}
    else NamesOf(controllers[..|controllers| - 1]) + {controllers[|controllers| - 1].instanceName}
  }

  lemma {:induction false} NamesOfMembers(controllers: seq<Controller>, name: string)
    ensures name in NamesOf(controllers) <==>
            exists k :: 0 <= k < |controllers| && controllers[k].instanceName == name
  {
    if controllers != [] {
      var n := |controllers| - 1;
      NamesOfMembers(controllers[..n], name);
      if k :| 0 <= k < |controllers| && controllers[k].instanceName == name && k < n {
        assert controllers[..n][k].instanceName == name;
      }
    }
  }

  /** A name is known already exactly when some earlier key with a port has it. */
  lemma KnownIsLed(c: Codec, parseInt: string -> Option<int>, s: Records, keys: seq<string>, n: nat,
                   controllers: seq<Controller>, at: seq<nat>)
    requires n < |keys| && (forall key | key in keys :: key in s.instances)
    requires PortOf(parseInt, s, keys[n]).Some?
    requires Reports(c, parseInt, s, keys, n, controllers, at)
    ensures Leads(parseInt, s, keys, n) <==> s.instances[keys[n]].instanceLabel !in NamesOf(controllers)
  {
    var name := s.instances[keys[n]].instanceLabel;
    NamesOfMembers(controllers, name);
    if !Leads(parseInt, s, keys, n) {
      var j := FirstNamed(parseInt, s, keys, n, name);
      var k :| 0 <= k < |at| && at[k] == j;
      assert controllers[k].instanceName == name;
    }
    if k :| 0 <= k < |controllers| && controllers[k].instanceName == name {
      assert PortOf(parseInt, s, keys[at[k]]).Some?;
    }
  }

  lemma {:induction false} FirstNamed(parseInt: string -> Option<int>, s: Records, keys: seq<string>, n: nat, name: string)
    returns (j: nat)
    requires n <= |keys| && (forall key | key in keys :: key in s.instances)
    requires exists j :: 0 <= j < n && PortOf(parseInt, s, keys[j]).Some? && s.instances[keys[j]].instanceLabel == name
    ensures j < n && Leads(parseInt, s, keys, j) && s.instances[keys[j]].instanceLabel == name
  {
    j :| 0 <= j < n && PortOf(parseInt, s, keys[j]).Some? && s.instances[keys[j]].instanceLabel == name;
    if !Leads(parseInt, s, keys, j) { j := FirstNamed(parseInt, s, keys, j, name); }
  }

  lemma ReportOne(c: Codec, parseInt: string -> Option<int>, s: Records, keys: seq<string>, n: nat,
                  controllers: seq<Controller>, at: seq<nat>)
    requires n < |keys| && (forall key | key in keys :: key in s.instances)
    requires Reports(c, parseInt, s, keys, n, controllers, at)
    ensures !Leads(parseInt, s, keys, n) ==> Reports(c, parseInt, s, keys, n + 1, controllers, at)
    ensures Leads(parseInt, s, keys, n) ==>
              var controller := ControllerAt(c, parseInt, s, keys[n], PortOf(parseInt, s, keys[n]).value);
              Reports(c, parseInt, s, keys, n + 1, controllers + [controller], at + [n])
  {
    if Leads(parseInt, s, keys, n) {
      var more := at + [n];
      forall i | 0 <= i < n + 1 && Leads(parseInt, s, keys, i) ensures i in more {
        assert more[|at|] == n;
      }
    }
  }

  /** One round of the loop. */
  lemma BuildRound(c: Codec, parseInt: string -> Option<int>, s: Records, keys: seq<string>, n: nat,
                   controllers: seq<Controller>, at: seq<nat>)
    requires n < |keys| && (forall key | key in keys :: key in s.instances)
    requires Reports(c, parseInt, s, keys, n, controllers, at)
    ensures
      var port := PortOf(parseInt, s, keys[n]);
      if port.None? || s.instances[keys[n]].instanceLabel in NamesOf(controllers) then
        Reports(c, parseInt, s, keys, n + 1, controllers, at)
      else
        var more := controllers + [ControllerAt(c, parseInt, s, keys[n], port.value)];
        && Reports(c, parseInt, s, keys, n + 1, more, at + [n])
        && NamesOf(more) == NamesOf(controllers) + {s.instances[keys[n]].instanceLabel}
  {
    ReportOne(c, parseInt, s, keys, n, controllers, at);
    if PortOf(parseInt, s, keys[n]).Some? { KnownIsLed(c, parseInt, s, keys, n, controllers, at); }
  }

  /** buildControllers: one controller for each instance name that has a port, taken from
      the first such instance heard, in that order. */
  method BuildControllers(c: Codec, parseInt: string -> Option<int>, s: Records, keys: seq<string>)
    returns (controllers: seq<Controller>)
    requires IsOrder(s, keys)
    ensures exists at :: Reports(c, parseInt, s, keys, |keys|, controllers, at)
  {
    controllers := [];
    var byInstance: set<string> := {};
    ghost var at: seq<nat> := [];
    for i := 0 to |keys|
      invariant Reports(c, parseInt, s, keys, i, controllers, at)
      invariant byInstance == NamesOf(controllers)
    {
      var key := keys[i];
      var port := PortOf(parseInt, s, key);
      BuildRound(c, parseInt, s, keys, i, controllers, at);
      if port.None? { continue; }
      var controller := ControllerAt(c, parseInt, s, key, port.value);
      if controller.instanceName !in byInstance {
        byInstance := byInstance + {controller.instanceName};
        controllers := controllers + [controller];
        at := at + [i];
      }
    }
  }

  lemma NameHasPrefix(c: Codec, parseInt: string -> Option<int>, s: Records, key: string, port: nat)
    requires key in s.instances && Sound(c, s)
    ensures
      var controller := ControllerAt(c, parseInt, s, key, port);
      controller.instanceName == InstancePrefix + controller.systemName
  {
    assert Named(c, key, s.instances[key]);
  }

  /** Of a sound store, no two controllers share a name, and each name is the prefix and
      the system's name. */
  lemma NamesAreSystems(c: Codec, parseInt: string -> Option<int>, s: Records, keys: seq<string>,
                        controllers: seq<Controller>, at: seq<nat>)
    requires IsOrder(s, keys) && Sound(c, s) && Reports(c, parseInt, s, keys, |keys|, controllers, at)
    ensures forall j, k | 0 <= j < k < |controllers| :: controllers[j].instanceName != controllers[k].instanceName
    ensures forall k | 0 <= k < |controllers| ::
              controllers[k].instanceName == InstancePrefix + controllers[k].systemName && controllers[k].port > 0
  {
    forall k | 0 <= k < |controllers|
      ensures controllers[k].instanceName == InstancePrefix + controllers[k].systemName && controllers[k].port > 0
    {
      NameHasPrefix(c, parseInt, s, keys[at[k]], controllers[k].port);
    }
    forall j, k | 0 <= j < k < |controllers| ensures controllers[j].instanceName != controllers[k].instanceName {
      assert Leads(parseInt, s, keys, at[k]) && Leads(parseInt, s, keys, at[j]) && at[j] < at[k];
    }
  }

  /** Every instance with a port is among the controllers, by name. */
  lemma EveryPortIsReported(c: Codec, parseInt: string -> Option<int>, s: Records, keys: seq<string>,
                            controllers: seq<Controller>, at: seq<nat>, key: string)
    requires IsOrder(s, keys) && Reports(c, parseInt, s, keys, |keys|, controllers, at)
    requires key in s.instances && PortOf(parseInt, s, key).Some?
    ensures exists k :: 0 <= k < |controllers| && controllers[k].instanceName == s.instances[key].instanceLabel
  {
    var i :| 0 <= i < |keys| && keys[i] == key;
    var j := FirstNamed(parseInt, s, keys, |keys|, s.instances[key].instanceLabel);
    var k :| 0 <= k < |at| && at[k] == j;
    assert controllers[k].instanceName == s.instances[key].instanceLabel;
  }
}
