/** What goes on the wire and what comes of it, byte by byte: the query, the record types,
    TXT entries, and the controller that a reply announces (src/MdnsDiscovery.ts). */
module DnsDiscovery {
  import opened Maybe
  import opened DnsNames
  import opened DnsRecords
  import opened DnsPackets
  import opened DnsEncoding
  import opened DnsControllers

  // ─── Bytes ────────────────────────────────────────────────────────────────

  /** A query asks one question: the id, no flags, a count of one, then the name, type PTR
      and class IN. */
  lemma QueryBytes(c: Codec, name: string, id: int)
    requires 0 <= id < 65536
    ensures
      var query := Query(c, name, id);
      && |query| >= 16
      && query[..12] == [id / 256, id % 256, 0, 0, 0, 1, 0, 0, 0, 0, 0, 0]
      && query[|query| - 4..] == [0, 12, 0, 1]
  {
    var header := Word(id) + Word(0) + Word(1) + Word(0) + Word(0) + Word(0);
    var bytes := EncodeName(Encoded(c, Labels(name)));
    assert header == [id / 256, id % 256, 0, 0, 0, 1, 0, 0, 0, 0, 0, 0];
    assert Word(12) + Word(1) == [0, 12, 0, 1];
    assert Query(c, name, id) == header + bytes + (Word(12) + Word(1));
  }

  /** The numbers of the record types (section 3.2.2 of RFC 1035, RFC 2782). */
  lemma TypeBytes(r: Record)
    requires RecordEncodable(r)
    ensures |RecordHead(r)| == 10
    ensures
      var number := RecordHead(r)[..2];
      && (r.data.Host? <==> number == [0, 1])
      && (r.data.Ptr? <==> number == [0, 12])
      && (r.data.Txt? <==> number == [0, 16])
      && (r.data.Srv? <==> number == [0, 33])
  {
    assert RecordHead(r)[..2] == Word(TypeOf(r.data));
  }

  // ─── TXT entries ──────────────────────────────────────────────────────────

  /** `key=value`: the text before the first '=' in lower case, and the text behind it, which
      may hold more of them. Without one the whole text is the key of an empty value. */
  lemma TxtEntry(c: Codec, key: string, value: string)
    requires '=' !in key
    ensures TxtKey(c, key + "=" + value) == c.lower(key) && TxtValue(key + "=" + value) == value
    ensures TxtKey(c, key) == c.lower(key) && TxtValue(key) == ""
  {
    var s := key + "=" + value;
    IndexIsUnique(s, '=', |key|);
    assert s[|key|] == '=' && s[..|key|] == key && s[|key| + 1..] == value;
  }

  lemma IndexIsUnique(s: string, ch: char, i: nat)
    requires i < |s| && s[i] == ch && ch !in s[..i]
    ensures IndexOf(s, ch) == i
  {
    forall j | 0 <= j < i ensures s[j] != ch { assert s[..i][j] == s[j] && s[..i][j] in s[..i]; }
    var k := IndexOf(s, ch);
    forall j | 0 <= j < k ensures s[j] != ch { assert s[..k][j] == s[j] && s[..k][j] in s[..k]; }
    assert s[i] in s;
  }

  // ─── The fields of a controller ───────────────────────────────────────────

  /** The entry of this name says something. */
  predicate Says(s: Records, key: string, entry: string, value: string) {
    key in s.txt && entry in s.txt[key] && s.txt[key][entry] == value && value != ""
  }

  /** It announces this number. */
  ghost predicate Announces(parseInt: string -> Option<int>, s: Records, key: string, entry: string, n: nat) {
    n > 0 && exists value :: Says(s, key, entry, value) && parseInt(value) == Some(n)
  }

  lemma NumbersExactly(parseInt: string -> Option<int>, s: Records, key: string, entry: string, n: nat)
    ensures PositiveInt(parseInt, Entry(TxtAtKey(s, key), entry)) == Some(n) <==> Announces(parseInt, s, key, entry, n)
  {
    var e := Entry(TxtAtKey(s, key), entry);
    if e.Some? { assert Says(s, key, entry, e.value); }
  }

  lemma EntriesExactly(s: Records, key: string, entry: string, value: string)
    ensures Entry(TxtAtKey(s, key), entry) == Some(value) <==> Says(s, key, entry, value)
  {
  }

  /** The port to connect to: the one the TXT entry announces, or else that of the SRV
      record; an instance with neither has none. */
  lemma PortExactly(parseInt: string -> Option<int>, s: Records, key: string, n: nat)
    ensures PortOf(parseInt, s, key) == Some(n) <==>
            || Announces(parseInt, s, key, "rwsport", n)
            || (&& (forall m :: !Announces(parseInt, s, key, "rwsport", m))
                && key in s.srv && s.srv[key].port == n && n > 0)
  {
    forall m: nat ensures PositiveInt(parseInt, Entry(TxtAtKey(s, key), "rwsport")) == Some(m) <==>
                     Announces(parseInt, s, key, "rwsport", m) {
      NumbersExactly(parseInt, s, key, "rwsport", m);
    }
  }

  /** The rest of a controller: its host is the address of the SRV target, or else of the
      responder; versions and numbers are those its TXT entries give; it is taken for
      RWS 2.0 exactly if one of two entries says something, and for RWS 1.0 exactly if
      there is no entry at all. */
  lemma FieldsExactly(c: Codec, parseInt: string -> Option<int>, s: Records, key: string, port: nat)
    requires key in s.instances
    ensures
      var r := ControllerAt(c, parseInt, s, key, port);
      && r.instanceName == s.instances[key].instanceLabel && r.port == port
      && (forall address ::
            r.host == Resolved(address) <==>
            exists host :: key in s.srv && host == c.lower(s.srv[key].target) && host in s.a && s.a[host] == address)
      && (r.host.Responder? ==> r.host.srcAddr == s.instances[key].srcAddr)
      && (forall v :: r.rwVersion == Some(v) <==> Says(s, key, "rwver", v))
      && (forall v :: r.sysGuid == Some(v) <==> Says(s, key, "sysguid", v))
      && (forall n: nat :: r.robApiPort == Some(n) <==> Announces(parseInt, s, key, "robapip", n))
      && (r.probableProtocol == Rws2 <==> exists v :: Says(s, key, "rwsport", v) || Says(s, key, "rwver", v))
      && (r.probableProtocol == Rws1 <==> key !in s.txt || s.txt[key] == map[])
  {
    var txt := TxtAtKey(s, key);
    forall n: nat ensures ControllerAt(c, parseInt, s, key, port).robApiPort == Some(n) <==> Announces(parseInt, s, key, "robapip", n) {
      NumbersExactly(parseInt, s, key, "robapip", n);
    }
    if Entry(txt, "rwsport").Some? { assert Says(s, key, "rwsport", Entry(txt, "rwsport").value); }
    if Entry(txt, "rwver").Some? { assert Says(s, key, "rwver", Entry(txt, "rwver").value); }
  }

  // ─── From the reply to the controller ─────────────────────────────────────

  /** The name in text: its labels with dots between them. */
  function TextOf(c: Codec, name: Name): string {
    if name == [] then "" else if |name| == 1 then c.decode(name[0]) else c.decode(name[0]) + "." + TextOf(c, name[1..])
  }

  lemma {:induction false} TextIsJoined(c: Codec, name: Name)
    ensures Join(Decoded(c, name)) == TextOf(c, name)
    decreases |name|
  {
    if |name| > 1 {
      TextIsJoined(c, name[1..]);
      assert Decoded(c, name)[1..] == Decoded(c, name[1..]);
    }
  }

  /** An SRV record of the instance, and the A record of its host. */
  function Announcement(instance: Name, host: Name, port: nat, address: Address): Reply {
    Reply(0, 32768, [], [Record(instance, [0, 1, 0, 0, 0, 120], Srv(0, 0, port, host))], [],
          [Record(host, [0, 1, 0, 0, 0, 120], Host(address))])
  }

  function Nothing(): Records {
    Records(map[], map[], map[], map[])
  }

  /** The store behind the two records. */
  lemma AnnouncementAbsorbed(c: Codec, instance: Name, host: Name, port: nat, address: Address, srcAddr: string)
    requires IsInstance(c, instance)
    ensures
      var key := c.lower(TextOf(c, instance));
      AbsorbAll(c, AllRecords(Announcement(instance, host, port, address)), srcAddr, Nothing()) ==
      Records(map[key := Instance(c.decode(instance[0]), srcAddr)], map[key := Service(TextOf(c, host), port)], map[],
              map[c.lower(TextOf(c, host)) := address])
  {
    TextIsJoined(c, instance);
    TextIsJoined(c, host);
    var srv := Record(instance, [0, 1, 0, 0, 0, 120], Srv(0, 0, port, host));
    var a := Record(host, [0, 1, 0, 0, 0, 120], Host(address));
    assert AllRecords(Announcement(instance, host, port, address)) == [srv, a];
    TwoAbsorbed(c, srv, a, srcAddr, Nothing());
  }

  lemma TwoAbsorbed(c: Codec, first: Record, second: Record, srcAddr: string, s: Records)
    ensures AbsorbAll(c, [first, second], srcAddr, s) == Absorb(c, second, srcAddr, Absorb(c, first, srcAddr, s))
  {
    assert [first, second][1..] == [second] && [second][1..] == [];
    assert AbsorbAll(c, [second], srcAddr, Absorb(c, first, srcAddr, s)) == Absorb(c, second, srcAddr, Absorb(c, first, srcAddr, s));
  }

  /** The controller that such a reply announces. */
  function Announced(c: Codec, instance: Name, port: nat, address: Address): Controller
    requires IsInstance(c, instance)
  {
    Controller(c.decode(instance[0]), c.decode(instance[0])[|"RobotWebServices_"|..], Resolved(address), port,
               None, None, None, Rws1)
  }

  /** From the bytes of the reply to the controllers reported: exactly this one, at the host's
      address and the SRV port. */
  lemma DiscoveredFromBytes(c: Codec, parseInt: string -> Option<int>, instance: Name, host: Name, port: nat,
                            address: Address, srcAddr: string, controllers: seq<Controller>, at: seq<nat>)
    requires IsInstance(c, instance) && "RobotWebServices_" <= c.decode(instance[0]) && host != [] && port > 0
    requires ReplyEncodable(Announcement(instance, host, port, address))
    requires
      var s := Ingested(c, Encode(Announcement(instance, host, port, address)), srcAddr, Nothing()).store;
      var keys := [c.lower(TextOf(c, instance))];
      IsOrder(s, keys) && Reports(c, parseInt, s, keys, 1, controllers, at)
    ensures controllers == [Announced(c, instance, port, address)]
  {
    var p := Announcement(instance, host, port, address);
    var key := c.lower(TextOf(c, instance));
    IngestedAnnouncement(c, instance, host, port, address, srcAddr);
    var s := Ingested(c, Encode(p), srcAddr, Nothing()).store;
    assert [key][0] == key;
    OneController(c, parseInt, s, key, instance, host, port, address, srcAddr);
    ReportsOne(c, parseInt, s, key, controllers, at, port);
  }

  lemma IngestedAnnouncement(c: Codec, instance: Name, host: Name, port: nat, address: Address, srcAddr: string)
    requires IsInstance(c, instance) && host != []
    requires ReplyEncodable(Announcement(instance, host, port, address))
    ensures
      var key := c.lower(TextOf(c, instance));
      Ingested(c, Encode(Announcement(instance, host, port, address)), srcAddr, Nothing()) ==
      Outcome(true, Records(map[key := Instance(c.decode(instance[0]), srcAddr)], map[key := Service(TextOf(c, host), port)],
                            map[], map[c.lower(TextOf(c, host)) := address]))
  {
    var p := Announcement(instance, host, port, address);
    EncodingInverted(c, p, 2, srcAddr, Nothing());
    assert AllRecords(p)[..2] == AllRecords(p);
    AnnouncementAbsorbed(c, instance, host, port, address, srcAddr);
  }

  lemma OneController(c: Codec, parseInt: string -> Option<int>, s: Records, key: string, instance: Name, host: Name,
                      port: nat, address: Address, srcAddr: string)
    requires IsInstance(c, instance) && "RobotWebServices_" <= c.decode(instance[0]) && port > 0
    requires s == Records(map[key := Instance(c.decode(instance[0]), srcAddr)], map[key := Service(TextOf(c, host), port)],
                          map[], map[c.lower(TextOf(c, host)) := address])
    ensures PortOf(parseInt, s, key) == Some(port)
    ensures ControllerAt(c, parseInt, s, key, port) == Announced(c, instance, port, address)
  {
  }

  lemma FirstTwo(at: seq<nat>)
    requires forall j, k | 0 <= j < k < |at| :: at[j] < at[k]
    ensures |at| > 1 ==> at[0] < at[1]
  {
  }

  lemma ReportsOne(c: Codec, parseInt: string -> Option<int>, s: Records, key: string, controllers: seq<Controller>,
                   at: seq<nat>, port: nat)
    requires key in s.instances && PortOf(parseInt, s, key) == Some(port)
    requires Reports(c, parseInt, s, [key], 1, controllers, at)
    ensures controllers == [ControllerAt(c, parseInt, s, key, port)]
  {
    assert [key][0] == key;
    assert Leads(parseInt, s, [key], 0);
    assert 0 in at;
    FirstTwo(at);
  }
}
