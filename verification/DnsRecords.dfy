/** Reply packets (RFC 1035, RFC 2782 for SRV, section 6.3 of RFC 6763 for TXT):
    ingestPacket and parseTxt, and what the packets they read are made of. */
module DnsRecords {
  import opened DnsNames

  const InstancePrefix := "RobotWebServices_"

  const TypeA := 1
  const TypePtr := 12
  const TypeTxt := 16
  const TypeSrv := 33

  // ─── The store ────────────────────────────────────────────────────────────

  datatype Instance = Instance(instanceLabel: string, srcAddr: string)
  datatype Service = Service(target: string, port: nat)
  type Address = b: seq<byte> | |b| == 4 witness [0, 0, 0, 0]

  datatype Records = Records(
    instances: map<string, Instance>,
    srv: map<string, Service>,
    txt: map<string, map<string, string>>,
    a: map<string, Address>)

  /** The name's text, as it keys the maps. */
  function Key(c: Codec, name: Name): string {
    c.lower(Join(Decoded(c, name)))
  }

  predicate IsInstance(c: Codec, name: Name) {
    name != [] && InstancePrefix <= c.decode(name[0])
  }

  function Register(c: Codec, name: Name, srcAddr: string, s: Records): Records
    requires name != []
  {
    s.(instances := s.instances[Key(c, name) := Instance(c.decode(name[0]), srcAddr)])
  }

  // ─── TXT data ─────────────────────────────────────────────────────────────

  function IndexOf(s: string, ch: char): (i: int)
    ensures -1 <= i < |s|
    ensures i >= 0 ==> s[i] == ch && ch !in s[..i]
    ensures i == -1 ==> ch !in s
  {
    if s == "" then -1
    else if s[0] == ch then 0
    else
      var i := IndexOf(s[1..], ch);
      assert i >= 0 ==> s[..i + 1] == [s[0]] + s[1..][..i];
      if i < 0 then -1 else i + 1
  }

  function TxtKey(c: Codec, s: string): string {
    var eq := IndexOf(s, '=');
    c.lower(if eq >= 0 then s[..eq] else s)
  }

  function TxtValue(s: string): string {
    var eq := IndexOf(s, '=');
    if eq >= 0 then s[eq + 1..] else ""
  }

  /** A plain object takes no string as its prototype. */
  predicate MakesEntry(c: Codec, s: string) {
    TxtKey(c, s) != "" && TxtKey(c, s) != "__proto__"
  }

  function AddEntry(c: Codec, out: map<string, string>, s: string): map<string, string> {
    if MakesEntry(c, s) then out[TxtKey(c, s) := TxtValue(s)] else out
  }

  /** The strings of the data from `pos` to `end`, cut off at its end; empty ones are
      skipped. */
  function StringsIn(buf: seq<byte>, pos: nat, end: nat): seq<seq<byte>>
    requires end <= |buf|
    decreases end - pos
  {
    if pos >= end then []
    else
      var l: int := buf[pos];
      var rest := StringsIn(buf, pos + 1 + l, end);
      if l == 0 then rest else [buf[pos + 1..if pos + 1 + l <= end then pos + 1 + l else end]] + rest
  }

  /** What a list of strings adds to `out`. */
  function TxtOf(c: Codec, strings: seq<seq<byte>>, out: map<string, string>): map<string, string> {
    if strings == [] then out else TxtOf(c, strings[1..], AddEntry(c, out, c.decode(strings[0])))
  }

  function TxtAt(c: Codec, buf: seq<byte>, pos: nat, end: nat): map<string, string>
    requires end <= |buf|
  {
    TxtOf(c, StringsIn(buf, pos, end), map[])
  }

  lemma TxtOfCons(c: Codec, bytes: seq<byte>, strings: seq<seq<byte>>, out: map<string, string>)
    ensures TxtOf(c, [bytes] + strings, out) == TxtOf(c, strings, AddEntry(c, out, c.decode(bytes)))
  {
    assert ([bytes] + strings)[1..] == strings;
  }

  /** One round of parseTxt: a length, and the string of that length. */
  lemma TxtRound(c: Codec, buf: seq<byte>, pos: nat, end: nat, out: map<string, string>)
    requires pos < end <= |buf|
    ensures
      var l: int := buf[pos];
      var bytes := buf[pos + 1..if pos + 1 + l <= end then pos + 1 + l else end];
      TxtOf(c, StringsIn(buf, pos, end), out)
      == TxtOf(c, StringsIn(buf, pos + 1 + l, end), if l == 0 then out else AddEntry(c, out, c.decode(bytes)))
  {
    var l: int := buf[pos];
    var bytes := buf[pos + 1..if pos + 1 + l <= end then pos + 1 + l else end];
    TxtOfCons(c, bytes, StringsIn(buf, pos + 1 + l, end), out);
  }

  /** parseTxt. */
  method ParseTxt(c: Codec, buf: seq<byte>, start: nat, len: nat) returns (out: map<string, string>)
    requires start + len <= |buf|
    ensures out == TxtAt(c, buf, start, start + len)
  {
    out := map[];
    var end := start + len;
    var pos := start;
    while pos < end
      invariant start <= pos
      invariant TxtOf(c, StringsIn(buf, pos, end), out) == TxtAt(c, buf, start, end)
    {
      TxtRound(c, buf, pos, end, out);
      var l: int := buf[pos];
      pos := pos + 1;
      if l == 0 { continue; }
      var bytes := buf[pos..if pos + l <= end then pos + l else end];
      pos := pos + l;
      out := AddEntry(c, out, c.decode(bytes));
    }
    assert StringsIn(buf, pos, end) == [];
  }

  predicate TxtEncodable(strings: seq<seq<byte>>) {
    forall i | 0 <= i < |strings| :: |strings[i]| < 256
  }

  function EncodeTxt(strings: seq<seq<byte>>): seq<byte>
    requires TxtEncodable(strings)
  {
    if strings == [] then [] else [|strings[0]| as byte] + strings[0] + EncodeTxt(strings[1..])
  }

  function NonEmptyStrings(strings: seq<seq<byte>>): seq<seq<byte>> {
    if strings == [] then []
    else if strings[0] == [] then NonEmptyStrings(strings[1..])
    else [strings[0]] + NonEmptyStrings(strings[1..])
  }

  lemma TxtSplit(buf: seq<byte>, pos: nat, end: nat, strings: seq<seq<byte>>)
    requires TxtEncodable(strings) && strings != []
    requires pos <= end <= |buf| && end - pos == |EncodeTxt(strings)|
    requires buf[pos..end] == EncodeTxt(strings)
    ensures
      var l, rest := |strings[0]|, EncodeTxt(strings[1..]);
      && end - (pos + 1 + l) == |rest|
      && buf[pos] == l && buf[pos + 1..pos + 1 + l] == strings[0]
      && buf[pos + 1 + l..end] == rest
  {
    Counted(buf, pos, strings[0], EncodeTxt(strings[1..]));
  }

  /** parseTxt finds exactly the strings that were encoded, but for empty ones. */
  lemma {:induction false} TxtReadBack(buf: seq<byte>, pos: nat, end: nat, strings: seq<seq<byte>>)
    requires TxtEncodable(strings)
    requires pos <= end <= |buf| && end - pos == |EncodeTxt(strings)|
    requires buf[pos..end] == EncodeTxt(strings)
    ensures StringsIn(buf, pos, end) == NonEmptyStrings(strings)
    decreases |strings|
  {
    if strings != [] {
      TxtSplit(buf, pos, end, strings);
      TxtReadBack(buf, pos + 1 + |strings[0]|, end, strings[1..]);
    }
  }

  /** String i makes an entry under this key. */
  predicate EntryFor(c: Codec, strings: seq<seq<byte>>, i: nat, key: string)
    requires i < |strings|
  {
    MakesEntry(c, c.decode(strings[i])) && TxtKey(c, c.decode(strings[i])) == key
  }

  /** String i is the last with this key, and this is its value. */
  predicate IsLast(c: Codec, strings: seq<seq<byte>>, i: nat, key: string, value: string)
    requires i < |strings|
  {
    && EntryFor(c, strings, i, key)
    && TxtValue(c.decode(strings[i])) == value
    && forall j | i < j < |strings| :: !EntryFor(c, strings, j, key)
  }

  lemma LastOfFront(c: Codec, strings: seq<seq<byte>>, key: string, value: string)
    requires strings != [] && !EntryFor(c, strings, |strings| - 1, key)
    ensures
      var front := strings[..|strings| - 1];
      (exists i :: 0 <= i < |front| && IsLast(c, front, i, key, value))
      <==> exists i :: 0 <= i < |strings| && IsLast(c, strings, i, key, value)
  {
    var front := strings[..|strings| - 1];
    forall i | 0 <= i < |front| ensures EntryFor(c, front, i, key) == EntryFor(c, strings, i, key) {
    }
    forall i | 0 <= i < |front| ensures IsLast(c, front, i, key, value) == IsLast(c, strings, i, key, value) {
    }
  }

  /** A key's entry is the value of the last string with that key. */
  lemma {:induction false} LastStringWins(c: Codec, strings: seq<seq<byte>>, key: string, value: string)
    ensures
      var txt := TxtOf(c, strings, map[]);
      (key in txt && txt[key] == value) <==> exists i :: 0 <= i < |strings| && IsLast(c, strings, i, key, value)
  {
    if strings != [] {
      var n := |strings| - 1;
      LastStringWins(c, strings[..n], key, value);
      TxtOfLast(c, strings, map[]);
      if EntryFor(c, strings, n, key) {
        assert IsLast(c, strings, n, key, TxtValue(c.decode(strings[n])));
      } else {
        LastOfFront(c, strings, key, value);
      }
    }
  }

  lemma {:induction false} TxtOfLast(c: Codec, strings: seq<seq<byte>>, out: map<string, string>)
    requires strings != []
    ensures TxtOf(c, strings, out) ==
            AddEntry(c, TxtOf(c, strings[..|strings| - 1], out), c.decode(strings[|strings| - 1]))
    decreases |strings|
  {
    if |strings| > 1 {
      var front := strings[..|strings| - 1];
      TxtOfLast(c, strings[1..], AddEntry(c, out, c.decode(strings[0])));
      assert front[1..] == strings[1..][..|strings| - 2];
    }
  }

  // ─── Reading a packet ─────────────────────────────────────────────────────

  function WordAt(buf: seq<byte>, pos: nat): (n: nat)
    requires pos + 2 <= |buf|
    ensures n < 65536
  {
    var high: int, low: int := buf[pos], buf[pos + 1];
    high * 256 + low
  }

  /** The offset behind n questions; it may lie behind the packet. */
  function SkipQuestions(buf: seq<byte>, pos: nat, n: nat): Result<nat, ()>
    decreases n
  {
    if n == 0 then Ok(pos)
    else
      match NameAt(buf, pos, MaxJumps)
      case Ok(read) => SkipQuestions(buf, read.next + 4, n - 1)
      case Err(_) => Err(())
  }

  datatype Step = Step(next: nat, store: Records)

  /** What the data of a record of a type does to the store. */
  function DataStep(c: Codec, buf: seq<byte>, name: Name, rtype: nat, pos: nat, rdLen: nat, srcAddr: string, s: Records)
    : Result<Records, ()>
    requires pos + rdLen <= |buf|
  {
    if rtype == TypePtr then
      match NameAt(buf, pos, MaxJumps)
      case Ok(target) =>
        Ok(if IsInstance(c, target.name) then Register(c, target.name, srcAddr, s) else s)
      case Err(_) => Err(())
    else if rtype == TypeSrv && IsInstance(c, name) then
      if rdLen < 8 then Err(())
      else
        match NameAt(buf, pos + 6, MaxJumps)
        case Ok(target) =>
          var service := Service(Join(Decoded(c, target.name)), WordAt(buf, pos + 4));
          var registered := Register(c, name, srcAddr, s);
          Ok(registered.(srv := s.srv[Key(c, name) := service]))
        case Err(_) => Err(())
    else if rtype == TypeTxt && IsInstance(c, name) then
      var registered := Register(c, name, srcAddr, s);
      Ok(registered.(txt := s.txt[Key(c, name) := TxtAt(c, buf, pos, pos + rdLen)]))
    else if rtype == TypeA && rdLen >= 4 then
      Ok(s.(a := s.a[Key(c, name) := buf[pos..pos + 4]]))
    else Ok(s)
  }

  /** One record: where it ends and what it does, or that it does not read. */
  function RecordStep(c: Codec, buf: seq<byte>, pos: nat, srcAddr: string, s: Records): Result<Step, ()> {
    match NameAt(buf, pos, MaxJumps)
    case Err(_) => Err(())
    case Ok(owner) =>
      var p := owner.next;
      if p + 10 > |buf| then Err(())
      else
        var rdLen := WordAt(buf, p + 8);
        if p + 10 + rdLen > |buf| then Err(())
        else
          match DataStep(c, buf, owner.name, WordAt(buf, p), p + 10, rdLen, srcAddr, s)
          case Ok(t) => Ok(Step(p + 10 + rdLen, t))
          case Err(_) => Err(())
  }

  /** The store behind a packet, and whether the packet read to its end. */
  datatype Outcome = Outcome(ok: bool, store: Records)

  function ReadRecords(c: Codec, buf: seq<byte>, pos: nat, n: nat, srcAddr: string, s: Records): Outcome
    decreases n
  {
    if n == 0 then Outcome(true, s)
    else
      match RecordStep(c, buf, pos, srcAddr, s)
      case Ok(step) => ReadRecords(c, buf, step.next, n - 1, srcAddr, step.store)
      case Err(_) => Outcome(false, s)
  }

  function Ingested(c: Codec, buf: seq<byte>, srcAddr: string, s: Records): Outcome {
    if |buf| < 12 then Outcome(false, s)
    else if buf[2] < 128 then Outcome(true, s)
    else
      match SkipQuestions(buf, 12, WordAt(buf, 4))
      case Ok(pos) =>
        ReadRecords(c, buf, pos, WordAt(buf, 6) + WordAt(buf, 8) + WordAt(buf, 10), srcAddr, s)
      case Err(_) => Outcome(false, s)
  }

  /** RecordStore: the maps all reply packets of one discovery write into. */
  class RecordStore {
    var instances: map<string, Instance>
    var srv: map<string, Service>
    var txt: map<string, map<string, string>>
    var a: map<string, Address>

    function State(): Records
      reads this
    {
      Records(instances, srv, txt, a)
    }

    constructor ()
      ensures State() == Records(map[], map[], map[], map[])
    {
      instances, srv, txt, a := map[], map[], map[], map[];
    }

    method RegisterInstance(c: Codec, labels: seq<string>, srcAddr: string, ghost name: Name) returns (key: string)
      requires labels == Decoded(c, name) && name != []
      modifies this
      ensures key == Key(c, name) && State() == Register(c, name, srcAddr, old(State()))
    {
      key := c.lower(Join(labels));
      instances := instances[key := Instance(labels[0], srcAddr)];
    }

    /** The data of one record. */
    method IngestData(c: Codec, buf: seq<byte>, labels: seq<string>, rtype: nat, pos: nat, rdLen: nat, srcAddr: string,
                      ghost name: Name)
      returns (ok: bool)
      requires labels == Decoded(c, name) && pos + rdLen <= |buf|
      modifies this
      ensures match DataStep(c, buf, name, rtype, pos, rdLen, srcAddr, old(State()))
              case Ok(s) => ok && State() == s
              case Err(_) => !ok && State() == old(State())
    {
      var isInstance := |labels| > 0 && InstancePrefix <= labels[0];
      if rtype == TypePtr {
        var target, _, error := ReadName(c, buf, pos);
        if error.Err? { return false; }
        if |target| > 0 && InstancePrefix <= target[0] {
          var _ := RegisterInstance(c, target, srcAddr, NameAt(buf, pos, MaxJumps).value.name);
        }
      } else if rtype == TypeSrv && isInstance {
        if rdLen < 8 { return false; }
        var port := WordAt(buf, pos + 4);
        var target, _, error := ReadName(c, buf, pos + 6);
        if error.Err? { return false; }
        var key := RegisterInstance(c, labels, srcAddr, name);
        srv := srv[key := Service(Join(target), port)];
      } else if rtype == TypeTxt && isInstance {
        var key := RegisterInstance(c, labels, srcAddr, name);
        var entries := ParseTxt(c, buf, pos, rdLen);
        txt := txt[key := entries];
      } else if rtype == TypeA && rdLen >= 4 {
        a := a[c.lower(Join(labels)) := buf[pos..pos + 4]];
      }
      return true;
    }

    /** One record, and where the next begins. */
    method IngestRecord(c: Codec, buf: seq<byte>, start: nat, srcAddr: string) returns (ok: bool, pos: nat)
      modifies this
      ensures match RecordStep(c, buf, start, srcAddr, old(State()))
              case Ok(step) => ok && pos == step.next && State() == step.store
              case Err(_) => !ok && State() == old(State())
    {
      var labels, next, error := ReadName(c, buf, start);
      if error.Err? { return false, start; }
      ghost var name := NameAt(buf, start, MaxJumps).value.name;
      pos := next;
      if pos + 10 > |buf| { return false, pos; }
      var rtype := WordAt(buf, pos);
      var rdLen := WordAt(buf, pos + 8);
      pos := pos + 10;
      if pos + rdLen > |buf| { return false, pos; }
      ok := IngestData(c, buf, labels, rtype, pos, rdLen, srcAddr, name);
      pos := pos + rdLen;
    }

    /** The records, one behind the other. */
    method IngestRecords(c: Codec, buf: seq<byte>, start: nat, rrCount: nat, srcAddr: string) returns (ok: bool)
      modifies this
      ensures ReadRecords(c, buf, start, rrCount, srcAddr, old(State())) == Outcome(ok, State())
    {
      var pos := start;
      for i := 0 to rrCount
        invariant ReadRecords(c, buf, pos, rrCount - i, srcAddr, State()) ==
                  ReadRecords(c, buf, start, rrCount, srcAddr, old(State()))
      {
        ok, pos := IngestRecord(c, buf, pos, srcAddr);
        if !ok { return; }
      }
      ok := true;
    }

    /** ingestPacket; `ok` is false where it throws. */
    method IngestPacket(c: Codec, buf: seq<byte>, srcAddr: string) returns (ok: bool)
      modifies this
      ensures Ingested(c, buf, srcAddr, old(State())) == Outcome(ok, State())
    {
      if |buf| < 12 { return false; }
      if buf[2] < 128 { return true; }
      var qdCount := WordAt(buf, 4);
      var rrCount := WordAt(buf, 6) + WordAt(buf, 8) + WordAt(buf, 10);
      var pos: nat := 12;
      for i := 0 to qdCount
        invariant State() == old(State())
        invariant SkipQuestions(buf, pos, qdCount - i) == SkipQuestions(buf, 12, qdCount)
      {
        var _, next, error := ReadName(c, buf, pos);
        if error.Err? { return false; }
        pos := next + 4;
      }
      ok := IngestRecords(c, buf, pos, rrCount, srcAddr);
    }
  }

  // ─── What any packets leave behind ────────────────────────────────────────

  /** An instance entry is named by a name whose first label carries the prefix. */
  ghost predicate Named(c: Codec, key: string, instance: Instance) {
    exists name: Name :: IsInstance(c, name) && key == Key(c, name) && instance.instanceLabel == c.decode(name[0])
  }

  ghost predicate Sound(c: Codec, s: Records) {
    && s.srv.Keys <= s.instances.Keys
    && s.txt.Keys <= s.instances.Keys
    && forall key | key in s.instances :: Named(c, key, s.instances[key])
  }

  /** Registering an instance keeps the store sound. */
  lemma RegisterKeepsSound(c: Codec, name: Name, srcAddr: string, s: Records)
    requires Sound(c, s) && IsInstance(c, name)
    ensures
      var t := Register(c, name, srcAddr, s);
      Sound(c, t) && s.instances.Keys <= t.instances.Keys && Key(c, name) in t.instances
  {
    assert Named(c, Key(c, name), Instance(c.decode(name[0]), srcAddr));
  }

  /** So does data under the key of an instance. */
  lemma DataUnderInstance(c: Codec, t: Records, key: string, service: Service, entries: map<string, string>)
    requires Sound(c, t) && key in t.instances
    ensures Sound(c, t.(srv := t.srv[key := service])) && Sound(c, t.(txt := t.txt[key := entries]))
  {
  }

  lemma DataKeepsSound(c: Codec, buf: seq<byte>, name: Name, rtype: nat, pos: nat, rdLen: nat, srcAddr: string, s: Records)
    requires pos + rdLen <= |buf| && Sound(c, s)
    ensures
      var r := DataStep(c, buf, name, rtype, pos, rdLen, srcAddr, s);
      r.Ok? ==> Sound(c, r.value) && s.instances.Keys <= r.value.instances.Keys
  {
    if rtype == TypePtr {
      if NameAt(buf, pos, MaxJumps).Ok? {
        var target := NameAt(buf, pos, MaxJumps).value.name;
        if IsInstance(c, target) { RegisterKeepsSound(c, target, srcAddr, s); }
      }
    } else if rtype == TypeSrv && IsInstance(c, name) {
      if rdLen >= 8 && NameAt(buf, pos + 6, MaxJumps).Ok? {
        var host := NameAt(buf, pos + 6, MaxJumps).value.name;
        RegisterKeepsSound(c, name, srcAddr, s);
        DataUnderInstance(c, Register(c, name, srcAddr, s), Key(c, name),
                          Service(Join(Decoded(c, host)), WordAt(buf, pos + 4)), map[]);
      }
    } else if rtype == TypeTxt && IsInstance(c, name) {
      RegisterKeepsSound(c, name, srcAddr, s);
      DataUnderInstance(c, Register(c, name, srcAddr, s), Key(c, name), Service("", 0), TxtAt(c, buf, pos, pos + rdLen));
    }
  }

  lemma {:induction false} RecordsKeepSound(c: Codec, buf: seq<byte>, pos: nat, n: nat, srcAddr: string, s: Records)
    requires Sound(c, s)
    ensures
      var t := ReadRecords(c, buf, pos, n, srcAddr, s).store;
      Sound(c, t) && s.instances.Keys <= t.instances.Keys
    decreases n
  {
    if n > 0 && RecordStep(c, buf, pos, srcAddr, s).Ok? {
      var owner := NameAt(buf, pos, MaxJumps).value;
      var p := owner.next;
      DataKeepsSound(c, buf, owner.name, WordAt(buf, p), p + 10, WordAt(buf, p + 8), srcAddr, s);
      var step := RecordStep(c, buf, pos, srcAddr, s).value;
      RecordsKeepSound(c, buf, step.next, n - 1, srcAddr, step.store);
    }
  }

  datatype Packet = Packet(bytes: seq<byte>, srcAddr: string)

  function IngestedAll(c: Codec, packets: seq<Packet>, s: Records): Records
    decreases |packets|
  {
    if packets == [] then s
    else
      var last := |packets| - 1;
      Ingested(c, packets[last].bytes, packets[last].srcAddr, IngestedAll(c, packets[..last], s)).store
  }

  /** After any packets, malformed ones included, SRV and TXT data belong to an instance
      and each instance is named by the prefix. */
  lemma {:induction false} AnyPacketsLeaveSound(c: Codec, packets: seq<Packet>)
    ensures Sound(c, IngestedAll(c, packets, Records(map[], map[], map[], map[])))
  {
    if packets != [] {
      var last := |packets| - 1;
      var buf := packets[last].bytes;
      var s := IngestedAll(c, packets[..last], Records(map[], map[], map[], map[]));
      AnyPacketsLeaveSound(c, packets[..last]);
      if |buf| >= 12 && SkipQuestions(buf, 12, WordAt(buf, 4)).Ok? {
        RecordsKeepSound(c, buf, SkipQuestions(buf, 12, WordAt(buf, 4)).value,
                         WordAt(buf, 6) + WordAt(buf, 8) + WordAt(buf, 10), packets[last].srcAddr, s);
      }
    }
  }
}
