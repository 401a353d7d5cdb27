/** The plain encoding of reply packets, without compression (RFC 1035, RFC 2782,
    section 6.3 of RFC 6763), and that ingestPacket inverts it. */
module DnsEncoding {
  import opened DnsNames
  import opened DnsRecords
  import opened DnsPackets

  // ─── Encoding without compression ─────────────────────────────────────────

  function EncodeData(d: Data): seq<byte>
    requires DataEncodable(d)
  {
    match d
    case Ptr(target) => EncodeName(target)
    case Srv(priority, weight, port, host) => Word(priority) + Word(weight) + Word(port) + EncodeName(host)
    case Txt(strings) => EncodeTxt(strings)
    case Host(address) => address
    case Other(_, bytes) => bytes
  }

  /** Section 3.3 of RFC 1035 and RFC 2782: 16-bit numbers, labels of 1 to 63 bytes,
      strings of at most 255. */
  predicate DataEncodable(d: Data) {
    match d
    case Ptr(target) => Encodable(target)
    case Srv(priority, weight, port, host) =>
      priority < 65536 && weight < 65536 && port < 65536 && Encodable(host)
    case Txt(strings) => TxtEncodable(strings)
    case Host(_) => true
    case Other(rtype, _) => rtype < 65536 && rtype !in {TypePtr, TypeSrv, TypeTxt, TypeA}
  }

  predicate RecordEncodable(r: Record) {
    Encodable(r.owner) && DataEncodable(r.data) && |EncodeData(r.data)| < 65536
  }

  function EncodeRecord(r: Record): seq<byte>
    requires RecordEncodable(r)
  {
    EncodeName(r.owner) + RecordHead(r) + EncodeData(r.data)
  }

  lemma WordRead(buf: seq<byte>, pos: nat, n: nat)
    requires n < 65536 && pos + 2 <= |buf| && buf[pos..pos + 2] == Word(n)
    ensures WordAt(buf, pos) == n
  {
    assert buf[pos..pos + 2][0] == buf[pos] && buf[pos..pos + 2][1] == buf[pos + 1];
  }

  /** The parts of four parts put together. */
  lemma Parts(buf: seq<byte>, pos: nat, a: seq<byte>, b: seq<byte>, d: seq<byte>, e: seq<byte>)
    requires pos + |a| + |b| + |d| + |e| <= |buf|
    requires buf[pos..pos + |a| + |b| + |d| + |e|] == a + b + d + e
    ensures buf[pos..pos + |a|] == a
    ensures buf[pos + |a|..pos + |a| + |b|] == b
    ensures buf[pos + |a| + |b|..pos + |a| + |b| + |d|] == d
    ensures buf[pos + |a| + |b| + |d|..pos + |a| + |b| + |d| + |e|] == e
  {
    var all := a + b + d + e;
    var n := |all|;
    var i, j, k := |a|, |a| + |b|, |a| + |b| + |d|;
    Slice(buf, pos, n, 0, i);
    Slice(buf, pos, n, i, j);
    Slice(buf, pos, n, j, k);
    Slice(buf, pos, n, k, n);
    assert all[0..i] == a && all[i..j] == b && all[j..k] == d && all[k..n] == e;
  }

  /** The parts of two parts put together. */
  lemma TwoParts(buf: seq<byte>, pos: nat, a: seq<byte>, b: seq<byte>)
    requires pos + |a| + |b| <= |buf| && buf[pos..pos + |a| + |b|] == a + b
    ensures buf[pos..pos + |a|] == a
    ensures buf[pos + |a|..pos + |a| + |b|] == b
  {
    var n := |a + b|;
    Slice(buf, pos, n, 0, |a|);
    Slice(buf, pos, n, |a|, n);
    assert (a + b)[0..|a|] == a && (a + b)[|a|..n] == b;
  }

  lemma EncodedNameBegins(buf: seq<byte>, pos: nat, name: Name)
    requires Encodable(name) && pos + |EncodeName(name)| <= |buf|
    requires buf[pos..pos + |EncodeName(name)|] == EncodeName(name)
    ensures NameStands(buf, pos + |EncodeName(name)|, pos, name, pos + |EncodeName(name)|)
  {
    EncodedNameStands(buf, pos, name);
  }

  lemma EncodedDataStands(buf: seq<byte>, pos: nat, d: Data)
    requires DataEncodable(d) && pos + |EncodeData(d)| <= |buf|
    requires buf[pos..pos + |EncodeData(d)|] == EncodeData(d)
    ensures DataStands(buf, pos, d, pos + |EncodeData(d)|)
  {
    match d
    case Ptr(target) =>
      EncodedNameBegins(buf, pos, target);
    case Srv(priority, weight, port, host) =>
      Parts(buf, pos, Word(priority), Word(weight), Word(port), EncodeName(host));
      WordRead(buf, pos + 4, port);
      EncodedNameBegins(buf, pos + 6, host);
    case Txt(_) =>
    case Host(_) =>
    case Other(_, _) =>
  }

  /** The ten bytes between a record's owner and its data. */
  function RecordHead(r: Record): seq<byte>
    requires RecordEncodable(r)
  {
    Word(TypeOf(r.data)) + r.classAndTtl + Word(|EncodeData(r.data)|)
  }

  lemma HeadReads(buf: seq<byte>, p: nat, r: Record)
    requires RecordEncodable(r) && p + 10 <= |buf| && buf[p..p + 10] == RecordHead(r)
    ensures WordAt(buf, p) == TypeOf(r.data) && WordAt(buf, p + 8) == |EncodeData(r.data)|
  {
    var head := RecordHead(r);
    forall i | 0 <= i < 10 ensures buf[p + i] == head[i] {
      assert buf[p..p + 10][i] == buf[p + i];
    }
    assert buf[p + 0] == head[0] && buf[p + 1] == head[1] && buf[p + 8] == head[8] && buf[p + 9] == head[9];
  }

  lemma EncodedRecordStands(buf: seq<byte>, pos: nat, r: Record)
    requires RecordEncodable(r) && pos + |EncodeRecord(r)| <= |buf|
    requires buf[pos..pos + |EncodeRecord(r)|] == EncodeRecord(r)
    ensures RecordStands(buf, pos, r, pos + |EncodeName(r.owner)|, pos + |EncodeRecord(r)|)
  {
    var name, head, data := EncodeName(r.owner), RecordHead(r), EncodeData(r.data);
    var p := pos + |name|;
    TwoParts(buf, pos, name + head, data);
    TwoParts(buf, pos, name, head);
    EncodedNameBegins(buf, pos, r.owner);
    NameFurther(buf, p, pos + |EncodeRecord(r)|, pos, r.owner, p);
    HeadReads(buf, p, r);
    EncodedDataStands(buf, p + 10, r.data);
  }

  /** A name stands below any later limit. */
  lemma NameFurther(buf: seq<byte>, limit: nat, further: nat, pos: nat, name: Name, next: nat)
    requires limit <= further <= |buf| && NameStands(buf, limit, pos, name, next)
    ensures NameStands(buf, further, pos, name, next)
  {
    var hops: nat :| hops <= MaxJumps && Denotes(buf, limit, pos, name, hops, next);
    DenotesFurther(buf, limit, further, pos, name, hops, next);
  }

  lemma {:induction false} DenotesFurther(buf: seq<byte>, limit: nat, further: nat, pos: nat, name: Name, hops: nat, next: nat)
    requires limit <= further <= |buf| && Denotes(buf, limit, pos, name, hops, next)
    ensures Denotes(buf, further, pos, name, hops, next)
    decreases hops, |name|
  {
    if buf[pos] >= 192 {
      var k: nat, fewer: nat, behind: nat :| fewer + 1 == hops && PointsTo(buf, pos, k) && Denotes(buf, limit, k, name, fewer, behind);
      DenotesFurther(buf, limit, further, k, name, fewer, behind);
    } else if name != [] {
      DenotesFurther(buf, limit, further, pos + 1 + |name[0]|, name[1..], hops, next);
    }
  }

  // ─── A whole packet ───────────────────────────────────────────────────────

  type TypeAndClass = b: seq<byte> | |b| == 4 witness [0, 12, 0, 1]

  datatype Question = Question(name: Name, typeAndClass: TypeAndClass)

  /** The flag bit of a response is set in the first of the two flag bytes. */
  datatype Reply = Reply(id: nat, flags: nat, questions: seq<Question>,
                         answers: seq<Record>, authority: seq<Record>, additionals: seq<Record>)

  function AllRecords(p: Reply): seq<Record> {
    p.answers + p.authority + p.additionals
  }

  predicate ReplyEncodable(p: Reply) {
    && p.id < 65536 && 32768 <= p.flags < 65536
    && |p.questions| < 65536 && |p.answers| < 65536 && |p.authority| < 65536 && |p.additionals| < 65536
    && (forall i | 0 <= i < |p.questions| :: Encodable(p.questions[i].name))
    && AllEncodable(AllRecords(p))
  }

  predicate AllEncodable(records: seq<Record>) {
    forall i | 0 <= i < |records| :: RecordEncodable(records[i])
  }

  /** Pieces one behind the other. */
  function Flat(pieces: seq<seq<byte>>): seq<byte> {
    if pieces == [] then [] else pieces[0] + Flat(pieces[1..])
  }

  /** Where each piece begins from `pos` on, and where the last ends. */
  function Starts(pieces: seq<seq<byte>>, pos: nat): (starts: seq<nat>)
    ensures |starts| == |pieces| + 1 && starts[0] == pos
  {
    if pieces == [] then [pos] else [pos] + Starts(pieces[1..], pos + |pieces[0]|)
  }

  lemma {:induction false} StartsApart(pieces: seq<seq<byte>>, pos: nat, i: nat)
    requires i < |pieces|
    ensures Starts(pieces, pos)[i + 1] == Starts(pieces, pos)[i] + |pieces[i]|
    decreases |pieces|
  {
    if i > 0 { StartsApart(pieces[1..], pos + |pieces[0]|, i - 1); }
  }

  predicate PieceHere(buf: seq<byte>, pos: nat, pieces: seq<seq<byte>>, i: nat)
    requires i < |pieces|
  {
    var starts := Starts(pieces, pos);
    starts[i + 1] == starts[i] + |pieces[i]| <= |buf| && buf[starts[i]..starts[i + 1]] == pieces[i]
  }

  lemma {:induction false} PiecesStand(buf: seq<byte>, pos: nat, pieces: seq<seq<byte>>)
    requires pos + |Flat(pieces)| <= |buf| && buf[pos..pos + |Flat(pieces)|] == Flat(pieces)
    ensures Starts(pieces, pos)[|pieces|] == pos + |Flat(pieces)|
    ensures forall i | 0 <= i < |pieces| :: PieceHere(buf, pos, pieces, i)
    decreases |pieces|
  {
    if pieces != [] {
      var next := pos + |pieces[0]|;
      TwoParts(buf, pos, pieces[0], Flat(pieces[1..]));
      PiecesStand(buf, next, pieces[1..]);
      forall i | 0 <= i < |pieces| ensures PieceHere(buf, pos, pieces, i) {
        if i > 0 { assert PieceHere(buf, next, pieces[1..], i - 1); }
      }
    }
  }

  function QuestionPieces(questions: seq<Question>): (pieces: seq<seq<byte>>) {
    seq(|questions|, i requires 0 <= i < |questions| => EncodeName(questions[i].name) + questions[i].typeAndClass)
  }

  function RecordPieces(records: seq<Record>): (pieces: seq<seq<byte>>)
    requires AllEncodable(records)
  {
    seq(|records|, i requires 0 <= i < |records| => EncodeRecord(records[i]))
  }

  function EncodeHeader(p: Reply): (bytes: seq<byte>)
    requires ReplyEncodable(p)
    ensures |bytes| == 12
  {
    Word(p.id) + Word(p.flags) + Word(|p.questions|) + Word(|p.answers|) + Word(|p.authority|) + Word(|p.additionals|)
  }

  function Encode(p: Reply): seq<byte>
    requires ReplyEncodable(p)
  {
    EncodeHeader(p) + (Flat(QuestionPieces(p.questions)) + Flat(RecordPieces(AllRecords(p))))
  }

  function Names(questions: seq<Question>): (names: seq<Name>) {
    seq(|questions|, i requires 0 <= i < |questions| => questions[i].name)
  }

  /** Where the owners' names end, of records that begin at `starts`. */
  function Owners(records: seq<Record>, starts: seq<nat>): (owners: seq<nat>)
    requires |starts| == |records| + 1
  {
    seq(|records|, i requires 0 <= i < |records| => starts[i] + |EncodeName(records[i].owner)|)
  }

  /** Where the first record begins. */
  function RecordsFrom(p: Reply): nat {
    12 + |Flat(QuestionPieces(p.questions))|
  }

  function LayoutOf(p: Reply): Layout
    requires ReplyEncodable(p)
  {
    var questions := QuestionPieces(p.questions);
    var rs := Starts(RecordPieces(AllRecords(p)), RecordsFrom(p));
    Layout(Names(p.questions), Starts(questions, 12), AllRecords(p), Owners(AllRecords(p), rs), rs)
  }

  lemma EncodedQuestionHere(buf: seq<byte>, p: Reply, i: nat)
    requires ReplyEncodable(p) && i < |p.questions| && PieceHere(buf, 12, QuestionPieces(p.questions), i)
    ensures QuestionHere(buf, LayoutOf(p), i)
  {
    var q := p.questions[i];
    var starts := Starts(QuestionPieces(p.questions), 12);
    var pos, end := starts[i], starts[i] + |EncodeName(q.name)|;
    TwoParts(buf, pos, EncodeName(q.name), q.typeAndClass);
    EncodedNameBegins(buf, pos, q.name);
    NameFurther(buf, end, end + 4, pos, q.name, end);
  }

  lemma EncodedRecordHere(buf: seq<byte>, p: Reply, i: nat)
    requires ReplyEncodable(p) && i < |AllRecords(p)|
    requires PieceHere(buf, RecordsFrom(p), RecordPieces(AllRecords(p)), i)
    ensures RecordHere(buf, LayoutOf(p), i)
  {
    var starts := Starts(RecordPieces(AllRecords(p)), RecordsFrom(p));
    EncodedRecordStands(buf, starts[i], AllRecords(p)[i]);
  }

  lemma HeaderReads(buf: seq<byte>, p: Reply)
    requires ReplyEncodable(p) && 12 <= |buf| && buf[..12] == EncodeHeader(p)
    ensures buf[2] >= 128
    ensures WordAt(buf, 4) == |p.questions| && WordAt(buf, 6) == |p.answers|
    ensures WordAt(buf, 8) == |p.authority| && WordAt(buf, 10) == |p.additionals|
  {
    forall i | 0 <= i < 12 ensures buf[i] == EncodeHeader(p)[i] {
      assert buf[..12][i] == buf[i];
    }
  }

  /** The header, and every question and record where its piece begins. */
  lemma EncodedPieces(p: Reply)
    requires ReplyEncodable(p)
    ensures
      var buf := Encode(p);
      var questions, records := QuestionPieces(p.questions), RecordPieces(AllRecords(p));
      && |buf| >= 12 && buf[..12] == EncodeHeader(p)
      && Starts(questions, 12)[|questions|] == RecordsFrom(p)
      && (forall i | 0 <= i < |questions| :: PieceHere(buf, 12, questions, i))
      && forall i | 0 <= i < |records| :: PieceHere(buf, RecordsFrom(p), records, i)
  {
    var buf := Encode(p);
    var questions, records := QuestionPieces(p.questions), RecordPieces(AllRecords(p));
    assert buf[0..|buf|] == buf;
    TwoParts(buf, 0, EncodeHeader(p), Flat(questions) + Flat(records));
    TwoParts(buf, 12, Flat(questions), Flat(records));
    PiecesStand(buf, 12, questions);
    PiecesStand(buf, RecordsFrom(p), records);
  }

  /** A plain encoding is a packet whose questions and records stand in it. */
  lemma EncodedStands(p: Reply)
    requires ReplyEncodable(p)
    ensures Stands(Encode(p), LayoutOf(p))
  {
    var buf := Encode(p);
    EncodedPieces(p);
    HeaderReads(buf, p);
    var l := LayoutOf(p);
    forall i | 0 <= i < |l.questions| ensures QuestionHere(buf, l, i) {
      EncodedQuestionHere(buf, p, i);
    }
    forall i | 0 <= i < |l.records| ensures RecordHere(buf, l, i) {
      EncodedRecordHere(buf, p, i);
    }
  }

  /** An SRV record of an instance whose target is the root (no service, RFC 2782). */
  predicate NoService(c: Codec, r: Record) {
    r.data.Srv? && r.data.host == [] && IsInstance(c, r.owner)
  }

  lemma RecordSize(r: Record)
    requires RecordEncodable(r)
    ensures |EncodeRecord(r)| == |EncodeName(r.owner)| + 10 + |EncodeData(r.data)|
  {
  }

  lemma LabelBytesLong(name: Name)
    requires Encodable(name) && name != []
    ensures |EncodeName(name)| >= 2
  {
  }

  /** Of a plain encoding, the refused records are these. */
  lemma RefusedIsNoService(c: Codec, p: Reply, i: nat)
    requires ReplyEncodable(p) && i < |AllRecords(p)|
    ensures Refused(c, LayoutOf(p), i) <==> NoService(c, AllRecords(p)[i])
  {
    var r := AllRecords(p)[i];
    RecordSize(r);
    StartsApart(RecordPieces(AllRecords(p)), RecordsFrom(p), i);
    if r.data.Srv? && r.data.host != [] { LabelBytesLong(r.data.host); }
  }

  lemma RefusedAreNoService(c: Codec, p: Reply)
    requires ReplyEncodable(p)
    ensures forall i | 0 <= i < |AllRecords(p)| :: Refused(c, LayoutOf(p), i) <==> NoService(c, AllRecords(p)[i])
  {
    forall i | 0 <= i < |AllRecords(p)|
      ensures Refused(c, LayoutOf(p), i) <==> NoService(c, AllRecords(p)[i])
    {
      RefusedIsNoService(c, p, i);
    }
  }

  /** ingestPacket inverts the encoding of any reply: it absorbs exactly its records, in
      order and reads to the end, if and only if no instance states that it has no
      service; such a record, and all behind it, are lost. */
  lemma EncodingInverted(c: Codec, p: Reply, n: nat, srcAddr: string, s: Records)
    requires ReplyEncodable(p) && n <= |AllRecords(p)|
    requires forall i | 0 <= i < n :: !NoService(c, AllRecords(p)[i])
    requires n < |AllRecords(p)| ==> NoService(c, AllRecords(p)[n])
    ensures Ingested(c, Encode(p), srcAddr, s) ==
            Outcome(n == |AllRecords(p)|, AbsorbAll(c, AllRecords(p)[..n], srcAddr, s))
  {
    EncodedStands(p);
    RefusedAreNoService(c, p);
    WholePacket(c, Encode(p), LayoutOf(p), n, srcAddr, s);
  }

  /** A codec that reads each byte as one character. */
  const Latin := Codec(
    (t: string) => seq(|t|, i requires 0 <= i < |t| => (t[i] as int % 256) as byte),
    (b: seq<byte>) => seq(|b|, i requires 0 <= i < |b| => b[i] as char),
    (t: string) => t)

  /** The instance RobotWebServices_ and one more letter. */
  function InstanceName(letter: byte): Name {
    [[82, 111, 98, 111, 116, 87, 101, 98, 83, 101, 114, 118, 105, 99, 101, 115, 95, letter]]
  }

  lemma InstanceNamed(letter: byte)
    requires letter < 128
    ensures IsInstance(Latin, InstanceName(letter)) && Encodable(InstanceName(letter))
  {
    assert Latin.decode(InstanceName(letter)[0])[..17] == InstancePrefix;
  }

  /** An SRV record of such an instance. */
  function ServiceOf(letter: byte, port: nat, host: Name): Record {
    Record(InstanceName(letter), [0, 1, 0, 0, 0, 0], Srv(0, 0, port, host))
  }

  lemma ServiceEncodable(letter: byte, port: nat, host: Name)
    requires letter < 128 && port < 65536 && Encodable(host) && |EncodeName(host)| < 300
    ensures RecordEncodable(ServiceOf(letter, port, host))
    ensures NoService(Latin, ServiceOf(letter, port, host)) <==> host == []
  {
    InstanceNamed(letter);
  }

  /** Instance A has no service; instance B has one at port 80 of host "h". */
  function OneWithout(): Reply {
    Reply(0, 32768, [], [ServiceOf(65, 0, []), ServiceOf(66, 80, [[104]])], [], [])
  }

  lemma NoServiceFirst(c: Codec, p: Reply, srcAddr: string, s: Records)
    requires ReplyEncodable(p) && AllRecords(p) != [] && NoService(c, AllRecords(p)[0])
    ensures Ingested(c, Encode(p), srcAddr, s) == Outcome(false, s)
  {
    EncodingInverted(c, p, 0, srcAddr, s);
    assert AllRecords(p)[..0] == [];
  }

  lemma TwoAnswers(first: Record, second: Record)
    requires RecordEncodable(first) && RecordEncodable(second)
    ensures
      var p := Reply(0, 32768, [], [first, second], [], []);
      ReplyEncodable(p) && AllRecords(p) == [first, second]
  {
  }

  lemma OneWithoutFits()
    ensures ReplyEncodable(OneWithout()) && |AllRecords(OneWithout())| == 2
    ensures NoService(Latin, AllRecords(OneWithout())[0]) && !NoService(Latin, AllRecords(OneWithout())[1])
  {
    ServiceEncodable(65, 0, []);
    ServiceEncodable(66, 80, [[104]]);
    TwoAnswers(ServiceOf(65, 0, []), ServiceOf(66, 80, [[104]]));
  }

  /** Such a reply: it states that A has no service, and B's service behind it is lost. */
  lemma NoServiceLosesTheNext(srcAddr: string, s: Records)
    ensures ReplyEncodable(OneWithout()) && |AllRecords(OneWithout())| == 2
    ensures NoService(Latin, AllRecords(OneWithout())[0]) && !NoService(Latin, AllRecords(OneWithout())[1])
    ensures Ingested(Latin, Encode(OneWithout()), srcAddr, s) == Outcome(false, s)
  {
    OneWithoutFits();
    NoServiceFirst(Latin, OneWithout(), srcAddr, s);
  }

  // ─── Truncations ──────────────────────────────────────────────────────────

  /** Where record i of the encoding ends. */
  function EndOf(p: Reply, i: nat): nat
    requires ReplyEncodable(p) && i < |AllRecords(p)|
  {
    LayoutOf(p).rs[i + 1]
  }

  /** Record i lies wholly before the cut, and neither it nor one before it announces
      that an instance has no service. */
  predicate Survives(c: Codec, p: Reply, k: nat, i: nat)
    requires ReplyEncodable(p) && i < |AllRecords(p)|
  {
    EndOf(p, i) <= k && forall j | 0 <= j <= i :: !NoService(c, AllRecords(p)[j])
  }

  /** How many records survive a cut at k, from record i on. */
  function Surviving(c: Codec, p: Reply, k: nat, i: nat): (n: nat)
    requires ReplyEncodable(p) && i <= |AllRecords(p)|
    ensures i <= n <= |AllRecords(p)|
    ensures forall j | i <= j < n :: EndOf(p, j) <= k && !NoService(c, AllRecords(p)[j])
    ensures n < |AllRecords(p)| ==> !(EndOf(p, n) <= k && !NoService(c, AllRecords(p)[n]))
    decreases |AllRecords(p)| - i
  {
    if i < |AllRecords(p)| && EndOf(p, i) <= k && !NoService(c, AllRecords(p)[i]) then Surviving(c, p, k, i + 1) else i
  }

  lemma {:induction false} StartsAscend(pieces: seq<seq<byte>>, pos: nat, i: nat, j: nat)
    requires i <= j <= |pieces|
    ensures pos <= Starts(pieces, pos)[i] <= Starts(pieces, pos)[j]
    decreases j
  {
    if j > 0 {
      StartsApart(pieces, pos, j - 1);
      StartsAscend(pieces, pos, if i < j then i else j - 1, j - 1);
    }
  }

  lemma EndsAscend(p: Reply, i: nat, j: nat)
    requires ReplyEncodable(p) && i <= j < |AllRecords(p)|
    ensures 12 <= EndOf(p, i) <= EndOf(p, j)
  {
    StartsAscend(RecordPieces(AllRecords(p)), RecordsFrom(p), i + 1, j + 1);
  }

  /** The records that survive are the first ones. */
  lemma SurvivingAreFirst(c: Codec, p: Reply, k: nat, i: nat)
    requires ReplyEncodable(p) && i < |AllRecords(p)|
    ensures Survives(c, p, k, i) <==> i < Surviving(c, p, k, 0)
  {
    var n := Surviving(c, p, k, 0);
    if i < n {
      assert EndOf(p, i) <= k && forall j | 0 <= j <= i :: !NoService(c, AllRecords(p)[j]);
    } else if n < |AllRecords(p)| {
      EndsAscend(p, n, i);
    }
  }

  lemma TakenIs(c: Codec, p: Reply, k: nat, i: nat)
    requires ReplyEncodable(p) && i < |AllRecords(p)|
    ensures Taken(c, LayoutOf(p), i, k) <==> EndOf(p, i) <= k && !NoService(c, AllRecords(p)[i])
  {
    RefusedIsNoService(c, p, i);
  }

  lemma TruncationTakes(c: Codec, p: Reply, k: nat, n: nat, srcAddr: string, s: Records)
    requires ReplyEncodable(p) && 12 <= k <= |Encode(p)| && n == Surviving(c, p, k, 0)
    ensures Ingested(c, Encode(p)[..k], srcAddr, s).store == AbsorbAll(c, AllRecords(p)[..n], srcAddr, s)
  {
    var l := LayoutOf(p);
    EncodedStands(p);
    forall j | 0 <= j < n ensures Taken(c, l, j, k) { TakenIs(c, p, k, j); }
    if n < |AllRecords(p)| { TakenIs(c, p, k, n); }
    CutPacket(c, Encode(p), k, l, n, srcAddr, s);
  }

  /** Of an encoding cut anywhere, exactly these records are absorbed, in order: those
      that lie wholly before the cut, up to the first instance that has no service. */
  lemma TruncationAbsorbsWholeRecords(c: Codec, p: Reply, k: nat, srcAddr: string, s: Records)
    requires ReplyEncodable(p) && k <= |Encode(p)|
    ensures
      var n := Surviving(c, p, k, 0);
      && Ingested(c, Encode(p)[..k], srcAddr, s).store == AbsorbAll(c, AllRecords(p)[..n], srcAddr, s)
      && forall i | 0 <= i < |AllRecords(p)| :: Survives(c, p, k, i) <==> i < n
  {
    var n := Surviving(c, p, k, 0);
    forall i | 0 <= i < |AllRecords(p)| ensures Survives(c, p, k, i) <==> i < n { SurvivingAreFirst(c, p, k, i); }
    if k < 12 {
      if |AllRecords(p)| > 0 { EndsAscend(p, 0, 0); }
    } else {
      TruncationTakes(c, p, k, n, srcAddr, s);
    }
  }
}
