/** Reply packets as lists of records: what ingestPacket makes of a well-formed packet,
    compressed or not, and of every truncation of one. */
module DnsPackets {
  import opened DnsNames
  import opened DnsRecords

  type ClassAndTtl = b: seq<byte> | |b| == 6 witness [0, 1, 0, 0, 0, 120]

  datatype Data =
    | Ptr(target: Name)
    | Srv(priority: nat, weight: nat, port: nat, host: Name)
    | Txt(strings: seq<seq<byte>>)
    | Host(address: Address)
    | Other(rtype: nat, bytes: seq<byte>)

  datatype Record = Record(owner: Name, classAndTtl: ClassAndTtl, data: Data)

  function TypeOf(d: Data): nat {
    match d
    case Ptr(_) => TypePtr
    case Srv(_, _, _, _) => TypeSrv
    case Txt(_) => TypeTxt
    case Host(_) => TypeA
    case Other(rtype, _) => rtype
  }

  // ─── What records mean ────────────────────────────────────────────────────

  /** A PTR names an instance by its target; SRV and TXT data belong to the instance
      that owns them; an A record gives a host's address. */
  function Absorb(c: Codec, r: Record, srcAddr: string, s: Records): Records {
    match r.data
    case Ptr(target) =>
      if IsInstance(c, target) then Register(c, target, srcAddr, s) else s
    case Srv(_, _, port, host) =>
      if !IsInstance(c, r.owner) then s
      else
        var service := Service(Join(Decoded(c, host)), port);
        Register(c, r.owner, srcAddr, s).(srv := s.srv[Key(c, r.owner) := service])
    case Txt(strings) =>
      if !IsInstance(c, r.owner) then s
      else Register(c, r.owner, srcAddr, s).(txt := s.txt[Key(c, r.owner) := TxtOf(c, NonEmptyStrings(strings), map[])])
    case Host(address) => s.(a := s.a[Key(c, r.owner) := address])
    case Other(_, _) => s
  }

  function AbsorbAll(c: Codec, records: seq<Record>, srcAddr: string, s: Records): Records
    decreases |records|
  {
    if records == [] then s else AbsorbAll(c, records[1..], srcAddr, Absorb(c, records[0], srcAddr, s))
  }

  // ─── How they stand in a packet ───────────────────────────────────────────

  /** A name, compressed anyhow into what stands below `limit`. */
  ghost predicate NameStands(buf: seq<byte>, limit: nat, pos: nat, name: Name, next: nat)
    requires limit <= |buf|
  {
    exists hops: nat :: hops <= MaxJumps && Denotes(buf, limit, pos, name, hops, next)
  }

  ghost predicate NameBegins(buf: seq<byte>, limit: nat, pos: nat, name: Name)
    requires limit <= |buf|
  {
    exists next :: NameStands(buf, limit, pos, name, next)
  }

  ghost predicate DataStands(buf: seq<byte>, pos: nat, d: Data, end: nat)
    requires pos <= end <= |buf|
  {
    match d
    case Ptr(target) => NameBegins(buf, end, pos, target)
    case Srv(_, _, port, host) =>
      pos + 7 <= end && WordAt(buf, pos + 4) == port && NameBegins(buf, end, pos + 6, host)
    case Txt(strings) => TxtEncodable(strings) && buf[pos..end] == EncodeTxt(strings)
    case Host(address) => pos + 4 <= end && buf[pos..pos + 4] == address
    case Other(rtype, _) => rtype !in {TypePtr, TypeSrv, TypeTxt, TypeA}
  }

  /** The record from `pos` to `end`; its owner's name ends at `p`. */
  ghost predicate RecordStands(buf: seq<byte>, pos: nat, r: Record, p: nat, end: nat)
    requires end <= |buf|
  {
    && p + 10 <= end
    && NameStands(buf, end, pos, r.owner, p)
    && WordAt(buf, p) == TypeOf(r.data)
    && WordAt(buf, p + 8) == end - p - 10
    && DataStands(buf, p + 10, r.data, end)
  }

  /** Where the questions and records begin: one more offset than there are. */
  datatype Layout = Layout(questions: seq<Name>, qs: seq<nat>, records: seq<Record>, owners: seq<nat>, rs: seq<nat>)

  ghost predicate QuestionHere(buf: seq<byte>, l: Layout, i: nat)
    requires i < |l.questions| && |l.qs| == |l.questions| + 1
  {
    4 <= l.qs[i + 1] <= |buf| && NameStands(buf, l.qs[i + 1], l.qs[i], l.questions[i], l.qs[i + 1] - 4)
  }

  ghost predicate RecordHere(buf: seq<byte>, l: Layout, i: nat)
    requires i < |l.records| && |l.rs| == |l.records| + 1 && |l.owners| == |l.records|
  {
    l.rs[i + 1] <= |buf| && RecordStands(buf, l.rs[i], l.records[i], l.owners[i], l.rs[i + 1])
  }

  /** Record i lies wholly before k. */
  predicate EndsBefore(l: Layout, i: nat, k: nat)
    requires i + 1 < |l.rs|
  {
    l.rs[i + 1] <= k
  }

  /** The SRV data of an instance is refused below eight bytes: a target that is the root,
      written out. */
  predicate Refused(c: Codec, l: Layout, i: nat)
    requires i < |l.records| && |l.rs| == |l.records| + 1 && |l.owners| == |l.records|
  {
    l.records[i].data.Srv? && IsInstance(c, l.records[i].owner) && l.rs[i + 1] < l.owners[i] + 18
  }

  /** Record i lies wholly before k, and is not refused. */
  predicate Taken(c: Codec, l: Layout, i: nat, k: nat)
    requires i < |l.records| && |l.rs| == |l.records| + 1 && |l.owners| == |l.records|
  {
    EndsBefore(l, i, k) && !Refused(c, l, i)
  }

  ghost predicate RecordsStand(buf: seq<byte>, l: Layout) {
    && |l.rs| == |l.records| + 1 && |l.owners| == |l.records|
    && forall i | 0 <= i < |l.records| :: RecordHere(buf, l, i)
  }

  /** A response whose questions and records stand one behind the other. */
  ghost predicate Stands(buf: seq<byte>, l: Layout) {
    && |buf| >= 12 && buf[2] >= 128
    && WordAt(buf, 4) == |l.questions|
    && WordAt(buf, 6) + WordAt(buf, 8) + WordAt(buf, 10) == |l.records|
    && |l.qs| == |l.questions| + 1
    && RecordsStand(buf, l)
    && l.qs[0] == 12 && l.qs[|l.questions|] == l.rs[0]
    && (forall i | 0 <= i < |l.questions| :: QuestionHere(buf, l, i))
  }

  // ─── Reading one record ───────────────────────────────────────────────────

  lemma NameReads(buf: seq<byte>, limit: nat, pos: nat, name: Name, next: nat)
    requires limit <= |buf| && NameStands(buf, limit, pos, name, next)
    ensures NameAt(buf, pos, MaxJumps) == Ok(NameRead(name, next))
  {
    var hops: nat :| hops <= MaxJumps && Denotes(buf, limit, pos, name, hops, next);
    ReadsWhatStands(buf, limit, pos, name, hops, next, MaxJumps);
  }

  lemma NameInCut(buf: seq<byte>, limit: nat, k: nat, pos: nat, name: Name, next: nat)
    requires limit <= k <= |buf| && NameStands(buf, limit, pos, name, next)
    ensures NameStands(buf[..k], limit, pos, name, next)
  {
    var hops: nat :| hops <= MaxJumps && Denotes(buf, limit, pos, name, hops, next);
    StandsInCut(buf, limit, k, pos, name, hops, next);
  }

  /** Behind the cut a name reads not at all, or as it stands. */
  lemma NameOnCut(buf: seq<byte>, limit: nat, k: nat, pos: nat, name: Name, next: nat)
    requires limit <= |buf| && k <= |buf| && NameStands(buf, limit, pos, name, next)
    ensures NameAt(buf[..k], pos, MaxJumps).Err? || NameAt(buf[..k], pos, MaxJumps) == Ok(NameRead(name, next))
  {
    NameReads(buf, limit, pos, name, next);
    if NameAt(buf[..k], pos, MaxJumps).Ok? { CutReadsTheSame(buf, k, pos, MaxJumps); }
  }

  lemma DataReads(c: Codec, buf: seq<byte>, pos: nat, r: Record, end: nat, srcAddr: string, s: Records)
    requires pos <= end <= |buf| && DataStands(buf, pos, r.data, end)
    requires r.data.Srv? && IsInstance(c, r.owner) ==> pos + 8 <= end
    ensures DataStep(c, buf, r.owner, TypeOf(r.data), pos, end - pos, srcAddr, s) == Ok(Absorb(c, r, srcAddr, s))
  {
    match r.data
    case Ptr(target) =>
      var next :| NameStands(buf, end, pos, target, next);
      NameReads(buf, end, pos, target, next);
    case Srv(_, _, _, host) =>
      var next :| NameStands(buf, end, pos + 6, host, next);
      NameReads(buf, end, pos + 6, host, next);
    case Txt(strings) =>
      TxtReadBack(buf, pos, end, strings);
    case Host(_) =>
    case Other(_, _) =>
  }

  /** A record that stands is read to its end, and absorbed, or refused. */
  lemma RecordReads(c: Codec, buf: seq<byte>, pos: nat, r: Record, p: nat, end: nat, srcAddr: string, s: Records)
    requires end <= |buf| && RecordStands(buf, pos, r, p, end)
    ensures RecordStep(c, buf, pos, srcAddr, s) ==
            if r.data.Srv? && IsInstance(c, r.owner) && end < p + 18 then Err(())
            else Ok(Step(end, Absorb(c, r, srcAddr, s)))
  {
    NameReads(buf, end, pos, r.owner, p);
    RecordStepAt(c, buf, pos, r, p, end, srcAddr, s);
    if r.data.Srv? && IsInstance(c, r.owner) && end < p + 18 {
      assert DataStep(c, buf, r.owner, TypeSrv, p + 10, end - p - 10, srcAddr, s) == Err(());
    } else {
      DataReads(c, buf, p + 10, r, end, srcAddr, s);
    }
  }

  /** The header of a record that stands leads to its data. */
  lemma RecordStepAt(c: Codec, buf: seq<byte>, pos: nat, r: Record, p: nat, end: nat, srcAddr: string, s: Records)
    requires end <= |buf| && p + 10 <= end
    requires NameAt(buf, pos, MaxJumps) == Ok(NameRead(r.owner, p))
    requires WordAt(buf, p) == TypeOf(r.data) && WordAt(buf, p + 8) == end - p - 10
    ensures
      var done := DataStep(c, buf, r.owner, TypeOf(r.data), p + 10, end - p - 10, srcAddr, s);
      RecordStep(c, buf, pos, srcAddr, s) == if done.Err? then Err(()) else Ok(Step(end, done.value))
  {
  }

  lemma WordInCut(buf: seq<byte>, k: nat, pos: nat)
    requires pos + 2 <= k <= |buf|
    ensures WordAt(buf[..k], pos) == WordAt(buf, pos)
  {
  }

  lemma DataInCut(buf: seq<byte>, k: nat, pos: nat, d: Data, end: nat)
    requires pos <= end <= k <= |buf| && DataStands(buf, pos, d, end)
    ensures DataStands(buf[..k], pos, d, end)
  {
    match d
    case Ptr(target) =>
      var next :| NameStands(buf, end, pos, target, next);
      NameInCut(buf, end, k, pos, target, next);
    case Srv(_, _, _, host) =>
      var next :| NameStands(buf, end, pos + 6, host, next);
      NameInCut(buf, end, k, pos + 6, host, next);
      WordInCut(buf, k, pos + 4);
    case Txt(_) =>
      assert buf[..k][pos..end] == buf[pos..end];
    case Host(_) =>
      assert buf[..k][pos..pos + 4] == buf[pos..pos + 4];
    case Other(_, _) =>
  }

  lemma RecordInCut(buf: seq<byte>, k: nat, pos: nat, r: Record, p: nat, end: nat)
    requires end <= k <= |buf| && RecordStands(buf, pos, r, p, end)
    ensures RecordStands(buf[..k], pos, r, p, end)
  {
    NameInCut(buf, end, k, pos, r.owner, p);
    WordInCut(buf, k, p);
    WordInCut(buf, k, p + 8);
    DataInCut(buf, k, p + 10, r.data, end);
  }

  /** A record cut off before its end is not read, whatever is left of it. */
  lemma CutRecordFails(c: Codec, buf: seq<byte>, k: nat, pos: nat, r: Record, p: nat, end: nat, srcAddr: string, s: Records)
    requires k < end <= |buf| && RecordStands(buf, pos, r, p, end)
    ensures RecordStep(c, buf[..k], pos, srcAddr, s) == Err(())
  {
    NameOnCut(buf, end, k, pos, r.owner, p);
    if p + 10 <= k { WordInCut(buf, k, p + 8); }
  }

  // ─── Reading a packet ─────────────────────────────────────────────────────

  /** On the cut packet, record i is absorbed or ends the reading. */
  lemma RecordOnCut(c: Codec, buf: seq<byte>, k: nat, l: Layout, i: nat, srcAddr: string, s: Records)
    requires k <= |buf| && RecordsStand(buf, l) && i < |l.records|
    ensures RecordStep(c, buf[..k], l.rs[i], srcAddr, s) ==
            if Taken(c, l, i, k) then Ok(Step(l.rs[i + 1], Absorb(c, l.records[i], srcAddr, s))) else Err(())
  {
    assert RecordHere(buf, l, i);
    if EndsBefore(l, i, k) {
      RecordInCut(buf, k, l.rs[i], l.records[i], l.owners[i], l.rs[i + 1]);
      RecordReads(c, buf[..k], l.rs[i], l.records[i], l.owners[i], l.rs[i + 1], srcAddr, s);
    } else {
      CutRecordFails(c, buf, k, l.rs[i], l.records[i], l.owners[i], l.rs[i + 1], srcAddr, s);
    }
  }

  /** One round of the loop over the records of the cut packet. */
  lemma CutRound(c: Codec, buf: seq<byte>, k: nat, l: Layout, i: nat, srcAddr: string, s: Records)
    requires k <= |buf| && RecordsStand(buf, l) && i < |l.records|
    ensures ReadRecords(c, buf[..k], l.rs[i], |l.records| - i, srcAddr, s) ==
            if Taken(c, l, i, k)
            then ReadRecords(c, buf[..k], l.rs[i + 1], |l.records| - (i + 1), srcAddr, Absorb(c, l.records[i], srcAddr, s))
            else Outcome(false, s)
  {
    RecordOnCut(c, buf, k, l, i, srcAddr, s);
  }

  lemma AbsorbFirst(c: Codec, records: seq<Record>, i: nat, n: nat, srcAddr: string, s: Records)
    requires i < n <= |records|
    ensures AbsorbAll(c, records[i..n], srcAddr, s) ==
            AbsorbAll(c, records[i + 1..n], srcAddr, Absorb(c, records[i], srcAddr, s))
  {
    assert records[i..n][1..] == records[i + 1..n];
  }

  /** From record i on, with n records wholly before the cut. */
  lemma {:induction false} RecordsUpToCut(c: Codec, buf: seq<byte>, k: nat, l: Layout, i: nat, n: nat, srcAddr: string, s: Records)
    requires k <= |buf| && RecordsStand(buf, l) && i <= n <= |l.records|
    requires forall j | 0 <= j < n :: Taken(c, l, j, k)
    requires n < |l.records| ==> !Taken(c, l, n, k)
    ensures ReadRecords(c, buf[..k], l.rs[i], |l.records| - i, srcAddr, s) ==
            Outcome(n == |l.records|, AbsorbAll(c, l.records[i..n], srcAddr, s))
    decreases n - i
  {
    if i < |l.records| { CutRound(c, buf, k, l, i, srcAddr, s); }
    if i < n {
      RecordsUpToCut(c, buf, k, l, i + 1, n, srcAddr, Absorb(c, l.records[i], srcAddr, s));
      AbsorbFirst(c, l.records, i, n, srcAddr, s);
    }
  }

  lemma QuestionInCut(buf: seq<byte>, k: nat, l: Layout, i: nat, n: nat)
    requires k <= |buf| && i < |l.questions| && |l.qs| == |l.questions| + 1 && QuestionHere(buf, l, i) && n > 0
    ensures
      var skipped := SkipQuestions(buf[..k], l.qs[i], n);
      skipped == SkipQuestions(buf[..k], l.qs[i + 1], n - 1) || (skipped.Err? && k < l.qs[i + 1])
  {
    var name, next := l.questions[i], l.qs[i + 1] - 4;
    NameOnCut(buf, l.qs[i + 1], k, l.qs[i], name, next);
    if l.qs[i + 1] <= k {
      NameInCut(buf, l.qs[i + 1], k, l.qs[i], name, next);
      NameReads(buf[..k], l.qs[i + 1], l.qs[i], name, next);
    }
  }

  lemma {:induction false} QuestionsInCut(buf: seq<byte>, k: nat, l: Layout, i: nat)
    requires k <= |buf| && Stands(buf, l) && i <= |l.questions|
    ensures
      var skipped := SkipQuestions(buf[..k], l.qs[i], |l.questions| - i);
      skipped == Ok(l.rs[0]) || (skipped.Err? && k < l.rs[0])
    decreases |l.questions| - i
  {
    if i < |l.questions| {
      assert QuestionHere(buf, l, i);
      QuestionInCut(buf, k, l, i, |l.questions| - i);
      QuestionsInCut(buf, k, l, i + 1);
      QuestionsAscend(buf, l, i + 1);
    }
  }

  lemma {:induction false} QuestionsAscend(buf: seq<byte>, l: Layout, i: nat)
    requires Stands(buf, l) && i <= |l.questions|
    ensures l.qs[i] <= l.rs[0]
    decreases |l.questions| - i
  {
    if i < |l.questions| {
      assert QuestionHere(buf, l, i);
      NameReads(buf, l.qs[i + 1], l.qs[i], l.questions[i], l.qs[i + 1] - 4);
      ReadNameIsMeaning(buf, l.qs[i], l.questions[i], l.qs[i + 1] - 4);
      QuestionsAscend(buf, l, i + 1);
    }
  }

  lemma RecordAfterStart(buf: seq<byte>, pos: nat, r: Record, p: nat, end: nat)
    requires end <= |buf| && RecordStands(buf, pos, r, p, end)
    ensures pos < end
  {
    NameReads(buf, end, pos, r.owner, p);
    ReadNameIsMeaning(buf, pos, r.owner, p);
  }

  lemma IngestedCut(c: Codec, buf: seq<byte>, k: nat, l: Layout, srcAddr: string, s: Records)
    requires 12 <= k <= |buf| && Stands(buf, l)
    ensures
      var skipped := SkipQuestions(buf[..k], 12, |l.questions|);
      Ingested(c, buf[..k], srcAddr, s) ==
      if skipped.Err? then Outcome(false, s)
      else ReadRecords(c, buf[..k], skipped.value, |l.records|, srcAddr, s)
  {
    WordInCut(buf, k, 4);
    WordInCut(buf, k, 6);
    WordInCut(buf, k, 8);
    WordInCut(buf, k, 10);
  }

  /** A cut among the questions lies before every record. */
  lemma NoneBeforeCut(c: Codec, buf: seq<byte>, k: nat, l: Layout)
    requires Stands(buf, l) && |l.records| > 0 && k < l.rs[0]
    ensures !Taken(c, l, 0, k)
  {
    assert RecordHere(buf, l, 0);
    RecordAfterStart(buf, l.rs[0], l.records[0], l.owners[0], l.rs[1]);
  }

  /** Of a packet cut anywhere behind its header, exactly the records that lie wholly
      before the cut are absorbed, in order, up to the first that is refused; it reads
      to its end when these are all. */
  lemma CutPacket(c: Codec, buf: seq<byte>, k: nat, l: Layout, n: nat, srcAddr: string, s: Records)
    requires 12 <= k <= |buf| && Stands(buf, l) && n <= |l.records|
    requires forall j | 0 <= j < n :: Taken(c, l, j, k)
    requires n < |l.records| ==> !Taken(c, l, n, k)
    ensures Ingested(c, buf[..k], srcAddr, s).store == AbsorbAll(c, l.records[..n], srcAddr, s)
    ensures l.rs[0] <= k ==> (Ingested(c, buf[..k], srcAddr, s).ok <==> n == |l.records|)
  {
    IngestedCut(c, buf, k, l, srcAddr, s);
    QuestionsInCut(buf, k, l, 0);
    if SkipQuestions(buf[..k], 12, |l.questions|).Ok? {
      RecordsUpToCut(c, buf, k, l, 0, n, srcAddr, s);
      assert l.records[0..n] == l.records[..n];
    } else if |l.records| > 0 {
      NoneBeforeCut(c, buf, k, l);
    }
  }

  /** A whole packet is absorbed record by record, up to the first that is refused. */
  lemma WholePacket(c: Codec, buf: seq<byte>, l: Layout, n: nat, srcAddr: string, s: Records)
    requires Stands(buf, l) && n <= |l.records|
    requires forall j | 0 <= j < n :: !Refused(c, l, j)
    requires n < |l.records| ==> Refused(c, l, n)
    ensures Ingested(c, buf, srcAddr, s) == Outcome(n == |l.records|, AbsorbAll(c, l.records[..n], srcAddr, s))
  {
    assert buf[..|buf|] == buf;
    QuestionsEnd(buf, l);
    forall j | 0 <= j < n ensures Taken(c, l, j, |buf|) {
      assert RecordHere(buf, l, j) && !Refused(c, l, j);
    }
    CutPacket(c, buf, |buf|, l, n, srcAddr, s);
  }

  lemma QuestionsEnd(buf: seq<byte>, l: Layout)
    requires Stands(buf, l)
    ensures l.rs[0] <= |buf|
  {
    if |l.questions| == 0 {
      assert l.rs[0] == 12;
    } else {
      assert QuestionHere(buf, l, |l.questions| - 1);
    }
  }
}
