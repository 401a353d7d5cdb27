/** Domain names on the wire (sections 4.1.2 to 4.1.4 of RFC 1035): readName and
    buildPtrQuery. The text coding and the lower-casing of names are parameters. */
module DnsNames {

  type byte = x: int | 0 <= x < 256

  datatype Result<+T, +E> = Ok(value: T) | Err(error: E)

  /** UTF-8 and String.toLowerCase, as the runtime has them. */
  datatype Codec = Codec(
    encode: string -> seq<byte>,
    decode: seq<byte> -> string,
    lower: string -> string)

  /** What is needed of UTF-8: no byte reads as more than one UTF-16 unit, and no unit
      takes more than three bytes. */
  ghost predicate IsUtf8(c: Codec) {
    && (forall b :: |c.decode(b)| <= |b|)
    && (forall s :: |s| <= |c.encode(s)| <= 3 * |s|)
  }

  /** A label as it stands on the wire. */
  type Label = seq<byte>
  type Name = seq<Label>

  function Decoded(c: Codec, name: Name): (labels: seq<string>) {
    seq(|name|, i requires 0 <= i < |name| => c.decode(name[i]))
  }

  // ─── Reading a name ───────────────────────────────────────────────────────

  datatype Error = NamePastEnd | TruncatedPointer | PointerLoop | ReservedLabel | LabelPastEnd

  datatype NameRead = NameRead(name: Name, next: nat)

  const MaxJumps: nat := 64

  /** Where the pointer at `pos` points. */
  function Target(buf: seq<byte>, pos: nat): nat
    requires pos + 1 < |buf| && buf[pos] >= 192
  {
    var high: int, low: int := buf[pos], buf[pos + 1];
    (high - 192) * 256 + low
  }

  function Prepend(piece: Label, r: Result<NameRead, Error>): Result<NameRead, Error> {
    match r
    case Ok(read) => Ok(NameRead([piece] + read.name, read.next))
    case Err(_) => r
  }

  /** The name at `pos`, with `hops` pointers still allowed. */
  function NameAt(buf: seq<byte>, pos: nat, hops: nat): Result<NameRead, Error>
    decreases hops, |buf| - pos
  {
    if pos >= |buf| then Err(NamePastEnd)
    else
      var len := buf[pos];
      if len == 0 then Ok(NameRead([], pos + 1))
      else if len >= 192 then
        if pos + 1 >= |buf| then Err(TruncatedPointer)
        else if hops == 0 then Err(PointerLoop)
        else
          match NameAt(buf, Target(buf, pos), hops - 1)
          case Ok(read) => Ok(NameRead(read.name, pos + 2))
          case Err(e) => Err(e)
      else if len >= 64 then Err(ReservedLabel)
      else if pos + 1 + len > |buf| then Err(LabelPastEnd)
      else Prepend(buf[pos + 1..pos + 1 + len], NameAt(buf, pos + 1 + len, hops))
  }

  /** What the loop has read already, put before what it reads from here. */
  function After(name: Name, next: int, rest: Result<NameRead, Error>): Result<NameRead, Error> {
    match rest
    case Ok(read) => Ok(NameRead(name + read.name, if next < 0 then read.next else next))
    case Err(_) => rest
  }

  /** readName. Two bit tests become comparisons of bytes: both top bits set is at least
      192, any of them set at least 64. */
  method ReadName(c: Codec, buf: seq<byte>, offset: nat)
    returns (labels: seq<string>, next: nat, error: Result<(), Error>)
    ensures match NameAt(buf, offset, MaxJumps)
            case Ok(read) => error.Ok? && labels == Decoded(c, read.name) && next == read.next
            case Err(e) => error == Err(e)
  {
    ghost var name: Name := [];
    AfterNothing(NameAt(buf, offset, MaxJumps));
    var pos, jumps, past: int := offset, 0, -1;
    labels, next, error := [], 0, Ok(());
    while true
      invariant 0 <= pos && 0 <= jumps <= MaxJumps && labels == Decoded(c, name)
      invariant NameAt(buf, offset, MaxJumps) == After(name, past, NameAt(buf, pos, MaxJumps - jumps))
      decreases MaxJumps - jumps, if pos <= |buf| then |buf| - pos else 0
    {
      if pos >= |buf| { return labels, next, Err(NamePastEnd); }
      var len := buf[pos];
      if len == 0 {
        pos := pos + 1;
        break;
      }
      if len >= 192 {
        if pos + 1 >= |buf| { return labels, next, Err(TruncatedPointer); }
        if jumps == MaxJumps { return labels, next, Err(PointerLoop); }
        PointerStep(name, past, buf, pos, MaxJumps - jumps);
        jumps := jumps + 1;
        if past < 0 { past := pos + 2; }
        pos := Target(buf, pos);
      } else if len >= 64 {
        return labels, next, Err(ReservedLabel);
      } else {
        if pos + 1 + len > |buf| { return labels, next, Err(LabelPastEnd); }
        var piece := buf[pos + 1..pos + 1 + len];
        LabelStep(name, past, buf, pos, MaxJumps - jumps);
        labels := labels + [c.decode(piece)];
        name := name + [piece];
        pos := pos + 1 + len;
      }
    }
    next := if past < 0 then pos else past;
  }

  lemma AfterNothing(rest: Result<NameRead, Error>)
    ensures After([], -1, rest) == rest
  {
    if rest.Ok? { assert [] + rest.value.name == rest.value.name; }
  }

  lemma LabelStep(name: Name, past: int, buf: seq<byte>, pos: nat, hops: nat)
    requires pos < |buf| && 0 < buf[pos] < 64 && pos + 1 + buf[pos] <= |buf|
    ensures
      var piece := buf[pos + 1..pos + 1 + buf[pos]];
      After(name, past, NameAt(buf, pos, hops)) ==
      After(name + [piece], past, NameAt(buf, pos + 1 + buf[pos], hops))
  {
    var piece := buf[pos + 1..pos + 1 + buf[pos]];
    var rest := NameAt(buf, pos + 1 + buf[pos], hops);
    if rest.Ok? { assert name + ([piece] + rest.value.name) == name + [piece] + rest.value.name; }
  }

  lemma PointerStep(name: Name, past: int, buf: seq<byte>, pos: nat, hops: nat)
    requires pos + 1 < |buf| && buf[pos] >= 192 && hops > 0
    ensures After(name, past, NameAt(buf, pos, hops)) ==
            After(name, if past < 0 then pos + 2 else past, NameAt(buf, Target(buf, pos), hops - 1))
  {
  }

  // ─── What a compressed name means ─────────────────────────────────────────

  /** Section 4.1.4: two ones and the offset in 14 bits, the high byte first. */
  function EncodePointer(k: nat): (bytes: seq<byte>)
    requires k < 16384
    ensures |bytes| == 2
  {
    [192 + k / 256, k % 256]
  }

  /** A pointer to offset k stands at `pos`. */
  predicate PointsTo(buf: seq<byte>, pos: nat, k: nat) {
    pos + 2 <= |buf| && k < 16384 && buf[pos..pos + 2] == EncodePointer(k)
  }

  lemma PointsToTarget(buf: seq<byte>, pos: nat, k: nat)
    requires PointsTo(buf, pos, k)
    ensures buf[pos] >= 192 && Target(buf, pos) == k
  {
    assert buf[pos] == buf[pos..pos + 2][0] && buf[pos + 1] == buf[pos..pos + 2][1];
  }

  lemma TargetPointsTo(buf: seq<byte>, pos: nat)
    requires pos + 1 < |buf| && buf[pos] >= 192
    ensures PointsTo(buf, pos, Target(buf, pos))
  {
  }

  /** This label stands at `pos`, behind its length. */
  predicate LabelAt(buf: seq<byte>, pos: nat, head: Label) {
    pos + 1 + |head| <= |buf| && 1 <= |head| < 64 && buf[pos] == |head| && buf[pos + 1..pos + 1 + |head|] == head
  }

  /** Section 4.1.4: at `pos` stands `name`, by following exactly `hops` pointers and
      looking at no byte from `limit` on; `next` is just behind what stands at `pos`. */
  ghost predicate Denotes(buf: seq<byte>, limit: nat, pos: nat, name: Name, hops: nat, next: nat)
    requires limit <= |buf|
    decreases hops, |name|
  {
    pos < limit
    && (|| (name == [] && hops == 0 && buf[pos] == 0 && next == pos + 1)
        || (&& name != [] && LabelAt(buf, pos, name[0]) && pos + 1 + |name[0]| <= limit
            && Denotes(buf, limit, pos + 1 + |name[0]|, name[1..], hops, next))
        || (&& hops > 0 && pos + 1 < limit && next == pos + 2
            && exists k: nat, fewer: nat, behind: nat :: fewer + 1 == hops && PointsTo(buf, pos, k) &&
                 Denotes(buf, limit, k, name, fewer, behind)))
  }

  lemma PointerParts(buf: seq<byte>, limit: nat, pos: nat, name: Name, hops: nat, next: nat) returns (k: nat, behind: nat)
    requires limit <= |buf| && Denotes(buf, limit, pos, name, hops, next) && buf[pos] >= 192
    ensures hops > 0 && next == pos + 2 <= limit && Denotes(buf, limit, k, name, hops - 1, behind)
    ensures PointsTo(buf, pos, k) && Target(buf, pos) == k
  {
    var fewer: nat;
    k, fewer, behind :| fewer + 1 == hops && PointsTo(buf, pos, k) && Denotes(buf, limit, k, name, fewer, behind);
    PointsToTarget(buf, pos, k);
  }

  lemma LabelParts(buf: seq<byte>, limit: nat, pos: nat, name: Name, hops: nat, next: nat)
    requires limit <= |buf| && Denotes(buf, limit, pos, name, hops, next) && 0 < buf[pos] < 192
    ensures name != [] && LabelAt(buf, pos, name[0]) && pos + 1 + |name[0]| <= limit
    ensures Denotes(buf, limit, pos + 1 + |name[0]|, name[1..], hops, next)
  {
    forall k: nat | PointsTo(buf, pos, k) ensures buf[pos] >= 192 { PointsToTarget(buf, pos, k); }
  }

  lemma ReadsLabel(buf: seq<byte>, pos: nat, head: Label, hops: nat)
    requires LabelAt(buf, pos, head)
    ensures NameAt(buf, pos, hops) == Prepend(head, NameAt(buf, pos + 1 + |head|, hops))
  {
  }

  lemma ReadsPointer(buf: seq<byte>, pos: nat, hops: nat)
    requires pos + 1 < |buf| && buf[pos] >= 192 && hops > 0
    ensures
      var r := NameAt(buf, Target(buf, pos), hops - 1);
      NameAt(buf, pos, hops) == if r.Ok? then Ok(NameRead(r.value.name, pos + 2)) else r
  {
  }

  /** A name that stands at `pos` is read, however it is compressed, when the chain of
      pointers is short enough. */
  lemma {:induction false} ReadsWhatStands(buf: seq<byte>, limit: nat, pos: nat, name: Name, hops: nat, next: nat, allowed: nat)
    requires limit <= |buf| && Denotes(buf, limit, pos, name, hops, next) && hops <= allowed
    ensures NameAt(buf, pos, allowed) == Ok(NameRead(name, next))
    decreases hops, |name|
  {
    if buf[pos] >= 192 {
      var k, behind := PointerParts(buf, limit, pos, name, hops, next);
      ReadsWhatStands(buf, limit, k, name, hops - 1, behind, allowed - 1);
      ReadsPointer(buf, pos, allowed);
    } else if buf[pos] > 0 {
      LabelParts(buf, limit, pos, name, hops, next);
      ReadsWhatStands(buf, limit, pos + 1 + |name[0]|, name[1..], hops, next, allowed);
      ReadsLabel(buf, pos, name[0], allowed);
      assert name == [name[0]] + name[1..];
    }
  }

  /** What is read stands there. */
  lemma {:induction false} StandsWhatIsRead(buf: seq<byte>, pos: nat, allowed: nat) returns (hops: nat)
    requires NameAt(buf, pos, allowed).Ok?
    ensures hops <= allowed
    ensures
      var read := NameAt(buf, pos, allowed).value;
      Denotes(buf, |buf|, pos, read.name, hops, read.next) && pos < read.next <= |buf|
    decreases allowed, |buf| - pos
  {
    var len := buf[pos];
    if len == 0 {
      hops := 0;
    } else if len >= 192 {
      TargetPointsTo(buf, pos);
      hops := StandsWhatIsRead(buf, Target(buf, pos), allowed - 1);
      hops := hops + 1;
    } else {
      hops := StandsWhatIsRead(buf, pos + 1 + len, allowed);
    }
  }

  /** readName succeeds with a name exactly when that name stands at the offset behind at
      most 64 pointers; the offset it returns then lies behind the name's first byte
      and within the packet. */
  lemma ReadNameIsMeaning(buf: seq<byte>, pos: nat, name: Name, next: nat)
    ensures NameAt(buf, pos, MaxJumps) == Ok(NameRead(name, next)) <==>
            exists hops: nat :: hops <= MaxJumps && Denotes(buf, |buf|, pos, name, hops, next)
    ensures NameAt(buf, pos, MaxJumps) == Ok(NameRead(name, next)) ==> pos < next <= |buf|
  {
    if NameAt(buf, pos, MaxJumps) == Ok(NameRead(name, next)) {
      var hops := StandsWhatIsRead(buf, pos, MaxJumps);
      assert Denotes(buf, |buf|, pos, name, hops, next);
    }
    if hops: nat :| hops <= MaxJumps && Denotes(buf, |buf|, pos, name, hops, next) {
      ReadsWhatStands(buf, |buf|, pos, name, hops, next, MaxJumps);
    }
  }

  /** A pointer to itself is one of the names refused. */
  lemma {:induction false} PointerToItself(buf: seq<byte>, pos: nat, hops: nat)
    requires PointsTo(buf, pos, pos)
    ensures NameAt(buf, pos, hops) == Err(PointerLoop)
  {
    PointsToTarget(buf, pos, pos);
    if hops > 0 { PointerToItself(buf, pos, hops - 1); }
  }

  /** Cutting bytes off behind the ones looked at changes nothing. */
  lemma {:induction false} StandsInCut(buf: seq<byte>, limit: nat, k: nat, pos: nat, name: Name, hops: nat, next: nat)
    requires limit <= k <= |buf| && Denotes(buf, limit, pos, name, hops, next)
    ensures Denotes(buf[..k], limit, pos, name, hops, next)
    decreases hops, |name|
  {
    if buf[pos] >= 192 {
      var to, behind := PointerParts(buf, limit, pos, name, hops, next);
      StandsInCut(buf, limit, k, to, name, hops - 1, behind);
      assert buf[..k][pos..pos + 2] == buf[pos..pos + 2];
    } else if name != [] {
      StandsInCut(buf, limit, k, pos + 1 + |name[0]|, name[1..], hops, next);
      assert buf[..k][pos + 1..pos + 1 + |name[0]|] == buf[pos + 1..pos + 1 + |name[0]|];
    }
  }

  /** What a cut packet still reads as a name, the whole packet reads the same. */
  lemma {:induction false} CutReadsTheSame(buf: seq<byte>, k: nat, pos: nat, hops: nat)
    requires k <= |buf| && NameAt(buf[..k], pos, hops).Ok?
    ensures NameAt(buf, pos, hops) == NameAt(buf[..k], pos, hops)
    decreases hops, |buf| - pos
  {
    var len := buf[pos];
    if len >= 192 {
      assert Target(buf[..k], pos) == Target(buf, pos);
      CutReadsTheSame(buf, k, Target(buf, pos), hops - 1);
    } else if len > 0 {
      assert buf[..k][pos + 1..pos + 1 + len] == buf[pos + 1..pos + 1 + len];
      CutReadsTheSame(buf, k, pos + 1 + len, hops);
    }
  }

  /** No label read has more than 63 bytes. */
  lemma {:induction false} LabelsReadAreShort(buf: seq<byte>, pos: nat, hops: nat)
    requires NameAt(buf, pos, hops).Ok?
    ensures forall piece | piece in NameAt(buf, pos, hops).value.name :: 1 <= |piece| < 64
    decreases hops, |buf| - pos
  {
    var len := buf[pos];
    if len >= 192 {
      LabelsReadAreShort(buf, Target(buf, pos), hops - 1);
    } else if len > 0 {
      LabelsReadAreShort(buf, pos + 1 + len, hops);
    }
  }

  // ─── Writing a name ───────────────────────────────────────────────────────

  predicate Encodable(name: Name) {
    forall i | 0 <= i < |name| :: 1 <= |name[i]| < 64
  }

  /** Length and bytes of each label; the length is stored as one byte. */
  function LabelBytes(name: Name): seq<byte> {
    if name == [] then [] else [|name[0]| % 256] + name[0] + LabelBytes(name[1..])
  }

  function EncodeName(name: Name): (bytes: seq<byte>)
    ensures |bytes| > 0
  {
    LabelBytes(name) + [0]
  }

  /** A part of a part. */
  lemma Slice(buf: seq<byte>, pos: nat, n: nat, i: nat, j: nat)
    requires pos + n <= |buf| && i <= j <= n
    ensures buf[pos..pos + n][i..j] == buf[pos + i..pos + j]
  {
    var all := buf[pos..pos + n];
    forall k | 0 <= k < j - i ensures all[i..j][k] == buf[pos + i..pos + j][k] {
      assert all[i..j][k] == all[i + k] == buf[pos + (i + k)];
    }
  }

  /** Bytes behind their count. */
  lemma Counted(buf: seq<byte>, pos: nat, bytes: seq<byte>, rest: seq<byte>)
    requires |bytes| < 256 && pos + 1 + |bytes| + |rest| <= |buf|
    requires buf[pos..pos + 1 + |bytes| + |rest|] == [|bytes| as byte] + bytes + rest
    ensures buf[pos] == |bytes|
    ensures buf[pos + 1..pos + 1 + |bytes|] == bytes
    ensures buf[pos + 1 + |bytes|..pos + 1 + |bytes| + |rest|] == rest
  {
    var n := |bytes|;
    var all := [n as byte] + bytes + rest;
    assert buf[pos] == all[0];
    Slice(buf, pos, |all|, 1, 1 + n);
    assert all[1..1 + n] == bytes;
    Slice(buf, pos, |all|, 1 + n, |all|);
    assert all[1 + n..] == rest;
  }

  /** A plainly encoded name stands where it was written. */
  lemma {:induction false} EncodedNameStands(buf: seq<byte>, pos: nat, name: Name)
    requires Encodable(name) && pos + |EncodeName(name)| <= |buf|
    requires buf[pos..pos + |EncodeName(name)|] == EncodeName(name)
    ensures Denotes(buf, pos + |EncodeName(name)|, pos, name, 0, pos + |EncodeName(name)|)
    decreases |name|
  {
    if name != [] {
      var rest := EncodeName(name[1..]);
      assert EncodeName(name) == [|name[0]| as byte] + name[0] + rest;
      Counted(buf, pos, name[0], rest);
      EncodedNameStands(buf, pos + 1 + |name[0]|, name[1..]);
    } else {
      assert buf[pos] == EncodeName(name)[0];
    }
  }

  /** Labels, and for the rest of the name a pointer to where it stands. */
  function Compressed(labels: Name, k: nat): (bytes: seq<byte>)
    requires k < 16384
  {
    LabelBytes(labels) + EncodePointer(k)
  }

  lemma LabelStands(buf: seq<byte>, limit: nat, pos: nat, head: Label, rest: Name, hops: nat, next: nat)
    requires LabelAt(buf, pos, head) && pos + 1 + |head| <= limit <= |buf|
    requires Denotes(buf, limit, pos + 1 + |head|, rest, hops, next)
    ensures Denotes(buf, limit, pos, [head] + rest, hops, next)
  {
    assert ([head] + rest)[1..] == rest;
  }

  lemma PointerStands(buf: seq<byte>, limit: nat, pos: nat, k: nat, name: Name, hops: nat, behind: nat)
    requires PointsTo(buf, pos, k) && pos + 2 <= limit <= |buf| && Denotes(buf, limit, k, name, hops, behind)
    ensures Denotes(buf, limit, pos, name, hops + 1, pos + 2)
  {
  }

  lemma FirstJoins(labels: Name, rest: Name)
    requires labels != []
    ensures labels + rest == [labels[0]] + (labels[1..] + rest)
  {
  }

  lemma CountedLabel(buf: seq<byte>, pos: nat, head: Label, more: seq<byte>, all: seq<byte>)
    requires 1 <= |head| < 64 && all == [|head| as byte] + head + more
    requires pos + |all| <= |buf| && buf[pos..pos + |all|] == all
    ensures LabelAt(buf, pos, head) && |all| == 1 + |head| + |more|
    ensures buf[pos + 1 + |head|..pos + 1 + |head| + |more|] == more
  {
    Counted(buf, pos, head, more);
  }

  lemma FirstLabelBytes(labels: Name)
    requires labels != [] && |labels[0]| < 64
    ensures LabelBytes(labels) == [|labels[0]| as byte] + labels[0] + LabelBytes(labels[1..])
  {
    assert |labels[0]| % 256 == |labels[0]|;
  }

  lemma RestEncodable(labels: Name)
    requires Encodable(labels) && labels != []
    ensures 1 <= |labels[0]| < 64 && Encodable(labels[1..])
  {
  }

  /** Labels written before what stands behind them. */
  lemma {:induction false} LabelsStand(buf: seq<byte>, limit: nat, pos: nat, labels: Name, rest: Name, hops: nat, next: nat)
    requires Encodable(labels) && pos + |LabelBytes(labels)| <= limit <= |buf|
    requires buf[pos..pos + |LabelBytes(labels)|] == LabelBytes(labels)
    requires Denotes(buf, limit, pos + |LabelBytes(labels)|, rest, hops, next)
    ensures Denotes(buf, limit, pos, labels + rest, hops, next)
    decreases |labels|
  {
    if labels == [] {
      assert labels + rest == rest;
    } else {
      RestEncodable(labels);
      FirstLabelBytes(labels);
      CountedLabel(buf, pos, labels[0], LabelBytes(labels[1..]), LabelBytes(labels));
      LabelsStand(buf, limit, pos + 1 + |labels[0]|, labels[1..], rest, hops, next);
      LabelStands(buf, limit, pos, labels[0], labels[1..] + rest, hops, next);
      FirstJoins(labels, rest);
    }
  }

  lemma CompressedParts(buf: seq<byte>, pos: nat, labels: Name, k: nat)
    requires k < 16384 && pos + |Compressed(labels, k)| <= |buf|
    requires buf[pos..pos + |Compressed(labels, k)|] == Compressed(labels, k)
    ensures
      var n := |LabelBytes(labels)|;
      |Compressed(labels, k)| == n + 2 && buf[pos..pos + n] == LabelBytes(labels) && PointsTo(buf, pos + n, k)
  {
    var bytes, pointer := LabelBytes(labels), EncodePointer(k);
    var n, all := |bytes|, bytes + pointer;
    Slice(buf, pos, |all|, 0, n);
    Slice(buf, pos, |all|, n, |all|);
    assert all[0..n] == bytes && all[n..|all|] == pointer;
  }

  /** A compressed name stands where it was written. */
  lemma CompressedStands(buf: seq<byte>, limit: nat, pos: nat, labels: Name, k: nat, rest: Name, hops: nat, behind: nat)
    requires Encodable(labels) && k < 16384 && pos + |Compressed(labels, k)| <= limit <= |buf|
    requires buf[pos..pos + |Compressed(labels, k)|] == Compressed(labels, k)
    requires Denotes(buf, limit, k, rest, hops, behind)
    ensures Denotes(buf, limit, pos, labels + rest, hops + 1, pos + |Compressed(labels, k)|)
  {
    CompressedParts(buf, pos, labels, k);
    PointerStands(buf, limit, pos + |LabelBytes(labels)|, k, rest, hops, behind);
    LabelsStand(buf, limit, pos, labels, rest, hops + 1, pos + |Compressed(labels, k)|);
  }

  /** So whatever name stands at an offset below 2^14 is read wherever labels and a pointer
      to it are written, compressed again or not. */
  lemma CompressedReadBack(buf: seq<byte>, pos: nat, labels: Name, k: nat, rest: Name, hops: nat, behind: nat)
    requires Encodable(labels) && k < 16384 && pos + |Compressed(labels, k)| <= |buf|
    requires buf[pos..pos + |Compressed(labels, k)|] == Compressed(labels, k)
    requires Denotes(buf, |buf|, k, rest, hops, behind) && hops < MaxJumps
    ensures NameAt(buf, pos, MaxJumps) == Ok(NameRead(labels + rest, pos + |Compressed(labels, k)|))
  {
    CompressedStands(buf, |buf|, pos, labels, k, rest, hops, behind);
    ReadsWhatStands(buf, |buf|, pos, labels + rest, hops + 1, pos + |Compressed(labels, k)|, MaxJumps);
  }

  // ─── The query ────────────────────────────────────────────────────────────

  function Word(n: int): seq<byte>
    requires 0 <= n < 65536
  {
    [n / 256, n % 256]
  }

  /** String.split('.'). */
  function Split(s: string): (parts: seq<string>)
    ensures |parts| > 0
  {
    if s == "" then [""]
    else
      var rest := Split(s[1..]);
      if s[0] == '.' then [""] + rest else [[s[0]] + rest[0]] + rest[1..]
  }

  /** Array.join('.'). */
  function Join(parts: seq<string>): string {
    if parts == [] then "" else if |parts| == 1 then parts[0] else parts[0] + "." + Join(parts[1..])
  }

  /** The parts are the dot-free strings that give the name back. */
  lemma {:induction false} SplitJoins(s: string)
    ensures Join(Split(s)) == s
    ensures forall i | 0 <= i < |Split(s)| :: '.' !in Split(s)[i]
  {
    if s != "" {
      SplitJoins(s[1..]);
      var rest := Split(s[1..]);
      if s[0] == '.' {
        assert ([""] + rest)[1..] == rest;
        assert s == "." + s[1..];
      } else {
        var parts := [[s[0]] + rest[0]] + rest[1..];
        assert parts[1..] == rest[1..];
        assert s == [s[0]] + s[1..];
        if |rest| > 1 {
          assert Join(parts) == [s[0]] + rest[0] + "." + Join(rest[1..]);
          assert Join(parts) == [s[0]] + (rest[0] + "." + Join(rest[1..]));
        }
      }
    }
  }

  function NonEmpty(parts: seq<string>): (labels: seq<string>)
    ensures forall l | l in labels :: l != "" && l in parts
  {
    if parts == [] then []
    else if parts[0] == "" then NonEmpty(parts[1..])
    else [parts[0]] + NonEmpty(parts[1..])
  }

  function Encoded(c: Codec, labels: seq<string>): Name {
    seq(|labels|, i requires 0 <= i < |labels| => c.encode(labels[i]))
  }

  function Labels(name: string): seq<string> {
    NonEmpty(Split(name))
  }

  /** The labels between the dots of `name`, as a one-question PTR query. */
  function Query(c: Codec, name: string, id: int): seq<byte>
    requires 0 <= id < 65536
  {
    Word(id) + Word(0) + Word(1) + Word(0) + Word(0) + Word(0)
    + EncodeName(Encoded(c, Labels(name))) + Word(12) + Word(1)
  }

  lemma LabelBytesPrepend(c: Codec, parts: seq<string>)
    requires parts != [] && parts[0] != ""
    ensures LabelBytes(Encoded(c, NonEmpty(parts))) ==
            [|c.encode(parts[0])| % 256] + c.encode(parts[0]) + LabelBytes(Encoded(c, NonEmpty(parts[1..])))
  {
    var labels := NonEmpty(parts);
    assert Encoded(c, labels)[1..] == Encoded(c, labels[1..]);
    assert labels[1..] == NonEmpty(parts[1..]);
  }

  /** buildPtrQuery. */
  method BuildPtrQuery(c: Codec, name: string, id: int) returns (query: seq<byte>)
    requires 0 <= id < 65536
    ensures query == Query(c, name, id)
  {
    query := Word(id) + Word(0) + Word(1) + Word(0) + Word(0) + Word(0);
    ghost var header := query;
    var parts := Split(name);
    ghost var all := LabelBytes(Encoded(c, NonEmpty(parts)));
    for i := 0 to |parts|
      invariant query + LabelBytes(Encoded(c, NonEmpty(parts[i..]))) == header + all
    {
      var piece := parts[i];
      assert parts[i..][1..] == parts[i + 1..];
      if |piece| == 0 { continue; }
      LabelBytesPrepend(c, parts[i..]);
      var lb := c.encode(piece);
      ghost var rest := LabelBytes(Encoded(c, NonEmpty(parts[i + 1..])));
      assert query + ([|lb| % 256] + lb + rest) == query + [|lb| % 256] + lb + rest;
      query := query + [|lb| % 256] + lb;
    }
    assert Encoded(c, NonEmpty(parts[|parts|..])) == [];
    assert query == header + all;
    query := query + ([0] + Word(12) + Word(1));
    assert query == header + (all + [0]) + Word(12) + Word(1);
  }

  /** A label of 64 to 191 bytes behind short ones is refused as reserved. */
  lemma {:induction false} LongLabelRefused(buf: seq<byte>, pos: nat, name: Name, i: nat, hops: nat)
    requires pos + |LabelBytes(name)| <= |buf| && buf[pos..pos + |LabelBytes(name)|] == LabelBytes(name)
    requires forall i | 0 <= i < |name| :: 1 <= |name[i]| < 192
    requires i < |name| && |name[i]| >= 64
    ensures NameAt(buf, pos, hops) == Err(ReservedLabel)
    decreases |name|
  {
    var l := |name[0]|;
    Counted(buf, pos, name[0], LabelBytes(name[1..]));
    if l < 64 {
      LongLabelRefused(buf, pos + 1 + l, name[1..], i - 1, hops);
    }
  }

  /** The query's bytes, and its name among them. */
  lemma QueryLayout(c: Codec, name: string, id: int)
    requires 0 <= id < 65536
    ensures
      var wire := Encoded(c, Labels(name));
      var query := Query(c, name, id);
      var n := |EncodeName(wire)|;
      && |query| == 12 + n + 4
      && query[12..12 + n] == EncodeName(wire)
      && query[12..12 + n - 1] == LabelBytes(wire)
  {
    var wire := Encoded(c, Labels(name));
    var query := Query(c, name, id);
    var bytes := EncodeName(wire);
    var header := Word(id) + Word(0) + Word(1) + Word(0) + Word(0) + Word(0);
    assert query == header + bytes + Word(12) + Word(1);
    assert query[12..12 + |bytes|] == bytes;
    assert query[12..12 + |bytes| - 1] == bytes[..|bytes| - 1];
  }

  /** Labels read from anywhere are too short for one of 192 bytes. */
  lemma LabelsReadFit(c: Codec, labels: seq<string>, buf: seq<byte>, pos: nat, read: NameRead)
    requires IsUtf8(c) && NameAt(buf, pos, MaxJumps) == Ok(read) && Decoded(c, read.name) == labels
    ensures forall i | 0 <= i < |labels| :: |c.encode(labels[i])| < 192
  {
    LabelsReadAreShort(buf, pos, MaxJumps);
    forall i | 0 <= i < |labels| ensures |c.encode(labels[i])| < 192 {
      assert labels[i] == Decoded(c, read.name)[i] == c.decode(read.name[i]);
      assert read.name[i] in read.name;
    }
  }

  lemma ShortLabelsReadBack(c: Codec, name: string, id: int)
    requires 0 <= id < 65536 && IsUtf8(c)
    requires forall l | l in Labels(name) :: c.decode(c.encode(l)) == l && |c.encode(l)| < 64
    ensures
      var query := Query(c, name, id);
      var wire := Encoded(c, Labels(name));
      NameAt(query, 12, MaxJumps) == Ok(NameRead(wire, |query| - 4)) && Decoded(c, wire) == Labels(name)
  {
    var labels := Labels(name);
    var wire := Encoded(c, labels);
    var query := Query(c, name, id);
    var end := 12 + |EncodeName(wire)|;
    QueryLayout(c, name, id);
    forall i | 0 <= i < |wire| ensures 1 <= |wire[i]| < 64 && c.decode(wire[i]) == labels[i] {
      assert labels[i] in labels;
    }
    EncodedNameStands(query, 12, wire);
    ReadsWhatStands(query, end, 12, wire, 0, end, MaxJumps);
  }

  lemma LongLabelsLost(c: Codec, name: string, id: int, read: NameRead)
    requires 0 <= id < 65536 && IsUtf8(c)
    requires exists l :: l in Labels(name) && |c.encode(l)| >= 64
    ensures !(NameAt(Query(c, name, id), 12, MaxJumps) == Ok(read) && Decoded(c, read.name) == Labels(name))
  {
    var labels := Labels(name);
    var wire := Encoded(c, labels);
    var query := Query(c, name, id);
    if NameAt(query, 12, MaxJumps) == Ok(read) && Decoded(c, read.name) == labels {
      LabelsReadFit(c, labels, query, 12, read);
      forall i | 0 <= i < |wire| ensures 1 <= |wire[i]| < 192 {
        assert labels[i] in labels;
      }
      var l :| l in labels && |c.encode(l)| >= 64;
      var i :| 0 <= i < |labels| && labels[i] == l;
      assert |wire[i]| >= 64;
      QueryLayout(c, name, id);
      LongLabelRefused(query, 12, wire, i, MaxJumps);
    }
  }

  /** The query's name is read back as the labels it was built from exactly when each
      takes at most 63 bytes. */
  lemma QueryReadBack(c: Codec, name: string, id: int)
    requires 0 <= id < 65536 && IsUtf8(c)
    requires forall l | l in Labels(name) :: c.decode(c.encode(l)) == l
    ensures
      var read := NameAt(Query(c, name, id), 12, MaxJumps);
      (read.Ok? && Decoded(c, read.value.name) == Labels(name))
      <==> forall l | l in Labels(name) :: |c.encode(l)| < 64
    ensures
      var read := NameAt(Query(c, name, id), 12, MaxJumps);
      (forall l | l in Labels(name) :: |c.encode(l)| < 64) ==>
        read.Ok? && read.value.next == |Query(c, name, id)| - 4
  {
    if forall l | l in Labels(name) :: |c.encode(l)| < 64 {
      ShortLabelsReadBack(c, name, id);
    } else if NameAt(Query(c, name, id), 12, MaxJumps).Ok? {
      LongLabelsLost(c, name, id, NameAt(Query(c, name, id), 12, MaxJumps).value);
    }
  }
}
