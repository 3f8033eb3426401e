/** The secret stream: the writer of the control plane and the reader of the target runner
    (`internal/targetgateway/execution_helpers.go`, `internal/targetrunner/parts/01.inc` and
    `02.inc`). */
module SecretStream {
  import opened Prelude

  datatype Secret = Secret(id: bytes, value: bytes)

  const MAX_ID := 4096
  const MAX_VALUE := 0x400_0000

  /** "VPSMITH-SECRETS-1" and a line feed. */
  const MAGIC: bytes := [0x56, 0x50, 0x53, 0x4d, 0x49, 0x54, 0x48, 0x2d, 0x53, 0x45, 0x43, 0x52, 0x45, 0x54, 0x53, 0x2d, 0x31, 0x0a]

  // ---------- Big-endian numbers ----------

  function Power(k: nat): (p: nat)
    ensures p >= 1
  {
    if k == 0 then 1 else 256 * Power(k - 1)
  }

  /** The k low-order bytes of n, most significant first. */
  function Big(n: nat, k: nat): (b: bytes)
    ensures |b| == k
  {
    if k == 0 then [] else Big(n / 256, k - 1) + [(n % 256) as byte]
  }

  /** The value of the first k bytes. */
  function Digits(b: bytes, k: nat): nat
    requires k <= |b|
  {
    if k == 0 then 0 else 256 * Digits(b, k - 1) + b[k - 1] as nat
  }

  function Number(b: bytes): nat { Digits(b, |b|) }

  lemma {:induction false} DigitsAgree(a: bytes, b: bytes, k: nat)
    requires k <= |a| && k <= |b| && forall i :: 0 <= i < k ==> a[i] == b[i]
    ensures Digits(a, k) == Digits(b, k)
    decreases k
  {
    if k > 0 {
      DigitsAgree(a, b, k - 1);
    }
  }

  lemma {:induction false} NumberOfBig(n: nat, k: nat)
    requires n < Power(k)
    ensures Number(Big(n, k)) == n
    decreases k
  {
    if k > 0 {
      assert n / 256 < Power(k - 1);
      NumberOfBig(n / 256, k - 1);
      DigitsAgree(Big(n, k), Big(n / 256, k - 1), k - 1);
    }
  }

  /** A number of eight bytes whose first byte is not zero exceeds every admissible size. */
  lemma LeadingByte(b: bytes)
    requires |b| == 8 && b[0] != 0
    ensures Number(b) > MAX_VALUE
  {
    assert Digits(b, 1) == b[0] as nat;
    assert Digits(b, 2) >= 0x100 && Digits(b, 3) >= 0x1_0000 && Digits(b, 4) >= 0x100_0000;
    assert Digits(b, 5) >= 0x1_0000_0000 && Digits(b, 6) >= 0x1_0000_0000 && Digits(b, 7) >= 0x1_0000_0000;
  }

  // ---------- Writing ----------

  predicate Sendable(v: Secret) { 0 < |v.id| <= MAX_ID && 0 < |v.value| }

  predicate DistinctIds(values: seq<Secret>) { forall i, j :: 0 <= i < j < |values| ==> values[i].id != values[j].id }

  function Record(v: Secret): bytes { Big(|v.id|, 4) + v.id + Big(|v.value|, 8) + v.value }

  function Records(values: seq<Secret>): bytes {
    if values == [] then [] else Record(values[0]) + Records(values[1..])
  }

  function Encoded(values: seq<Secret>): bytes { MAGIC + Records(values) + Big(0, 4) }

  lemma {:induction false} RecordsSnoc(values: seq<Secret>, v: Secret)
    ensures Records(values + [v]) == Records(values) + Record(v)
    decreases |values|
  {
    if values == [] {
      assert values + [v] == [v] && [v][1..] == [];
    } else {
      assert (values + [v])[1..] == values[1..] + [v];
      RecordsSnoc(values[1..], v);
    }
  }

  lemma AppendRecord(values: seq<Secret>, i: nat)
    requires i < |values|
    ensures Records(values[..i + 1]) == Records(values[..i]) + Record(values[i])
  {
    RecordsSnoc(values[..i], values[i]);
    assert values[..i] + [values[i]] == values[..i + 1];
  }

  ghost predicate Seen(values: seq<Secret>, i: nat, seen: set<bytes>) {
    && i <= |values|
    && (forall k :: 0 <= k < i ==> Sendable(values[k]) && values[k].id in seen)
    && (forall id :: id in seen ==> exists k :: 0 <= k < i && values[k].id == id)
    && (forall j, k :: 0 <= j < k < i ==> values[j].id != values[k].id)
  }

  lemma SeenOneMore(values: seq<Secret>, i: nat, seen: set<bytes>)
    requires i < |values| && Seen(values, i, seen) && Sendable(values[i]) && values[i].id !in seen
    ensures Seen(values, i + 1, seen + {values[i].id})
  {
    forall id | id in seen + {values[i].id} ensures exists k :: 0 <= k < i + 1 && values[k].id == id {
      if id in seen {
        var k :| 0 <= k < i && values[k].id == id;
      }
    }
  }

  /** Fails exactly on an empty or overlong ID, an empty value, or a repeated ID. */
  method EncodeSecretStream(values: seq<Secret>) returns (r: Option<bytes>)
    ensures r.Some? <==> (forall v :: v in values ==> Sendable(v)) && DistinctIds(values)
    ensures r.Some? ==> r.value == Encoded(values)
  {
    var out: bytes := [];
    var seen: set<bytes> := {};
    for i := 0 to |values|
      invariant out == Records(values[..i]) && Seen(values, i, seen)
    {
      var v := values[i];
      assert v in values;
      if !Sendable(v) {
        return None;
      }
      if v.id in seen {
        return None;
      }
      AppendRecord(values, i);
      SeenOneMore(values, i, seen);
      seen := seen + {v.id};
      out := out + (Big(|v.id|, 4) + v.id + Big(|v.value|, 8) + v.value);
    }
    assert values[..|values|] == values;
    return Some(MAGIC + out + Big(0, 4));
  }

  // ---------- Reading ----------

  /** What arrives at the unbuffered reader: the bytes, and how many of those from a position on were
      there when the reader asked for them. One read system call blocks for the first byte and then
      takes what is there, so it can return less than was asked for. */
  datatype Stream = Stream(data: bytes, arrived: nat -> nat)

  function Min(a: nat, b: nat): nat { if a <= b then a else b }

  function Read(s: Stream, pos: nat, n: nat): (b: bytes)
    requires pos <= |s.data|
    ensures |b| <= n && pos + |b| <= |s.data|
  {
    var there := if s.arrived(pos) == 0 then 1 else s.arrived(pos);
    s.data[pos..Min(pos + Min(n, there), |s.data|)]
  }

  datatype Parsed = Bad | End | One(id: bytes, value: bytes, next: nat)

  /** One record, or the terminator; Bad is an exception. `valid` is strict UTF-8 decoding, which keeps
      different IDs apart. */
  function ParseOne(s: Stream, valid: bytes -> bool, pos: nat): (p: Parsed)
    requires pos <= |s.data|
    ensures p.One? ==> pos < p.next <= |s.data|
  {
    var rawLen := Read(s, pos, 4);
    if |rawLen| != 4 then Bad
    else if Number(rawLen) == 0 then End
    else if Number(rawLen) > MAX_ID then Bad
    else ParseBody(s, valid, pos + 4, Number(rawLen))
  }

  function ParseBody(s: Stream, valid: bytes -> bool, pos: nat, idLen: nat): (p: Parsed)
    requires pos <= |s.data|
    ensures p.One? ==> pos < p.next <= |s.data|
  {
    var sid := Read(s, pos, idLen);
    if !valid(sid) then Bad else ParseValue(s, pos + |sid|, sid)
  }

  function ParseValue(s: Stream, pos: nat, sid: bytes): (p: Parsed)
    requires pos <= |s.data|
    ensures p.One? ==> pos < p.next <= |s.data|
  {
    var raw := Read(s, pos, 8);
    if |raw| != 8 || Number(raw) > MAX_VALUE then Bad
    else
      var value := Read(s, pos + 8, Number(raw));
      if |value| != Number(raw) then Bad else One(sid, value, pos + 8 + |value|)
  }

  /** The records from a position on; None is an exception. */
  function ReadRecords(s: Stream, valid: bytes -> bool, pos: nat, acc: map<bytes, bytes>): Option<map<bytes, bytes>>
    requires pos <= |s.data|
    decreases |s.data| - pos
  {
    match ParseOne(s, valid, pos)
    case Bad => None
    case End => Some(acc)
    case One(id, value, next) => if id in acc then None else ReadRecords(s, valid, next, acc[id := value])
  }

  /** Where the reader is when it takes the terminator. */
  function Terminated(s: Stream, valid: bytes -> bool, pos: nat): Option<nat>
    requires pos <= |s.data|
    decreases |s.data| - pos
  {
    match ParseOne(s, valid, pos)
    case Bad => None
    case End => Some(pos)
    case One(_, _, next) => Terminated(s, valid, next)
  }

  function ReadStream(s: Stream, valid: bytes -> bool): Option<map<bytes, bytes>> {
    var magic := Read(s, 0, |MAGIC|);
    if magic != MAGIC then None else ReadRecords(s, valid, |magic|, map[])
  }

  method ReadValue(s: Stream, pos: nat, sid: bytes) returns (p: Parsed)
    requires pos <= |s.data|
    ensures p == ParseValue(s, pos, sid)
  {
    var raw := Read(s, pos, 8);
    if |raw| != 8 || Number(raw) > MAX_VALUE {
      return Bad;
    }
    var value := Read(s, pos + 8, Number(raw));
    if |value| != Number(raw) {
      return Bad;
    }
    return One(sid, value, pos + 8 + |value|);
  }

  method ReadBody(s: Stream, valid: bytes -> bool, pos: nat, idLen: nat) returns (p: Parsed)
    requires pos <= |s.data|
    ensures p == ParseBody(s, valid, pos, idLen)
  {
    var sid := Read(s, pos, idLen);
    if !valid(sid) {
      return Bad;
    }
    p := ReadValue(s, pos + |sid|, sid);
  }

  method ReadOne(s: Stream, valid: bytes -> bool, pos: nat) returns (p: Parsed)
    requires pos <= |s.data|
    ensures p == ParseOne(s, valid, pos)
  {
    var raw := Read(s, pos, 4);
    if |raw| != 4 {
      return Bad;
    }
    var idLen := Number(raw);
    if idLen == 0 {
      return End;
    }
    if idLen > MAX_ID {
      return Bad;
    }
    p := ReadBody(s, valid, pos + 4, idLen);
  }

  method ReadSecrets(s: Stream, valid: bytes -> bool) returns (r: Option<map<bytes, bytes>>)
    ensures r == ReadStream(s, valid)
  {
    var result: map<bytes, bytes> := map[];
    var magic := Read(s, 0, |MAGIC|);
    if magic != MAGIC {
      return None;
    }
    var pos := |magic|;
    while true
      invariant pos <= |s.data| && ReadStream(s, valid) == ReadRecords(s, valid, pos, result)
      decreases |s.data| - pos
    {
      var p := ReadOne(s, valid, pos);
      if p == End {
        break;
      }
      if p == Bad || p.id in result {
        return None;
      }
      result := result[p.id := p.value];
      pos := p.next;
    }
    return Some(result);
  }

  // ---------- Which deliveries round-trip ----------

  /** A whole field was there when the reader asked for it. */
  predicate Whole(s: Stream, pos: nat, n: nat) { n <= 1 || n <= s.arrived(pos) }

  predicate FieldsWhole(s: Stream, pos: nat, values: seq<Secret>)
    decreases |values|
  {
    if values == [] then Whole(s, pos, 4)
    else RecordWhole(s, pos, values[0]) && FieldsWhole(s, Next(pos, values[0]), values[1..])
  }

  predicate RecordWhole(s: Stream, pos: nat, v: Secret) {
    && Whole(s, pos, 4) && Whole(s, pos + 4, |v.id|) && Whole(s, pos + 4 + |v.id|, 8)
    && Whole(s, pos + 4 + |v.id| + 8, |v.value|)
  }

  predicate DeliveredWhole(s: Stream, values: seq<Secret>) {
    Whole(s, 0, |MAGIC|) && FieldsWhole(s, |MAGIC|, values)
  }

  function Added(acc: map<bytes, bytes>, values: seq<Secret>): map<bytes, bytes>
    decreases |values|
  {
    if values == [] then acc else Added(acc[values[0].id := values[0].value], values[1..])
  }

  predicate Readable(valid: bytes -> bool, v: Secret) { valid(v.id) && |v.value| <= MAX_VALUE }

  /** What the writer accepts, with a size that fits its length field. */
  predicate Plain(v: Secret) { Sendable(v) && |v.value| < Power(8) }

  /** A field lies at a position of the stream. */
  predicate Has(s: Stream, pos: nat, field: bytes) {
    pos + |field| <= |s.data| && s.data[pos..pos + |field|] == field
  }

  lemma ReadField(s: Stream, pos: nat, field: bytes)
    requires Has(s, pos, field)
    ensures Whole(s, pos, |field|) ==> Read(s, pos, |field|) == field
    ensures !Whole(s, pos, |field|) ==> 0 < |Read(s, pos, |field|)| < |field|
  {
  }

  lemma IdLength(v: Secret)
    requires Sendable(v)
    ensures Number(Big(|v.id|, 4)) == |v.id|
  {
    assert Power(1) == 256 && Power(2) == 65536;
    assert Power(4) >= Power(2);
    NumberOfBig(|v.id|, 4);
  }

  /** A torn ID is not noticed at once, but its rest is then taken for an enormous size. */
  lemma TornId(s: Stream, valid: bytes -> bool, pos: nat, id: bytes)
    requires Has(s, pos, id) && 0 !in id && !Whole(s, pos, |id|)
    ensures ParseBody(s, valid, pos, |id|) == Bad
  {
    ReadField(s, pos, id);
    var sid := Read(s, pos, |id|);
    var next := pos + |sid|;
    assert s.data[next] == s.data[pos..pos + |id|][|sid|] == id[|sid|];
    var raw := Read(s, next, 8);
    if |raw| == 8 {
      assert raw[0] == s.data[next];
      LeadingByte(raw);
    }
  }

  /** A torn size or value is noticed. */
  lemma ReadSizeAndValue(s: Stream, pos: nat, sid: bytes, size: bytes, value: bytes)
    requires |size| == 8 && Number(size) == |value| && Has(s, pos, size) && Has(s, pos + 8, value)
    ensures ParseValue(s, pos, sid) ==
      if |value| <= MAX_VALUE && Whole(s, pos, 8) && Whole(s, pos + 8, |value|) then One(sid, value, pos + 8 + |value|) else Bad
  {
    ReadField(s, pos, size);
    ReadField(s, pos + 8, value);
  }

  lemma IntactId(s: Stream, valid: bytes -> bool, pos: nat, id: bytes)
    requires Has(s, pos, id) && Whole(s, pos, |id|)
    ensures ParseBody(s, valid, pos, |id|) == if valid(id) then ParseValue(s, pos + |id|, id) else Bad
  {
    ReadField(s, pos, id);
  }

  lemma ReadHead(s: Stream, valid: bytes -> bool, pos: nat, head: bytes)
    requires |head| == 4 && 0 < Number(head) <= MAX_ID && Has(s, pos, head)
    ensures ParseOne(s, valid, pos) == if Whole(s, pos, 4) then ParseBody(s, valid, pos + 4, Number(head)) else Bad
  {
    ReadField(s, pos, head);
  }

  /** The four fields of a record, with the given length fields, lie at a position. */
  ghost predicate HasFields(s: Stream, pos: nat, v: Secret, head: bytes, size: bytes) {
    && |head| == 4 && Number(head) == |v.id| && |size| == 8 && Number(size) == |v.value|
    && Has(s, pos, head) && Has(s, pos + 4, v.id) && Has(s, pos + 4 + |v.id|, size) && Has(s, pos + 4 + |v.id| + 8, v.value)
  }

  /** What the reader makes of the part of a record after its length field. */
  lemma ReadRest(s: Stream, valid: bytes -> bool, pos: nat, v: Secret, size: bytes)
    requires |size| == 8 && Number(size) == |v.value|
    requires Has(s, pos, v.id) && Has(s, pos + |v.id|, size) && Has(s, pos + |v.id| + 8, v.value)
    ensures var whole := Whole(s, pos, |v.id|) && Whole(s, pos + |v.id|, 8) && Whole(s, pos + |v.id| + 8, |v.value|);
      && (Readable(valid, v) && whole ==> ParseBody(s, valid, pos, |v.id|) == One(v.id, v.value, pos + |v.id| + 8 + |v.value|))
      && (!(Readable(valid, v) && whole) && 0 !in v.id ==> ParseBody(s, valid, pos, |v.id|) == Bad)
  {
    hide ParseBody, ParseValue, Number;
    if Whole(s, pos, |v.id|) {
      IntactId(s, valid, pos, v.id);
      ReadSizeAndValue(s, pos + |v.id|, v.id, size, v.value);
    } else if 0 !in v.id {
      TornId(s, valid, pos, v.id);
    }
  }

  function Next(pos: nat, v: Secret): nat { pos + 12 + |v.id| + |v.value| }

  /** What the reader makes of one record. */
  lemma ReadRecord(s: Stream, valid: bytes -> bool, pos: nat, v: Secret, head: bytes, size: bytes)
    requires HasFields(s, pos, v, head, size) && Sendable(v)
    ensures Readable(valid, v) && RecordWhole(s, pos, v) ==> ParseOne(s, valid, pos) == One(v.id, v.value, Next(pos, v))
    ensures !(Readable(valid, v) && RecordWhole(s, pos, v)) && 0 !in v.id ==> ParseOne(s, valid, pos) == Bad
  {
    ReadHead(s, valid, pos, head);
    ReadRest(s, valid, pos + 4, v, size);
  }

  lemma HasParts(s: Stream, pos: nat, a: bytes, b: bytes)
    requires Has(s, pos, a + b)
    ensures Has(s, pos, a) && Has(s, pos + |a|, b)
  {
    var all := s.data[pos..pos + |a + b|];
    assert s.data[pos..pos + |a|] == all[..|a|] == a;
    assert s.data[pos + |a|..pos + |a| + |b|] == all[|a|..] == b;
  }

  lemma RecordHasFields(s: Stream, pos: nat, v: Secret) returns (head: bytes, size: bytes)
    requires Has(s, pos, Record(v)) && Plain(v)
    ensures HasFields(s, pos, v, head, size)
  {
    head, size := Big(|v.id|, 4), Big(|v.value|, 8);
    IdLength(v);
    NumberOfBig(|v.value|, 8);
    HasParts(s, pos, head + v.id + size, v.value);
    HasParts(s, pos, head + v.id, size);
    HasParts(s, pos, head, v.id);
  }

  ghost predicate AllReadable(valid: bytes -> bool, values: seq<Secret>) { forall v :: v in values ==> Readable(valid, v) }

  ghost predicate ZeroFree(values: seq<Secret>) { forall v :: v in values ==> 0 !in v.id }

  ghost predicate AllPlain(values: seq<Secret>) { forall v :: v in values ==> Plain(v) }

  ghost predicate Fresh(values: seq<Secret>, acc: map<bytes, bytes>) { forall v :: v in values ==> v.id !in acc }

  lemma Remaining(values: seq<Secret>, acc: map<bytes, bytes>, valid: bytes -> bool)
    requires values != [] && AllPlain(values) && Fresh(values, acc) && DistinctIds(values)
    ensures Plain(values[0]) && values[0].id !in acc
    ensures AllPlain(values[1..]) && Fresh(values[1..], acc[values[0].id := values[0].value]) && DistinctIds(values[1..])
    ensures AllReadable(valid, values) <==> Readable(valid, values[0]) && AllReadable(valid, values[1..])
    ensures ZeroFree(values) ==> 0 !in values[0].id && ZeroFree(values[1..])
  {
    var v, rest := values[0], values[1..];
    assert values == [v] + rest;
    forall w | w in rest ensures w.id != v.id {
      var i :| 0 <= i < |rest| && rest[i] == w;
      assert values[i + 1] == w;
    }
  }

  /** At a position the records of the given values start, followed by the terminator. */
  predicate Holding(s: Stream, pos: nat, values: seq<Secret>) { Has(s, pos, Records(values) + Big(0, 4)) }

  lemma NextRecord(s: Stream, valid: bytes -> bool, pos: nat, values: seq<Secret>)
    requires values != [] && Holding(s, pos, values) && Plain(values[0])
    ensures Holding(s, Next(pos, values[0]), values[1..])
    ensures var v := values[0];
      && (Readable(valid, v) && RecordWhole(s, pos, v) ==> ParseOne(s, valid, pos) == One(v.id, v.value, Next(pos, v)))
      && (!(Readable(valid, v) && RecordWhole(s, pos, v)) && 0 !in v.id ==> ParseOne(s, valid, pos) == Bad)
  {
    var v, rest := values[0], Records(values[1..]) + Big(0, 4);
    assert Records(values) + Big(0, 4) == Record(v) + rest;
    HasParts(s, pos, Record(v), rest);
    var head, size := RecordHasFields(s, pos, v);
    ReadRecord(s, valid, pos, v, head, size);
  }

  lemma NoRecord(s: Stream, valid: bytes -> bool, pos: nat)
    requires Holding(s, pos, [])
    ensures ParseOne(s, valid, pos) == if Whole(s, pos, 4) then End else Bad
  {
    assert Records([]) + Big(0, 4) == Big(0, 4);
    ReadField(s, pos, Big(0, 4));
    NumberOfBig(0, 4);
  }

  lemma {:induction false} ReadsBack(s: Stream, valid: bytes -> bool, pos: nat, values: seq<Secret>, acc: map<bytes, bytes>)
    requires Holding(s, pos, values) && AllPlain(values) && Fresh(values, acc) && DistinctIds(values)
    ensures FieldsWhole(s, pos, values) && AllReadable(valid, values) ==> ReadRecords(s, valid, pos, acc) == Some(Added(acc, values))
    ensures !(FieldsWhole(s, pos, values) && AllReadable(valid, values)) && ZeroFree(values) ==> ReadRecords(s, valid, pos, acc) == None
    decreases |values|
  {
    if values == [] {
      NoRecord(s, valid, pos);
    } else {
      var v := values[0];
      Remaining(values, acc, valid);
      NextRecord(s, valid, pos, values);
      if Readable(valid, v) && RecordWhole(s, pos, v) {
        ReadsBack(s, valid, Next(pos, v), values[1..], acc[v.id := v.value]);
      }
    }
  }

  /** The map holds every secret under its ID and nothing else. */
  lemma {:induction false} AddedExactly(acc: map<bytes, bytes>, values: seq<Secret>)
    requires DistinctIds(values) && Fresh(values, acc)
    ensures forall v :: v in values ==> v.id in Added(acc, values) && Added(acc, values)[v.id] == v.value
    ensures forall k :: k in acc ==> k in Added(acc, values) && Added(acc, values)[k] == acc[k]
    ensures forall k :: k in Added(acc, values) ==> k in acc || exists v :: v in values && v.id == k
    decreases |values|
  {
    if values != [] {
      var v, rest := values[0], values[1..];
      assert values == [v] + rest;
      forall w | w in rest ensures w.id !in acc[v.id := v.value] {
        var i :| 0 <= i < |rest| && rest[i] == w;
        assert values[i + 1] == w;
      }
      AddedExactly(acc[v.id := v.value], rest);
    }
  }

  lemma RecordSize(pos: nat, values: seq<Secret>)
    requires values != []
    ensures pos + |Records(values)| == Next(pos, values[0]) + |Records(values[1..])|
  {
    assert |Record(values[0])| == 12 + |values[0].id| + |values[0].value|;
  }

  lemma {:induction false} StopsAtTerminator(s: Stream, valid: bytes -> bool, pos: nat, values: seq<Secret>)
    requires Holding(s, pos, values) && AllPlain(values) && FieldsWhole(s, pos, values) && AllReadable(valid, values)
    ensures Terminated(s, valid, pos) == Some(pos + |Records(values)|)
    decreases |values|
  {
    hide Record, Records, ParseOne, Plain, Readable, RecordWhole, Next, Holding;
    if values == [] {
      NoRecord(s, valid, pos);
      assert Records(values) == [] by { NoRecords(); }
    } else {
      NextRecord(s, valid, pos, values);
      RecordSize(pos, values);
      StopsAtTerminator(s, valid, Next(pos, values[0]), values[1..]);
    }
  }

  lemma NoRecords()
    ensures Records([]) == []
  {
  }

  /** The map holds exactly the given secrets. */
  ghost predicate HoldsExactly(m: map<bytes, bytes>, values: seq<Secret>) {
    && (forall v :: v in values ==> v.id in m && m[v.id] == v.value)
    && (forall id :: id in m ==> exists v :: v in values && v.id == id)
  }

  /** After the magic text the records begin. */
  lemma StreamStarts(s: Stream, valid: bytes -> bool, values: seq<Secret>)
    requires Has(s, 0, Encoded(values))
    ensures Holding(s, |MAGIC|, values) && |Encoded(values)| == |MAGIC| + |Records(values)| + 4 && |MAGIC| <= |s.data|
    ensures ReadStream(s, valid) == if Whole(s, 0, |MAGIC|) then ReadRecords(s, valid, |MAGIC|, map[]) else None
  {
    var rest := Records(values) + Big(0, 4);
    assert Encoded(values) == MAGIC + rest;
    HasParts(s, 0, MAGIC, rest);
    ReadField(s, 0, MAGIC);
    hide ReadRecords, Records;
  }

  /** For every list the writer accepts, if the IDs are UTF-8, no value exceeds 64 MiB and every field
      was there completely when the reader asked for it, the reader maps every ID to its value, has no
      other keys and stops at the terminator, whatever bytes the values contain and whatever comes after
      the terminator. If the IDs hold no zero byte, these conditions are necessary: in every other case
      it raises. */
  lemma StreamRoundTrip(s: Stream, valid: bytes -> bool, values: seq<Secret>)
    requires Has(s, 0, Encoded(values)) && AllPlain(values) && DistinctIds(values)
    ensures DeliveredWhole(s, values) && AllReadable(valid, values) ==>
      && ReadStream(s, valid).Some? && HoldsExactly(ReadStream(s, valid).value, values)
      && Terminated(s, valid, |MAGIC|) == Some(|Encoded(values)| - 4)
    ensures !(DeliveredWhole(s, values) && AllReadable(valid, values)) && ZeroFree(values) ==> ReadStream(s, valid) == None
  {
    StreamStarts(s, valid, values);
    AddedHolds(values);
    hide ReadStream, Encoded, Records, FieldsWhole, AllReadable, Added, Holding, HoldsExactly;
    var n := |MAGIC|;
    if Whole(s, 0, n) {
      ReadsBack(s, valid, n, values, map[]);
      if FieldsWhole(s, n, values) && AllReadable(valid, values) {
        StopsAtTerminator(s, valid, n, values);
      }
    }
  }

  lemma AddedHolds(values: seq<Secret>)
    requires DistinctIds(values)
    ensures HoldsExactly(Added(map[], values), values)
  {
    AddedExactly(map[], values);
  }

  /** When only the first bytes of an ID were there, the next ones are taken for a size and a value. */
  lemma Misread(s: Stream, valid: bytes -> bool, pos: nat, n: nat, got: bytes, size: bytes, found: bytes)
    requires Has(s, pos, got) && Has(s, pos + |got|, size) && Has(s, pos + |got| + 8, found)
    requires 0 < |got| < n && s.arrived(pos) == |got| && valid(got)
    requires |size| == 8 && Number(size) == |found| <= MAX_VALUE
    requires Whole(s, pos + |got|, 8) && Whole(s, pos + |got| + 8, |found|)
    ensures ParseBody(s, valid, pos, n) == One(got, found, pos + |got| + 8 + |found|)
  {
    assert Read(s, pos, n) == got;
    ReadSizeAndValue(s, pos + |got|, got, size, found);
  }

  /** The ID "a", seven zero bytes, the byte 1, "b" and four zero bytes. */
  const TORN_ID: bytes := [97] + ([0, 0, 0, 0, 0, 0, 0, 1] + ([98] + [0, 0, 0, 0]))

  lemma TornParts(s: Stream, pos: nat)
    requires Has(s, pos, TORN_ID)
    ensures Has(s, pos, [97]) && Has(s, pos + 1, [0, 0, 0, 0, 0, 0, 0, 1]) && Has(s, pos + 9, [98]) && Has(s, pos + 10, [0, 0, 0, 0])
  {
    HasParts(s, pos, [97], [0, 0, 0, 0, 0, 0, 0, 1] + ([98] + [0, 0, 0, 0]));
    HasParts(s, pos + 1, [0, 0, 0, 0, 0, 0, 0, 1], [98] + [0, 0, 0, 0]);
    HasParts(s, pos + 9, [98], [0, 0, 0, 0]);
  }

  lemma TornBody(s: Stream, valid: bytes -> bool, pos: nat)
    requires Has(s, pos, TORN_ID) && s.arrived(pos) == 1 && (forall q :: q != pos ==> s.arrived(q) >= 8) && valid([97])
    ensures ParseBody(s, valid, pos, 14) == One([97], [98], pos + 10)
  {
    TornParts(s, pos);
    ZeroDigits([0, 0, 0, 0, 0, 0, 0, 1], 7);
    Misread(s, valid, pos, 14, [97], [0, 0, 0, 0, 0, 0, 0, 1], [98]);
  }

  lemma TornEnd(s: Stream, valid: bytes -> bool, pos: nat)
    requires Has(s, pos, TORN_ID) && s.arrived(pos + 10) >= 4
    ensures ParseOne(s, valid, pos + 10) == End
  {
    TornParts(s, pos);
    ZeroDigits([0, 0, 0, 0], 4);
    ReadField(s, pos + 10, [0, 0, 0, 0]);
  }

  /** A torn ID with zero bytes is not noticed: what follows the tear reads as a size, a value and a
      terminator, and the reader returns a secret that was never sent. */
  lemma TornZeroId(s: Stream, valid: bytes -> bool, pos: nat, value: bytes)
    requires Has(s, pos, Record(Secret(TORN_ID, value))) && Plain(Secret(TORN_ID, value))
    requires s.arrived(pos + 4) == 1 && forall q :: q != pos + 4 ==> s.arrived(q) >= 8
    requires valid([97])
    ensures ReadRecords(s, valid, pos, map[]) == Some(map[[97] := [98]])
  {
    var head, size := RecordHasFields(s, pos, Secret(TORN_ID, value));
    ReadHead(s, valid, pos, head);
    TornBody(s, valid, pos + 4);
    TornEnd(s, valid, pos + 4);
    AfterOne(s, valid, pos, [97], [98], pos + 14);
  }

  lemma AfterOne(s: Stream, valid: bytes -> bool, pos: nat, id: bytes, value: bytes, next: nat)
    requires pos <= |s.data| && ParseOne(s, valid, pos) == One(id, value, next) && ParseOne(s, valid, next) == End
    ensures ReadRecords(s, valid, pos, map[]) == Some(map[id := value])
  {
    assert ReadRecords(s, valid, next, map[id := value]) == Some(map[id := value]);
  }

  lemma {:induction false} ZeroDigits(b: bytes, k: nat)
    requires k <= |b| && forall i :: 0 <= i < k ==> b[i] == 0
    ensures Digits(b, k) == 0
    decreases k
  {
    if k > 0 {
      ZeroDigits(b, k - 1);
    }
  }
}
