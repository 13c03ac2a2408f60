// The portable record envelope (v2.go): four length-delimited Protocol Buffers fields.
module Codec {
  import opened Wrappers
  import opened Bytes

  const TWO_TO_THE_64 := 0x1_0000_0000_0000_0000
  const TWO_TO_THE_63 := 0x8000_0000_0000_0000

  // ----- base-128 varints -----

  // The little-endian base-128 number in the low seven bits of each octet.
  function Base128(s: ByteString): nat {
    if s == [] then 0 else s[0] % 128 + 128 * Base128(s[1..])
  }

  function Pow128(n: nat): (p: nat)
    ensures p > 0
  {
    if n == 0 then 1 else 128 * Pow128(n - 1)
  }

  // Only the last octet has its high bit clear.
  predicate Terminated(s: ByteString) {
    |s| > 0 && s[|s| - 1] < 128 && forall i | 0 <= i < |s| - 1 :: s[i] >= 128
  }

  // One to ten octets, of which exactly the last has its high bit clear.
  predicate IsVarint(s: ByteString) {
    |s| <= 10 && Terminated(s)
  }

  // The value of a varint, as a 64-bit unsigned integer.
  function VarintValue(s: ByteString): nat {
    Base128(s) % TWO_TO_THE_64
  }

  function EncodeVarint(n: nat): (s: ByteString)
    ensures |s| > 0
  {
    if n < 128 then [n] else [n % 128 + 128] + EncodeVarint(n / 128)
  }

  lemma ScaleGroup(group: nat, p: nat)
    ensures 128 * (group * p) == group * (128 * p)
  {
  }

  lemma {:induction false} Base128Append(s: ByteString, b: Byte)
    ensures Base128(s + [b]) == Base128(s) + (b % 128) * Pow128(|s|)
  {
    if s == [] {
      assert s + [b] == [b] && [b][1..] == [];
      assert Base128([b]) == b % 128 + 128 * Base128([]);
    } else {
      assert (s + [b])[1..] == s[1..] + [b];
      Base128Append(s[1..], b);
      ScaleGroup(b % 128, Pow128(|s| - 1));
    }
  }

  lemma {:induction false} Base128Bound(s: ByteString)
    ensures Base128(s) < Pow128(|s|)
  {
    if s != [] { Base128Bound(s[1..]); }
  }

  lemma Pow128Values()
    ensures Pow128(9) == TWO_TO_THE_63
  {
  }

  lemma {:induction false} Pow128Grows(m: nat, n: nat)
    requires m <= n
    ensures Pow128(m) <= Pow128(n)
  {
    if m < n { Pow128Grows(m, n - 1); }
  }

  // Adding the next seven bits in front of the octets that denote the rest.
  lemma {:induction false} Base128Prepend(n: nat, rest: ByteString)
    requires Base128(rest) == n / 128
    ensures Base128([n % 128 + 128] + rest) == n
  {
    var s := [n % 128 + 128] + rest;
    assert s[1..] == rest;
    assert s[0] % 128 == n % 128;
  }

  lemma {:induction false} QuotientBelow(n: nat, width: nat)
    requires 128 <= n < Pow128(width) && 0 < width
    ensures n / 128 < Pow128(width - 1) && 1 < width
  {
    assert Pow128(width) == 128 * Pow128(width - 1);
    assert Pow128(0) == 1;
  }

  lemma {:induction false} TerminatedPrepend(b: Byte, rest: ByteString)
    requires b >= 128 && Terminated(rest)
    ensures Terminated([b] + rest)
  {
    var s := [b] + rest;
    assert forall i | 0 < i < |s| :: s[i] == rest[i - 1];
  }

  // The encoder's octets denote the number and form a varint for every 63-bit length.
  lemma {:induction false} EncodeVarintCorrect(n: nat, width: nat)
    requires n < Pow128(width) && 0 < width
    ensures Base128(EncodeVarint(n)) == n && |EncodeVarint(n)| <= width
    ensures Terminated(EncodeVarint(n))
  {
    if n < 128 {
      assert EncodeVarint(n) == [n] && [n][1..] == [];
      assert Base128([n]) == n % 128 + 128 * Base128([]);
    } else {
      QuotientBelow(n, width);
      EncodeVarintCorrect(n / 128, width - 1);
      Base128Prepend(n, EncodeVarint(n / 128));
      TerminatedPrepend(n % 128 + 128, EncodeVarint(n / 128));
      hide Base128, Pow128, Terminated;
    }
  }

  lemma EncodeVarintIsVarint(n: nat)
    requires n < TWO_TO_THE_63
    ensures IsVarint(EncodeVarint(n)) && VarintValue(EncodeVarint(n)) == n
  {
    Pow128Values();
    EncodeVarintCorrect(n, 9);
  }

  // Varints are self-delimiting.
  lemma VarintUnique(s: ByteString, m: nat, n: nat)
    requires m <= |s| && n <= |s| && IsVarint(s[..m]) && IsVarint(s[..n])
    ensures m == n
  {
  }

  // readProtoVarint. The operands of the source's bitwise or share no set bit, since
  // value < 2^shift, so the or is a sum.
  method ReadVarint(encoded: ByteString, start: nat) returns (value: nat, offset: nat, ok: bool)
    requires start <= |encoded|
    ensures start <= offset <= |encoded|
    ensures ok ==> IsVarint(encoded[start..offset]) && value == VarintValue(encoded[start..offset])
    ensures !ok ==> value == 0 && forall k | start <= k <= |encoded| :: !IsVarint(encoded[start..k])
  {
    value, offset := 0, start;
    var shift := 0;
    while offset < |encoded| && shift < 64
      invariant start <= offset <= |encoded| && shift == 7 * (offset - start) && shift <= 70
      invariant forall i | start <= i < offset :: encoded[i] >= 128
      invariant value == Base128(encoded[start..offset]) % TWO_TO_THE_64
      invariant shift < 64 ==> value == Base128(encoded[start..offset])
      decreases |encoded| - offset
    {
      var part := encoded[offset];
      VarintStep(encoded[start..offset], part, value, shift);
      assert encoded[start..offset + 1] == encoded[start..offset] + [part];
      value := value + (part % 128) * PowerOfTwo(shift) % TWO_TO_THE_64;
      offset := offset + 1;
      shift := shift + 7;
      if part < 128 {
        return value, offset, true;
      }
    }
    forall k | start <= k <= |encoded| ensures !IsVarint(encoded[start..k]) {
      if start < k <= offset {
        assert encoded[start..k][k - start - 1] == encoded[k - 1];
      }
    }
    return 0, offset, false;
  }

  // One step of the reader: nine groups never wrap, the tenth is reduced modulo 2^64.
  lemma VarintStep(read: ByteString, part: Byte, value: nat, shift: nat)
    requires |read| <= 9 && shift == 7 * |read| && value == Base128(read)
    ensures var sum := value + (part % 128) * PowerOfTwo(shift) % TWO_TO_THE_64;
      sum == Base128(read + [part]) % TWO_TO_THE_64 && (|read| < 9 ==> sum == Base128(read + [part]))
  {
    Base128Append(read, part);
    Base128Bound(read);
    ShiftIsPower(|read|);
    Pow128Values();
    if |read| < 9 { Pow128Grows(|read| + 1, 9); }
    SumMod(value, part % 128, Pow128(|read|), |read| == 9);
  }

  function PowerOfTwo(n: nat): nat {
    if n == 0 then 1 else 2 * PowerOfTwo(n - 1)
  }

  lemma {:induction false} ShiftIsPower(k: nat)
    ensures PowerOfTwo(7 * k) == Pow128(k)
  {
    if k > 0 {
      ShiftIsPower(k - 1);
      var n := 7 * k;
      assert PowerOfTwo(n) == 2 * PowerOfTwo(n - 1) == 4 * PowerOfTwo(n - 2) == 8 * PowerOfTwo(n - 3);
      assert PowerOfTwo(n - 3) == 2 * PowerOfTwo(n - 4) == 4 * PowerOfTwo(n - 5) == 8 * PowerOfTwo(n - 6);
      assert PowerOfTwo(n - 6) == 2 * PowerOfTwo(n - 7) && n - 7 == 7 * (k - 1);
    }
  }

  // Adding the groups modulo 2^64: the tenth keeps only its lowest bit.
  lemma SumMod(low: nat, group: nat, p: nat, tenth: bool)
    requires low < p && group < 128
    requires if tenth then p == TWO_TO_THE_63 else 128 * p <= TWO_TO_THE_63
    ensures low + (group * p) % TWO_TO_THE_64 == (low + group * p) % TWO_TO_THE_64
    ensures !tenth ==> low + (group * p) % TWO_TO_THE_64 == low + group * p
  {
    if tenth {
      TenthGroup(low, group);
    } else {
      ScaleBound(group, p);
      var x := group * p;
      assert 0 <= x < TWO_TO_THE_63;
    }
  }

  lemma ScaleBound(group: nat, p: nat)
    requires group < 128 && 128 * p <= TWO_TO_THE_63
    ensures group * p + p <= TWO_TO_THE_63
  {
  }

  lemma TenthGroup(low: nat, group: nat)
    requires low < TWO_TO_THE_63 && group < 128
    ensures low + (group * TWO_TO_THE_63) % TWO_TO_THE_64 == (low + group * TWO_TO_THE_63) % TWO_TO_THE_64
  {
  }

  // ----- the wire format -----

  datatype Field = Field(number: nat, value: ByteString)

  datatype Envelope = Envelope(schema: ByteString, recordType: ByteString, digest: ByteString, payload: ByteString)

  // "session-memory/v2"
  const SCHEMA: ByteString := [115, 101, 115, 115, 105, 111, 110, 45, 109, 101, 109, 111, 114, 121, 47, 118, 50]

  // One length-delimited field at the head of s: its tag ends at t, its length at v and
  // its value at end.
  ghost predicate FieldAt(s: ByteString, field: Field, t: nat, v: nat, end: nat) {
    && t <= v <= end <= |s|
    && IsVarint(s[..t]) && VarintValue(s[..t]) == 8 * field.number + 2
    && IsVarint(s[t..v]) && VarintValue(s[t..v]) == |field.value|
    && s[v..end] == field.value
  }

  // The bytes are the concatenation of the fields, in this order. Varints need not be of
  // minimal length.
  ghost predicate Wire(s: ByteString, fields: seq<Field>)
    decreases |fields|
  {
    if fields == [] then s == []
    else exists t: nat, v: nat, end: nat :: FieldAt(s, fields[0], t, v, end) && Wire(s[end..], fields[1..])
  }

  lemma FieldAtUnique(s: ByteString, f: Field, t: nat, v: nat, end: nat, f': Field, t': nat, v': nat, end': nat)
    requires FieldAt(s, f, t, v, end) && FieldAt(s, f', t', v', end')
    ensures f == f' && t == t' && v == v' && end == end'
  {
    VarintUnique(s, t, t');
    assert s[t..][..v - t] == s[t..v] && s[t..][..v' - t] == s[t..v'];
    VarintUnique(s[t..], v - t, v' - t);
  }

  // A byte string is the wire form of at most one list of fields.
  lemma WireSplits(s: ByteString, fields: seq<Field>) returns (t: nat, v: nat, end: nat)
    requires Wire(s, fields) && fields != []
    ensures end <= |s| && FieldAt(s, fields[0], t, v, end) && Wire(s[end..], fields[1..])
  {
    t, v, end :| FieldAt(s, fields[0], t, v, end) && Wire(s[end..], fields[1..]);
  }

  lemma {:induction false} WireUnique(s: ByteString, a: seq<Field>, b: seq<Field>)
    requires Wire(s, a) && Wire(s, b)
    ensures a == b
    decreases |a|
  {
    WireOfNone(s, a);
    WireOfNone(s, b);
    hide FieldAt, Wire;
    if a != [] && b != [] {
      var t, v, end := WireSplits(s, a);
      var t', v', end' := WireSplits(s, b);
      FieldAtUnique(s, a[0], t, v, end, b[0], t', v', end');
      WireUnique(s[end..], a[1..], b[1..]);
      SameFields(a, b);
    }
  }

  lemma SameFields(a: seq<Field>, b: seq<Field>)
    requires a != [] && b != [] && a[0] == b[0] && a[1..] == b[1..]
    ensures a == b
  {
    assert a == [a[0]] + a[1..] && b == [b[0]] + b[1..];
  }

  lemma WireOfNone(s: ByteString, fields: seq<Field>)
    requires Wire(s, fields)
    ensures fields == [] <==> s == []
  {
  }

  // ----- encoding -----

  function FieldBytes(number: nat, value: ByteString): ByteString
    requires number < 16
  {
    [8 * number + 2] + EncodeVarint(|value|) + value
  }

  method AppendProtoBytes(dst: ByteString, number: nat, value: ByteString) returns (r: ByteString)
    requires number < 16
    ensures r == dst + FieldBytes(number, value)
  {
    r := dst + [8 * number + 2];
    var length: nat := |value|;
    while length >= 128
      invariant r + EncodeVarint(length) == dst + [8 * number + 2] + EncodeVarint(|value|)
    {
      ghost var before := EncodeVarint(length);
      assert r + before == r + [length % 128 + 128] + EncodeVarint(length / 128);
      r := r + [length % 128 + 128];
      length := length / 128;
    }
    r := r + [length];
    assert r == dst + [8 * number + 2] + EncodeVarint(|value|);
    r := r + value;
    assert r == dst + FieldBytes(number, value);
  }

  function EnvelopeFields(e: Envelope): seq<Field> {
    [Field(1, e.schema), Field(2, e.recordType), Field(3, e.digest), Field(4, e.payload)]
  }

  function FieldsBytes(fields: seq<Field>): ByteString
    requires forall i | 0 <= i < |fields| :: fields[i].number < 16
  {
    if fields == [] then []
    else FieldsBytes(fields[..|fields| - 1]) + FieldBytes(fields[|fields| - 1].number, fields[|fields| - 1].value)
  }

  function EnvelopeBytes(e: Envelope): ByteString {
    FieldsBytes(EnvelopeFields(e))
  }

  // Octet by octet: for each of the four fields its tag, whose low three bits 2 announce a
  // length-delimited value, then the length and the value.
  lemma Layout(e: Envelope)
    ensures EnvelopeBytes(e) ==
      [0x0A] + EncodeVarint(|e.schema|) + e.schema + ([0x12] + EncodeVarint(|e.recordType|) + e.recordType) +
      ([0x1A] + EncodeVarint(|e.digest|) + e.digest) + ([0x22] + EncodeVarint(|e.payload|) + e.payload)
  {
    hide EncodeVarint;
    var fields := EnvelopeFields(e);
    assert fields[..3][..2] == fields[..2] && fields[..2][..1] == fields[..1] && fields[..1][..0] == [];
    assert FieldsBytes(fields[..1]) == FieldBytes(1, e.schema);
    assert FieldsBytes(fields[..2]) == FieldsBytes(fields[..1]) + FieldBytes(2, e.recordType);
    assert FieldsBytes(fields[..3]) == FieldsBytes(fields[..2]) + FieldBytes(3, e.digest);
  }

  // Go slice lengths are 63-bit.
  ghost predicate Sized(e: Envelope) {
    |e.schema| < TWO_TO_THE_63 && |e.recordType| < TWO_TO_THE_63 && |e.digest| < TWO_TO_THE_63 &&
      |e.payload| < TWO_TO_THE_63
  }

  // marshalEnvelope writes the four fields in order.
  method MarshalEnvelope(e: Envelope) returns (encoded: ByteString)
    ensures encoded == EnvelopeBytes(e)
  {
    ghost var fields := EnvelopeFields(e);
    encoded := AppendProtoBytes([], 1, e.schema);
    assert encoded == FieldsBytes(fields[..1]) by { assert fields[..1][..0] == []; }
    encoded := AppendProtoBytes(encoded, 2, e.recordType);
    assert encoded == FieldsBytes(fields[..2]) by { assert fields[..2][..1] == fields[..1]; }
    encoded := AppendProtoBytes(encoded, 3, e.digest);
    assert encoded == FieldsBytes(fields[..3]) by { assert fields[..3][..2] == fields[..2]; }
    encoded := AppendProtoBytes(encoded, 4, e.payload);
  }

  lemma FieldBytesAt(field: Field, rest: ByteString)
    requires 1 <= field.number < 16 && |field.value| < TWO_TO_THE_63
    ensures var n := |EncodeVarint(|field.value|)|;
      FieldAt(FieldBytes(field.number, field.value) + rest, field, 1, 1 + n, 1 + n + |field.value|)
  {
    var length := EncodeVarint(|field.value|);
    EncodeVarintIsVarint(|field.value|);
    var s := FieldBytes(field.number, field.value) + rest;
    assert s == [8 * field.number + 2] + length + field.value + rest;
    assert s[..1] == [8 * field.number + 2];
    assert Base128(s[..1]) == (8 * field.number + 2) % 128 + 128 * Base128([]);
    assert s[1..1 + |length|] == length;
    assert s[1 + |length|..1 + |length| + |field.value|] == field.value;
  }

  // A field read off the front of the bytes that follow.
  lemma WirePrepend(field: Field, rest: ByteString, fields: seq<Field>)
    requires 1 <= field.number < 16 && |field.value| < TWO_TO_THE_63 && Wire(rest, fields)
    ensures Wire(FieldBytes(field.number, field.value) + rest, [field] + fields)
  {
    FieldBytesAt(field, rest);
    var n := |EncodeVarint(|field.value|)|;
    var s, end := FieldBytes(field.number, field.value) + rest, 1 + n + |field.value|;
    assert s[end..] == rest;
    assert ([field] + fields)[1..] == fields;
    assert FieldAt(s, ([field] + fields)[0], 1, 1 + n, end) && Wire(s[end..], ([field] + fields)[1..]);
  }

  // Every list of encodable fields has a wire form, whatever follows it.
  lemma {:induction false} FieldsBytesWire(fields: seq<Field>, rest: ByteString, more: seq<Field>)
    requires forall i | 0 <= i < |fields| :: 1 <= fields[i].number < 16 && |fields[i].value| < TWO_TO_THE_63
    requires Wire(rest, more)
    ensures Wire(FieldsBytes(fields) + rest, fields + more)
    decreases |fields|
  {
    if fields == [] {
      assert [] + rest == rest && fields + more == more;
    } else {
      var n := |fields| - 1;
      var f := fields[n];
      WirePrepend(f, rest, more);
      FieldsBytesWire(fields[..n], FieldBytes(f.number, f.value) + rest, [f] + more);
      SplitLast(fields, more);
      LastFieldBytes(fields, rest);
    }
  }

  lemma SplitLast<T>(s: seq<T>, more: seq<T>)
    requires s != []
    ensures s[..|s| - 1] + ([s[|s| - 1]] + more) == s + more
  {
  }

  lemma LastFieldBytes(fields: seq<Field>, rest: ByteString)
    requires fields != [] && forall i | 0 <= i < |fields| :: fields[i].number < 16
    ensures var n := |fields| - 1;
      FieldsBytes(fields[..n]) + (FieldBytes(fields[n].number, fields[n].value) + rest) == FieldsBytes(fields) + rest
  {
    var n := |fields| - 1;
    ConcatAssociates(FieldsBytes(fields[..n]), FieldBytes(fields[n].number, fields[n].value), rest);
  }

  lemma ConcatAssociates<T>(a: seq<T>, b: seq<T>, c: seq<T>)
    ensures a + (b + c) == a + b + c
  {
  }

  lemma EnvelopeBytesWire(e: Envelope)
    requires Sized(e)
    ensures Wire(EnvelopeBytes(e), EnvelopeFields(e))
  {
    FieldsBytesWire(EnvelopeFields(e), [], []);
    assert EnvelopeBytes(e) + [] == EnvelopeBytes(e) && EnvelopeFields(e) + [] == EnvelopeFields(e);
  }

  // ----- decoding -----

  ghost predicate KnownFields(fields: seq<Field>) {
    && (forall i | 0 <= i < |fields| :: 1 <= fields[i].number <= 4)
    && (forall i, j | 0 <= i < j < |fields| :: fields[i].number != fields[j].number)
  }

  // A field that is absent reads as the empty string.
  ghost function Lookup(fields: seq<Field>, number: nat): ByteString {
    if fields == [] then []
    else if fields[|fields| - 1].number == number then fields[|fields| - 1].value
    else Lookup(fields[..|fields| - 1], number)
  }

  ghost function FromFields(fields: seq<Field>): Envelope {
    Envelope(Lookup(fields, 1), Lookup(fields, 2), Lookup(fields, 3), Lookup(fields, 4))
  }

  // The checks made on decoded contents; sha stands for SHA-256 in hexadecimal.
  predicate Sealed(sha: ByteString -> ByteString, e: Envelope) {
    e.schema == SCHEMA && IsCanonicalId(e.recordType) && e.payload != [] && e.digest == sha(e.payload)
  }

  function Get(m: map<nat, ByteString>, number: nat): ByteString {
    if number in m then m[number] else []
  }

  ghost predicate Tabulates(m: map<nat, ByteString>, fields: seq<Field>) {
    forall n: nat :: (n in m <==> exists i :: 0 <= i < |fields| && fields[i].number == n) &&
      Get(m, n) == Lookup(fields, n)
  }

  ghost predicate FieldEnds(s: ByteString, field: Field, end: nat) {
    exists t: nat, v: nat :: FieldAt(s, field, t, v, end)
  }

  // No known field starts at offset.
  ghost predicate NoField(encoded: ByteString, offset: nat)
    requires offset <= |encoded|
  {
    forall f, t: nat, v: nat, e: nat | FieldAt(encoded[offset..], f, t, v, e) :: !(1 <= f.number <= 4)
  }

  lemma NoFieldByTag(encoded: ByteString, offset: nat, next: nat, tag: nat, ok: bool)
    requires offset <= next <= |encoded|
    requires if ok then IsVarint(encoded[offset..next]) && tag == VarintValue(encoded[offset..next])
             else forall k | offset <= k <= |encoded| :: !IsVarint(encoded[offset..k])
    requires ok ==> tag / 8 < 1 || tag / 8 > 4 || tag % 8 != 2
    ensures NoField(encoded, offset)
  {
    var rest := encoded[offset..];
    forall f, t: nat, v: nat, e: nat | FieldAt(rest, f, t, v, e) ensures !(1 <= f.number <= 4) {
      assert encoded[offset..offset + t] == rest[..t];
      if ok {
        assert encoded[offset..next] == rest[..next - offset];
        VarintUnique(rest, t, next - offset);
      }
    }
  }

  lemma NoFieldByLength(encoded: ByteString, offset: nat, next: nat, valueOffset: nat, length: nat, ok: bool)
    requires offset <= next <= valueOffset <= |encoded| && IsVarint(encoded[offset..next])
    requires if ok then IsVarint(encoded[next..valueOffset]) && length == VarintValue(encoded[next..valueOffset])
             else forall k | next <= k <= |encoded| :: !IsVarint(encoded[next..k])
    requires ok ==> length > |encoded| - valueOffset
    ensures NoField(encoded, offset)
  {
    hide IsVarint, VarintValue;
    var rest := encoded[offset..];
    SliceOfRest(encoded, offset, offset, next);
    if f, t: nat, v: nat, e: nat :| FieldAt(rest, f, t, v, e) {
      VarintUnique(rest, t, next - offset);
      SliceOfRest(encoded, offset, next, offset + v);
      assert ok;
      SliceOfRest(rest, t, t, v);
      SliceOfRest(encoded, offset, next, valueOffset);
      SliceOfRest(rest, t, t, valueOffset - offset);
      VarintUnique(rest[t..], v - t, valueOffset - next);
      assert false;
    }
  }

  // Reads one field; fails exactly when no known field is there.
  method ReadField(encoded: ByteString, offset: nat) returns (field: Field, end: nat, ok: bool)
    requires offset < |encoded|
    ensures offset <= end
    ensures ok ==> 1 <= field.number <= 4 && offset < end <= |encoded|
    ensures ok ==> FieldEnds(encoded[offset..], field, end - offset)
    ensures !ok ==> NoField(encoded, offset)
  {
    field, end, ok := Field(0, []), offset, false;
    var tag, next, tagOk := ReadVarint(encoded, offset);
    if !tagOk || tag / 8 < 1 || tag / 8 > 4 || tag % 8 != 2 {
      NoFieldByTag(encoded, offset, next, tag, tagOk);
      return;
    }
    var length, valueOffset, lengthOk := ReadVarint(encoded, next);
    if !lengthOk || length > |encoded| - valueOffset {
      NoFieldByLength(encoded, offset, next, valueOffset, length, lengthOk);
      return;
    }
    end := valueOffset + length;
    field := Field(tag / 8, encoded[valueOffset..end]);
    ok := true;
    FieldFound(encoded, offset, next, valueOffset, end, field);
  }

  lemma SliceOfRest(s: ByteString, from: nat, lo: nat, hi: nat)
    requires from <= lo <= hi <= |s|
    ensures s[from..][lo - from..hi - from] == s[lo..hi]
  {
  }

  lemma FieldFound(encoded: ByteString, offset: nat, next: nat, valueOffset: nat, end: nat, field: Field)
    requires offset <= next <= valueOffset <= end <= |encoded|
    requires IsVarint(encoded[offset..next]) && VarintValue(encoded[offset..next]) == 8 * field.number + 2
    requires IsVarint(encoded[next..valueOffset]) && VarintValue(encoded[next..valueOffset]) == end - valueOffset
    requires field.value == encoded[valueOffset..end]
    ensures FieldAt(encoded[offset..], field, next - offset, valueOffset - offset, end - offset)
  {
    SliceOfRest(encoded, offset, offset, next);
    SliceOfRest(encoded, offset, next, valueOffset);
    SliceOfRest(encoded, offset, valueOffset, end);
  }

  // The fields read so far, followed by any reading of the rest, are a reading of the
  // whole; and every reading of the whole starts with them.
  ghost predicate Splits(encoded: ByteString, offset: nat, seen: seq<Field>)
    requires offset <= |encoded|
  {
    && (forall rest | Wire(encoded[offset..], rest) :: Wire(encoded, seen + rest))
    && (forall all | Wire(encoded, all) :: seen <= all && Wire(encoded[offset..], all[|seen|..]))
  }

  lemma ReadingBegins(encoded: ByteString)
    ensures Splits(encoded, 0, []) && KnownFields([]) && Tabulates(map[], [])
  {
    assert encoded[0..] == encoded;
    assert forall all: seq<Field> :: all[0..] == all && [] + all == all;
  }

  lemma ReadingEnds(encoded: ByteString, fields: seq<Field>)
    requires Splits(encoded, |encoded|, fields)
    ensures Wire(encoded, fields)
  {
    assert encoded[|encoded|..] == [] && Wire([], []);
    assert fields + [] == fields;
  }

  lemma ReadingExtends(here: ByteString, field: Field, t: nat, v: nat, end: nat, rest: seq<Field>)
    requires FieldAt(here, field, t, v, end) && Wire(here[end..], rest)
    ensures Wire(here, [field] + rest)
  {
    var longer := [field] + rest;
    assert longer[1..] == rest;
    assert FieldAt(here, longer[0], t, v, end) && Wire(here[end..], longer[1..]);
  }

  lemma ReadingStartsWith(here: ByteString, field: Field, t: nat, v: nat, end: nat, tail: seq<Field>)
    requires FieldAt(here, field, t, v, end) && Wire(here, tail)
    ensures tail != [] && tail[0] == field && Wire(here[end..], tail[1..])
  {
    var t': nat, v': nat, end': nat :| FieldAt(here, tail[0], t', v', end') && Wire(here[end'..], tail[1..]);
    FieldAtUnique(here, field, t, v, end, tail[0], t', v', end');
  }

  lemma SplitsStep(encoded: ByteString, offset: nat, seen: seq<Field>, field: Field, end: nat, t: nat, v: nat)
    requires offset < end <= |encoded| && Splits(encoded, offset, seen)
    requires FieldAt(encoded[offset..], field, t, v, end - offset)
    ensures Splits(encoded, end, seen + [field])
  {
    hide Wire, FieldAt;
    assert (forall rest | Wire(encoded[end..], rest) :: Wire(encoded, seen + [field] + rest)) by {
      forall rest | Wire(encoded[end..], rest) ensures Wire(encoded, seen + [field] + rest) {
        SplitsForward(encoded, offset, seen, field, end, t, v, rest);
        ConcatAssociates(seen, [field], rest);
      }
    }
    forall all | Wire(encoded, all) ensures seen + [field] <= all && Wire(encoded[end..], all[|seen + [field]|..]) {
      SplitsBackward(encoded, offset, seen, field, end, t, v, all);
    }
  }

  lemma SplitsForward(
    encoded: ByteString, offset: nat, seen: seq<Field>, field: Field, end: nat, t: nat, v: nat, rest: seq<Field>)
    requires offset < end <= |encoded| && Splits(encoded, offset, seen)
    requires FieldAt(encoded[offset..], field, t, v, end - offset) && Wire(encoded[end..], rest)
    ensures Wire(encoded, seen + ([field] + rest))
  {
    hide Wire, FieldAt;
    DropTwice(encoded, offset, end - offset);
    ReadingExtends(encoded[offset..], field, t, v, end - offset, rest);
  }

  lemma SplitsBackward(
    encoded: ByteString, offset: nat, seen: seq<Field>, field: Field, end: nat, t: nat, v: nat, all: seq<Field>)
    requires offset < end <= |encoded| && Splits(encoded, offset, seen)
    requires FieldAt(encoded[offset..], field, t, v, end - offset) && Wire(encoded, all)
    ensures seen + [field] <= all && Wire(encoded[end..], all[|seen + [field]|..])
  {
    hide Wire, FieldAt;
    DropTwice(encoded, offset, end - offset);
    ReadingStartsWith(encoded[offset..], field, t, v, end - offset, all[|seen|..]);
    DropTwice(all, |seen|, 1);
  }

  lemma DropTwice<T>(s: seq<T>, i: nat, j: nat)
    requires i + j <= |s|
    ensures s[i..][j..] == s[i + j..]
  {
  }

  lemma LookupExtends(fields: seq<Field>, field: Field, m: map<nat, ByteString>)
    requires Tabulates(m, fields) && field.number !in m
    ensures Tabulates(m[field.number := field.value], fields + [field])
  {
    var longer := fields + [field];
    assert longer[..|longer| - 1] == fields;
    forall n: nat
      ensures n in m[field.number := field.value] <==> exists i :: 0 <= i < |longer| && longer[i].number == n
      ensures Get(m[field.number := field.value], n) == Lookup(longer, n)
    {
      if i :| 0 <= i < |fields| && fields[i].number == n { assert longer[i].number == n; }
      assert longer[|fields|].number == field.number;
    }
  }

  // Nothing readable is left where no known field starts,
  lemma UnknownRest(encoded: ByteString, offset: nat, fields: seq<Field>)
    requires offset < |encoded| && Splits(encoded, offset, fields) && NoField(encoded, offset)
    ensures forall all | Wire(encoded, all) :: !KnownFields(all)
  {
  }

  // nor where a field repeats an earlier one.
  lemma RepeatedField(encoded: ByteString, end: nat, fields: seq<Field>, field: Field)
    requires end <= |encoded| && Splits(encoded, end, fields + [field])
    requires exists i :: 0 <= i < |fields| && fields[i].number == field.number
    ensures forall all | Wire(encoded, all) :: !KnownFields(all)
  {
    var i :| 0 <= i < |fields| && fields[i].number == field.number;
    forall all | Wire(encoded, all) ensures !KnownFields(all) {
      assert fields + [field] <= all;
      assert all[i] == fields[i] && all[|fields|] == field;
    }
  }

  // The decoding loop: succeeds exactly on the wire form of distinct known fields.
  method ReadFields(encoded: ByteString) returns (m: map<nat, ByteString>, ghost fields: seq<Field>, ok: bool)
    ensures ok ==> Wire(encoded, fields) && KnownFields(fields) && Tabulates(m, fields)
    ensures !ok ==> forall all | Wire(encoded, all) :: !KnownFields(all)
  {
    m, fields, ok := map[], [], false;
    var offset := 0;
    ReadingBegins(encoded);
    hide Splits, Wire, FieldAt;
    while offset < |encoded|
      invariant offset <= |encoded|
      invariant Splits(encoded, offset, fields)
      invariant KnownFields(fields) && Tabulates(m, fields)
      decreases |encoded| - offset
    {
      var field, end, fieldOk := ReadField(encoded, offset);
      if !fieldOk {
        UnknownRest(encoded, offset, fields);
        return;
      }
      ghost var t: nat, v: nat :| FieldAt(encoded[offset..], field, t, v, end - offset);
      SplitsStep(encoded, offset, fields, field, end, t, v);
      if field.number in m {
        RepeatedField(encoded, end, fields, field);
        return;
      }
      LookupExtends(fields, field, m);
      m := m[field.number := field.value];
      fields := fields + [field];
      offset := end;
    }
    ReadingEnds(encoded, fields);
    ok := true;
  }

  // An accepted encoding: distinct known fields, in any order and with any varint
  // lengths, whose contents pass the checks.
  ghost predicate Encodes(sha: ByteString -> ByteString, encoded: ByteString, e: Envelope) {
    exists fields :: Wire(encoded, fields) && KnownFields(fields) && e == FromFields(fields) && Sealed(sha, e)
  }

  lemma DecodedOnce(sha: ByteString -> ByteString, encoded: ByteString, fields: seq<Field>, e: Envelope)
    requires Wire(encoded, fields) && e == FromFields(fields)
    ensures forall e' | Encodes(sha, encoded, e') :: e' == e && Sealed(sha, e)
  {
    forall e' | Encodes(sha, encoded, e') ensures e' == e && Sealed(sha, e) {
      var fields' :| Wire(encoded, fields') && KnownFields(fields') && e' == FromFields(fields') && Sealed(sha, e');
      WireUnique(encoded, fields, fields');
    }
  }

  // UnmarshalRecordEnvelope
  method Unmarshal(sha: ByteString -> ByteString, encoded: ByteString) returns (r: Result<Envelope>)
    ensures r.Ok? ==> Encodes(sha, encoded, r.value)
    ensures r.Ok? ==>
      && r.value.schema == SCHEMA && IsCanonicalId(r.value.recordType) && r.value.payload != []
      && r.value.digest == sha(r.value.payload)
    ensures r.Err? ==> forall e :: !Encodes(sha, encoded, e)
  {
    var m, fields, ok := ReadFields(encoded);
    if !ok {
      return Err(InvalidDerived);
    }
    var e := Envelope(Get(m, 1), Get(m, 2), Get(m, 3), Get(m, 4));
    DecodedOnce(sha, encoded, fields, e);
    if e.schema != SCHEMA || !IsCanonicalId(e.recordType) || e.payload == [] {
      return Err(InvalidDerived);
    }
    if e.digest != sha(e.payload) {
      return Err(InvalidDerived);
    }
    r := Ok(e);
  }

  // MarshalRecordEnvelope
  method Marshal(sha: ByteString -> ByteString, recordType: ByteString, payload: ByteString)
      returns (r: Result<ByteString>)
    ensures r.Ok? <==> IsCanonicalId(recordType) && payload != []
    ensures r.Ok? ==> r.value == EnvelopeBytes(Envelope(SCHEMA, recordType, sha(payload), payload))
    ensures r.Ok? ==>
      r.value == [0x0A] + EncodeVarint(|SCHEMA|) + SCHEMA + ([0x12] + EncodeVarint(|recordType|) + recordType) +
        ([0x1A] + EncodeVarint(|sha(payload)|) + sha(payload)) + ([0x22] + EncodeVarint(|payload|) + payload)
  {
    hide EncodeVarint, EnvelopeBytes;
    if !IsCanonicalId(recordType) || payload == [] {
      return Err(InvalidDerived);
    }
    Layout(Envelope(SCHEMA, recordType, sha(payload), payload));
    var encoded := MarshalEnvelope(Envelope(SCHEMA, recordType, sha(payload), payload));
    r := Ok(encoded);
  }

  // ----- round trips -----

  // The accepted envelope is a function of the bytes.
  lemma EncodesUnique(sha: ByteString -> ByteString, encoded: ByteString, a: Envelope, b: Envelope)
    requires Encodes(sha, encoded, a) && Encodes(sha, encoded, b)
    ensures a == b
  {
    var fa :| Wire(encoded, fa) && KnownFields(fa) && a == FromFields(fa);
    var fb :| Wire(encoded, fb) && KnownFields(fb) && b == FromFields(fb);
    WireUnique(encoded, fa, fb);
  }

  // Marshalling any sealed envelope and decoding the result gives the envelope back. With
  // EncodesUnique and the contract of Unmarshal: what is marshalled decodes to itself, and
  // re-marshalling any accepted encoding decodes to the same envelope.
  lemma EnvelopeRoundTrip(sha: ByteString -> ByteString, e: Envelope)
    requires Sized(e) && Sealed(sha, e)
    ensures Encodes(sha, EnvelopeBytes(e), e)
  {
    EnvelopeBytesWire(e);
    var fields := EnvelopeFields(e);
    LookupByIndex(fields, 0);
    LookupByIndex(fields, 1);
    LookupByIndex(fields, 2);
    LookupByIndex(fields, 3);
    assert FromFields(fields) == e;
  }

  lemma {:induction false} LookupByIndex(fields: seq<Field>, i: nat)
    requires KnownFields(fields) && i < |fields|
    ensures Lookup(fields, fields[i].number) == fields[i].value
    decreases |fields|
  {
    if i < |fields| - 1 {
      LookupByIndex(fields[..|fields| - 1], i);
    }
  }

  // Field order and varint length do not matter: any wire form of the four fields of a
  // sealed envelope decodes to it.
  lemma AnyOrderDecodes(sha: ByteString -> ByteString, encoded: ByteString, fields: seq<Field>, e: Envelope)
    requires Wire(encoded, fields) && Sealed(sha, e)
    requires multiset(fields) == multiset(EnvelopeFields(e))
    ensures Encodes(sha, encoded, e)
  {
    var given := EnvelopeFields(e);
    SameKnownFields(given, fields);
    forall k | 0 <= k < 4 ensures Lookup(fields, given[k].number) == given[k].value {
      assert given[k] in multiset(fields);
      var i :| 0 <= i < |fields| && fields[i] == given[k];
      LookupByIndex(fields, i);
    }
    assert given[0].number == 1 && given[1].number == 2 && given[2].number == 3 && given[3].number == 4;
    assert FromFields(fields) == e;
  }

  lemma SameKnownFields(a: seq<Field>, b: seq<Field>)
    requires KnownFields(a) && multiset(a) == multiset(b)
    ensures KnownFields(b)
  {
    forall i | 0 <= i < |b| ensures b[i] in a {
      assert b[i] in multiset(a);
    }
    forall i, j | 0 <= i < j < |b| ensures b[i].number != b[j].number {
      if b[i] == b[j] {
        Twice(b, i, j);
        Once(a, b[i]);
      }
    }
  }

  lemma Once(fields: seq<Field>, field: Field)
    requires KnownFields(fields) && field in fields
    ensures multiset(fields)[field] == 1
  {
    var i :| 0 <= i < |fields| && fields[i] == field;
    assert fields == fields[..i] + [field] + fields[i + 1..];
    assert field !in fields[..i] && field !in fields[i + 1..];
  }

  lemma Twice<T>(s: seq<T>, i: nat, j: nat)
    requires i < j < |s| && s[i] == s[j]
    ensures multiset(s)[s[i]] >= 2
  {
    assert s == s[..j] + s[j..];
    assert s[..j][i] == s[i] && s[j..][0] == s[i];
    assert s[i] in s[..j] && s[i] in s[j..];
  }

  // A record of any type and payload survives the store.
  method StoreAndLoad(sha: ByteString -> ByteString, recordType: ByteString, payload: ByteString)
      returns (r: Result<Envelope>)
    requires IsCanonicalId(recordType) && payload != []
    requires Sized(Envelope(SCHEMA, recordType, sha(payload), payload))
    ensures r == Ok(Envelope(SCHEMA, recordType, sha(payload), payload))
  {
    var e := Envelope(SCHEMA, recordType, sha(payload), payload);
    var encoded := Marshal(sha, recordType, payload);
    EnvelopeRoundTrip(sha, e);
    r := Unmarshal(sha, encoded.value);
    EncodesUnique(sha, encoded.value, r.value, e);
  }
}
