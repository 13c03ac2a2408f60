// Length-prefixed encodings: the parts hashed into an identity (types.go, writeHashPart)
// and application-owned tuple keys (v2.go, TupleKey).
module Keys {
  import opened Wrappers
  import opened Bytes

  // base ^ exponent for base 256, the number of values of a fixed-width length field
  function Capacity(width: nat): (c: nat)
    ensures c > 0
  {
    if width == 0 then 1 else 256 * Capacity(width - 1)
  }

  // Big-endian encoding of n in a fixed number of octets; higher bits are lost.
  function BigEndian(n: nat, width: nat): (s: ByteString)
    ensures |s| == width
  {
    if width == 0 then [] else BigEndian(n / 256, width - 1) + [n % 256]
  }

  function FromBigEndian(s: ByteString): nat {
    if s == [] then 0 else 256 * FromBigEndian(s[..|s| - 1]) + s[|s| - 1]
  }

  lemma {:induction false} BigEndianRoundTrip(n: nat, width: nat)
    requires n < Capacity(width)
    ensures FromBigEndian(BigEndian(n, width)) == n
  {
    if width > 0 {
      BigEndianRoundTrip(n / 256, width - 1);
      assert BigEndian(n, width)[..width - 1] == BigEndian(n / 256, width - 1);
    }
  }

  // One part, preceded by its length.
  function Frame(width: nat, part: ByteString): ByteString {
    BigEndian(|part|, width) + part
  }

  function Stream(width: nat, parts: seq<ByteString>): ByteString {
    if parts == [] then [] else Frame(width, parts[0]) + Stream(width, parts[1..])
  }

  ghost predicate Fits(width: nat, parts: seq<ByteString>) {
    forall i | 0 <= i < |parts| :: |parts[i]| < Capacity(width)
  }

  // Frames are self-delimiting.
  lemma FrameCancels(width: nat, a: ByteString, b: ByteString, x: ByteString, y: ByteString)
    requires |a| < Capacity(width) && |b| < Capacity(width)
    requires Frame(width, a) + x <= Frame(width, b) + y
    ensures a == b && x <= y
  {
    var s, t := Frame(width, a) + x, Frame(width, b) + y;
    assert t[..|s|] == s;
    assert BigEndian(|a|, width) == s[..width] == t[..width] == BigEndian(|b|, width);
    BigEndianRoundTrip(|a|, width);
    BigEndianRoundTrip(|b|, width);
    assert |a| == |b|;
    var n := width + |a|;
    assert a == s[width..n] == t[width..n] == b;
    assert s[n..] == x && t[n..] == y;
    assert s[n..] <= t[n..];
  }

  lemma {:induction false} StreamAppend(width: nat, a: seq<ByteString>, b: seq<ByteString>)
    ensures Stream(width, a + b) == Stream(width, a) + Stream(width, b)
  {
    if a == [] {
      assert a + b == b;
    } else {
      assert (a + b)[1..] == a[1..] + b;
      StreamAppend(width, a[1..], b);
    }
  }

  // A stream is a byte prefix of another exactly when its parts are a list prefix, for
  // any positive width.
  lemma {:induction false} StreamPrefix(width: nat, a: seq<ByteString>, b: seq<ByteString>)
    requires width > 0 && Fits(width, a) && Fits(width, b)
    ensures Stream(width, a) <= Stream(width, b) <==> a <= b
  {
    if a == [] {
    } else if b == [] {
      assert |Stream(width, a)| > 0;
    } else {
      var x, y := Stream(width, a[1..]), Stream(width, b[1..]);
      assert a == [a[0]] + a[1..] && b == [b[0]] + b[1..];
      StreamPrefix(width, a[1..], b[1..]);
      if Frame(width, a[0]) + x <= Frame(width, b[0]) + y {
        FrameCancels(width, a[0], b[0], x, y);
      }
      if a <= b {
        assert a[1..] <= b[1..];
      }
    }
  }

  // Equal hash preimages have equal part lists: no two lists of parts feed the digest
  // the same bytes.
  lemma StreamInjective(width: nat, a: seq<ByteString>, b: seq<ByteString>)
    requires width > 0 && Fits(width, a) && Fits(width, b)
    requires Stream(width, a) == Stream(width, b)
    ensures a == b
  {
    StreamPrefix(width, a, b);
    StreamPrefix(width, b, a);
  }

  lemma StreamGrows(width: nat, parts: seq<ByteString>, part: ByteString)
    ensures Stream(width, parts + [part]) == Stream(width, parts) + Frame(width, part)
  {
    StreamAppend(width, parts, [part]);
    assert [part][1..] == [];
    assert Stream(width, [part]) == Frame(width, part) + Stream(width, []);
  }

  lemma TakeNext(head: seq<ByteString>, parts: seq<ByteString>, i: nat)
    requires i < |parts|
    ensures head + parts[..i + 1] == head + parts[..i] + [parts[i]]
  {
  }

  // One more part of a list behind a prefix that is not part of the stream.
  lemma StreamTakesNext(prefix: ByteString, width: nat, head: seq<ByteString>, parts: seq<ByteString>, i: nat)
    requires i < |parts|
    ensures prefix + Stream(width, head + parts[..i]) + Frame(width, parts[i])
      == prefix + Stream(width, head + parts[..i + 1])
  {
    hide Stream, Frame;
    TakeNext(head, parts, i);
    StreamGrows(width, head + parts[..i], parts[i]);
    Associate(prefix, Stream(width, head + parts[..i]), Frame(width, parts[i]));
  }

  lemma Associate(a: ByteString, b: ByteString, c: ByteString)
    ensures a + (b + c) == a + b + c
  {
  }

  lemma StreamOfNone(width: nat)
    ensures Stream(width, []) == []
  {
  }

  // writeHashPart: the eight-octet length and the bytes of one part.
  method WriteHashPart(written: ByteString, value: ByteString) returns (r: ByteString)
    ensures r == written + Frame(8, value)
  {
    r := written + BigEndian(|value|, 8);
    r := r + value;
    assert r == written + (BigEndian(|value|, 8) + value);
  }

  // The bytes hashed by derivedStableID and reconciliationID: schema, kind, then parts.
  method HashPreimage(schema: ByteString, kind: ByteString, parts: seq<ByteString>) returns (r: ByteString)
    ensures r == Stream(8, [schema, kind] + parts)
  {
    StreamOfNone(8);
    hide Stream, Frame;
    r := WriteHashPart([], schema);
    r := WriteHashPart(r, kind);
    StreamGrows(8, [], schema);
    StreamGrows(8, [schema], kind);
    assert [] + [schema] == [schema] && [schema] + [kind] == [schema, kind] + parts[..0];
    var i := 0;
    while i < |parts|
      invariant i <= |parts|
      invariant r == Stream(8, [schema, kind] + parts[..i])
    {
      r := WriteHashPart(r, parts[i]);
      TakeNext([schema, kind], parts, i);
      StreamGrows(8, [schema, kind] + parts[..i], parts[i]);
      i := i + 1;
    }
    assert parts[..i] == parts;
  }

  // The bytes hashed by stableExportID, whose schema comes without a length.
  method ExportPreimage(schema: ByteString, kind: ByteString, parts: seq<ByteString>) returns (r: ByteString)
    ensures r == schema + Stream(8, [kind] + parts)
  {
    StreamOfNone(8);
    hide Stream, Frame;
    r := WriteHashPart(schema, kind);
    StreamGrows(8, [], kind);
    assert [] + [kind] == [kind] + parts[..0];
    var i := 0;
    while i < |parts|
      invariant i <= |parts|
      invariant r == schema + Stream(8, [kind] + parts[..i])
    {
      r := WriteHashPart(r, parts[i]);
      StreamTakesNext(schema, 8, [kind], parts, i);
      i := i + 1;
    }
    assert parts[..i] == parts;
  }

  // The schema is one constant, so these preimages determine kind and parts as well.
  lemma ExportPreimageInjective(schema: ByteString, a: seq<ByteString>, b: seq<ByteString>)
    requires Fits(8, a) && Fits(8, b) && schema + Stream(8, a) == schema + Stream(8, b)
    ensures a == b
  {
    assert Stream(8, a) == (schema + Stream(8, a))[|schema|..];
    assert Stream(8, b) == (schema + Stream(8, b))[|schema|..];
    StreamInjective(8, a, b);
  }

  // ----- tuple keys -----

  const MAX_COMPONENT := 65535

  predicate ValidComponents(components: seq<ByteString>) {
    forall i | 0 <= i < |components| :: IsCanonicalId(components[i]) && |components[i]| <= MAX_COMPONENT
  }

  function KeyBytes(namespace: Byte, version: Byte, components: seq<ByteString>): ByteString {
    [namespace, version] + Stream(2, components)
  }

  lemma EmptyKey(namespace: Byte, version: Byte, components: seq<ByteString>)
    ensures KeyBytes(namespace, version, components[..0]) == [namespace, version]
  {
    assert components[..0] == [];
    StreamOfNone(2);
  }

  lemma KeyTakesNext(namespace: Byte, version: Byte, components: seq<ByteString>, i: nat)
    requires i < |components|
    ensures KeyBytes(namespace, version, components[..i]) + BigEndian(|components[i]|, 2) + components[i]
      == KeyBytes(namespace, version, components[..i + 1])
  {
    hide Stream, BigEndian;
    assert [] + components[..i] == components[..i] && [] + components[..i + 1] == components[..i + 1];
    StreamTakesNext([namespace, version], 2, [], components, i);
    Associate(KeyBytes(namespace, version, components[..i]), BigEndian(|components[i]|, 2), components[i]);
  }

  method TupleKey(namespace: Byte, version: Byte, components: seq<ByteString>) returns (r: Result<ByteString>)
    ensures r.Ok? <==> ValidComponents(components)
    ensures r.Ok? ==> r.value == KeyBytes(namespace, version, components)
  {
    EmptyKey(namespace, version, components);
    hide Stream, IsCanonicalId, BigEndian, KeyBytes;
    var key: ByteString := [namespace, version];
    var i := 0;
    while i < |components|
      invariant i <= |components|
      invariant ValidComponents(components[..i])
      invariant key == KeyBytes(namespace, version, components[..i])
    {
      if !IsCanonicalId(components[i]) {
        return Err(InvalidDerived);
      }
      if |components[i]| > MAX_COMPONENT {
        return Err(LimitExceeded);
      }
      KeyTakesNext(namespace, version, components, i);
      key := key + BigEndian(|components[i]|, 2);
      key := key + components[i];
      assert components[..i + 1] == components[..i] + [components[i]];
      i := i + 1;
    }
    assert components[..i] == components;
    r := Ok(key);
  }

  // Two bytes always suffice for the length of an accepted component.
  lemma ComponentsFit(components: seq<ByteString>)
    requires ValidComponents(components)
    ensures Fits(2, components)
  {
  }

  // With one namespace and version, a tuple key is a byte prefix of another exactly when
  // its components are a list prefix; so a prefix scan lists exactly one subtree.
  lemma TupleKeyPrefix(namespace: Byte, version: Byte, a: seq<ByteString>, b: seq<ByteString>)
    requires ValidComponents(a) && ValidComponents(b)
    ensures KeyBytes(namespace, version, a) <= KeyBytes(namespace, version, b) <==> a <= b
  {
    ComponentsFit(a);
    ComponentsFit(b);
    StreamPrefix(2, a, b);
    var s, t := KeyBytes(namespace, version, a), KeyBytes(namespace, version, b);
    assert s[2..] == Stream(2, a) && t[2..] == Stream(2, b);
    if s <= t {
      assert s[2..] <= t[2..];
    }
    if Stream(2, a) <= Stream(2, b) {
      assert s <= t;
    }
  }
}
