// Evidence spans (v2.go, NewEvidenceRef): a span must start and end on code-point
// boundaries of valid UTF-8 text, so citing it never splits a character.
module Utf8 {
  import opened Wrappers
  import opened Bytes

  // utf8.RuneStart: every octet but a continuation octet (10xxxxxx) starts a code point.
  predicate RuneStart(b: Byte) { !(0x80 <= b <= 0xBF) }

  predicate Tail(b: Byte) { 0x80 <= b <= 0xBF }

  // The length of the well-formed code point at the head of s, or 0: the productions
  // UTF8-1 to UTF8-4 of section 4 of RFC 3629.
  function HeadLength(s: ByteString): (n: nat)
    ensures n <= |s| && n <= 4
    ensures n > 0 ==> RuneStart(s[0]) && forall i | 0 < i < n :: !RuneStart(s[i])
  {
    if s == [] then 0
    else if s[0] <= 0x7F then 1
    else if 0xC2 <= s[0] <= 0xDF && |s| >= 2 && Tail(s[1]) then 2
    else if |s| >= 3 && Tail(s[2]) &&
            ((s[0] == 0xE0 && 0xA0 <= s[1] <= 0xBF) || (0xE1 <= s[0] <= 0xEC && Tail(s[1]))
             || (s[0] == 0xED && 0x80 <= s[1] <= 0x9F) || (0xEE <= s[0] <= 0xEF && Tail(s[1]))) then 3
    else if |s| >= 4 && Tail(s[2]) && Tail(s[3]) &&
            ((s[0] == 0xF0 && 0x90 <= s[1] <= 0xBF) || (0xF1 <= s[0] <= 0xF3 && Tail(s[1]))
             || (s[0] == 0xF4 && 0x80 <= s[1] <= 0x8F)) then 4
    else 0
  }

  // utf8.ValidString
  predicate ValidString(s: ByteString)
    decreases |s|
  {
    s == [] || (HeadLength(s) > 0 && ValidString(s[HeadLength(s)..]))
  }

  // ----- the same, from the characters -----

  // Unicode scalar values: all code points but the surrogates.
  predicate IsScalar(v: int) {
    0 <= v < 0xD800 || 0xE000 <= v < 0x11_0000
  }

  type Scalar = v: int | 0 <= v < 0xD800 || 0xE000 <= v < 0x11_0000

  // The octets of a character, by section 3 of RFC 3629.
  function Encode(v: Scalar): (s: ByteString)
    ensures 1 <= |s| <= 4
  {
    if v < 0x80 then [v]
    else if v < 0x800 then [0xC0 + v / 0x40, 0x80 + v % 0x40]
    else if v < 0x1_0000 then [0xE0 + v / 0x1000, 0x80 + v / 0x40 % 0x40, 0x80 + v % 0x40]
    else [0xF0 + v / 0x4_0000, 0x80 + v / 0x1000 % 0x40, 0x80 + v / 0x40 % 0x40, 0x80 + v % 0x40]
  }

  // The number in the payload bits of these octets.
  function Payload(lead: int, tail: seq<int>): int
    requires |tail| <= 3
  {
    if |tail| == 0 then lead
    else if |tail| == 1 then (lead - 0xC0) * 0x40 + (tail[0] - 0x80)
    else if |tail| == 2 then (lead - 0xE0) * 0x1000 + (tail[0] - 0x80) * 0x40 + (tail[1] - 0x80)
    else (lead - 0xF0) * 0x4_0000 + (tail[0] - 0x80) * 0x1000 + (tail[1] - 0x80) * 0x40 + (tail[2] - 0x80)
  }

  function Decode(s: ByteString): int
    requires 1 <= |s| <= 4
  {
    Payload(s[0], s[1..])
  }

  function EncodeAll(text: seq<Scalar>): ByteString {
    if text == [] then [] else Encode(text[0]) + EncodeAll(text[1..])
  }

  // Every character is recognised at the head of a string, whatever follows it.
  lemma HeadOfEncoded(v: Scalar, rest: ByteString)
    ensures HeadLength(Encode(v) + rest) == |Encode(v)|
  {
    EncodedIsHead(v);
    hide Encode;
    HeadExtends(Encode(v), rest);
  }

  lemma EncodedIsHead(v: Scalar)
    ensures HeadLength(Encode(v)) == |Encode(v)|
  {
  }

  lemma HeadExtends(e: ByteString, rest: ByteString)
    requires HeadLength(e) == |e| > 0
    ensures HeadLength(e + rest) == |e|
  {
    var s := e + rest;
    assert s[0] == e[0] && (|e| > 1 ==> s[1] == e[1]) && (|e| > 2 ==> s[2] == e[2]) && (|e| > 3 ==> s[3] == e[3]);
  }

  // And nothing else is: what is recognised at the head is the encoding of a character.
  lemma HeadIsEncoded(s: ByteString)
    requires HeadLength(s) > 0
    ensures var v := Decode(s[..HeadLength(s)]); IsScalar(v) && Encode(v) == s[..HeadLength(s)]
  {
    var n := HeadLength(s);
    var h := s[..n];
    if n == 1 {
      assert h == [s[0]] && h[1..] == [];
    } else if n == 2 {
      assert h == [s[0], s[1]] && h[1..] == [s[1]];
      TwoOctets(s[0], s[1]);
    } else if n == 3 {
      assert h == [s[0], s[1], s[2]] && h[1..] == [s[1], s[2]];
      ThreeOctets(s[0], s[1], s[2]);
    } else {
      assert h == [s[0], s[1], s[2], s[3]] && h[1..] == [s[1], s[2], s[3]];
      FourOctets(s[0], s[1], s[2], s[3]);
    }
  }

  lemma TwoOctets(a: Byte, b: Byte)
    requires 0xC2 <= a <= 0xDF && Tail(b)
    ensures var v := Payload(a, [b]); IsScalar(v) && Encode(v) == [a, b]
  {
  }

  lemma ThreeOctets(a: Byte, b: Byte, c: Byte)
    requires Tail(c)
    requires
      || (a == 0xE0 && 0xA0 <= b <= 0xBF) || (0xE1 <= a <= 0xEC && Tail(b))
      || (a == 0xED && 0x80 <= b <= 0x9F) || (0xEE <= a <= 0xEF && Tail(b))
    ensures var v := Payload(a, [b, c]); IsScalar(v) && Encode(v) == [a, b, c]
  {
    var v := Payload(a, [b, c]);
    assert v == ((a - 0xE0) * 0x40 + (b - 0x80)) * 0x40 + (c - 0x80);
    assert v / 0x40 == (a - 0xE0) * 0x40 + (b - 0x80);
  }

  lemma FourOctets(a: Byte, b: Byte, c: Byte, d: Byte)
    requires Tail(c) && Tail(d)
    requires
      || (a == 0xF0 && 0x90 <= b <= 0xBF) || (0xF1 <= a <= 0xF3 && Tail(b)) || (a == 0xF4 && 0x80 <= b <= 0x8F)
    ensures var v := Payload(a, [b, c, d]); IsScalar(v) && Encode(v) == [a, b, c, d]
  {
    var v := Payload(a, [b, c, d]);
    var upper := (a - 0xF0) * 0x40 + (b - 0x80);
    Groups(upper, c - 0x80, d - 0x80, v);
    assert v / 0x4_0000 == a - 0xF0;
  }

  lemma Groups(upper: int, c: int, d: int, v: int)
    requires upper >= 0 && 0 <= c < 0x40 && 0 <= d < 0x40 && v == upper * 0x1000 + c * 0x40 + d
    ensures v % 0x40 == d && v / 0x40 % 0x40 == c && v / 0x1000 == upper
  {
    assert v == (upper * 0x40 + c) * 0x40 + d;
    assert v / 0x40 == upper * 0x40 + c;
  }

  // A string is valid exactly when it encodes some text.
  lemma {:induction false} ValidIff(s: ByteString)
    ensures ValidString(s) <==> exists text :: s == EncodeAll(text)
    decreases |s|
  {
    if ValidString(s) {
      var text := TextOf(s);
    }
    if text :| s == EncodeAll(text) {
      EncodedIsValid(text);
    }
  }

  lemma {:induction false} TextOf(s: ByteString) returns (text: seq<Scalar>)
    requires ValidString(s)
    ensures s == EncodeAll(text)
    decreases |s|
  {
    text := [];
    if s != [] {
      var n := HeadLength(s);
      var rest := TextOf(s[n..]);
      HeadIsEncoded(s);
      hide HeadLength, Decode, Encode, ValidString;
      var v: Scalar := Decode(s[..n]);
      text := [v] + rest;
      assert s == s[..n] + s[n..];
    }
  }

  lemma {:induction false} EncodedIsValid(text: seq<Scalar>)
    ensures ValidString(EncodeAll(text))
  {
    NothingIsValid();
    if text != [] {
      EncodedIsValid(text[1..]);
      var rest := EncodeAll(text[1..]);
      HeadOfEncoded(text[0], rest);
      assert (Encode(text[0]) + rest)[|Encode(text[0])|..] == rest;
      hide HeadLength, Encode;
      ValidByHead(EncodeAll(text));
    }
  }

  // ----- boundaries -----

  // The offsets at which the code points of a valid string start, with its end.
  ghost predicate IsStart(s: ByteString, offset: nat)
    requires ValidString(s)
    decreases |s|
  {
    offset == 0 || (s != [] && offset >= HeadLength(s) && IsStart(s[HeadLength(s)..], offset - HeadLength(s)))
  }

  // utf8Boundary
  predicate Boundary(text: ByteString, offset: nat) {
    offset == 0 || offset == |text| || (offset < |text| && RuneStart(text[offset]))
  }

  // In a valid string the local test for a boundary is exact: an offset passes it
  // exactly when a code point starts there or the string ends there.
  lemma {:induction false} BoundaryIsStart(s: ByteString, offset: nat)
    requires ValidString(s) && offset <= |s|
    ensures Boundary(s, offset) <==> IsStart(s, offset)
    decreases |s|
  {
    if s != [] && offset > 0 {
      var n := HeadLength(s);
      if offset >= n {
        BoundaryIsStart(s[n..], offset - n);
        if n < |s| {
          assert HeadLength(s[n..]) > 0;
          assert offset < |s| ==> s[n..][offset - n] == s[offset];
        }
      }
    }
  }

  // Cutting a valid string at a boundary leaves two valid strings.
  lemma CutInTail(s: ByteString, n: nat, offset: nat)
    requires n <= offset <= |s|
    ensures s[n..][offset - n..] == s[offset..] && s[n..][..offset - n] == s[..offset][n..]
  {
  }

  lemma {:induction false} CutAtBoundary(s: ByteString, offset: nat)
    requires ValidString(s) && offset <= |s| && Boundary(s, offset)
    ensures ValidString(s[..offset]) && ValidString(s[offset..])
    decreases |s|
  {
    NothingIsValid();
    hide HeadLength, Boundary, ValidString;
    if s == [] || offset == 0 {
      assert s[..offset] == [] && s[offset..] == s;
    } else {
      var n := HeadLength(s);
      BoundaryInTail(s, offset);
      CutAtBoundary(s[n..], offset - n);
      CutInTail(s, n, offset);
      HeadOfPrefix(s, offset);
      ValidByHead(s[..offset]);
    }
  }

  lemma NothingIsValid()
    ensures ValidString([])
  {
  }

  lemma ValidByHead(s: ByteString)
    requires HeadLength(s) > 0 && ValidString(s[HeadLength(s)..])
    ensures ValidString(s)
  {
  }

  // Beyond the first code point, a boundary is a boundary of the rest.
  lemma BoundaryInTail(s: ByteString, offset: nat)
    requires ValidString(s) && s != [] && 0 < offset <= |s| && Boundary(s, offset)
    ensures var n := HeadLength(s);
      0 < n <= offset && ValidString(s[n..]) && Boundary(s[n..], offset - n)
  {
    var n := HeadLength(s);
    assert offset >= n;
    assert offset < |s| ==> s[n..][offset - n] == s[offset];
  }

  lemma HeadOfPrefix(s: ByteString, offset: nat)
    requires HeadLength(s) > 0 && HeadLength(s) <= offset <= |s|
    ensures HeadLength(s[..offset]) == HeadLength(s)
  {
  }

  // Conversely an offset inside a code point leaves neither piece valid.
  lemma {:induction false} CutInsideCodePoint(s: ByteString, offset: nat)
    requires ValidString(s) && offset <= |s| && !Boundary(s, offset)
    ensures !ValidString(s[..offset]) && !ValidString(s[offset..])
    decreases |s|
  {
    assert 0 < offset < |s| && s[offset..][0] == s[offset];
    var n := HeadLength(s);
    if offset < n {
      NoHeadInside(s, offset);
    } else {
      if n < |s| {
        assert s[n..][0] == s[n] && HeadLength(s[n..]) > 0;
      }
      assert s[n..][offset - n] == s[offset];
      CutInsideCodePoint(s[n..], offset - n);
      assert s[n..][..offset - n] == s[..offset][n..];
      HeadOfPrefix(s, offset);
    }
  }

  // A code point cut short is none.
  lemma NoHeadInside(s: ByteString, offset: nat)
    requires 0 < offset < HeadLength(s)
    ensures HeadLength(s[..offset]) == 0
  {
    var p := s[..offset];
    assert |p| == offset && p[0] == s[0] && (offset > 1 ==> p[1] == s[1]) && (offset > 2 ==> p[2] == s[2]);
  }

  datatype MessageRole = User | Assistant | Tool
  datatype AssertionMode = AssertedByUser | AssertedByTool

  // The types of identities and digests are those of the caller.
  datatype EvidenceRef<S, M, D> = EvidenceRef(
    source: S, message: M, role: MessageRole, startByte: nat, endByte: nat, mode: AssertionMode, digest: D)

  predicate ModeMatchesRole(mode: AssertionMode, role: MessageRole) {
    (mode == AssertedByUser ==> role == User) && (mode == AssertedByTool ==> role == Tool)
  }

  // The test made of a span.
  predicate SpanFits(text: ByteString, startByte: nat, endByte: nat) {
    && ValidString(text) && startByte < endByte <= |text|
    && Boundary(text, startByte) && Boundary(text, endByte)
  }

  // The three pieces a span cuts its text into.
  ghost predicate CutsCleanly(text: ByteString, startByte: nat, endByte: nat)
    requires startByte <= endByte <= |text|
  {
    ValidString(text[..startByte]) && ValidString(text[startByte..endByte]) && ValidString(text[endByte..])
  }

  // NewEvidenceRef: succeeds exactly for a non-empty span that cuts the text into three
  // valid pieces. The digest function stands for SHA-256 in hexadecimal.
  method NewEvidenceRef<S, M, D>(
    sha: ByteString -> D, sourceIsId: S -> bool, messageIsId: M -> bool, source: S, message: M, role: MessageRole,
    text: ByteString, startByte: nat, endByte: nat, mode: AssertionMode) returns (r: Result<EvidenceRef<S, M, D>>)
    ensures r.Ok? <==>
      && sourceIsId(source) && messageIsId(message) && ModeMatchesRole(mode, role)
      && ValidString(text) && startByte < endByte <= |text| && CutsCleanly(text, startByte, endByte)
    ensures r.Ok? ==> r.value == EvidenceRef(source, message, role, startByte, endByte, mode, sha(text))
  {
    SpanFitsIff(text, startByte, endByte);
    if !sourceIsId(source) || !messageIsId(message) {
      return Err(InvalidDerived);
    }
    if !SpanFits(text, startByte, endByte) {
      return Err(InvalidDerived);
    }
    if !ModeMatchesRole(mode, role) {
      return Err(InvalidDerived);
    }
    r := Ok(EvidenceRef(source, message, role, startByte, endByte, mode, sha(text)));
  }

  // A span passes the test exactly when it cuts valid text into three valid pieces.
  lemma SpanFitsIff(text: ByteString, startByte: nat, endByte: nat)
    ensures SpanFits(text, startByte, endByte) <==>
      ValidString(text) && startByte < endByte <= |text| && CutsCleanly(text, startByte, endByte)
  {
    if ValidString(text) && startByte < endByte <= |text| {
      if Boundary(text, startByte) && Boundary(text, endByte) {
        CleanCut(text, startByte, endByte);
      } else {
        DirtyCut(text, startByte, endByte);
      }
    }
  }

  // An accepted span cuts valid text into three valid pieces.
  lemma CleanCut(text: ByteString, startByte: nat, endByte: nat)
    requires ValidString(text) && startByte <= endByte <= |text|
    requires Boundary(text, startByte) && Boundary(text, endByte)
    ensures CutsCleanly(text, startByte, endByte)
  {
    CutAtBoundary(text, endByte);
    var head := text[..endByte];
    assert startByte < endByte ==> head[startByte] == text[startByte];
    assert Boundary(head, startByte);
    hide HeadLength, ValidString, Boundary;
    CutAtBoundary(head, startByte);
    assert head[..startByte] == text[..startByte] && head[startByte..] == text[startByte..endByte];
  }

  lemma DirtyCut(text: ByteString, startByte: nat, endByte: nat)
    requires ValidString(text) && startByte < endByte <= |text|
    requires !Boundary(text, startByte) || !Boundary(text, endByte)
    ensures !CutsCleanly(text, startByte, endByte)
  {
  }
}
