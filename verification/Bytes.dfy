// Byte strings: Go strings and slices as sequences of octets.
module Bytes {
  type Byte = x: int | 0 <= x < 256
  type ByteString = seq<Byte>

  // Strict lexicographic order, the order of Go string comparison and of Badger keys.
  predicate Less(a: ByteString, b: ByteString) {
    b != [] && (a == [] || a[0] < b[0] || (a[0] == b[0] && Less(a[1..], b[1..])))
  }

  lemma {:induction false} LessTransitive(a: ByteString, b: ByteString, c: ByteString)
    requires Less(a, b) && Less(b, c)
    ensures Less(a, c)
  {
    if a != [] && a[0] == b[0] && b[0] == c[0] {
      LessTransitive(a[1..], b[1..], c[1..]);
    }
  }

  lemma {:induction false} LessIrreflexive(a: ByteString)
    ensures !Less(a, a)
  {
    if a != [] { LessIrreflexive(a[1..]); }
  }

  lemma {:induction false} LessTotal(a: ByteString, b: ByteString)
    ensures Less(a, b) || Less(b, a) || a == b
  {
    if a != [] && b != [] && a[0] == b[0] {
      LessTotal(a[1..], b[1..]);
      assert a == [a[0]] + a[1..] && b == [b[0]] + b[1..];
    }
  }

  // A common prefix does not affect the order.
  lemma {:induction false} LessAfterPrefix(p: ByteString, a: ByteString, b: ByteString)
    ensures Less(p + a, p + b) <==> Less(a, b)
  {
    if p == [] {
      assert p + a == a && p + b == b;
    } else {
      assert (p + a)[1..] == p[1..] + a && (p + b)[1..] == p[1..] + b;
      LessAfterPrefix(p[1..], a, b);
    }
  }

  predicate IsSpaceByte(b: Byte) { b == 32 || 9 <= b <= 13 }

  // isCanonicalID on bytes: trimmed, non-empty and free of CR, LF and tab.
  predicate IsCanonicalId(s: ByteString) {
    s != [] && !IsSpaceByte(s[0]) && !IsSpaceByte(s[|s| - 1]) && 13 !in s && 10 !in s && 9 !in s
  }
}
