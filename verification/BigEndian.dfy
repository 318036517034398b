// 64-bit indices as big-endian byte strings, compared byte by byte.

module BigEndian {
  type Byte = b: nat | b < 256
  type Key = seq<Byte>

  const MAX_U64: nat := 0xFFFF_FFFF_FFFF_FFFF
  const WIDTH: nat := 8

  type U64 = n: nat | n <= MAX_U64

  function Power(k: nat): (p: nat)
    ensures p > 0
  {
    if k == 0 then 1 else 256 * Power(k - 1)
  }

  // n, written with `width` bytes, most significant first.
  function Encode(n: nat, width: nat): (bytes: Key)
    requires n < Power(width)
    ensures |bytes| == width
  {
    if width == 0 then [] else Encode(n / 256, width - 1) + [n % 256]
  }

  function Decode(bytes: Key): (n: nat)
    ensures n < Power(|bytes|)
  {
    if bytes == [] then 0
    else Decode(bytes[..|bytes| - 1]) * 256 + bytes[|bytes| - 1]
  }

  lemma {:induction false} DecodeEncode(n: nat, width: nat)
    requires n < Power(width)
    ensures Decode(Encode(n, width)) == n
  {
    if width != 0 {
      DecodeEncode(n / 256, width - 1);
      assert Encode(n, width)[..width - 1] == Encode(n / 256, width - 1);
    }
  }

  lemma {:induction false} EncodeDecode(bytes: Key)
    ensures Encode(Decode(bytes), |bytes|) == bytes
  {
    if bytes != [] {
      EncodeDecode(bytes[..|bytes| - 1]);
    }
  }

  predicate Less(a: Key, b: Key) {
    b != [] && (a == [] || a[0] < b[0] || (a[0] == b[0] && Less(a[1..], b[1..])))
  }

  lemma {:induction false} LessByLastByte(a: Key, b: Key)
    requires |a| == |b| > 0
    ensures var n := |a| - 1;
            Less(a, b) <==> Less(a[..n], b[..n]) || (a[..n] == b[..n] && a[n] < b[n])
  {
    var n := |a| - 1;
    if n > 0 {
      LessByLastByte(a[1..], b[1..]);
      assert a[1..][..n - 1] == a[..n][1..] && b[1..][..n - 1] == b[..n][1..];
      assert a[..n] == [a[0]] + a[..n][1..] && b[..n] == [b[0]] + b[..n][1..];
    }
  }

  // Byte order is numeric order.
  lemma {:induction false} LessIsNumeric(a: Key, b: Key)
    requires |a| == |b|
    ensures Less(a, b) <==> Decode(a) < Decode(b)
  {
    if a != [] {
      var n := |a| - 1;
      LessIsNumeric(a[..n], b[..n]);
      LessByLastByte(a, b);
      EncodeDecode(a[..n]);
      EncodeDecode(b[..n]);
    }
  }

  lemma PowerOfWidth()
    ensures Power(WIDTH) == MAX_U64 + 1
  {
    assert Power(2) == 256 * Power(1) == 65536;
    assert Power(4) == 256 * Power(3) && Power(3) == 256 * Power(2);
    assert Power(6) == 256 * Power(5) && Power(5) == 256 * Power(4);
    assert Power(8) == 256 * Power(7) && Power(7) == 256 * Power(6);
  }

  // The log key of an index.
  function KeyOf(index: U64): (key: Key)
    ensures |key| == WIDTH && Decode(key) == index
  {
    PowerOfWidth();
    DecodeEncode(index, WIDTH);
    Encode(index, WIDTH)
  }

  function IndexOf(key: Key): (index: U64)
    requires |key| == WIDTH
    ensures KeyOf(index) == key
  {
    PowerOfWidth();
    EncodeDecode(key);
    Decode(key)
  }

  // Keys of different indices differ, and compare as their indices do.
  lemma KeysOrdered(i: U64, j: U64)
    ensures KeyOf(i) == KeyOf(j) <==> i == j
    ensures Less(KeyOf(i), KeyOf(j)) <==> i < j
  {
    LessIsNumeric(KeyOf(i), KeyOf(j));
  }
}
