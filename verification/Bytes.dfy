/**
 Bytes as the wire carries them, and the integer representations the hosts use.

 `byte_representation<T>` overlays a value with its bytes; `reorder` swaps those bytes in place on a
 little-endian host, so that the wire form is the big-endian one whatever the host.
 */
module Bytes {

  type Byte = x: int | 0 <= x < 256

  datatype Endian = Little | Big

  function Pow256(w: nat): nat
  {
    if w == 0 then 1 else 256 * Pow256(w - 1)
  }

  function Min(a: nat, b: nat): nat
  {
    if a <= b then a else b
  }

  function Reversed<T>(s: seq<T>): seq<T>
  {
    seq(|s|, i requires 0 <= i < |s| => s[|s| - 1 - i])
  }

  /** The `w` lowest base-256 digits of `n`, least significant first. */
  function LittleDigits(n: nat, w: nat): (s: seq<Byte>)
    ensures |s| == w
  {
    if w == 0 then [] else [n % 256] + LittleDigits(n / 256, w - 1)
  }

  function LittleValue(s: seq<Byte>): (n: nat)
    ensures n < Pow256(|s|)
  {
    if s == [] then 0 else s[0] + 256 * LittleValue(s[1..])
  }

  /** The bytes a host of the given endianness keeps for the `w`-byte unsigned value `n`. */
  function HostBytes(n: nat, w: nat, host: Endian): (s: seq<Byte>)
    ensures |s| == w
  {
    if host.Little? then LittleDigits(n, w) else Reversed(LittleDigits(n, w))
  }

  /** The value a host of the given endianness reads from the bytes `s`. */
  function HostValue(s: seq<Byte>, host: Endian): nat
  {
    LittleValue(if host.Little? then s else Reversed(s))
  }

  /** What `reorder` leaves in the bytes `s` on the given host. */
  function Reordered(s: seq<Byte>, host: Endian): seq<Byte>
  {
    if host.Little? then Reversed(s) else s
  }

  const U32_LIMIT: nat := 0x1_0000_0000

  lemma Pow256Of4()
    ensures Pow256(4) == U32_LIMIT
  {
    assert Pow256(1) == 256;
    assert Pow256(2) == 65536;
    assert Pow256(3) == 16777216;
  }

  lemma ReversedTwice<T>(s: seq<T>)
    ensures Reversed(Reversed(s)) == s
  {
  }

  lemma {:induction false} LittleRoundTrip(n: nat, w: nat)
    requires n < Pow256(w)
    ensures LittleValue(LittleDigits(n, w)) == n
  {
    if w > 0 {
      LittleRoundTrip(n / 256, w - 1);
      assert LittleDigits(n, w)[1..] == LittleDigits(n / 256, w - 1);
    }
  }

  lemma LowDigit(low: Byte, high: nat)
    ensures (low + 256 * high) % 256 == low && (low + 256 * high) / 256 == high
  {
  }

  lemma DigitsStep(n: nat, w: nat)
    requires w > 0
    ensures LittleDigits(n, w) == [n % 256] + LittleDigits(n / 256, w - 1)
  {
  }

  lemma {:induction false} LittleDigitsOfValue(s: seq<Byte>)
    ensures LittleDigits(LittleValue(s), |s|) == s
  {
    if s != [] {
      LittleDigitsOfValue(s[1..]);
      LowDigit(s[0], LittleValue(s[1..]));
      hide LittleDigits;
      DigitsStep(LittleValue(s), |s|);
    }
  }

  lemma Pow256Positive(w: nat)
    ensures Pow256(w) > 0
  {
  }

  /** A quotient is known by its remainder. */
  lemma DivUnique(n: nat, a: nat, q: nat, r: nat)
    requires a > 0 && n == a * q + r && r < a
    ensures n / a == q
  {
    var d := n / a - q;
    assert n == a * (n / a) + n % a;
    assert a * d == a * (n / a) - a * q;
    assert d > 0 ==> a * d >= a;
    assert d < 0 ==> a * d + a <= 0;
  }

  lemma Distributes(a: int, x: int, y: int)
    ensures a * (x + y) == a * x + a * y
  {
  }

  lemma Associates(a: int, b: int, c: int)
    ensures a * (b * c) == (a * b) * c
  {
  }

  lemma Below(a: nat, x: nat, b: nat)
    requires x < b
    ensures a * x + a <= a * b
  {
    Distributes(a, x, b - x);
    assert a * (b - x) >= a;
  }

  /** Dividing twice is dividing by the product. */
  lemma DivTwice(n: nat, a: nat, b: nat)
    requires a > 0 && b > 0
    ensures a * b > 0 && n / a / b == n / (a * b)
  {
    var q := n / a;
    var r := a * (q % b) + n % a;
    assert n == a * q + n % a;
    assert q == b * (q / b) + q % b;
    Distributes(a, b * (q / b), q % b);
    Associates(a, b, q / b);
    Below(a, q % b, b);
    DivUnique(n, a * b, q / b, r);
  }

  /** The digits, read off by division. */
  lemma {:induction false} LittleDigitAt(n: nat, w: nat, i: nat)
    requires i < w
    ensures Pow256(i) > 0 && LittleDigits(n, w)[i] == n / Pow256(i) % 256
  {
    Pow256Positive(i);
    if i > 0 {
      LittleDigitAt(n / 256, w - 1, i - 1);
      DivTwice(n, 256, Pow256(i - 1));
    }
  }

  /** The bytes of a number in either order, one by one: in the big-endian form the most significant comes first. */
  lemma HostByteAt(n: nat, w: nat, i: nat)
    requires i < w
    ensures Pow256(i) > 0 && Pow256(w - 1 - i) > 0
    ensures HostBytes(n, w, Little)[i] == n / Pow256(i) % 256
    ensures HostBytes(n, w, Big)[i] == n / Pow256(w - 1 - i) % 256
  {
    LittleDigitAt(n, w, i);
    LittleDigitAt(n, w, w - 1 - i);
  }

  /** Host bytes and host value are inverse to each other, on either host. */
  lemma HostRoundTrip(n: nat, w: nat, host: Endian)
    requires n < Pow256(w)
    ensures HostValue(HostBytes(n, w, host), host) == n
  {
    LittleRoundTrip(n, w);
    ReversedTwice(LittleDigits(n, w));
  }

  lemma HostBytesOfValue(s: seq<Byte>, host: Endian)
    ensures HostValue(s, host) < Pow256(|s|)
    ensures HostBytes(HostValue(s, host), |s|, host) == s
  {
    LittleDigitsOfValue(if host.Little? then s else Reversed(s));
    ReversedTwice(s);
  }

  /**
   `reorder` makes the wire form host independent: after it the bytes of any value, of any width, are its
   big-endian ones, and a second `reorder` gives back the bytes it started from.
   */
  lemma ReorderedIsBigEndian(n: nat, w: nat, host: Endian)
    ensures Reordered(HostBytes(n, w, host), host) == HostBytes(n, w, Big)
    ensures Reordered(Reordered(HostBytes(n, w, host), host), host) == HostBytes(n, w, host)
  {
    ReversedTwice(HostBytes(n, w, host));
  }

  /** A value written with `reorder` on one host is read back, with `reorder`, on any other. */
  lemma CrossHostScalar(n: nat, w: nat, writer: Endian, reader: Endian)
    requires n < Pow256(w)
    ensures HostValue(Reordered(Reordered(HostBytes(n, w, writer), writer), reader), reader) == n
  {
    ReorderedIsBigEndian(n, w, writer);
    ReorderedIsBigEndian(n, w, reader);
    HostRoundTrip(n, w, reader);
  }

  /** `byte_representation<T>`: the bytes overlaid on a value, on a host that is one of the two kinds. */
  class ByteRepresentation {
    const host: Endian
    const bytes: array<Byte>

    constructor (host: Endian, width: nat)
      ensures this.host == host && fresh(bytes) && bytes.Length == width
    {
      this.host := host;
      bytes := new Byte[width](_ => 0);
    }

    /** Assignment to the overlaid value. */
    method SetValue(value: nat)
      modifies bytes
      ensures bytes[..] == HostBytes(value, bytes.Length, host)
    {
      var digits := HostBytes(value, bytes.Length, host);
      for i := 0 to bytes.Length
        invariant bytes[..i] == digits[..i]
      {
        bytes[i] := digits[i];
      }
    }

    /** Received bytes are written over the beginning; behind them the representation stays as it was. */
    method Receive(received: seq<Byte>)
      requires |received| <= bytes.Length
      modifies bytes
      ensures bytes[..] == received + old(bytes[..])[|received|..]
    {
      for i := 0 to |received|
        invariant bytes[..i] == received[..i] && bytes[i..] == old(bytes[..])[i..]
      {
        bytes[i] := received[i];
      }
      assert bytes[..] == bytes[..|received|] + bytes[|received|..];
    }

    /** The swap loop runs where the first byte of the word 0xFF is the low one: on a little-endian host. */
    method Reorder()
      modifies bytes
      ensures bytes[..] == Reordered(old(bytes[..]), host)
      ensures forall i :: 0 <= i < bytes.Length ==>
        bytes[i] == if host.Little? then old(bytes[bytes.Length - 1 - i]) else old(bytes[i])
    {
      hide HostBytes;
      var order := HostBytes(0xFF, 4, host);
      FirstByteOfOrder(host);
      if order[0] != 0 {
        var n := bytes.Length;
        for i := 0 to n / 2
          invariant forall k :: 0 <= k < i ==> bytes[k] == old(bytes[n - 1 - k])
          invariant forall k :: 0 <= k < i ==> bytes[n - 1 - k] == old(bytes[k])
          invariant forall k :: i <= k < n - i ==> bytes[k] == old(bytes[k])
        {
          bytes[i], bytes[n - 1 - i] := bytes[n - 1 - i], bytes[i];
        }
        assert bytes[..] == Reversed(old(bytes[..]));
      }
    }
  }

  lemma FirstByteOfOrder(host: Endian)
    ensures HostBytes(0xFF, 4, host)[0] != 0 <==> host.Little?
  {
    var d := LittleDigits(0xFF, 4);
    assert d[0] == 0xFF;
    assert LittleDigits(0, 1) == [0] + LittleDigits(0, 0);
    assert LittleDigits(0, 2) == [0] + LittleDigits(0, 1);
    assert LittleDigits(0, 3) == [0] + LittleDigits(0, 2);
    assert d[3] == 0;
  }
}
