/**
 Ids in text form: how an endpoint id or a GUID is printed into a fixed buffer, and read back.
 */
module TextIds {
  import opened Bytes

  /** `snprintf` into a buffer of `size` bytes, read as a string afterwards. */
  function Printed(text: string, size: nat): string
    requires size > 0
  {
    if |text| < size then text else text[..size - 1]
  }

  // Decimal numbers -------------------------------------------------------------------------------------

  predicate IsDigit(c: char)
  {
    '0' <= c <= '9'
  }

  function DigitChar(n: nat): (c: char)
    requires n < 10
    ensures IsDigit(c)
  {
    (48 + n) as char
  }

  /** `%d` of a value that is not negative. */
  function Decimal(n: nat): string
  {
    if n < 10 then [DigitChar(n)] else Decimal(n / 10) + [DigitChar(n % 10)]
  }

  function DigitRun(s: string): (n: nat)
    ensures n <= |s|
  {
    if s != [] && IsDigit(s[0]) then 1 + DigitRun(s[1..]) else 0
  }

  function DecimalValue(s: string): nat
  {
    if s == [] then 0
    else 10 * DecimalValue(s[..|s| - 1]) + if IsDigit(s[|s| - 1]) then s[|s| - 1] as int - 48 else 0
  }

  predicate IsSpace(c: char)
  {
    c == ' ' || '\t' <= c <= '\r'
  }

  /** `atoi`: blanks, a sign, and the digits up to the first character that is none. */
  function Atoi(s: string): int
  {
    if s == [] then 0
    else if IsSpace(s[0]) then Atoi(s[1..])
    else if s[0] == '-' then 0 - DecimalValue(s[1..][..DigitRun(s[1..])]) as int
    else if s[0] == '+' then DecimalValue(s[1..][..DigitRun(s[1..])])
    else DecimalValue(s[..DigitRun(s)])
  }

  /** The cast to `unsigned short`. */
  function UnsignedShort(n: int): nat
  {
    n % 65536
  }

  predicate AllDigits(s: string)
  {
    forall i :: 0 <= i < |s| ==> IsDigit(s[i])
  }

  lemma {:induction false} DecimalReadsBack(n: nat)
    ensures Decimal(n) != [] && AllDigits(Decimal(n)) && DecimalValue(Decimal(n)) == n
  {
    if n >= 10 {
      DecimalReadsBack(n / 10);
      var s := Decimal(n);
      assert s[..|s| - 1] == Decimal(n / 10);
    } else {
      var s := Decimal(n);
      assert s[..0] == [] && DecimalValue([]) == 0;
    }
  }

  lemma {:induction false} DigitRunOfDigits(s: string)
    requires AllDigits(s)
    ensures DigitRun(s) == |s|
  {
    if s != [] {
      DigitRunOfDigits(s[1..]);
    }
  }

  lemma AtoiOfDecimal(n: nat)
    ensures Atoi(Decimal(n)) == n
  {
    DecimalReadsBack(n);
    DigitRunOfDigits(Decimal(n));
    var s := Decimal(n);
    assert IsDigit(s[0]) && s[..|s|] == s;
  }

  lemma {:induction false} DigitRunThen(s: string, tail: string)
    requires AllDigits(s) && (tail == [] || !IsDigit(tail[0]))
    ensures DigitRun(s + tail) == |s|
  {
    if s == [] {
      assert s + tail == tail;
    } else {
      DigitRunThen(s[1..], tail);
      assert (s + tail)[1..] == s[1..] + tail;
    }
  }

  /** `atoi` takes a sign, passes over blanks, and stops at the first character that is no digit. */
  lemma AtoiOfText(n: nat, tail: string, blank: char)
    requires tail == [] || !IsDigit(tail[0])
    requires IsSpace(blank)
    ensures Atoi(Decimal(n) + tail) == Atoi("+" + (Decimal(n) + tail)) == n && Atoi("-" + (Decimal(n) + tail)) + n == 0
    ensures Atoi([blank] + tail) == Atoi(tail)
  {
    DecimalReadsBack(n);
    DigitRunThen(Decimal(n), tail);
    hide Decimal, DecimalValue, DigitRun;
    var s := Decimal(n) + tail;
    assert s[..|Decimal(n)|] == Decimal(n) && IsDigit(s[0]);
    assert ("+" + s)[1..] == s && ("-" + s)[1..] == s;
    assert ([blank] + tail)[1..] == tail;
  }

  lemma {:induction false} DecimalLength(n: nat)
    ensures n < 10 ==> |Decimal(n)| == 1
    ensures n < 100 ==> |Decimal(n)| <= 2
    ensures n < 1000 ==> |Decimal(n)| <= 3
    ensures n < 10000 ==> |Decimal(n)| <= 4
    ensures n < 100000 ==> |Decimal(n)| <= 5
  {
    if n >= 10 {
      DecimalLength(n / 10);
    }
  }

  function Pow10(k: nat): (p: nat)
    ensures p > 0
  {
    if k == 0 then 1 else 10 * Pow10(k - 1)
  }

  /** The decimal digits, the last one first, read off by division. */
  lemma {:induction false} DecimalDigitAt(n: nat, k: nat)
    requires k < |Decimal(n)|
    ensures Decimal(n)[|Decimal(n)| - 1 - k] as int == '0' as int + n / Pow10(k) % 10
  {
    if k > 0 {
      var s := Decimal(n);
      DecimalDigitAt(n / 10, k - 1);
      DivTwice(n, 10, Pow10(k - 1));
      assert s[..|s| - 1] == Decimal(n / 10);
    }
  }

  // Endpoint ids ----------------------------------------------------------------------------------------

  function Find(s: string, c: char): (i: nat)
    ensures i <= |s|
    ensures forall j :: 0 <= j < i ==> s[j] != c
    ensures i < |s| ==> s[i] == c
  {
    if s == [] || s[0] == c then 0 else 1 + Find(s[1..], c)
  }

  lemma FindBehind(s: string, c: char, tail: string)
    requires c !in s
    ensures Find(s + [c] + tail, c) == |s|
  {
    var t := s + [c] + tail;
    assert t[|s|] == c;
    assert forall j :: 0 <= j < |s| ==> t[j] == s[j];
  }

  function Dotted(host: seq<Byte>): string
    requires |host| == 4
  {
    Decimal(host[0]) + "." + Decimal(host[1]) + "." + Decimal(host[2]) + "." + Decimal(host[3])
  }

  const SOCKETS: string := "sockets"
  const COM: string := "com"

  function SocketsEndpointId(host: seq<Byte>, port: nat): string
    requires |host| == 4
  {
    Printed(SOCKETS + "|" + Dotted(host) + ":" + Decimal(port), 32)
  }

  datatype HostPort = HostPort(host: string, port: nat)

  /** The constructor of `host_port`: the host in front of the first colon, or the default one. */
  function ParseHostPort(address: string, defaultHost: string): HostPort
  {
    var i := Find(address, ':');
    if i < |address| then HostPort(address[..i], UnsignedShort(Atoi(address[i + 1..])))
    else HostPort(defaultHost, UnsignedShort(Atoi(address)))
  }

  /** How `select` ends; the caller's endpoint id is set before an unknown protocol throws. */
  datatype Selection = InvalidArgument | NotSupported(endpointId: string) | Selected(index: nat, endpointId: string)

  /** `select`: the first constructor whose protocol stands in front of the first bar. */
  method Select(protocols: seq<string>, typedId: string) returns (r: Selection)
    ensures r.InvalidArgument? <==> '|' !in typedId
    ensures !r.InvalidArgument? ==>
      var i := Find(typedId, '|');
      && r.endpointId == typedId[i + 1..]
      && (r.NotSupported? <==> typedId[..i] !in protocols)
      && (r.Selected? ==> r.index < |protocols| && protocols[r.index] == typedId[..i])
      && (r.Selected? ==> typedId[..i] !in protocols[..r.index])
  {
    var delim := Find(typedId, '|');
    if delim == |typedId| {
      return InvalidArgument;
    }
    var protocol := typedId[..delim];
    var endpointId := typedId[delim + 1..];
    for i := 0 to |protocols|
      invariant protocol !in protocols[..i]
    {
      if protocol == protocols[i] {
        return Selected(i, endpointId);
      }
    }
    return NotSupported(endpointId);
  }

  lemma DottedIsPlain(host: seq<Byte>)
    requires |host| == 4
    ensures 7 <= |Dotted(host)| <= 15
    ensures ':' !in Dotted(host) && '|' !in Dotted(host)
  {
    hide Decimal, DecimalValue;
    forall i | 0 <= i < 4
      ensures AllDigits(Decimal(host[i])) && 1 <= |Decimal(host[i])| <= 3
    {
      DecimalReadsBack(host[i]);
      DecimalLength(host[i]);
    }
  }

  lemma NotDigits(s: string, c: char)
    requires AllDigits(s) && !IsDigit(c)
    ensures c !in s
  {
  }

  /** The number in front of the first dot, and the text behind it. */
  lemma NumberThen(n: nat, tail: string)
    ensures var text := Decimal(n) + "." + tail; var i := Find(text, '.');
      i < |text| && Atoi(text[..i]) == n && text[i + 1..] == tail
  {
    DecimalReadsBack(n);
    AtoiOfDecimal(n);
    hide Decimal, DecimalValue, Atoi;
    NotDigits(Decimal(n), '.');
    FindBehind(Decimal(n), '.', tail);
    var text := Decimal(n) + "." + tail;
    assert text[..|Decimal(n)|] == Decimal(n) && text[|Decimal(n)| + 1..] == tail;
  }

  /** Split at its dots, a dotted host reads as the four components, in their order. */
  lemma DottedReadsBack(host: seq<Byte>)
    requires |host| == 4
    ensures var a := Dotted(host); var i := Find(a, '.');
      && i < |a| && Atoi(a[..i]) == host[0]
      && var b := a[i + 1..]; var j := Find(b, '.');
         && j < |b| && Atoi(b[..j]) == host[1]
         && var c := b[j + 1..]; var k := Find(c, '.');
            k < |c| && Atoi(c[..k]) == host[2] && Atoi(c[k + 1..]) == host[3]
  {
    var d := Decimal(host[3]);
    var c := Decimal(host[2]) + "." + d;
    var b := Decimal(host[1]) + "." + c;
    assert Dotted(host) == Decimal(host[0]) + "." + b;
    AtoiOfDecimal(host[3]);
    hide Decimal, Atoi, Dotted, Find;
    NumberThen(host[2], d);
    NumberThen(host[1], c);
    NumberThen(host[0], b);
  }

  /** An address that is a number alone names the default host; the number is cut to 16 bits. */
  lemma PortAlone(n: nat, defaultHost: string)
    ensures ParseHostPort(Decimal(n), defaultHost) == HostPort(defaultHost, n % 65536)
  {
    DecimalReadsBack(n);
    AtoiOfDecimal(n);
    hide Decimal, Atoi;
    NotDigits(Decimal(n), ':');
  }

  /**
   A sockets endpoint id fits its buffer, and reading it gives back what was printed: the protocol in front of the
   bar, the dotted host in front of the colon, and the port.
   */
  lemma SocketsIdRoundTrip(host: seq<Byte>, port: nat, defaultHost: string)
    requires |host| == 4 && port < 65536
    ensures var id := SocketsEndpointId(host, port); var i := Find(id, '|');
      && |id| < 32 && i < |id| && id[..i] == SOCKETS
      && ParseHostPort(id[i + 1..], defaultHost) == HostPort(Dotted(host), port)
  {
    hide Decimal, DecimalValue, Dotted, Atoi;
    DottedIsPlain(host);
    DecimalLength(port);
    AtoiOfDecimal(port);
    var endpoint := Dotted(host) + ":" + Decimal(port);
    var id := SOCKETS + "|" + endpoint;
    assert id == SOCKETS + "|" + Dotted(host) + ":" + Decimal(port);
    FindBehind(SOCKETS, '|', endpoint);
    assert id[|SOCKETS| + 1..] == endpoint;
    FindBehind(Dotted(host), ':', Decimal(port));
    assert endpoint[|Dotted(host)| + 1..] == Decimal(port);
  }

  // GUIDs -----------------------------------------------------------------------------------------------

  /** One directive of the GUID format: a number of so many bytes, in two hexadecimal digits each, or a dash. */
  datatype Directive = Field(bytes: nat) | Dash

  const GUID_FORMAT: seq<Directive> := [
    Field(4), Dash, Field(2), Dash, Field(2), Dash, Field(1), Field(1), Dash,
    Field(1), Field(1), Field(1), Field(1), Field(1), Field(1)]

  function HexChar(n: nat): char
    requires n < 16
  {
    if n < 10 then (48 + n) as char else (87 + n) as char
  }

  /** The value of a hexadecimal digit in either case, or 16. */
  function HexDigit(c: char): (n: nat)
    ensures n <= 16
  {
    if '0' <= c <= '9' then c as int - 48
    else if 'a' <= c <= 'f' then c as int - 87
    else if 'A' <= c <= 'F' then c as int - 55
    else 16
  }

  /** `%0wx` of a number of at most `w` digits. */
  function Hex(n: nat, w: nat): (s: string)
    ensures |s| == w
  {
    if w == 0 then [] else Hex(n / 16, w - 1) + [HexChar(n % 16)]
  }

  /** The hexadecimal digits at the head of `s`, at most `w` of them. */
  function HexRun(s: string, w: nat): (n: nat)
    ensures n <= w && n <= |s|
  {
    if w > 0 && s != [] && HexDigit(s[0]) < 16 then 1 + HexRun(s[1..], w - 1) else 0
  }

  function HexValue(s: string): nat
  {
    if s == [] then 0 else 16 * HexValue(s[..|s| - 1]) + HexDigit(s[|s| - 1])
  }

  function Pow16(w: nat): nat
  {
    if w == 0 then 1 else 16 * Pow16(w - 1)
  }

  function BytesOf(d: Directive): nat
  {
    match d case Field(n) => n case Dash => 0
  }

  function FieldBytes(format: seq<Directive>): nat
  {
    if format == [] then 0 else BytesOf(format[0]) + FieldBytes(format[1..])
  }

  /** Prints the bytes by the format, each field being the number the host reads from its bytes. */
  function Print(format: seq<Directive>, v: seq<Byte>, host: Endian): string
    requires |v| == FieldBytes(format)
  {
    if format == [] then []
    else
      match format[0]
      case Dash => "-" + Print(format[1..], v, host)
      case Field(n) => Hex(HostValue(v[..n], host), 2 * n) + Print(format[1..], v[n..], host)
  }

  /** Scans by the format; where the text does not fit it, the bytes left keep what they held. */
  function Scan(format: seq<Directive>, s: string, junk: seq<Byte>, host: Endian): (v: seq<Byte>)
    requires |junk| == FieldBytes(format)
    ensures |v| == |junk|
  {
    if format == [] then []
    else
      match format[0]
      case Dash => if s != [] && s[0] == '-' then Scan(format[1..], s[1..], junk, host) else junk
      case Field(n) =>
        var k := HexRun(s, 2 * n);
        if k == 0 then junk
        else HostBytes(HexValue(s[..k]), n, host) + Scan(format[1..], s[k..], junk[n..], host)
  }

  function GuidToString(id: seq<Byte>, host: Endian): string
    requires |id| == FieldBytes(GUID_FORMAT)
  {
    Printed(Print(GUID_FORMAT, id, host), 64)
  }

  function GuidFromString(s: string, junk: seq<Byte>, host: Endian): seq<Byte>
    requires |junk| == FieldBytes(GUID_FORMAT)
  {
    Scan(GUID_FORMAT, s, junk, host)
  }

  function ComEndpointId(id: seq<Byte>, host: Endian): string
    requires |id| == FieldBytes(GUID_FORMAT)
  {
    COM + "|" + GuidToString(id, host)
  }

  lemma {:induction false} HexReadsBack(n: nat, w: nat)
    requires n < Pow16(w)
    ensures HexValue(Hex(n, w)) == n
  {
    if w > 0 {
      HexReadsBack(n / 16, w - 1);
      var s := Hex(n, w);
      assert s[..|s| - 1] == Hex(n / 16, w - 1);
    }
  }

  lemma {:induction false} HexAllDigits(n: nat, w: nat)
    ensures forall i :: 0 <= i < w ==> HexDigit(Hex(n, w)[i]) < 16
  {
    if w > 0 {
      HexAllDigits(n / 16, w - 1);
    }
  }

  lemma {:induction false} HexRunOfDigits(s: string, w: nat, tail: string)
    requires |s| == w && forall i :: 0 <= i < w ==> HexDigit(s[i]) < 16
    ensures HexRun(s + tail, w) == w
  {
    if w > 0 {
      HexRunOfDigits(s[1..], w - 1, tail);
      assert (s + tail)[1..] == s[1..] + tail;
    }
  }

  lemma {:induction false} Pow16OfBytes(n: nat)
    ensures Pow16(2 * n) == Pow256(n)
  {
    if n > 0 {
      Pow16OfBytes(n - 1);
      assert Pow16(2 * n) == 16 * Pow16(2 * n - 1) == 256 * Pow16(2 * n - 2);
    }
  }

  predicate NoEmptyField(format: seq<Directive>)
  {
    forall i :: 0 <= i < |format| && format[i].Field? ==> format[i].bytes > 0
  }

  /** One field read back, whatever digits follow it. */
  lemma FieldReadsBack(v: seq<Byte>, tail: string, host: Endian)
    ensures var w := 2 * |v|; var s := Hex(HostValue(v, host), w) + tail;
      && HexRun(s, w) == w && s[w..] == tail
      && HostBytes(HexValue(s[..w]), |v|, host) == v
  {
    hide Hex, HexValue, HexRun, HostBytes, HostValue, Pow16, Pow256;
    var w := 2 * |v|;
    var digits := Hex(HostValue(v, host), w);
    HostBytesOfValue(v, host);
    Pow16OfBytes(|v|);
    HexReadsBack(HostValue(v, host), w);
    HexAllDigits(HostValue(v, host), w);
    HexRunOfDigits(digits, w, tail);
    assert (digits + tail)[..w] == digits;
  }

  /** Scanning undoes printing, for any format of fields and dashes. */
  lemma {:induction false} ScanOfPrint(format: seq<Directive>, v: seq<Byte>, junk: seq<Byte>, host: Endian)
    requires NoEmptyField(format) && |v| == |junk| == FieldBytes(format)
    ensures Scan(format, Print(format, v, host), junk, host) == v
    decreases |format|
  {
    hide Hex, HexValue, HexRun, HostBytes, HostValue;
    if format != [] {
      match format[0]
      case Dash =>
        ScanOfPrint(format[1..], v, junk, host);
        assert Print(format, v, host)[1..] == Print(format[1..], v, host);
      case Field(n) =>
        ScanOfPrint(format[1..], v[n..], junk[n..], host);
        FieldReadsBack(v[..n], Print(format[1..], v[n..], host), host);
        assert v[..n] + v[n..] == v;
    }
  }

  lemma {:induction false} PrintedLength(format: seq<Directive>, v: seq<Byte>, host: Endian)
    requires |v| == FieldBytes(format)
    ensures |Print(format, v, host)| <= |format| + 2 * |v|
  {
    hide HostValue;
    if format != [] {
      PrintedLength(format[1..], match format[0] case Field(n) => v[n..] case Dash => v, host);
    }
  }

  lemma {:induction false} Pow16Positive(k: nat)
    ensures Pow16(k) > 0
  {
    if k > 0 {
      Pow16Positive(k - 1);
    }
  }

  /** The hexadecimal digits, the last one first: `0` to `9`, then `a` to `f`. */
  lemma {:induction false} HexDigitAt(n: nat, w: nat, k: nat)
    requires k < w
    ensures Pow16(k) > 0
    ensures var digit := n / Pow16(k) % 16;
      Hex(n, w)[w - 1 - k] as int == if digit < 10 then '0' as int + digit else 'a' as int + digit - 10
  {
    Pow16Positive(k);
    if k > 0 {
      HexDigitAt(n / 16, w - 1, k - 1);
      Pow16Positive(k - 1);
      DivTwice(n, 16, Pow16(k - 1));
    }
  }

  /** Every GUID survives its text form, on either kind of host, and its text fits the buffer. */
  lemma GuidRoundTrip(id: seq<Byte>, junk: seq<Byte>, host: Endian)
    requires |id| == |junk| == FieldBytes(GUID_FORMAT)
    ensures |GuidToString(id, host)| < 64
    ensures GuidFromString(GuidToString(id, host), junk, host) == id
  {
    hide Print, Scan, FieldBytes, NoEmptyField;
    GuidBytes();
    PrintedLength(GUID_FORMAT, id, host);
    ScanOfPrint(GUID_FORMAT, id, junk, host);
  }

  lemma FieldBytesFrom(format: seq<Directive>, i: nat)
    requires i < |format|
    ensures FieldBytes(format[i..]) == BytesOf(format[i]) + FieldBytes(format[i + 1..])
  {
    assert format[i..][1..] == format[i + 1..];
  }

  lemma GuidBytes()
    ensures FieldBytes(GUID_FORMAT) == 16 && |GUID_FORMAT| == 15 && NoEmptyField(GUID_FORMAT)
  {
    hide FieldBytes, NoEmptyField;
    GuidFields(GUID_FORMAT);
    SumOf(GUID_FORMAT);
    assert GUID_FORMAT[0..] == GUID_FORMAT;
  }

  lemma GuidFields(f: seq<Directive>)
    requires f == GUID_FORMAT
    ensures |f| == 15 && NoEmptyField(f)
    ensures BytesOf(f[0]) == 4 && BytesOf(f[1]) == 0 && BytesOf(f[2]) == 2 && BytesOf(f[3]) == 0 && BytesOf(f[4]) == 2
    ensures BytesOf(f[5]) == 0 && BytesOf(f[6]) == 1 && BytesOf(f[7]) == 1 && BytesOf(f[8]) == 0 && BytesOf(f[9]) == 1
    ensures BytesOf(f[10]) == 1 && BytesOf(f[11]) == 1 && BytesOf(f[12]) == 1 && BytesOf(f[13]) == 1 && BytesOf(f[14]) == 1
  {
  }

  /** The fields of a format of fifteen directives, added up. */
  lemma SumOf(f: seq<Directive>)
    requires |f| == 15
    ensures FieldBytes(f[0..]) == BytesOf(f[0]) + BytesOf(f[1]) + BytesOf(f[2]) + BytesOf(f[3]) + BytesOf(f[4])
      + BytesOf(f[5]) + BytesOf(f[6]) + BytesOf(f[7]) + BytesOf(f[8]) + BytesOf(f[9]) + BytesOf(f[10])
      + BytesOf(f[11]) + BytesOf(f[12]) + BytesOf(f[13]) + BytesOf(f[14])
  {
    assert FieldBytes(f[15..]) == 0;
    hide FieldBytes;
    forall i: nat | i < 15
      ensures FieldBytes(f[i..]) == BytesOf(f[i]) + FieldBytes(f[i + 1..])
    {
      FieldBytesFrom(f, i);
    }
  }

  lemma PrintFirst(f: seq<Directive>, v: seq<Byte>, host: Endian)
    requires f != [] && |v| == FieldBytes(f)
    ensures var n := BytesOf(f[0]);
      && n <= |v| && |v[n..]| == FieldBytes(f[1..])
      && Print(f, v, host) == (if f[0].Dash? then "-" else Hex(HostValue(v[..n], host), 2 * n)) + Print(f[1..], v[n..], host)
  {
    hide Hex, HostValue;
  }

  /** One number of so many bytes. */
  function Digits(v: seq<Byte>, host: Endian): string
  {
    Hex(HostValue(v, host), 2 * |v|)
  }

  lemma FieldFirst(n: nat, g: seq<Directive>, v: seq<Byte>, host: Endian)
    requires |v| == n + FieldBytes(g)
    ensures FieldBytes([Field(n)] + g) == |v|
    ensures Print([Field(n)] + g, v, host) == Digits(v[..n], host) + Print(g, v[n..], host)
  {
    hide Hex, HostValue;
    var f := [Field(n)] + g;
    assert f[1..] == g;
    PrintFirst(f, v, host);
  }

  lemma DashFirst(g: seq<Directive>, v: seq<Byte>, host: Endian)
    requires |v| == FieldBytes(g)
    ensures FieldBytes([Dash] + g) == |v| && Print([Dash] + g, v, host) == "-" + Print(g, v, host)
  {
    hide Hex, HostValue;
    var f := [Dash] + g;
    assert f[1..] == g && v[0..] == v;
    PrintFirst(f, v, host);
  }

  /** A number and a dash. */
  lemma GroupFirst(n: nat, g: seq<Directive>, v: seq<Byte>, host: Endian)
    requires |v| == n + FieldBytes(g)
    ensures FieldBytes([Field(n)] + ([Dash] + g)) == |v|
    ensures Print([Field(n)] + ([Dash] + g), v, host) == Digits(v[..n], host) + ("-" + Print(g, v[n..], host))
  {
    DashFirst(g, v[n..], host);
    FieldFirst(n, [Dash] + g, v, host);
  }

  /** So many bytes, in two digits each. */
  function Pairs(v: seq<Byte>, host: Endian): string
  {
    if v == [] then [] else Digits(v[..1], host) + Pairs(v[1..], host)
  }

  lemma {:induction false} PairsFirst(f: seq<Directive>, g: seq<Directive>, v: seq<Byte>, host: Endian)
    requires |v| == |f| + FieldBytes(g) && forall i :: 0 <= i < |f| ==> f[i] == Field(1)
    ensures FieldBytes(f + g) == |v| && Print(f + g, v, host) == Pairs(v[..|f|], host) + Print(g, v[|f|..], host)
    decreases |f|
  {
    hide Digits, Print, FieldBytes;
    if f == [] {
      assert f + g == g && v[0..] == v && v[..0] == [];
    } else {
      PairsFirst(f[1..], g, v[1..], host);
      FieldFirst(1, f[1..] + g, v, host);
      assert f + g == [Field(1)] + (f[1..] + g);
      assert v[..|f|][1..] == v[1..][..|f| - 1] && v[..|f|][..1] == v[..1];
      assert v[1..][|f| - 1..] == v[|f|..];
    }
  }

  lemma {:induction false} PairsLength(v: seq<Byte>, host: Endian)
    ensures |Pairs(v, host)| == 2 * |v|
  {
    hide Hex, HostValue;
    if v != [] {
      PairsLength(v[1..], host);
    }
  }

  /** The last two groups: single bytes. */
  function LastGroups(v: seq<Byte>, host: Endian): string
    requires |v| == 8
  {
    Pairs(v[..2], host) + ("-" + Pairs(v[2..], host))
  }

  const SIX: seq<Directive> := [Field(1), Field(1), Field(1), Field(1), Field(1), Field(1)]
  const LAST: seq<Directive> := [Field(1), Field(1)] + ([Dash] + SIX)

  lemma LastLayout(v: seq<Byte>, host: Endian)
    requires |v| == 8
    ensures FieldBytes(LAST) == 8 && Print(LAST, v, host) == LastGroups(v, host) && |LastGroups(v, host)| == 17
  {
    NothingPrinted(host);
    hide Print, FieldBytes, Pairs;
    var w := v[2..];
    PairsFirst(SIX, [], w, host);
    assert SIX + [] == SIX && w[6..] == [] && w[..6] == w;
    assert Pairs(w, host) + [] == Pairs(w, host);
    DashFirst(SIX, w, host);
    PairsFirst([Field(1), Field(1)], [Dash] + SIX, v, host);
    PairsLength(v[..2], host);
    PairsLength(w, host);
  }

  /** The groups in front of them: numbers of the host. */
  function Groups(v: seq<Byte>, host: Endian): string
    requires |v| == 12
  {
    Digits(v[..2], host) + ("-" + (Digits(v[2..4], host) + ("-" + LastGroups(v[4..], host))))
  }

  lemma GroupsLayout(v: seq<Byte>, host: Endian)
    requires |v| == 12
    ensures var f := [Field(2)] + ([Dash] + ([Field(2)] + ([Dash] + LAST)));
      FieldBytes(f) == 12 && Print(f, v, host) == Groups(v, host) && |Groups(v, host)| == 27
  {
    hide Print, FieldBytes, Digits, LastGroups;
    LastLayout(v[4..], host);
    GroupFirst(2, LAST, v[2..], host);
    assert v[2..][2..] == v[4..] && v[2..][..2] == v[2..4];
    GroupFirst(2, [Field(2)] + ([Dash] + LAST), v, host);
    DigitsLength(v[..2], host);
    DigitsLength(v[2..4], host);
  }

  /** The text of a GUID: three numbers of the host, then single bytes, in groups of 8, 4, 4, 4 and 12 digits. */
  lemma GuidLayout(id: seq<Byte>, host: Endian)
    requires |id| == FieldBytes(GUID_FORMAT)
    ensures |id| == 16 && |GuidToString(id, host)| == 36
    ensures GuidToString(id, host) == Digits(id[..4], host) + ("-" + Groups(id[4..], host))
  {
    GuidBytes();
    FormatParts();
    hide Print, FieldBytes, Digits, Groups;
    TextOf(GUID_FORMAT, LAST, id, host);
  }

  lemma TextOf(f: seq<Directive>, last: seq<Directive>, id: seq<Byte>, host: Endian)
    requires last == LAST && f == [Field(4)] + ([Dash] + ([Field(2)] + ([Dash] + ([Field(2)] + ([Dash] + last)))))
    requires |id| == 16
    ensures FieldBytes(f) == 16 && |Print(f, id, host)| == 36
    ensures Print(f, id, host) == Digits(id[..4], host) + ("-" + Groups(id[4..], host))
  {
    hide Print, FieldBytes, Digits, Groups;
    GroupsLayout(id[4..], host);
    GroupFirst(4, [Field(2)] + ([Dash] + ([Field(2)] + ([Dash] + last))), id, host);
    DigitsLength(id[..4], host);
  }

  lemma FormatParts()
    ensures GUID_FORMAT == [Field(4)] + ([Dash] + ([Field(2)] + ([Dash] + ([Field(2)] + ([Dash] + LAST)))))
  {
  }

  lemma NothingPrinted(host: Endian)
    ensures FieldBytes([]) == 0 && Print([], [], host) == []
  {
  }

  lemma DigitsLength(v: seq<Byte>, host: Endian)
    ensures |Digits(v, host)| == 2 * |v|
  {
    hide Hex, HostValue;
  }

  /** A COM endpoint id names its protocol in front of the bar and its GUID behind it. */
  lemma ComIdRoundTrip(id: seq<Byte>, junk: seq<Byte>, host: Endian)
    requires |id| == |junk| == FieldBytes(GUID_FORMAT)
    ensures var text := ComEndpointId(id, host); var i := Find(text, '|');
      i < |text| && text[..i] == COM && GuidFromString(text[i + 1..], junk, host) == id
  {
    hide GuidToString, GuidFromString, FieldBytes;
    GuidRoundTrip(id, junk, host);
    var text := ComEndpointId(id, host);
    FindBehind(COM, '|', GuidToString(id, host));
    assert text[|COM| + 1..] == GuidToString(id, host);
  }
}
