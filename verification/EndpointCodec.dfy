/** Endpoints: kernel hex to text (`trfx_connections`, `trfx_socket_owners`) and text to host and port
    (`trfx_actions`). */
module EndpointCodec {
  import opened CStrings
  import opened History

  const ENDPOINT_SIZE: nat := 64
  const PORT_SIZE: nat := 8

  // ---------------------------------------------------------------- searching

  /** `strchr`. */
  function IndexOf(s: string, c: char): (r: Option<nat>)
    ensures r.Some? ==> r.value < |s| && s[r.value] == c && forall j :: 0 <= j < r.value ==> s[j] != c
    ensures r.None? ==> forall j :: 0 <= j < |s| ==> s[j] != c
  {
    if s == [] then None
    else if s[0] == c then Some(0)
    else
      match IndexOf(s[1..], c)
      case None =>
        assert forall j :: 1 <= j < |s| ==> s[j] == s[1..][j - 1];
        None
      case Some(i) =>
        assert forall j :: 1 <= j <= i ==> s[j] == s[1..][j - 1];
        Some(i + 1)
  }

  /** `strrchr`. */
  function LastIndexOf(s: string, c: char): (r: Option<nat>)
    ensures r.Some? ==> r.value < |s| && s[r.value] == c && forall j :: r.value < j < |s| ==> s[j] != c
    ensures r.None? ==> forall j :: 0 <= j < |s| ==> s[j] != c
  {
    if s == [] then None
    else if s[|s| - 1] == c then Some(|s| - 1)
    else
      LastIndexOf(s[..|s| - 1], c)
  }

  lemma LastIndexUnique(s: string, c: char, k: nat)
    requires k < |s| && s[k] == c && forall j :: k < j < |s| ==> s[j] != c
    ensures LastIndexOf(s, c) == Some(k)
  {
  }

  lemma OnlyInFront(head: string, c: char, tail: string)
    requires c !in tail
    ensures var s := head + [c] + tail;
            |head| < |s| && s[|head|] == c && forall j :: |head| < j < |s| ==> s[j] != c
  {
    var s := head + [c] + tail;
    forall j | |head| < j < |s|
      ensures s[j] != c
    {
      assert s[j] == tail[j - |head| - 1];
    }
  }

  lemma LastIndexIs(head: string, c: char, tail: string)
    requires c !in tail
    ensures LastIndexOf(head + [c] + tail, c) == Some(|head|)
  {
    OnlyInFront(head, c, tail);
    LastIndexUnique(head + [c] + tail, c, |head|);
  }

  lemma FirstIndexIs(head: string, c: char, tail: string)
    requires c !in head
    ensures IndexOf(head + [c] + tail, c) == Some(|head|)
  {
    var s := head + [c] + tail;
    assert s[|head|] == c;
    assert forall j :: 0 <= j < |head| ==> s[j] == head[j];
  }

  // ---------------------------------------------------------------- hexadecimal numbers

  function HexDigit(d: nat): (c: char)
    requires d < 16
    ensures IsHexDigit(c) && HexDigitValue(c) == d
  {
    if d < 10 then '0' + d as char else 'A' + (d - 10) as char
  }

  predicate AllHex(s: string) {
    forall i :: 0 <= i < |s| ==> IsHexDigit(s[i])
  }

  function HexNumber(s: string): nat
    requires AllHex(s)
  {
    if s == [] then 0 else 16 * HexNumber(s[..|s| - 1]) + HexDigitValue(s[|s| - 1])
  }

  /** `%0<width>X` for a number that has at most `width` digits. */
  function HexPad(n: nat, width: nat): (s: string)
    ensures |s| == width && AllHex(s)
  {
    if width == 0 then "" else HexPad(n / 16, width - 1) + [HexDigit(n % 16)]
  }

  function Power16(n: nat): nat {
    if n == 0 then 1 else 16 * Power16(n - 1)
  }

  lemma {:induction false} HexRoundTrip(n: nat, width: nat)
    requires n < Power16(width)
    ensures HexNumber(HexPad(n, width)) == n
  {
    if width > 0 {
      HexRoundTrip(n / 16, width - 1);
      assert HexPad(n, width)[..width - 1] == HexPad(n / 16, width - 1);
    }
  }

  /** `%02X` of a byte. */
  function HexByte(n: nat): (s: string)
    requires n < 256
    ensures |s| == 2 && AllHex(s)
  {
    [HexDigit(n / 16), HexDigit(n % 16)]
  }

  /** The number two hex digits denote. */
  function ByteOf(high: char, low: char): (b: nat)
    requires IsHexDigit(high) && IsHexDigit(low)
    ensures b < 256
  {
    16 * HexDigitValue(high) + HexDigitValue(low)
  }

  lemma PairNumber(s: string)
    requires AllHex(s) && |s| == 2
    ensures HexNumber(s) == ByteOf(s[0], s[1])
  {
    assert s[..1][..0] == "";
    assert HexNumber(s[..1]) == HexDigitValue(s[0]);
  }

  lemma TwoDigits(n: nat)
    requires n < 256
    ensures HexNumber(HexByte(n)) == n
    ensures ByteOf(HexByte(n)[0], HexByte(n)[1]) == n
  {
    PairNumber(HexByte(n));
  }

  lemma FourDigits(n: nat)
    requires n < 65536
    ensures HexNumber(HexPad(n, 4)) == n
  {
    assert Power16(4) == 256 * Power16(2) && Power16(2) == 256;
    HexRoundTrip(n, 4);
  }

  /** The last two of the printed digits are the low byte. */
  lemma PadSplits(n: nat, high: nat, low: nat, width: nat)
    requires low < 256 && n == 256 * high + low
    ensures HexPad(n, width + 2) == HexPad(high, width) + HexByte(low)
  {
    assert n / 16 == 16 * high + low / 16 && n % 16 == low % 16;
    assert n / 16 / 16 == high && n / 16 % 16 == low / 16;
    assert HexPad(n, width + 2) == HexPad(n / 16, width + 1) + [HexDigit(n % 16)];
    assert HexPad(n / 16, width + 1) == HexPad(n / 16 / 16, width) + [HexDigit(n / 16 % 16)];
  }

  // ---------------------------------------------------------------- sscanf

  /** How many hex digits lead `s`, counting at most `limit`. */
  function HexRun(s: string, limit: nat): (n: nat)
    ensures n <= |s| && n <= limit && AllHex(s[..n])
    ensures n < |s| && n < limit ==> !IsHexDigit(s[n])
  {
    if s == [] || limit == 0 || !IsHexDigit(s[0]) then 0
    else
      var n := HexRun(s[1..], limit - 1);
      assert s[..n + 1] == [s[0]] + s[1..][..n];
      n + 1
  }

  lemma {:induction false} HexRunIs(digits: string, rest: string, limit: nat)
    requires AllHex(digits) && |digits| <= limit
    requires |digits| == limit || rest == [] || !IsHexDigit(rest[0])
    ensures HexRun(digits + rest, limit) == |digits|
  {
    if digits != [] {
      assert (digits + rest)[1..] == digits[1..] + rest;
      HexRunIs(digits[1..], rest, limit - 1);
    } else {
      assert digits + rest == rest;
    }
  }

  /** `%X` into an `unsigned`: the number saturates at 64 bits and its low 32 bits are stored. */
  function Stored(n: nat): (u: nat)
    ensures u < 0x1_0000_0000
    ensures n < 0x1_0000_0000 ==> u == n
  {
    (if n < 0x1_0000_0000_0000_0000 then n else 0xFFFF_FFFF_FFFF_FFFF) % 0x1_0000_0000
  }

  datatype Scanned = Scanned(value: nat, rest: string)

  /** `%X` with a field width; it needs at least one digit. */
  function ScanHex(s: string, limit: nat): (r: Option<Scanned>)
    ensures r.Some? ==> r.value.value < 0x1_0000_0000
  {
    var n := HexRun(s, limit);
    if n == 0 then None else Some(Scanned(Stored(HexNumber(s[..n])), s[n..]))
  }

  lemma ScanHexIs(digits: string, rest: string, limit: nat)
    requires AllHex(digits) && 0 < |digits| <= limit
    requires |digits| == limit || rest == [] || !IsHexDigit(rest[0])
    ensures ScanHex(digits + rest, limit) == Some(Scanned(Stored(HexNumber(digits)), rest))
  {
    HexRunIs(digits, rest, limit);
    assert (digits + rest)[..|digits|] == digits;
    assert (digits + rest)[|digits|..] == rest;
  }

  lemma PairIsByte(s: string)
    requires AllHex(s) && |s| <= 2
    ensures HexNumber(s) < 256
  {
    if |s| == 2 {
      assert s[..1][..0] == "";
    }
  }

  datatype ScannedBytes = ScannedBytes(bytes: seq<nat>, rest: string)

  /** `%2X` repeated. */
  function ScanBytes(s: string, count: nat): (r: Option<ScannedBytes>)
    ensures r.Some? ==> |r.value.bytes| == count && forall i :: 0 <= i < count ==> r.value.bytes[i] < 256
  {
    if count == 0 then Some(ScannedBytes([], s))
    else
      match ScanHex(s, 2)
      case None => None
      case Some(first) =>
        PairIsByte(s[..HexRun(s, 2)]);
        match ScanBytes(first.rest, count - 1)
        case None => None
        case Some(more) => Some(ScannedBytes([first.value] + more.bytes, more.rest))
  }

  // ---------------------------------------------------------------- addresses

  /** Dotted decimal, first byte first. */
  function Dotted(b: seq<nat>): string
    requires |b| == 4
  {
    Decimal(b[0]) + "." + Decimal(b[1]) + "." + Decimal(b[2]) + "." + Decimal(b[3])
  }

  ghost predicate IsBytes(b: seq<nat>, n: nat) {
    |b| == n && forall i :: 0 <= i < n ==> b[i] < 256
  }

  /** What is relied on about `inet_ntop` for IPv6: a short text without `]`. */
  ghost predicate PrintsV6(ntop: seq<nat> -> string) {
    forall b :: |b| == 16 ==> 0 < |ntop(b)| <= 45 && ']' !in ntop(b)
  }

  /** Reverses the bytes inside each of the four words. */
  function SwapWords(b: seq<nat>): (r: seq<nat>)
    requires |b| == 16
    ensures |r| == 16
  {
    seq(16, i requires 0 <= i < 16 => b[i / 4 * 4 + (3 - i % 4)])
  }

  /** Reversing the bytes of each word twice changes nothing. */
  lemma SwapWordsInvolution(b: seq<nat>)
    requires |b| == 16
    ensures SwapWords(SwapWords(b)) == b
  {
    forall i | 0 <= i < 16
      ensures SwapWords(SwapWords(b))[i] == b[i]
    {
      var j := i / 4 * 4 + (3 - i % 4);
      assert j / 4 == i / 4 && j % 4 == 3 - i % 4;
    }
  }

  /** `hex_byte` on pair `k`: one or two hex digits; a pair that starts with a colon fails. */
  function Pair(hex: string, k: nat): (r: Option<nat>)
    requires 2 * k < |hex|
  {
    match ScanHex(hex[2 * k..], 2)
    case None => None
    case Some(scanned) => Some(scanned.value)
  }

  ghost predicate PairsScan(hex: string) {
    |hex| == 32 && forall k :: 0 <= k < 16 ==> Pair(hex, k).Some?
  }

  /** The bytes in the order of the text. */
  ghost function PairBytes(hex: string): (b: seq<nat>)
    requires PairsScan(hex)
    ensures |b| == 16
  {
    seq(16, k requires 0 <= k < 16 => Pair(hex, k).value)
  }

  /** Pair `b` of word `w` is stored in the mirrored place of that word. */
  ghost predicate PairStored(bytes: seq<nat>, hex: string, w: nat, b: nat)
    requires |hex| == 32 && |bytes| == 16 && w < 4 && b < 4
  {
    Pair(hex, 4 * w + b) == Some(bytes[4 * w + (3 - b)])
  }

  ghost predicate WordStored(bytes: seq<nat>, hex: string, w: nat)
    requires |hex| == 32 && |bytes| == 16 && w < 4
  {
    forall b :: 0 <= b < 4 ==> PairStored(bytes, hex, w, b)
  }

  lemma StoredPair(bytes: seq<nat>, hex: string, k: nat)
    requires |hex| == 32 && |bytes| == 16 && k < 16 && forall w :: 0 <= w < 4 ==> WordStored(bytes, hex, w)
    ensures Pair(hex, k) == Some(bytes[k / 4 * 4 + (3 - k % 4)])
  {
    assert WordStored(bytes, hex, k / 4);
    assert PairStored(bytes, hex, k / 4, k % 4);
    assert k == 4 * (k / 4) + k % 4;
  }

  lemma AllWordsStored(bytes: seq<nat>, hex: string)
    requires |hex| == 32 && |bytes| == 16 && forall w :: 0 <= w < 4 ==> WordStored(bytes, hex, w)
    ensures PairsScan(hex) && bytes == SwapWords(PairBytes(hex))
  {
    forall k | 0 <= k < 16
      ensures Pair(hex, k) == Some(bytes[k / 4 * 4 + (3 - k % 4)])
    {
      StoredPair(bytes, hex, k);
    }
    forall i | 0 <= i < 16
      ensures bytes[i] == SwapWords(PairBytes(hex))[i]
    {
      var k := i / 4 * 4 + (3 - i % 4);
      assert k / 4 == i / 4 && k % 4 == 3 - i % 4;
    }
  }

  lemma WordKept(before: seq<nat>, bytes: seq<nat>, hex: string, w: nat)
    requires |hex| == 32 && |bytes| == |before| == 16 && w < 4 && WordStored(before, hex, w)
    requires before[..4 * w + 4] == bytes[..4 * w + 4]
    ensures WordStored(bytes, hex, w)
  {
    forall b | 0 <= b < 4
      ensures PairStored(bytes, hex, w, b)
    {
      assert PairStored(before, hex, w, b);
      assert before[..4 * w + 4][4 * w + (3 - b)] == bytes[..4 * w + 4][4 * w + (3 - b)];
    }
  }

  lemma StorePair(before: seq<nat>, hex: string, word: nat, byte: nat)
    requires |hex| == 32 && |before| == 16 && word < 4 && byte < 4
    requires forall b :: 4 - byte <= b < 4 ==> PairStored(before, hex, word, b)
    ensures Pair(hex, 4 * word + (3 - byte)).None? ==> !PairsScan(hex)
    ensures Pair(hex, 4 * word + (3 - byte)).Some? ==>
              var after := before[4 * word + byte := Pair(hex, 4 * word + (3 - byte)).value];
              after[..4 * word] == before[..4 * word]
              && forall b :: 3 - byte <= b < 4 ==> PairStored(after, hex, word, b)
  {
    var stored := Pair(hex, 4 * word + (3 - byte));
    if stored.Some? {
      var after := before[4 * word + byte := stored.value];
      forall b | 3 - byte <= b < 4
        ensures PairStored(after, hex, word, b)
      {
        assert b > 3 - byte ==> PairStored(before, hex, word, b);
      }
    }
  }

  method ParseWord(hex: string, word: nat, bytes: array<nat>) returns (ok: bool)
    requires |hex| == 32 && word < 4 && bytes.Length == 16
    modifies bytes
    ensures ok ==> WordStored(bytes[..], hex, word)
    ensures bytes[..4 * word] == old(bytes[..4 * word])
    ensures !ok ==> !PairsScan(hex)
  {
    for byte := 0 to 4
      invariant forall b :: 4 - byte <= b < 4 ==> PairStored(bytes[..], hex, word, b)
      invariant bytes[..4 * word] == old(bytes[..4 * word])
    {
      ghost var before := bytes[..];
      var src := word * 8 + (3 - byte) * 2;
      var value := ScanHex(hex[src..], 2);
      assert src == 2 * (4 * word + (3 - byte));
      StorePair(before, hex, word, byte);
      if value.None? {
        return false;
      }
      bytes[word * 4 + byte] := value.value.value;
      assert bytes[..] == before[4 * word + byte := value.value.value];
    }
    return true;
  }

  /** `parse_ipv6_hex`, up to the call of `inet_ntop`. */
  method ParseIpv6Hex(hex: string) returns (bytes: Option<seq<nat>>)
    ensures bytes.Some? <==> PairsScan(hex)
    ensures bytes.Some? ==> bytes.value == SwapWords(PairBytes(hex))
  {
    if |hex| != 32 {
      return None;
    }
    var a := new nat[16];
    for word := 0 to 4
      invariant forall w :: 0 <= w < word ==> WordStored(a[..], hex, w)
    {
      ghost var before := a[..];
      var ok := ParseWord(hex, word, a);
      if !ok {
        return None;
      }
      forall w | 0 <= w < word
        ensures WordStored(a[..], hex, w)
      {
        assert before[..4 * word][..4 * w + 4] == a[..4 * word][..4 * w + 4];
        assert before[..4 * w + 4] == a[..][..4 * w + 4];
        WordKept(before, a[..], hex, w);
      }
    }
    AllWordsStored(a[..], hex);
    return Some(a[..]);
  }

  // ---------------------------------------------------------------- parse_ip_port

  predicate HexFieldChar(c: char) {
    IsHexDigit(c) || c == ':'
  }

  /** What the `sscanf` set lets through. */
  ghost predicate IsHexField(hex: string) {
    forall i :: 0 <= i < |hex| ==> HexFieldChar(hex[i])
  }

  function V4Print(b: seq<nat>, port: nat): string
    requires |b| == 4
  {
    Dotted(b) + ":" + Decimal(port)
  }

  function V4Text(hex: string): string {
    match ScanBytes(hex, 4)
    case None => "-"
    case Some(four) =>
      if four.rest == [] || four.rest[0] != ':' then "-"
      else
        match ScanHex(four.rest[1..], |hex|)
        case None => "-"
        case Some(port) =>
          V4Print([four.bytes[3], four.bytes[2], four.bytes[1], four.bytes[0]], port.value)
  }

  ghost function V6Text(hex: string, port: nat, ntop: seq<nat> -> string): string
    requires |hex| == 32
  {
    if PairsScan(hex) then "[" + ntop(SwapWords(PairBytes(hex))) + "]:" + Decimal(port) else "-"
  }

  /** The text of an endpoint; `-` when the field is malformed. */
  ghost function EndpointText(hex: string, ntop: seq<nat> -> string): string {
    match LastIndexOf(hex, ':')
    case None => "-"
    case Some(sep) =>
      match ScanHex(hex[sep + 1..], |hex|)
      case None => "-"
      case Some(port) => LocatedText(hex, sep, port.value, ntop)
  }

  /** The separator's place tells the address families apart. */
  ghost function LocatedText(hex: string, sep: nat, port: nat, ntop: seq<nat> -> string): string
    requires sep <= |hex|
  {
    if sep >= ENDPOINT_SIZE then "-"
    else if sep == 32 then V6Text(hex[..32], port, ntop)
    else V4Text(hex)
  }

  method ParseIpPort(hex: string, ntop: seq<nat> -> string) returns (dest: string)
    requires IsHexField(hex) && PrintsV6(ntop)
    ensures dest == EndpointText(hex, ntop) && |dest| < ENDPOINT_SIZE
  {
    var sep := LastIndexOf(hex, ':');
    if sep.None? {
      return "-";
    }
    var port := ScanHex(hex[sep.value + 1..], |hex|);
    if port.None? {
      return "-";
    }
    var addrLen := sep.value;
    if addrLen >= ENDPOINT_SIZE {
      return "-";
    }
    PortLength(port.value.value);
    if addrLen == 32 {
      var bytes := ParseIpv6Hex(hex[..addrLen]);
      if bytes.None? {
        return "-";
      }
      return Fit("[" + ntop(bytes.value) + "]:" + Decimal(port.value.value), ENDPOINT_SIZE);
    }
    V4TextFits(hex);
    dest := Fit(V4Text(hex), ENDPOINT_SIZE);
  }

  lemma PortLength(port: nat)
    requires port < 0x1_0000_0000
    ensures |Decimal(port)| <= 10
    ensures port < 10000000 ==> |Decimal(port)| < PORT_SIZE
  {
    assert Power10(5) == 100000;
    assert Power10(10) == 100000 * Power10(5);
    DecimalLength(port, 10, Power10(10));
    if port < 10000000 {
      assert Power10(7) == 100 * Power10(5);
      DecimalLength(port, 7, Power10(7));
    }
  }

  lemma DottedShort(b: seq<nat>)
    requires IsBytes(b, 4)
    ensures 0 < |Dotted(b)| <= 15 && Dotted(b)[0] != '['
  {
    assert Power10(3) == 1000;
    DecimalLength(b[0], 3, 1000);
    DecimalLength(b[1], 3, 1000);
    DecimalLength(b[2], 3, 1000);
    DecimalLength(b[3], 3, 1000);
    assert Dotted(b)[0] == Decimal(b[0])[0];
  }

  lemma V4TextFits(hex: string)
    ensures |V4Text(hex)| < ENDPOINT_SIZE
  {
    var four := ScanBytes(hex, 4);
    if four.Some? && four.value.rest != [] {
      var port := ScanHex(four.value.rest[1..], |hex|);
      DottedShort([four.value.bytes[3], four.value.bytes[2], four.value.bytes[1], four.value.bytes[0]]);
      if port.Some? {
        PortLength(port.value.value);
      }
    }
  }

  // ---------------------------------------------------------------- split_endpoint

  datatype HostPort = HostPort(host: string, port: string)

  /** `host` and `port` are the two parts of `endpoint`. A leading bracket closes at the first `]`, which
      a colon must follow; otherwise the last colon separates. */
  ghost predicate Splits(endpoint: string, host: string, port: string) {
    && host != "" && port != ""
    && if endpoint != "" && endpoint[0] == '[' then endpoint == "[" + host + "]:" + port && ']' !in host
       else endpoint == host + ":" + port && ':' !in port
  }

  /** There is at most one way to split an endpoint. */
  lemma SplitsOneWay(endpoint: string, h1: string, p1: string, h2: string, p2: string)
    requires Splits(endpoint, h1, p1) && Splits(endpoint, h2, p2)
    ensures h1 == h2 && p1 == p2
  {
    if endpoint[0] == '[' {
      BracketIndex(h1, p1);
      BracketIndex(h2, p2);
      assert h1 == endpoint[1..|h1| + 1] && p1 == endpoint[|h1| + 3..];
      assert h2 == endpoint[1..|h2| + 1] && p2 == endpoint[|h2| + 3..];
    } else {
      LastIndexIs(h1, ':', p1);
      LastIndexIs(h2, ':', p2);
      assert h1 == endpoint[..|h1|] && p1 == endpoint[|h1| + 1..];
      assert h2 == endpoint[..|h2|] && p2 == endpoint[|h2| + 1..];
    }
  }

  lemma BracketIndex(host: string, port: string)
    requires ']' !in host
    ensures IndexOf("[" + host + "]:" + port, ']') == Some(|host| + 1)
  {
    FirstIndexIs("[" + host, ']', ":" + port);
    assert "[" + host + "]:" + port == "[" + host + [']'] + (":" + port);
  }

  /** Host and port of an endpoint, as far as the two buffers hold them. */
  function SplitEndpoint(endpoint: string, hostSize: nat, portSize: nat): Option<HostPort> {
    if hostSize == 0 || portSize == 0 then None
    else if endpoint != "" && endpoint[0] == '[' then
      match IndexOf(endpoint, ']')
      case None => None
      case Some(end) =>
        if end + 1 == |endpoint| || endpoint[end + 1] != ':' then None
        else CheckedSplit(endpoint[1..end], endpoint[end + 2..], hostSize, portSize)
    else
      match LastIndexOf(endpoint, ':')
      case None => None
      case Some(colon) => CheckedSplit(endpoint[..colon], endpoint[colon + 1..], hostSize, portSize)
  }

  function CheckedSplit(host: string, rest: string, hostSize: nat, portSize: nat): Option<HostPort> {
    if |host| == 0 || |host| >= hostSize then None
    else if Fit(rest, portSize) == "" then None
    else Some(HostPort(host, Fit(rest, portSize)))
  }

  /** Where the first `]` is found decides how a bracketed text splits. */
  lemma BracketedSplit(endpoint: string)
    requires endpoint != "" && endpoint[0] == '['
    ensures var end := IndexOf(endpoint, ']');
            forall h, p :: Splits(endpoint, h, p) <==>
              && end.Some? && end.value + 1 < |endpoint| && endpoint[end.value + 1] == ':'
              && h != "" && p != "" && h == endpoint[1..end.value] && p == endpoint[end.value + 2..]
  {
    var end := IndexOf(endpoint, ']');
    forall h, p | Splits(endpoint, h, p)
      ensures end == Some(|h| + 1) && |h| + 2 < |endpoint| && endpoint[|h| + 2] == ':'
      ensures h == endpoint[1..|h| + 1] && p == endpoint[|h| + 3..]
    {
      BracketIndex(h, p);
    }
    if end.Some? && end.value + 1 < |endpoint| && endpoint[end.value + 1] == ':' {
      assert end.value > 0;
      Bracketed(endpoint, end.value);
    }
  }

  lemma Bracketed(endpoint: string, end: nat)
    requires 0 < end && end + 1 < |endpoint| && endpoint[0] == '[' && endpoint[end] == ']' && endpoint[end + 1] == ':'
    requires ']' !in endpoint[..end]
    ensures endpoint == "[" + endpoint[1..end] + "]:" + endpoint[end + 2..] && ']' !in endpoint[1..end]
  {
    assert endpoint[1..end] == endpoint[..end][1..];
  }

  /** Where the last colon is found decides how any other text splits. */
  lemma PlainSplit(endpoint: string)
    requires endpoint == "" || endpoint[0] != '['
    ensures var colon := LastIndexOf(endpoint, ':');
            forall h, p :: Splits(endpoint, h, p) <==>
              colon.Some? && h != "" && p != "" && h == endpoint[..colon.value] && p == endpoint[colon.value + 1..]
  {
    var colon := LastIndexOf(endpoint, ':');
    forall h, p | Splits(endpoint, h, p)
      ensures colon == Some(|h|) && h == endpoint[..|h|] && p == endpoint[|h| + 1..]
    {
      LastIndexIs(h, ':', p);
    }
    if colon.Some? {
      assert endpoint == endpoint[..colon.value] + ":" + endpoint[colon.value + 1..];
    }
  }

  /** A text that splits into a host that fits and a port is split so, its port cut to the buffer. */
  lemma SplitComplete(endpoint: string, hostSize: nat, portSize: nat, host: string, port: string)
    requires Splits(endpoint, host, port) && |host| < hostSize && portSize > 1
    ensures SplitEndpoint(endpoint, hostSize, portSize) == Some(HostPort(host, Fit(port, portSize)))
  {
    if endpoint[0] == '[' {
      BracketedSplit(endpoint);
    } else {
      PlainSplit(endpoint);
    }
  }

  /** Nothing else is split. */
  lemma SplitSound(endpoint: string, hostSize: nat, portSize: nat) returns (port: string)
    requires SplitEndpoint(endpoint, hostSize, portSize).Some?
    ensures var r := SplitEndpoint(endpoint, hostSize, portSize).value;
            Splits(endpoint, r.host, port) && |r.host| < hostSize && portSize > 1 && r.port == Fit(port, portSize)
  {
    if endpoint != "" && endpoint[0] == '[' {
      port := BracketedSound(endpoint, hostSize, portSize);
    } else {
      port := PlainSound(endpoint, hostSize, portSize);
    }
  }

  lemma BracketedSound(endpoint: string, hostSize: nat, portSize: nat) returns (port: string)
    requires endpoint != "" && endpoint[0] == '[' && SplitEndpoint(endpoint, hostSize, portSize).Some?
    ensures var r := SplitEndpoint(endpoint, hostSize, portSize).value;
            Splits(endpoint, r.host, port) && |r.host| < hostSize && portSize > 1 && r.port == Fit(port, portSize)
  {
    BracketedSplit(endpoint);
    var end := IndexOf(endpoint, ']').value;
    port := endpoint[end + 2..];
    assert Splits(endpoint, endpoint[1..end], port);
  }

  lemma PlainSound(endpoint: string, hostSize: nat, portSize: nat) returns (port: string)
    requires (endpoint == "" || endpoint[0] != '[') && SplitEndpoint(endpoint, hostSize, portSize).Some?
    ensures var r := SplitEndpoint(endpoint, hostSize, portSize).value;
            Splits(endpoint, r.host, port) && |r.host| < hostSize && portSize > 1 && r.port == Fit(port, portSize)
  {
    PlainSplit(endpoint);
    var colon := LastIndexOf(endpoint, ':').value;
    port := endpoint[colon + 1..];
    assert Splits(endpoint, endpoint[..colon], port);
  }

  /** The placeholder never splits. */
  lemma DashRejected(host: string, port: string, hostSize: nat, portSize: nat)
    ensures !Splits("-", host, port) && SplitEndpoint("-", hostSize, portSize) == None
  {
    assert LastIndexOf("-", ':') == None;
    PlainSplit("-");
  }

  // ---------------------------------------------------------------- decoding, printing and splitting

  lemma V4Splits(b: seq<nat>, port: nat)
    requires IsBytes(b, 4) && port < 0x1_0000_0000
    ensures Splits(V4Print(b, port), Dotted(b), Decimal(port)) && |Dotted(b)| < ENDPOINT_SIZE
  {
    DottedShort(b);
    assert V4Print(b, port)[0] == Dotted(b)[0];
  }

  lemma V4PrintSplits(text: string, b: seq<nat>, port: nat)
    requires IsBytes(b, 4) && port < 0x1_0000_0000 && text == V4Print(b, port)
    ensures SplitEndpoint(text, ENDPOINT_SIZE, PORT_SIZE)
            == Some(HostPort(Dotted(b), Fit(Decimal(port), PORT_SIZE)))
  {
    V4Splits(b, port);
    SplitComplete(V4Print(b, port), ENDPOINT_SIZE, PORT_SIZE, Dotted(b), Decimal(port));
  }

  lemma V6Splits(host: string, port: nat)
    requires host != "" && ']' !in host && port < 0x1_0000_0000
    ensures Splits("[" + host + "]:" + Decimal(port), host, Decimal(port))
  {
  }

  /** Whatever the field, the text is the placeholder or splits into the printed host and port. */
  lemma DecodedTextSplits(hex: string, ntop: seq<nat> -> string) returns (host: string, port: nat)
    requires PrintsV6(ntop) && EndpointText(hex, ntop) != "-"
    ensures port < 0x1_0000_0000 && Splits(EndpointText(hex, ntop), host, Decimal(port))
    ensures SplitEndpoint(EndpointText(hex, ntop), ENDPOINT_SIZE, PORT_SIZE)
            == Some(HostPort(host, Fit(Decimal(port), PORT_SIZE)))
  {
    var sep := LastIndexOf(hex, ':').value;
    if sep == 32 {
      port := ScanHex(hex[sep + 1..], |hex|).value.value;
      host := V6TextSplits(hex[..32], port, ntop);
    } else {
      host, port := V4TextSplits(hex);
    }
    SplitComplete(EndpointText(hex, ntop), ENDPOINT_SIZE, PORT_SIZE, host, Decimal(port));
  }

  lemma V6TextSplits(digits: string, port: nat, ntop: seq<nat> -> string) returns (host: string)
    requires PrintsV6(ntop) && |digits| == 32 && port < 0x1_0000_0000 && V6Text(digits, port, ntop) != "-"
    ensures Splits(V6Text(digits, port, ntop), host, Decimal(port)) && |host| < ENDPOINT_SIZE
  {
    host := ntop(SwapWords(PairBytes(digits)));
    V6Splits(host, port);
  }

  lemma V4TextSplits(hex: string) returns (host: string, port: nat)
    requires V4Text(hex) != "-"
    ensures port < 0x1_0000_0000 && Splits(V4Text(hex), host, Decimal(port)) && |host| < ENDPOINT_SIZE
  {
    var four := ScanBytes(hex, 4).value;
    var b := [four.bytes[3], four.bytes[2], four.bytes[1], four.bytes[0]];
    port := ScanHex(four.rest[1..], |hex|).value.value;
    host := Dotted(b);
    V4Splits(b, port);
  }

  /** The number whose bytes lie in memory in this order on a little-endian machine. */
  function LittleEndian(b: seq<nat>): nat
    requires |b| == 4
  {
    b[0] + 256 * (b[1] + 256 * (b[2] + 256 * b[3]))
  }

  /** How the kernel prints four bytes of an address: the word in memory, as `%08X`. */
  function KernelWord(b: seq<nat>): (s: string)
    requires |b| == 4
    ensures |s| == 8 && AllHex(s)
  {
    HexPad(LittleEndian(b), 8)
  }

  lemma PadFour(n: nat, n1: nat, n2: nat, b3: nat, b0: nat, b1: nat, b2: nat)
    requires b0 < 256 && b1 < 256 && b2 < 256 && b3 < 256
    requires n == 256 * n1 + b0 && n1 == 256 * n2 + b1 && n2 == 256 * b3 + b2
    ensures HexPad(n, 8) == HexByte(b3) + HexByte(b2) + HexByte(b1) + HexByte(b0)
  {
    PadSplits(n, n1, b0, 6);
    PadSplits(n1, n2, b1, 4);
    PadSplits(n2, b3, b2, 2);
    PadSplits(b3, 0, b3, 0);
    assert HexPad(0, 0) + HexByte(b3) == HexByte(b3);
  }

  lemma KernelWordPairs(b: seq<nat>)
    requires IsBytes(b, 4)
    ensures KernelWord(b) == HexByte(b[3]) + HexByte(b[2]) + HexByte(b[1]) + HexByte(b[0])
  {
    var n2 := b[2] + 256 * b[3];
    var n1 := b[1] + 256 * n2;
    PadFour(b[0] + 256 * n1, n1, n2, b[3], b[0], b[1], b[2]);
  }

  function KernelV4(b: seq<nat>, port: nat): string
    requires |b| == 4
  {
    KernelWord(b) + ":" + HexPad(port, 4)
  }

  function KernelV6(b: seq<nat>, port: nat): string
    requires |b| == 16
  {
    KernelWord(b[..4]) + KernelWord(b[4..8]) + KernelWord(b[8..12]) + KernelWord(b[12..]) + ":" + HexPad(port, 4)
  }

  lemma ShiftPairs(digits: string, more: seq<nat>, count: nat)
    requires AllHex(digits) && |digits| == 2 * count && |more| == count - 1
    requires forall i :: 0 <= i < count - 1 ==> more[i] == ByteOf(digits[2..][2 * i], digits[2..][2 * i + 1])
    ensures var bytes := [ByteOf(digits[0], digits[1])] + more;
            forall i :: 0 <= i < count ==> bytes[i] == ByteOf(digits[2 * i], digits[2 * i + 1])
  {
    var bytes := [ByteOf(digits[0], digits[1])] + more;
    forall i | 0 <= i < count
      ensures bytes[i] == ByteOf(digits[2 * i], digits[2 * i + 1])
    {
      if i > 0 {
        assert digits[2..][2 * (i - 1)] == digits[2 * i] && digits[2..][2 * (i - 1) + 1] == digits[2 * i + 1];
      }
    }
  }

  /** Four pairs of hex digits in a row are read as four bytes. */
  lemma {:induction false} ScanPairs(digits: string, rest: string, count: nat)
    requires AllHex(digits) && |digits| == 2 * count
    ensures var r := ScanBytes(digits + rest, count);
            && r.Some? && r.value.rest == rest
            && forall i :: 0 <= i < count ==> r.value.bytes[i] == ByteOf(digits[2 * i], digits[2 * i + 1])
  {
    if count == 0 {
      assert digits + rest == rest;
    } else {
      var more := digits[2..];
      assert digits + rest == digits[..2] + (more + rest);
      PairNumber(digits[..2]);
      ScanHexIs(digits[..2], more + rest, 2);
      ScanPairs(more, rest, count - 1);
      ShiftPairs(digits, ScanBytes(more + rest, count - 1).value.bytes, count);
    }
  }

  lemma ScanPort(digits: string, limit: nat)
    requires AllHex(digits) && 0 < |digits| <= limit
    ensures ScanHex(digits, limit) == Some(Scanned(Stored(HexNumber(digits)), ""))
  {
    assert digits + "" == digits;
    ScanHexIs(digits, "", limit);
  }

  lemma NoColon(digits: string)
    requires AllHex(digits)
    ensures ':' !in digits
  {
  }

  /** The address bytes an eight-digit word stands for. */
  function AddressBytes(digits: string): (b: seq<nat>)
    requires AllHex(digits) && |digits| == 8
    ensures |b| == 4
  {
    [ByteOf(digits[6], digits[7]), ByteOf(digits[4], digits[5]), ByteOf(digits[2], digits[3]), ByteOf(digits[0], digits[1])]
  }

  lemma ScanAddress(digits: string, rest: string)
    requires AllHex(digits) && |digits| == 8
    ensures var r := ScanBytes(digits + rest, 4);
            && r.Some? && r.value.rest == rest
            && [r.value.bytes[3], r.value.bytes[2], r.value.bytes[1], r.value.bytes[0]] == AddressBytes(digits)
  {
    ScanPairs(digits, rest, 4);
    var bytes := ScanBytes(digits + rest, 4).value.bytes;
    assert bytes[0] == ByteOf(digits[2 * 0], digits[2 * 0 + 1]);
    assert bytes[1] == ByteOf(digits[2 * 1], digits[2 * 1 + 1]);
    assert bytes[2] == ByteOf(digits[2 * 2], digits[2 * 2 + 1]);
    assert bytes[3] == ByteOf(digits[2 * 3], digits[2 * 3 + 1]);
  }

  lemma V4TextIs(digits: string, port: string, hex: string)
    requires AllHex(digits) && |digits| == 8 && AllHex(port) && port != "" && hex == digits + (":" + port)
    ensures V4Text(hex) == V4Print(AddressBytes(digits), Stored(HexNumber(port)))
  {
    ScanAddress(digits, ":" + port);
    assert (":" + port)[1..] == port;
    ScanPort(port, |hex|);
  }

  /** The part behind the last colon is the port; the length of the rest picks the family. */
  lemma TextByPlace(head: string, port: string, ntop: seq<nat> -> string)
    requires AllHex(port) && port != ""
    ensures var hex := head + ":" + port;
            EndpointText(hex, ntop) == LocatedText(hex, |head|, Stored(HexNumber(port)), ntop)
  {
    var hex := head + ":" + port;
    NoColon(port);
    LastIndexIs(head, ':', port);
    assert hex[|head| + 1..] == port;
    ScanPort(port, |hex|);
  }

  /** The text of an eight-digit address and a port. */
  lemma V4Decoded(digits: string, port: string, ntop: seq<nat> -> string)
    requires AllHex(digits) && |digits| == 8 && AllHex(port) && port != ""
    ensures EndpointText(digits + ":" + port, ntop) == V4Print(AddressBytes(digits), Stored(HexNumber(port)))
  {
    TextByPlace(digits, port, ntop);
    assert digits + ":" + port == digits + (":" + port);
    V4TextIs(digits, port, digits + ":" + port);
  }

  lemma KernelWordBytes(b: seq<nat>)
    requires IsBytes(b, 4)
    ensures AddressBytes(KernelWord(b)) == b
  {
    var d := KernelWord(b);
    KernelWordPairs(b);
    assert d[0..2] == HexByte(b[3]) && d[2..4] == HexByte(b[2]) && d[4..6] == HexByte(b[1]) && d[6..8] == HexByte(b[0]);
    TwoDigits(b[0]);
    TwoDigits(b[1]);
    TwoDigits(b[2]);
    TwoDigits(b[3]);
  }

  /** An IPv4 endpoint as the kernel prints it is decoded and split into exactly its address and port. */
  lemma V4RoundTrip(b: seq<nat>, port: nat, ntop: seq<nat> -> string)
    requires IsBytes(b, 4) && port < 65536
    ensures EndpointText(KernelV4(b, port), ntop) == Dotted(b) + ":" + Decimal(port)
    ensures SplitEndpoint(EndpointText(KernelV4(b, port), ntop), ENDPOINT_SIZE, PORT_SIZE)
            == Some(HostPort(Dotted(b), Decimal(port)))
  {
    KernelWordBytes(b);
    FourDigits(port);
    V4Decoded(KernelWord(b), HexPad(port, 4), ntop);
    V4PrintSplits(V4Print(b, port), b, port);
    PortLength(port);
  }

  lemma PairIs(hex: string, k: nat, byte: nat)
    requires 2 * k + 2 <= |hex| && byte < 256 && hex[2 * k..2 * k + 2] == HexByte(byte)
    ensures Pair(hex, k) == Some(byte)
  {
    assert hex[2 * k..] == HexByte(byte) + hex[2 * k + 2..];
    ScanHexIs(HexByte(byte), hex[2 * k + 2..], 2);
    TwoDigits(byte);
  }

  lemma KernelPairAt(b: seq<nat>, j: nat)
    requires IsBytes(b, 4) && j < 4
    ensures KernelWord(b)[2 * j..2 * j + 2] == HexByte(b[3 - j])
  {
    KernelWordPairs(b);
    var h0, h1, h2, h3 := HexByte(b[3]), HexByte(b[2]), HexByte(b[1]), HexByte(b[0]);
    var s := h0 + h1 + h2 + h3;
    assert s[0..2] == h0 && s[2..4] == h1 && s[4..6] == h2 && s[6..8] == h3;
  }

  lemma SliceOfSlice(s: string, i: nat, n: nat, j: nat, m: nat)
    requires i + n <= |s| && j + m <= n
    ensures s[i..i + n][j..j + m] == s[i + j..i + j + m]
  {
    var t := s[i..i + n][j..j + m];
    forall k | 0 <= k < m
      ensures t[k] == s[i + j..i + j + m][k]
    {
    }
  }

  /** The four pairs of word `w` are its bytes, last one first. */
  lemma WordPairs(hex: string, b: seq<nat>, w: nat)
    requires IsBytes(b, 16) && |hex| == 32 && w < 4 && hex[8 * w..8 * w + 8] == KernelWord(b[4 * w..4 * w + 4])
    ensures forall j :: 0 <= j < 4 ==> PairStored(b, hex, w, j)
  {
    forall j | 0 <= j < 4
      ensures PairStored(b, hex, w, j)
    {
      KernelPairAt(b[4 * w..4 * w + 4], j);
      SliceOfSlice(hex, 8 * w, 8, 2 * j, 2);
      PairIs(hex, 4 * w + j, b[4 * w + (3 - j)]);
    }
  }

  /** An IPv6 endpoint as the kernel prints it is decoded and split into exactly its address and port. */
  lemma V6RoundTrip(b: seq<nat>, port: nat, ntop: seq<nat> -> string)
    requires IsBytes(b, 16) && port < 65536 && PrintsV6(ntop)
    ensures EndpointText(KernelV6(b, port), ntop) == "[" + ntop(b) + "]:" + Decimal(port)
    ensures SplitEndpoint(EndpointText(KernelV6(b, port), ntop), ENDPOINT_SIZE, PORT_SIZE)
            == Some(HostPort(ntop(b), Decimal(port)))
  {
    var digits := KernelWord(b[..4]) + KernelWord(b[4..8]) + KernelWord(b[8..12]) + KernelWord(b[12..]);
    V6TextIs(digits, HexPad(port, 4), ntop);
    FourDigits(port);
    V6Digits(b, digits);
    V6Splits(ntop(b), port);
    PortLength(port);
    SplitComplete("[" + ntop(b) + "]:" + Decimal(port), ENDPOINT_SIZE, PORT_SIZE, ntop(b), Decimal(port));
  }

  lemma V6TextIs(digits: string, port: string, ntop: seq<nat> -> string)
    requires |digits| == 32 && AllHex(port) && port != ""
    ensures EndpointText(digits + ":" + port, ntop) == V6Text(digits, Stored(HexNumber(port)), ntop)
  {
    TextByPlace(digits, port, ntop);
    assert (digits + ":" + port)[..32] == digits;
  }

  lemma WordDigits(b: seq<nat>, digits: string)
    requires |b| == 16
    requires digits == KernelWord(b[..4]) + KernelWord(b[4..8]) + KernelWord(b[8..12]) + KernelWord(b[12..])
    ensures |digits| == 32
    ensures forall w :: 0 <= w < 4 ==> digits[8 * w..8 * w + 8] == KernelWord(b[4 * w..4 * w + 4])
  {
    assert b[4 * 0..4 * 0 + 4] == b[..4] && b[4 * 3..4 * 3 + 4] == b[12..];
    assert digits[8 * 0..8 * 0 + 8] == KernelWord(b[4 * 0..4 * 0 + 4]);
    assert digits[8 * 1..8 * 1 + 8] == KernelWord(b[4 * 1..4 * 1 + 4]);
    assert digits[8 * 2..8 * 2 + 8] == KernelWord(b[4 * 2..4 * 2 + 4]);
    assert digits[8 * 3..8 * 3 + 8] == KernelWord(b[4 * 3..4 * 3 + 4]);
  }

  lemma V6Digits(b: seq<nat>, digits: string)
    requires IsBytes(b, 16)
    requires digits == KernelWord(b[..4]) + KernelWord(b[4..8]) + KernelWord(b[8..12]) + KernelWord(b[12..])
    ensures |digits| == 32 && PairsScan(digits) && SwapWords(PairBytes(digits)) == b
  {
    WordDigits(b, digits);
    forall w | 0 <= w < 4
      ensures WordStored(b, digits, w)
    {
      WordPairs(digits, b, w);
    }
    AllWordsStored(b, digits);
  }

  // ---------------------------------------------------------------- the socket-owner decoder

  /** The bytes of a number in memory on a little-endian machine. */
  function MemoryBytes(n: nat): (b: seq<nat>)
    requires n < 0x1_0000_0000
    ensures |b| == 4
  {
    [n % 256, n / 256 % 256, n / 65536 % 256, n / 16777216]
  }

  /** `hex_to_ip_port`: the whole address is scanned as one number, stored, and printed from memory. */
  function HexToIpPort(hexIp: string, hexPort: string): HostPort
    requires ScanHex(hexIp, |hexIp|).Some? && ScanHex(hexPort, |hexPort|).Some?
  {
    var ip, port := ScanHex(hexIp, |hexIp|).value.value, ScanHex(hexPort, |hexPort|).value.value;
    HostPort(Dotted(MemoryBytes(ip)), Fit(Decimal(port), PORT_SIZE))
  }

  lemma HexTail(s: string)
    requires AllHex(s) && |s| >= 2
    ensures HexNumber(s) == 256 * HexNumber(s[..|s| - 2]) + ByteOf(s[|s| - 2], s[|s| - 1])
  {
    assert s[..|s| - 1][..|s| - 2] == s[..|s| - 2];
  }

  lemma FourDigitPairs(s: string)
    requires AllHex(s) && |s| == 4
    ensures HexNumber(s) == ByteOf(s[2], s[3]) + 256 * ByteOf(s[0], s[1])
  {
    HexTail(s);
    PairNumber(s[..2]);
  }

  lemma SixDigitPairs(s: string)
    requires AllHex(s) && |s| == 6
    ensures HexNumber(s) == ByteOf(s[4], s[5]) + 256 * (ByteOf(s[2], s[3]) + 256 * ByteOf(s[0], s[1]))
  {
    HexTail(s);
    FourDigitPairs(s[..4]);
  }

  lemma EightDigitPairs(s: string)
    requires AllHex(s) && |s| == 8
    ensures HexNumber(s) == ByteOf(s[6], s[7]) +
                            256 * (ByteOf(s[4], s[5]) + 256 * (ByteOf(s[2], s[3]) + 256 * ByteOf(s[0], s[1])))
  {
    HexTail(s);
    SixDigitPairs(s[..6]);
  }

  lemma EightDigits(s: string)
    requires AllHex(s) && |s| == 8
    ensures HexNumber(s) < 0x1_0000_0000 && MemoryBytes(HexNumber(s)) == AddressBytes(s)
  {
    EightDigitPairs(s);
    BytesOfSum(ByteOf(s[6], s[7]), ByteOf(s[4], s[5]), ByteOf(s[2], s[3]), ByteOf(s[0], s[1]));
  }

  lemma BytesOfSum(b0: nat, b1: nat, b2: nat, b3: nat)
    requires b0 < 256 && b1 < 256 && b2 < 256 && b3 < 256
    ensures var n := b0 + 256 * (b1 + 256 * (b2 + 256 * b3));
            n < 0x1_0000_0000 && MemoryBytes(n) == [b0, b1, b2, b3]
  {
    var n := b0 + 256 * (b1 + 256 * (b2 + 256 * b3));
    assert n / 256 == b1 + 256 * (b2 + 256 * b3);
    assert n / 65536 == b2 + 256 * b3;
    assert n / 16777216 == b3;
  }

  lemma MemoryHost(hexIp: string, hexPort: string)
    requires AllHex(hexIp) && |hexIp| == 8 && AllHex(hexPort) && hexPort != ""
    ensures ScanHex(hexIp, |hexIp|).Some? && ScanHex(hexPort, |hexPort|).Some?
    ensures HexToIpPort(hexIp, hexPort)
            == HostPort(Dotted(AddressBytes(hexIp)), Fit(Decimal(Stored(HexNumber(hexPort))), PORT_SIZE))
  {
    ScanPort(hexIp, |hexIp|);
    ScanPort(hexPort, |hexPort|);
    EightDigits(hexIp);
  }

  lemma AddressIsBytes(digits: string)
    requires AllHex(digits) && |digits| == 8
    ensures IsBytes(AddressBytes(digits), 4)
  {
  }

  /** Both decoders give the same host and port for every eight-digit address and every port. */
  lemma DecodersAgree(hexIp: string, hexPort: string, ntop: seq<nat> -> string)
    requires AllHex(hexIp) && |hexIp| == 8 && AllHex(hexPort) && hexPort != ""
    ensures ScanHex(hexIp, |hexIp|).Some? && ScanHex(hexPort, |hexPort|).Some?
    ensures SplitEndpoint(EndpointText(hexIp + ":" + hexPort, ntop), ENDPOINT_SIZE, PORT_SIZE)
            == Some(HexToIpPort(hexIp, hexPort))
  {
    MemoryHost(hexIp, hexPort);
    V4Decoded(hexIp, hexPort, ntop);
    AddressIsBytes(hexIp);
    V4PrintSplits(EndpointText(hexIp + ":" + hexPort, ntop), AddressBytes(hexIp), Stored(HexNumber(hexPort)));
  }
}
