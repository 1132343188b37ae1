/** Redirections of a cluster: MOVED and ASK errors, and IPv4 addresses as text. */
module Redirect {
  import opened Common
  import opened Decimal

  const EPROTO: int := 71
  const MAX_SIZE: nat := 0xffff_ffff_ffff_ffff
  const MAX_PORT: nat := 0xffff
  const MAX_IP: nat := 0xffff_ffff

  /** An unsigned number and the position behind it. */
  datatype Read = Read(n: int, end: nat)

  /** `std::from_chars` for an unsigned type, from position p on: digits only. */
  function FromChars(t: string, p: nat, max: nat): (r: Option<Read>)
    requires p <= |t|
    ensures r.Some? ==> p < r.value.end <= |t| && r.value.n <= max
  {
    var hi := DigitsEnd(t, p);
    if hi == p || Value(t, p, hi) > max then None else Some(Read(Value(t, p, hi), hi))
  }

  // ---- addresses

  /** The weight of the octet with number i, counted from the right. */
  function Weight(i: nat): int
    requires i < 4
  {
    match i case 0 => 1 case 1 => 0x100 case 2 => 0x1_0000 case _ => 0x100_0000
  }

  function Plus(n: int, rest: Option<int>): Option<int> {
    match rest case None => None case Some(m) => Some(n + m)
  }

  /** The octets i .. 0 of an address, from position p to the end of the text. */
  function IpFrom(t: string, p: nat, i: nat): Option<int>
    requires p <= |t| && i < 4
    decreases |t| - p
  {
    match FromChars(t, p, 255)
    case None => None
    case Some(octet) =>
      if i == 0 then (if octet.end == |t| then Some(octet.n) else None)
      else if octet.end < |t| && t[octet.end] == '.' then Plus(octet.n * Weight(i), IpFrom(t, octet.end + 1, i - 1))
      else None
  }

  /** The address a text stands for; 0 when it stands for none. */
  function IpOf(t: string): int {
    match IpFrom(t, 0, 3) case Some(ip) => ip case None => 0
  }

  /** `iptouint32`. It looks at the byte behind the text, which is a colon or a NUL. */
  method IpToUint32(t: string, after: char) returns (ip: int)
    requires after != '.'
    ensures ip == IpOf(t)
  {
    ip := 0;
    var ptr: nat := 0;
    var i: int := 3;
    while i >= 0
      invariant -1 <= i <= 3 && (if i >= 0 then ptr <= |t| else 1 <= ptr <= |t| + 1)
      invariant i >= 0 ==> IpFrom(t, 0, 3) == Plus(ip, IpFrom(t, ptr, i))
      invariant i == -1 ==> IpFrom(t, 0, 3) == (if ptr == |t| + 1 then Some(ip) else None)
    {
      match FromChars(t, ptr, 255) {
        case None => return 0;
        case Some(octet) =>
          ip := ip + octet.n * Weight(i);
          if i > 0 && (if octet.end < |t| then t[octet.end] else after) != '.' {
            return 0;
          }
          ptr := octet.end + 1;
      }
      i := i - 1;
    }
    if ptr != |t| + 1 {
      ip := 0;
    }
  }

  /** The octets of an address from the left. */
  function OctetsOf(ip: nat): (os: seq<nat>)
    requires ip <= MAX_IP
    ensures |os| == 4 && forall i :: 0 <= i < 4 ==> os[i] <= 255
  {
    [ip / 0x100_0000, ip / 0x1_0000 % 0x100, ip / 0x100 % 0x100, ip % 0x100]
  }

  function Dotted(os: seq<nat>): string
    requires os != []
  {
    if |os| == 1 then Digits(os[0]) else Digits(os[0]) + "." + Dotted(os[1..])
  }

  function Number(os: seq<nat>): int
    requires 0 < |os| <= 4
  {
    if |os| == 1 then os[0] else os[0] * Weight(|os| - 1) + Number(os[1..])
  }

  function IpText(ip: nat): string
    requires ip <= MAX_IP
  {
    Dotted(OctetsOf(ip))
  }

  /** `uint32toip`: the text up to the NUL is the dotted address, but the length returned is one
      less than that of the text. */
  method Uint32ToIp(ip: nat) returns (buffer: string, len: nat)
    requires ip <= MAX_IP
    ensures buffer == IpText(ip) && len + 1 == |IpText(ip)|
    ensures buffer[..len] == StoredText(ip)
  {
    var octets := OctetsOf(ip);
    buffer := "";
    var i := 0;
    while i < 4
      invariant 0 <= i <= 4
      invariant IpText(ip) == if i < 4 then buffer + Dotted(octets[i..]) else buffer
    {
      assert octets[i..][1..] == octets[i + 1..];
      buffer := buffer + Digits(octets[i]);
      if i < 3 {
        buffer := buffer + ".";
      }
      i := i + 1;
    }
    assert IpText(ip) != "";
    len := |buffer| - 1;
  }

  /** The digits of n, standing at p and not followed by a digit, are read as n. */
  lemma {:induction false} ReadDigits(t: string, p: nat, n: nat, max: nat)
    requires p + |Digits(n)| <= |t| && t[p..p + |Digits(n)|] == Digits(n) && n <= max
    requires p + |Digits(n)| < |t| ==> !IsDigit(t[p + |Digits(n)|])
    ensures FromChars(t, p, max) == Some(Read(n, p + |Digits(n)|))
  {
    var hi := p + |Digits(n)|;
    ValueOfDigits(t, p, n);
    forall k | p <= k < hi ensures IsDigit(t[k]) {
      assert t[k] == t[p..hi][k - p];
      DigitsAreDigits(n, k - p);
    }
    DigitsEndIs(t, p, hi);
  }

  lemma {:induction false} Parts(t: string, p: nat, d: string, c: char, rest: string)
    requires p <= |t| && t[p..] == d + [c] + rest
    ensures p + |d| < |t| && t[p..p + |d|] == d && t[p + |d|] == c && t[p + |d| + 1..] == rest
  {
  }

  function Last(os: seq<nat>): nat
    requires os != []
  {
    os[|os| - 1]
  }

  /** The text begins with a whole octet and a dot. */
  lemma {:induction false} OctetAndDot(t: string, p: nat, n: nat, rest: string)
    requires Tail(t, p, Digits(n) + ['.'] + rest) && n <= 255 && p <= |t|
    ensures var q := p + |Digits(n)|;
            FromChars(t, p, 255) == Some(Read(n, q)) && q < |t| && t[q] == '.' && Tail(t, q + 1, rest)
  {
    var q := p + |Digits(n)|;
    TailIs(t, p, Digits(n) + ['.'] + rest);
    Parts(t, p, Digits(n), '.', rest);
    ReadDigits(t, p, n, 255);
    TailIs(t, q + 1, rest);
  }

  lemma {:induction false} LastOctet(t: string, p: nat, n: nat)
    requires Tail(t, p, Digits(n)) && n <= 255 && p <= |t|
    ensures FromChars(t, p, 255) == Some(Read(n, |t|))
  {
    TailIs(t, p, Digits(n));
    assert t[p..p + |Digits(n)|] == t[p..];
    ReadDigits(t, p, n, 255);
  }

  lemma {:induction false} TailOctets(os: seq<nat>)
    requires 1 < |os| && forall i :: 0 <= i < |os| ==> os[i] <= 255
    ensures Last(os[1..]) == Last(os) && forall i :: 0 <= i < |os[1..]| ==> os[1..][i] <= 255
    ensures Dotted(os) == Digits(os[0]) + ['.'] + Dotted(os[1..])
  {
  }

  lemma {:induction false} IpFromText(t: string, p: nat, os: seq<nat>)
    requires 0 < |os| <= 4 && p <= |t| && Tail(t, p, Dotted(os)) && forall i :: 0 <= i < |os| ==> os[i] <= 255
    ensures IpFrom(t, p, |os| - 1) == Some(Number(os))
    decreases |os|
  {
    if |os| > 1 {
      TailOctets(os);
      OctetAndDot(t, p, os[0], Dotted(os[1..]));
      IpFromText(t, p + |Digits(os[0])| + 1, os[1..]);
    } else {
      LastOctet(t, p, os[0]);
    }
  }

  lemma {:induction false} OctetsMakeIp(ip: nat)
    requires ip <= MAX_IP
    ensures ip == ip / 0x100_0000 * 0x100_0000 + ip / 0x1_0000 % 0x100 * 0x1_0000
                + ip / 0x100 % 0x100 * 0x100 + ip % 0x100
  {
    var c, b := ip / 0x100, ip / 0x1_0000;
    assert ip == c * 0x100 + ip % 0x100;
    assert b == c / 0x100 && c == b * 0x100 + c % 0x100;
    assert ip / 0x100_0000 == b / 0x100 && b == b / 0x100 * 0x100 + b % 0x100;
  }

  lemma {:induction false} NumberOfFour(a: nat, b: nat, c: nat, d: nat)
    ensures Number([a, b, c, d]) == a * 0x100_0000 + b * 0x1_0000 + c * 0x100 + d
  {
    assert [a, b, c, d][1..] == [b, c, d] && [b, c, d][1..] == [c, d] && [c, d][1..] == [d];
    assert Number([c, d]) == c * 0x100 + d;
    assert Number([b, c, d]) == b * 0x1_0000 + Number([c, d]);
  }

  /** `iptouint32` inverts the text that `uint32toip` writes, for every 32-bit address. */
  lemma {:induction false} IpRoundTrip(ip: nat)
    requires ip <= MAX_IP
    ensures IpOf(IpText(ip)) == ip
  {
    var os := OctetsOf(ip);
    TailSelf(IpText(ip));
    IpFromText(IpText(ip), 0, os);
    NumberOfFour(os[0], os[1], os[2], os[3]);
    assert os == [os[0], os[1], os[2], os[3]];
    OctetsMakeIp(ip);
  }

  // ---- the text that try_connect stores

  /** `try_connect` takes as many bytes of the buffer as `uint32toip` returned. */
  function StoredText(ip: nat): string
    requires ip <= MAX_IP
  {
    WithoutLast(Dotted(OctetsOf(ip)))
  }

  function WithoutLast(t: string): string { if t == "" then "" else t[..|t| - 1] }

  lemma {:induction false} WithoutLastOf(a: string, b: string)
    requires b != ""
    ensures WithoutLast(a + b) == a + WithoutLast(b)
  {
  }

  /** A last octet of two or three digits loses its last digit. */
  lemma {:induction false} CutDigit(os: seq<nat>)
    requires os != [] && Last(os) >= 10
    ensures WithoutLast(Dotted(os)) == Dotted(os[|os| - 1 := Last(os) / 10])
  {
    if |os| > 1 {
      CutDigit(os[1..]);
      assert Dotted(os[1..]) != "";
      WithoutLastOf(Digits(os[0]) + ".", Dotted(os[1..]));
      assert os[|os| - 1 := Last(os) / 10][1..] == os[1..][|os| - 2 := Last(os) / 10];
    }
  }

  lemma {:induction false} CutHead(os: seq<nat>)
    requires |os| > 1
    ensures WithoutLast(Dotted(os)) == Digits(os[0]) + ['.'] + WithoutLast(Dotted(os[1..]))
  {
  }

  lemma {:induction false} NoneLater(t: string, p: nat, i: nat, octet: Read)
    requires p <= |t| && 0 < i < 4 && FromChars(t, p, 255) == Some(octet)
    requires octet.end < |t| && IpFrom(t, octet.end + 1, i - 1) == None
    ensures IpFrom(t, p, i) == None
  {
  }

  /** The dotted text without its last byte. */
  function CutDotted(os: seq<nat>): string
    requires os != []
  {
    if |os| == 1 then WithoutLast(Digits(os[0])) else Digits(os[0]) + ['.'] + CutDotted(os[1..])
  }

  lemma {:induction false} CutDottedIs(os: seq<nat>)
    requires os != []
    ensures CutDotted(os) == WithoutLast(Dotted(os))
  {
    if |os| > 1 {
      CutDottedIs(os[1..]);
      CutHead(os);
    }
  }

  lemma {:induction false} NoneAtEnd(t: string, p: nat, os: seq<nat>)
    requires |os| == 1 && p <= |t| && Tail(t, p, CutDotted(os)) && os[0] < 10
    ensures IpFrom(t, p, 0) == None
  {
    assert CutDotted(os) == "";
  }

  /** A last octet of one digit is lost, and the text stands for no address. */
  lemma {:induction false} CutOctet(t: string, p: nat, os: seq<nat>)
    requires 0 < |os| <= 4 && p <= |t| && Tail(t, p, CutDotted(os)) && Last(os) < 10
    requires forall i :: 0 <= i < |os| ==> os[i] <= 255
    ensures IpFrom(t, p, |os| - 1) == None
    decreases |os|
  {
    if |os| == 1 {
      NoneAtEnd(t, p, os);
    } else {
      var q := p + |Digits(os[0])|;
      OctetAndDot(t, p, os[0], CutDotted(os[1..]));
      TailOctets(os);
      CutOctet(t, q + 1, os[1..]);
      NoneLater(t, p, |os| - 1, Read(os[0], q));
    }
  }

  /** The stored text never stands for the address it was made from, except that of 0.0.0.0 stands
      for no address, which is written 0 as well. */
  lemma {:induction false} StoredTextIff(ip: nat)
    requires ip <= MAX_IP
    ensures IpOf(StoredText(ip)) == ip <==> ip == 0
  {
    var os := OctetsOf(ip);
    NumberOfFour(os[0], os[1], os[2], os[3]);
    assert os == [os[0], os[1], os[2], os[3]];
    OctetsMakeIp(ip);
    TailSelf(StoredText(ip));
    if Last(os) < 10 {
      CutDottedIs(os);
      CutOctet(StoredText(ip), 0, os);
    } else {
      CutDigit(os);
      var cut := os[3 := Last(os) / 10];
      IpFromText(StoredText(ip), 0, cut);
      NumberOfFour(cut[0], cut[1], cut[2], cut[3]);
      assert cut == [cut[0], cut[1], cut[2], cut[3]];
    }
  }

  // ---- what a text says, byte by byte

  /** The text begins with the number n; other text may follow. */
  ghost predicate Begins(t: string, n: int) { exists hi: nat :: Numeral(t, 0, hi, n) }

  /** Four numbers below 256 with dots at i, j and k. */
  ghost predicate DotsAt(t: string, i: nat, j: nat, k: nat, ip: int) {
    && i < j < k < |t| && t[i] == t[j] == t[k] == '.'
    && exists a, b, c, d :: Octets(t, i, j, k, a, b, c, d) && ip == 0x100_0000 * a + 0x1_0000 * b + 0x100 * c + d
  }

  predicate Octets(t: string, i: nat, j: nat, k: nat, a: int, b: int, c: int, d: int) {
    && Numeral(t, 0, i, a) && Numeral(t, i + 1, j, b) && Numeral(t, j + 1, k, c) && Numeral(t, k + 1, |t|, d)
    && a < 256 && b < 256 && c < 256 && d < 256
  }

  /** The whole text is the dotted address of ip. */
  ghost predicate IsAddress(t: string, ip: int) { exists i: nat, j: nat, k: nat :: DotsAt(t, i, j, k, ip) }

  /** The first space from `from` on, and the first colon behind it. */
  predicate Fields(s: string, from: nat, space: nat, colon: nat) {
    && from <= space < colon < |s| && s[space] == ' ' && s[colon] == ':'
    && (forall k :: from <= k < space ==> s[k] != ' ') && (forall k :: space < k < colon ==> s[k] != ':')
  }

  ghost predicate AddressAt(s: string, from: nat, space: nat, colon: nat, ip: int) {
    Fields(s, from, space, colon) && ip != 0 && IsAddress(s[space + 1..colon], ip)
  }

  /** An address other than 0.0.0.0 stands between the space and the colon. */
  ghost predicate HasAddress(s: string, from: nat) {
    exists space: nat, colon: nat, ip :: AddressAt(s, from, space, colon, ip)
  }

  ghost predicate TargetAt(s: string, from: nat, space: nat, colon: nat, slot: int, ip: int, port: int) {
    && AddressAt(s, from, space, colon, ip)
    && Begins(s[from..space], slot) && slot < 0x1_0000_0000_0000_0000
    && Begins(s[colon + 1..], port) && port < 0x1_0000
  }

  /** A 64-bit slot stands before that address, and a 16-bit port behind it. */
  ghost predicate Says(s: string, from: nat, slot: int, ip: int, port: int) {
    exists space: nat, colon: nat :: TargetAt(s, from, space, colon, slot, ip, port)
  }

  ghost predicate HasTarget(s: string, from: nat) { exists slot, ip, port :: Says(s, from, slot, ip, port) }

  lemma {:induction false} FromCharsIff(t: string, p: nat, max: nat, n: int, hi: nat)
    requires p <= |t|
    ensures FromChars(t, p, max) == Some(Read(n, hi)) <==> Numeral(t, p, hi, n) && n <= max
  {
    DigitsEndMeans(t, p);
    if Numeral(t, p, hi, n) {
      DigitsEndIs(t, p, hi);
    }
  }

  lemma {:induction false} BeginsIff(t: string, max: nat)
    ensures match FromChars(t, 0, max)
            case Some(r) => Begins(t, r.n) && r.n <= max && forall n :: Begins(t, n) ==> n == r.n
            case None => forall n :: Begins(t, n) ==> n > max
  {
    match FromChars(t, 0, max)
    case Some(r) =>
      FromCharsIff(t, 0, max, r.n, r.end);
      forall n | Begins(t, n) ensures n == r.n {
        var hi: nat :| Numeral(t, 0, hi, n);
        DigitsEndIs(t, 0, hi);
      }
    case None =>
      forall n | Begins(t, n) ensures n > max {
        var hi: nat :| Numeral(t, 0, hi, n);
        FromCharsIff(t, 0, max, n, hi);
      }
  }

  /** One octet and the dot behind it. */
  lemma {:induction false} IpFromDot(t: string, p: nat, i: nat, q: nat, n: int)
    requires 0 < i < 4 && Numeral(t, p, q, n) && n < 256 && q < |t| && t[q] == '.'
    ensures IpFrom(t, p, i) == Plus(n * Weight(i), IpFrom(t, q + 1, i - 1))
  {
    FromCharsIff(t, p, 255, n, q);
  }

  lemma {:induction false} DotOf(t: string, p: nat, i: nat) returns (q: nat, n: int)
    requires p <= |t| && 0 < i < 4 && IpFrom(t, p, i).Some?
    ensures Numeral(t, p, q, n) && n < 256 && q < |t| && t[q] == '.'
    ensures IpFrom(t, p, i) == Plus(n * Weight(i), IpFrom(t, q + 1, i - 1))
  {
    q, n := FromChars(t, p, 255).value.end, FromChars(t, p, 255).value.n;
    FromCharsIff(t, p, 255, n, q);
  }

  lemma {:induction false} EndOf(t: string, p: nat) returns (n: int)
    requires p <= |t| && IpFrom(t, p, 0).Some?
    ensures Numeral(t, p, |t|, n) && n < 256 && IpFrom(t, p, 0) == Some(n)
  {
    n := FromChars(t, p, 255).value.n;
    FromCharsIff(t, p, 255, n, |t|);
  }

  lemma {:induction false} OctetsRead(
      t: string, n: nat, i: nat, j: nat, k: nat, a: int, b: int, c: int, d: int)
    requires Octets(t, i, j, k, a, b, c, d) && k < |t| && t[i] == t[j] == t[k] == '.' && n == 3
    ensures IpFrom(t, 0, n) == Some(0x100_0000 * a + 0x1_0000 * b + 0x100 * c + d)
  {
    IpFromDot(t, 0, n, i, a);
    IpFromDot(t, i + 1, n - 1, j, b);
    IpFromDot(t, j + 1, n - 2, k, c);
    FromCharsIff(t, k + 1, 255, d, |t|);
  }

  lemma {:induction false} ReadIsAddress(t: string, n: nat, ip: int)
    requires n == 3 && IpFrom(t, 0, n) == Some(ip)
    ensures IsAddress(t, ip)
  {
    var i, a := DotOf(t, 0, n);
    var j, b := DotOf(t, i + 1, n - 1);
    var k, c := DotOf(t, j + 1, n - 2);
    var d := EndOf(t, k + 1);
    assert Octets(t, i, j, k, a, b, c, d);
    assert DotsAt(t, i, j, k, ip);
  }

  lemma {:induction false} AddressIff(t: string, ip: int)
    ensures IsAddress(t, ip) <==> IpFrom(t, 0, 3) == Some(ip)
  {
    if IsAddress(t, ip) {
      var i: nat, j: nat, k: nat :| DotsAt(t, i, j, k, ip);
      var a, b, c, d :| Octets(t, i, j, k, a, b, c, d) && ip == 0x100_0000 * a + 0x1_0000 * b + 0x100 * c + d;
      OctetsRead(t, 3, i, j, k, a, b, c, d);
    }
    if IpFrom(t, 0, 3) == Some(ip) {
      ReadIsAddress(t, 3, ip);
    }
  }

  /** A text stands for the number it is the address of, and for 0 when it is no address. */
  lemma {:induction false} IpOfIff(t: string, ip: int)
    requires ip != 0
    ensures IpOf(t) == ip <==> IsAddress(t, ip)
  {
    AddressIff(t, ip);
  }

  lemma {:induction false} FieldsIff(s: string, from: nat, space: nat, colon: nat)
    requires from <= |s|
    ensures Fields(s, from, space, colon)
       <==> space < |s| && space == First(s, ' ', from) && colon < |s| && colon == First(s, ':', space + 1)
  {
    FirstMeans(s, ' ', from);
    if Fields(s, from, space, colon) {
      FirstIs(s, ' ', from, space);
      FirstIs(s, ':', space + 1, colon);
    } else if space < |s| && space == First(s, ' ', from) {
      FirstMeans(s, ':', space + 1);
    }
  }

  // ---- redirections

  datatype Redirection =
    | Moved(slot: int, ip: int, port: int)
    | Ask(slot: int, ip: int, port: int)
    | NotRedirected
    | Malformed(err: int)

  predicate StartsWith(s: string, prefix: string) { |prefix| <= |s| && s[..|prefix|] == prefix }

  /** What a text says behind its kind: slot, address and port. */
  function Target(s: string, moved: bool, from: nat): Redirection
    requires from <= |s|
  {
    var space := First(s, ' ', from);
    if space == |s| then Malformed(EPROTO)
    else
      var colon := First(s, ':', space + 1);
      if colon == |s| then Malformed(EPROTO)
      else
        Decide(moved, FromChars(s[from..space], 0, MAX_SIZE), IpOf(s[space + 1..colon]),
               FromChars(s[colon + 1..], 0, MAX_PORT))
  }

  /** The address is looked at first, then the slot, then the port. */
  function Decide(moved: bool, slot: Option<Read>, ip: int, port: Option<Read>): Redirection {
    if ip == 0 then Malformed(EPROTO)
    else
      match slot
      case None => Malformed(EINVAL)
      case Some(a) =>
        match port
        case None => Malformed(EINVAL)
        case Some(c) => if moved then Moved(a.n, ip, c.n) else Ask(a.n, ip, c.n)
  }

  function RedirectionOf(s: string): Redirection {
    if StartsWith(s, "MOVED ") then Target(s, true, 6)
    else if StartsWith(s, "ASK ") then Target(s, false, 4)
    else NotRedirected
  }

  function Code(r: Redirection): int {
    match r case Moved(_, _, _) => 0 case Ask(_, _, _) => 1 case NotRedirected => 2 case Malformed(e) => e
  }

  /** Slot, address and port mean something for codes 0 and 1 only. */
  predicate Means(r: Redirection, code: int, slot: int, ip: int, port: int) {
    && code == Code(r)
    && (r.Moved? ==> r == Moved(slot, ip, port)) && (r.Ask? ==> r == Ask(slot, ip, port))
  }

  ghost predicate Explained(s: string, from: nat, moved: bool, r: Redirection) {
    match r
    case Moved(slot, ip, port) => moved && Says(s, from, slot, ip, port)
    case Ask(slot, ip, port) => !moved && Says(s, from, slot, ip, port)
    case Malformed(e) => !HasTarget(s, from) && e == (if HasAddress(s, from) then EINVAL else EPROTO)
    case NotRedirected => false
  }

  lemma {:induction false} TargetBehind(s: string, moved: bool, from: nat, space: nat, colon: nat)
    requires Fields(s, from, space, colon)
    ensures Target(s, moved, from)
         == Decide(moved, FromChars(s[from..space], 0, MAX_SIZE), IpOf(s[space + 1..colon]),
                   FromChars(s[colon + 1..], 0, MAX_PORT))
  {
    FieldsIff(s, from, space, colon);
  }

  /** Without two fields and an address other than 0.0.0.0 a text is a protocol error, without
      numbers in range around them it is invalid, and else it says what it means. */
  lemma {:induction false} TargetMeans(s: string, moved: bool, from: nat)
    requires from <= |s|
    ensures Explained(s, from, moved, Target(s, moved, from))
  {
    var space := First(s, ' ', from);
    if space == |s| || First(s, ':', space + 1) == |s| {
      NoFields(s, from);
    } else {
      var colon := First(s, ':', space + 1);
      FieldsIff(s, from, space, colon);
      TargetBehind(s, moved, from, space, colon);
      var a, ip, c := FromChars(s[from..space], 0, MAX_SIZE), IpOf(s[space + 1..colon]),
                      FromChars(s[colon + 1..], 0, MAX_PORT);
      if ip == 0 {
        NoAddress(s, from, space, colon);
      } else {
        IpOfIff(s[space + 1..colon], ip);
        NumbersIff(s, from, space, colon, ip, a, c);
      }
    }
  }

  lemma {:induction false} NoFields(s: string, from: nat)
    requires from <= |s|
    requires var space := First(s, ' ', from); space == |s| || First(s, ':', space + 1) == |s|
    ensures !HasTarget(s, from) && !HasAddress(s, from)
  {
    forall space: nat, colon: nat ensures !Fields(s, from, space, colon) {
      FieldsIff(s, from, space, colon);
    }
  }

  lemma {:induction false} OnlyFields(s: string, from: nat, space: nat, colon: nat, i: nat, j: nat)
    requires Fields(s, from, space, colon) && Fields(s, from, i, j)
    ensures i == space && j == colon
  {
  }

  /** The two numbers, a before the address and c behind it, decide whether there is a target. */
  lemma {:induction false} NumbersIff(
      s: string, from: nat, space: nat, colon: nat, ip: int, a: Option<Read>, c: Option<Read>)
    requires AddressAt(s, from, space, colon, ip)
    requires a == FromChars(s[from..space], 0, MAX_SIZE) && c == FromChars(s[colon + 1..], 0, MAX_PORT)
    ensures HasAddress(s, from)
    ensures if a.Some? && c.Some? then Says(s, from, a.value.n, ip, c.value.n) else !HasTarget(s, from)
  {
    BeginsIff(s[from..space], MAX_SIZE);
    BeginsIff(s[colon + 1..], MAX_PORT);
    if a.Some? && c.Some? {
      assert TargetAt(s, from, space, colon, a.value.n, ip, c.value.n);
    } else {
      forall i: nat, j: nat, slot, m, port ensures !TargetAt(s, from, i, j, slot, m, port) {
        if Fields(s, from, i, j) {
          OnlyFields(s, from, space, colon, i, j);
        }
      }
    }
  }

  /** Without an address there is no target. */
  lemma {:induction false} NoAddress(s: string, from: nat, space: nat, colon: nat)
    requires Fields(s, from, space, colon) && IpOf(s[space + 1..colon]) == 0
    ensures !HasAddress(s, from) && !HasTarget(s, from)
  {
    forall i: nat, j: nat, m ensures !AddressAt(s, from, i, j, m) {
      if AddressAt(s, from, i, j, m) {
        OnlyFields(s, from, space, colon, i, j);
        IpOfIff(s[space + 1..colon], m);
      }
    }
  }

  /** `parse_error`: 2 exactly for the texts that begin with neither word, 0 and 1 for a MOVED or ASK
      with an address and numbers in range, and these are returned; EPROTO (71) for one without an
      address other than 0.0.0.0 between its separators, and EINVAL (22) for any other. */
  method ParseError(s: string) returns (code: int, slot: int, ip: int, port: int)
    ensures code == 2 <==> !("MOVED " <= s) && !("ASK " <= s)
    ensures code == 0 <==> "MOVED " <= s && HasTarget(s, 6)
    ensures code == 0 ==> Says(s, 6, slot, ip, port)
    ensures code == 1 <==> "ASK " <= s && HasTarget(s, 4)
    ensures code == 1 ==> Says(s, 4, slot, ip, port)
    ensures code == 71 <==> ("MOVED " <= s && !HasAddress(s, 6)) || ("ASK " <= s && !HasAddress(s, 4))
    ensures code == 22 <==> || ("MOVED " <= s && HasAddress(s, 6) && !HasTarget(s, 6))
                            || ("ASK " <= s && HasAddress(s, 4) && !HasTarget(s, 4))
    ensures Means(RedirectionOf(s), code, slot, ip, port)
  {
    PrefixesMean(s);
    if StartsWith(s, "MOVED ") {
      TargetMeans(s, true, 6);
      code, slot, ip, port := ParseTarget(s, 0, 6);
    } else if StartsWith(s, "ASK ") {
      TargetMeans(s, false, 4);
      code, slot, ip, port := ParseTarget(s, 1, 4);
    } else {
      code, slot, ip, port := 2, 0, 0, 0;
    }
  }

  method ParseTarget(s: string, kind: int, prefixLen: nat) returns (code: int, slot: int, ip: int, port: int)
    requires prefixLen <= |s| && (kind == 0 || kind == 1)
    ensures Means(Target(s, kind == 0, prefixLen), code, slot, ip, port)
  {
    code, slot, ip, port := EPROTO, 0, 0, 0;
    var space := First(s, ' ', prefixLen);
    if space == |s| {
      return;
    }
    var colon := First(s, ':', space + 1);
    if colon == |s| {
      return;
    }
    ip := IpToUint32(s[space + 1..colon], ':');
    if ip == 0 {
      return;
    }
    code := EINVAL;
    match FromChars(s[prefixLen..space], 0, MAX_SIZE) {
      case None => return;
      case Some(n) => slot := n.n;
    }
    match FromChars(s[colon + 1..], 0, MAX_PORT) {
      case None => return;
      case Some(n) => port := n.n;
    }
    code := kind;
  }

  /** At most one of the two words begins a text. */
  lemma {:induction false} PrefixesMean(s: string)
    ensures StartsWith(s, "MOVED ") <==> "MOVED " <= s
    ensures StartsWith(s, "ASK ") <==> "ASK " <= s
    ensures "MOVED " <= s ==> !("ASK " <= s)
  {
    if "MOVED " <= s {
      assert s[0] == "MOVED "[0];
    }
  }

  /** The text of a redirection, as a Redis server writes it. */
  function RedirectText(moved: bool, slot: nat, ip: nat, port: nat): string
    requires ip <= MAX_IP
  {
    (if moved then "MOVED " else "ASK ") + (Digits(slot) + " " + (IpText(ip) + ":" + Digits(port)))
  }

  /** An address consists of digits and dots. */
  lemma {:induction false} DottedChars(os: seq<nat>, k: nat)
    requires os != [] && k < |Dotted(os)|
    ensures IsDigit(Dotted(os)[k]) || Dotted(os)[k] == '.'
    decreases |os|
  {
    var d := Digits(os[0]);
    if k < |d| {
      DigitsAreDigits(os[0], k);
    } else if k > |d| {
      DottedChars(os[1..], k - |d| - 1);
    }
  }

  lemma {:induction false} WholeNumber(n: nat, max: nat)
    requires n <= max
    ensures FromChars(Digits(n), 0, max) == Some(Read(n, |Digits(n)|))
  {
    assert Digits(n)[0..|Digits(n)|] == Digits(n);
    ReadDigits(Digits(n), 0, n, max);
  }

  /** The separators of a text `slot address:port` are found where they were put. */
  lemma {:induction false} SeparatorsFound(s: string, from: nat, a: string, b: string, c: string)
    requires from <= |s| && s[from..] == a + " " + (b + ":" + c)
    requires ' ' !in a && ':' !in b
    ensures First(s, ' ', from) == from + |a| < |s|
    ensures First(s, ':', from + |a| + 1) == from + |a| + 1 + |b| < |s|
    ensures s[from..from + |a|] == a
    ensures s[from + |a| + 1..from + |a| + 1 + |b|] == b
    ensures s[from + |a| + 1 + |b| + 1..] == c
  {
    assert " " == [' '] && ":" == [':'];
    Parts(s, from, a, ' ', b + ":" + c);
    Parts(s, from + |a| + 1, b, ':', c);
    forall k | from <= k < from + |a| ensures s[k] != ' ' {
      assert s[k] == s[from..from + |a|][k - from];
    }
    FirstIs(s, ' ', from, from + |a|);
    var q := from + |a| + 1;
    forall k | q <= k < q + |b| ensures s[k] != ':' {
      assert s[k] == s[q..q + |b|][k - q];
    }
    FirstIs(s, ':', q, q + |b|);
  }

  lemma {:induction false} NoSeparators(slot: nat, ip: nat)
    requires ip <= MAX_IP
    ensures ' ' !in Digits(slot) && ':' !in IpText(ip)
  {
    forall k | 0 <= k < |Digits(slot)| ensures Digits(slot)[k] != ' ' {
      DigitsAreDigits(slot, k);
    }
    forall k | 0 <= k < |IpText(ip)| ensures IpText(ip)[k] != ':' {
      DottedChars(OctetsOf(ip), k);
    }
  }

  lemma {:induction false} TargetFound(
      s: string, moved: bool, from: nat, space: nat, colon: nat, ip: int, slot: Read, port: Read)
    requires from <= |s| && First(s, ' ', from) == space < |s|
    requires First(s, ':', space + 1) == colon < |s|
    requires IpOf(s[space + 1..colon]) == ip && FromChars(s[from..space], 0, MAX_SIZE) == Some(slot)
    requires FromChars(s[colon + 1..], 0, MAX_PORT) == Some(port)
    ensures Target(s, moved, from)
         == if ip == 0 then Malformed(EPROTO)
            else if moved then Moved(slot.n, ip, port.n) else Ask(slot.n, ip, port.n)
  {
  }

  lemma {:induction false} TargetIs(
      s: string, moved: bool, from: nat, a: string, b: string, c: string, slot: Read, port: Read)
    requires from <= |s| && s[from..] == a + " " + (b + ":" + c) && ' ' !in a && ':' !in b
    requires FromChars(a, 0, MAX_SIZE) == Some(slot) && FromChars(c, 0, MAX_PORT) == Some(port)
    ensures Target(s, moved, from)
         == if IpOf(b) == 0 then Malformed(EPROTO)
            else if moved then Moved(slot.n, IpOf(b), port.n) else Ask(slot.n, IpOf(b), port.n)
  {
    SeparatorsFound(s, from, a, b, c);
    TargetFound(s, moved, from, from + |a|, from + |a| + 1 + |b|, IpOf(b), slot, port);
  }

  lemma {:induction false} MovedIs(target: string)
    ensures RedirectionOf("MOVED " + target) == Target("MOVED " + target, true, 6)
    ensures ("MOVED " + target)[6..] == target
  {
    assert ("MOVED " + target)[..6] == "MOVED ";
  }

  lemma {:induction false} AskIs(target: string)
    ensures RedirectionOf("ASK " + target) == Target("ASK " + target, false, 4)
    ensures ("ASK " + target)[4..] == target
  {
    var s := "ASK " + target;
    assert s[0] == 'A' && "MOVED "[0] == 'M';
    assert !StartsWith(s, "MOVED ");
    assert s[..4] == "ASK ";
  }

  lemma {:induction false} PrefixIs(moved: bool, target: string)
    ensures var s := (if moved then "MOVED " else "ASK ") + target;
            RedirectionOf(s) == Target(s, moved, if moved then 6 else 4)
    ensures ((if moved then "MOVED " else "ASK ") + target)[if moved then 6 else 4..] == target
  {
    if moved {
      MovedIs(target);
    } else {
      AskIs(target);
    }
  }

  /** Every redirection a server can send is understood exactly, for every 64-bit slot, every
      address but 0.0.0.0 and every port; with that address it is refused. */
  lemma {:induction false} RedirectRoundTrip(moved: bool, slot: nat, ip: nat, port: nat)
    requires slot <= MAX_SIZE && ip <= MAX_IP && port <= MAX_PORT
    ensures RedirectionOf(RedirectText(moved, slot, ip, port))
         == if ip == 0 then Malformed(EPROTO) else if moved then Moved(slot, ip, port) else Ask(slot, ip, port)
  {
    var a, b, c := Digits(slot), IpText(ip), Digits(port);
    var target := a + " " + (b + ":" + c);
    var s := (if moved then "MOVED " else "ASK ") + target;
    PrefixIs(moved, target);
    NoSeparators(slot, ip);
    IpRoundTrip(ip);
    WholeNumber(slot, MAX_SIZE);
    WholeNumber(port, MAX_PORT);
    TargetIs(s, moved, if moved then 6 else 4, a, b, c, Read(slot, |a|), Read(port, |c|));
  }
}
