/**
 * An IPv4-only model of Go's `net.ParseIP(s).To4()`, `net.ParseCIDR` and `(*net.IPNet).String()`,
 * which route validation uses to check and normalise a route's destination.
 *
 * A dotted quad is four '.'-separated decimal fields, each at most 255, with no leading zero
 * in a field of more than one digit. A CIDR is an address, a '/', and a decimal prefix length
 * of at most 32 (leading zeros allowed there). The parsed network keeps only the first
 * `prefix` bits of the address.
 */
module Ipv4 {
  import opened Wrappers
  import opened Strings

  /** One byte of an address. */
  newtype Octet = x: int | 0 <= x < 256

  /** The network of a parsed CIDR: four octets with the host bits cleared, and the prefix length. */
  datatype IPNet = IPNet(ip: seq<Octet>, prefix: nat)

  /** `strings.Split(s, string(c))`. */
  function Split(s: string, c: char): (r: seq<string>)
    ensures |r| >= 1
    decreases |s|
  {
    var k := IndexByte(s, c);
    if k < 0 then [s] else [s[..k]] + Split(s[k + 1..], c)
  }

  lemma {:induction false} SplitAt(a: string, c: char, b: string)
    requires c !in a
    ensures Split(a + [c] + b, c) == [a] + Split(b, c)
  {
    var s := a + [c] + b;
    assert s[|a|] == c;
    var k := IndexByte(s, c);
    assert forall j :: 0 <= j < |a| ==> s[j] == a[j];
    assert k == |a|;
    assert s[..k] == a;
    assert s[k + 1..] == b;
  }

  lemma {:induction false} SplitNone(s: string, c: char)
    requires c !in s
    ensures Split(s, c) == [s]
  {
  }

  /** One field of a dotted quad. */
  function ParseOctet(f: string): (r: Option<Octet>)
    ensures r.Some? ==> f != [] && AllDigits(f) && r.value as int == DigitsValue(f)
  {
    if f == [] || !AllDigits(f) || (|f| > 1 && f[0] == '0') then None
    else
      var v := DigitsValue(f);
      if v > 255 then None else Some(v as Octet)
  }

  /** `net.ParseIP(s).To4()` restricted to IPv4 text. */
  function ParseIPv4(s: string): (r: Option<seq<Octet>>)
    ensures r.Some? ==> |r.value| == 4
  {
    var fs := Split(s, '.');
    if |fs| != 4 then None
    else match (ParseOctet(fs[0]), ParseOctet(fs[1]), ParseOctet(fs[2]), ParseOctet(fs[3]))
      case (Some(a), Some(b), Some(c), Some(d)) => Some([a, b, c, d])
      case _ => None
  }

  function FormatOctet(o: Octet): string { Decimal(o as int) }

  /** The dotted-quad text of four octets, as `net.IP.String()` prints an IPv4 address. */
  function FormatIPv4(ip: seq<Octet>): (r: string)
    requires |ip| == 4
  {
    FormatOctet(ip[0]) + ['.'] + (FormatOctet(ip[1]) + ['.'] + (FormatOctet(ip[2]) + ['.'] + FormatOctet(ip[3])))
  }

  lemma {:induction false} FormatIPv4NoSlash(ip: seq<Octet>)
    requires |ip| == 4
    ensures FormatIPv4(ip) != [] && '/' !in FormatIPv4(ip)
  {
    var r := FormatIPv4(ip);
    forall k | 0 <= k < |r| ensures r[k] != '/' {
      assert IsDigit(r[k]) || r[k] == '.';
    }
  }

  /** Printing an octet and parsing the field back gives the same octet. */
  lemma {:induction false} OctetRoundTrip(o: Octet)
    ensures ParseOctet(FormatOctet(o)) == Some(o)
  {
    DecimalValue(o as int);
  }

  lemma {:induction false} NoDot(o: Octet)
    ensures '.' !in FormatOctet(o)
  {
    var f := FormatOctet(o);
    forall k | 0 <= k < |f| ensures f[k] != '.' {
      assert IsDigit(f[k]);
    }
  }

  lemma ConsTwo<T>(x: T, t: seq<T>, y: T, z: T)
    requires t == [y, z]
    ensures [x] + t == [x, y, z]
  {
  }

  lemma ConsThree<T>(x: T, t: seq<T>, y: T, z: T, w: T)
    requires t == [y, z, w]
    ensures [x] + t == [x, y, z, w]
  {
  }

  lemma {:induction false} SplitTwo(c: string, d: string)
    requires '.' !in c && '.' !in d
    ensures Split(c + ['.'] + d, '.') == [c, d]
  {
    SplitNone(d, '.');
    SplitAt(c, '.', d);
  }

  lemma {:induction false} SplitThree(b: string, c: string, d: string)
    requires '.' !in b && '.' !in c && '.' !in d
    ensures Split(b + ['.'] + (c + ['.'] + d), '.') == [b, c, d]
  {
    var r := c + ['.'] + d;
    SplitTwo(c, d);
    SplitAt(b, '.', r);
    ConsTwo(b, Split(r, '.'), c, d);
  }

  /** Four dot-free fields joined by dots split back into those fields. */
  lemma {:induction false} SplitFour(a: string, b: string, c: string, d: string)
    requires '.' !in a && '.' !in b && '.' !in c && '.' !in d
    ensures Split(a + ['.'] + (b + ['.'] + (c + ['.'] + d)), '.') == [a, b, c, d]
  {
    var r := b + ['.'] + (c + ['.'] + d);
    SplitThree(b, c, d);
    SplitAt(a, '.', r);
    ConsThree(a, Split(r, '.'), b, c, d);
  }

  lemma {:induction false} SplitFormatted(ip: seq<Octet>)
    requires |ip| == 4
    ensures Split(FormatIPv4(ip), '.') == [FormatOctet(ip[0]), FormatOctet(ip[1]), FormatOctet(ip[2]), FormatOctet(ip[3])]
  {
    NoDot(ip[0]);
    NoDot(ip[1]);
    NoDot(ip[2]);
    NoDot(ip[3]);
    SplitFour(FormatOctet(ip[0]), FormatOctet(ip[1]), FormatOctet(ip[2]), FormatOctet(ip[3]));
  }

  lemma ParseFour(s: string, f0: string, f1: string, f2: string, f3: string, o0: Octet, o1: Octet, o2: Octet, o3: Octet)
    requires Split(s, '.') == [f0, f1, f2, f3]
    requires ParseOctet(f0) == Some(o0) && ParseOctet(f1) == Some(o1)
    requires ParseOctet(f2) == Some(o2) && ParseOctet(f3) == Some(o3)
    ensures ParseIPv4(s) == Some([o0, o1, o2, o3])
  {
  }

  lemma FourElems<T>(s: seq<T>)
    requires |s| == 4
    ensures s == [s[0], s[1], s[2], s[3]]
  {
  }

  /** Printing an address and parsing it back gives the same address. */
  lemma {:induction false} IPv4RoundTrip(ip: seq<Octet>)
    requires |ip| == 4
    ensures ParseIPv4(FormatIPv4(ip)) == Some(ip)
  {
    SplitFormatted(ip);
    OctetRoundTrip(ip[0]);
    OctetRoundTrip(ip[1]);
    OctetRoundTrip(ip[2]);
    OctetRoundTrip(ip[3]);
    ParseFour(FormatIPv4(ip), FormatOctet(ip[0]), FormatOctet(ip[1]), FormatOctet(ip[2]), FormatOctet(ip[3]),
      ip[0], ip[1], ip[2], ip[3]);
    FourElems(ip);
  }

  /** 2 to the power of the host bits of an octet whose `bits` high bits belong to the network. */
  function HostBlock(bits: nat): (d: nat)
    requires bits <= 8
    ensures d > 0
  {
    match bits
    case 0 => 256
    case 1 => 128
    case 2 => 64
    case 3 => 32
    case 4 => 16
    case 5 => 8
    case 6 => 4
    case 7 => 2
    case _ => 1
  }

  /**
   * An octet ANDed with the mask that keeps its `bits` high bits: the octet rounded down to a
   * multiple of the host block.
   */
  function MaskOctet(x: Octet, bits: nat): (y: Octet)
    requires bits <= 8
    ensures y as int % HostBlock(bits) == 0 && y <= x && x as int - y as int < HostBlock(bits)
  {
    (x as int - x as int % HostBlock(bits)) as Octet
  }

  /** How many bits of octet `k` a `prefix`-bit mask keeps. */
  function OctetBits(prefix: nat, k: nat): (b: nat)
    ensures b <= 8
  {
    if prefix <= 8 * k then 0 else if prefix - 8 * k >= 8 then 8 else prefix - 8 * k
  }

  /** `ip.Mask(CIDRMask(prefix, 32))`. */
  function Masked(ip: seq<Octet>, prefix: nat): (r: seq<Octet>)
    requires |ip| == 4
    ensures |r| == 4
  {
    [ MaskOctet(ip[0], OctetBits(prefix, 0)), MaskOctet(ip[1], OctetBits(prefix, 1)),
      MaskOctet(ip[2], OctetBits(prefix, 2)), MaskOctet(ip[3], OctetBits(prefix, 3)) ]
  }

  /** Masking twice with the same prefix changes nothing more. */
  lemma MaskedTwice(ip: seq<Octet>, prefix: nat)
    requires |ip| == 4
    ensures Masked(Masked(ip, prefix), prefix) == Masked(ip, prefix)
  {
  }

  /** A network whose host bits are already clear. */
  predicate IsNetwork(n: IPNet) {
    |n.ip| == 4 && n.prefix <= 32 && Masked(n.ip, n.prefix) == n.ip
  }

  /** `net.ParseCIDR(s)`, keeping only the network it returns. */
  function ParseCidr(s: string): (r: Option<IPNet>)
    ensures r.Some? ==> IsNetwork(r.value)
  {
    var i := IndexByte(s, '/');
    if i < 0 then None
    else
      var addr := ParseIPv4(s[..i]);
      var mask := s[i + 1..];
      if addr.None? || mask == [] || !AllDigits(mask) || DigitsValue(mask) > 32 then None
      else
        var n := IPNet(Masked(addr.value, DigitsValue(mask)), DigitsValue(mask));
        MaskedTwice(addr.value, n.prefix);
        Some(n)
  }

  /** `(*net.IPNet).String()` for an IPv4 network with a canonical mask. */
  function CidrString(n: IPNet): (r: string)
    requires |n.ip| == 4
    ensures IndexByte(r, '/') == |FormatIPv4(n.ip)| > 0
  {
    var a := FormatIPv4(n.ip);
    var r := a + "/" + Decimal(n.prefix);
    FormatIPv4NoSlash(n.ip);
    assert r[|a|] == '/';
    assert forall j :: 0 <= j < |a| ==> r[j] == a[j];
    r
  }

  /** Printing a network and parsing it back gives the same network. */
  lemma {:induction false} CidrRoundTrip(n: IPNet)
    requires IsNetwork(n)
    ensures ParseCidr(CidrString(n)) == Some(n)
  {
    var a := FormatIPv4(n.ip);
    var s := CidrString(n);
    assert s[..|a|] == a;
    assert s[|a| + 1..] == Decimal(n.prefix);
    IPv4RoundTrip(n.ip);
    DecimalValue(n.prefix);
  }

  /**
   * The CIDR normalisation of route validation: 192.168.1.3/24 becomes 192.168.1.0/24.
   */
  function NormalizeCidr(s: string): (r: Option<string>)
    ensures r.Some? ==> IndexByte(r.value, '/') > 0
  {
    match ParseCidr(s)
    case None => None
    case Some(n) => Some(CidrString(n))
  }

  lemma {:induction false} NormalizeIdempotent(s: string)
    requires NormalizeCidr(s).Some?
    ensures NormalizeCidr(NormalizeCidr(s).value) == NormalizeCidr(s)
  {
    CidrRoundTrip(ParseCidr(s).value);
  }
}
