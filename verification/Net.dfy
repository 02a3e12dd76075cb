/** IPv4 addresses and networks: masking, membership, printing and CIDR parsing. */
module Net {
  import opened Wrappers
  import opened Text
  import opened Decimal

  type IPv4 = n: int | 0 <= n < 0x1_0000_0000 witness 0

  type PrefixLength = p: int | 0 <= p <= 32 witness 0

  /** An address together with a prefix length; the address may have bits set below the mask. */
  datatype IPNet = IPNet(ip: IPv4, ones: PrefixLength)

  /** The address with its `k` lowest bits cleared. */
  function ClearLow(ip: nat, k: nat): (r: nat)
    ensures r <= ip
    decreases k
  {
    if k == 0 then ip else 2 * ClearLow(ip / 2, k - 1)
  }

  function Pow2(k: nat): (r: nat)
    ensures r > 0
  {
    if k == 0 then 1 else 2 * Pow2(k - 1)
  }

  function Mask(ip: IPv4, ones: PrefixLength): IPv4 {
    ClearLow(ip, 32 - ones)
  }

  /** The network an address with a prefix length belongs to. */
  function Network(n: IPNet): IPNet {
    IPNet(Mask(n.ip, n.ones), n.ones)
  }

  predicate Masked(n: IPNet) {
    Network(n) == n
  }

  predicate Contains(n: IPNet, ip: IPv4) {
    Mask(ip, n.ones) == Mask(n.ip, n.ones)
  }

  const EVERYTHING := IPNet(0, 0)

  /** The network that contains a single address. */
  function Single(ip: IPv4): IPNet {
    IPNet(ip, 32)
  }

  function PrintOctets(a: nat, b: nat, c: nat, d: nat): string {
    Join([Itoa(a), Itoa(b), Itoa(c), Itoa(d)], ".")
  }

  function PrintIP(ip: IPv4): string {
    PrintOctets(ip / 0x100_0000, ip / 0x1_0000 % 0x100, ip / 0x100 % 0x100, ip % 0x100)
  }

  function PrintNet(n: IPNet): string {
    PrintIP(n.ip) + "/" + Itoa(n.ones)
  }

  /** One dotted-decimal field: at most 255 and without a leading zero. */
  function ParseOctet(s: string): Option<nat> {
    if s == "" || !AllDigits(s) || (|s| > 1 && s[0] == '0') || Value(s) > 255 then None
    else Some(Value(s))
  }

  function ParseIP(s: string): Option<IPv4> {
    var fields := Split(s, ".");
    if |fields| != 4 then None
    else
      match (ParseOctet(fields[0]), ParseOctet(fields[1]), ParseOctet(fields[2]), ParseOctet(fields[3]))
      case (Some(a), Some(b), Some(c), Some(d)) =>
        var ip := FromOctets(a, b, c, d);
        if ip < 0x1_0000_0000 then Some(ip) else None
      case _ => None
  }

  /** The address and the network written in a CIDR text, or nothing if it is malformed. */
  function ParseCIDR(s: string): Option<(IPv4, IPNet)> {
    var cut := Cut(s, "/");
    if !cut.found || cut.after == "" || !AllDigits(cut.after) then None
    else
      var ones := Value(cut.after);
      match ParseIP(cut.before)
      case None => None
      case Some(ip) => if ones > 32 then None else Some((ip, Network(IPNet(ip, ones))))
  }

  lemma ParseOctetPrinted(n: nat)
    requires n <= 255
    ensures ParseOctet(Itoa(n)) == Some(n)
  {
    DigitsValue(n);
  }

  lemma SplitPrintedOctets(a: nat, b: nat, c: nat, d: nat)
    ensures Split(PrintOctets(a, b, c, d), ".") == [Itoa(a), Itoa(b), Itoa(c), Itoa(d)]
  {
    var fields := [Itoa(a), Itoa(b), Itoa(c), Itoa(d)];
    DigitsHaveNo(a, '.');
    DigitsHaveNo(b, '.');
    DigitsHaveNo(c, '.');
    DigitsHaveNo(d, '.');
    forall i | 0 <= i < 4 ensures Separable(fields[i], ".") {
      SeparableChar(fields[i], '.');
    }
    SplitJoin(fields, ".");
  }

  lemma PrintedOctetsHaveNoSlash(a: nat, b: nat, c: nat, d: nat)
    ensures '/' !in PrintOctets(a, b, c, d)
  {
    DigitsHaveNo(a, '/');
    DigitsHaveNo(b, '/');
    DigitsHaveNo(c, '/');
    DigitsHaveNo(d, '/');
    JoinHasNo([Itoa(a), Itoa(b), Itoa(c), Itoa(d)], ".", '/');
  }

  lemma {:induction false} JoinHasNo(parts: seq<string>, sep: string, c: char)
    requires c !in sep && forall i | 0 <= i < |parts| :: c !in parts[i]
    ensures c !in Join(parts, sep)
  {
    if |parts| > 1 {
      JoinHasNo(parts[1..], sep, c);
    }
  }

  function FromOctets(a: nat, b: nat, c: nat, d: nat): nat {
    a * 0x100_0000 + b * 0x1_0000 + c * 0x100 + d
  }

  lemma ParsePrintedOctets(a: nat, b: nat, c: nat, d: nat)
    requires a <= 255 && b <= 255 && c <= 255 && d <= 255
    ensures ParseIP(PrintOctets(a, b, c, d)) == Some(FromOctets(a, b, c, d))
  {
    SplitPrintedOctets(a, b, c, d);
    ParseOctetPrinted(a);
    ParseOctetPrinted(b);
    ParseOctetPrinted(c);
    ParseOctetPrinted(d);
  }

  lemma DivideAgain(n: nat)
    ensures n / 0x100 / 0x100 == n / 0x1_0000 && n == n / 0x100 * 0x100 + n % 0x100
  {
  }

  lemma OctetsOfAddress(ip: IPv4)
    ensures FromOctets(ip / 0x100_0000, ip / 0x1_0000 % 0x100, ip / 0x100 % 0x100, ip % 0x100) == ip
  {
    DivideAgain(ip);
    DivideAgain(ip / 0x100);
    assert ip / 0x1_0000 == ip / 0x100 / 0x100;
    assert ip / 0x1_0000 / 0x100 == ip / 0x100_0000;
  }

  lemma ParseIPPrinted(ip: IPv4)
    ensures ParseIP(PrintIP(ip)) == Some(ip)
    ensures '/' !in PrintIP(ip)
  {
    var a, b, c, d := ip / 0x100_0000, ip / 0x1_0000 % 0x100, ip / 0x100 % 0x100, ip % 0x100;
    ParsePrintedOctets(a, b, c, d);
    PrintedOctetsHaveNoSlash(a, b, c, d);
    OctetsOfAddress(ip);
  }

  /** Parsing a printed address-with-prefix yields the address and its network. */
  lemma ParsePrintedNet(n: IPNet)
    ensures ParseCIDR(PrintNet(n)) == Some((n.ip, Network(n)))
  {
    ParseIPPrinted(n.ip);
    SeparableChar(PrintIP(n.ip), '/');
    CutSeparator(PrintIP(n.ip), "/", Itoa(n.ones));
    DigitsValue(n.ones);
  }

  /** Networks print alike only if they are the same, masked or not, so the program may compare them by
      comparing their text. */
  lemma PrintNetInjective(m: IPNet, n: IPNet)
    ensures PrintNet(m) == PrintNet(n) <==> m == n
  {
    ParsePrintedNet(m);
    ParsePrintedNet(n);
  }

  lemma DoubleHalf(x: nat)
    ensures 2 * x / 2 == x
  {
  }

  lemma {:induction false} ClearLowTwice(ip: nat, k: nat)
    ensures ClearLow(ClearLow(ip, k), k) == ClearLow(ip, k)
    decreases k
  {
    if k > 0 {
      ClearLowTwice(ip / 2, k - 1);
      DoubleHalf(ClearLow(ip / 2, k - 1));
    }
  }

  lemma NetworkMasked(n: IPNet)
    ensures Masked(Network(n))
    ensures forall ip :: Contains(Network(n), ip) <==> Contains(n, ip)
  {
    ClearLowTwice(n.ip, 32 - n.ones);
  }

  lemma SingleContains(ip: IPv4, other: IPv4)
    ensures Contains(Single(ip), other) <==> ip == other
  {
  }

  // ---------------------------------------------------------------------- in plain numbers

  /** Dotted notation, most significant byte first. */
  lemma PrintIPLiterally(a: nat, b: nat, c: nat, d: nat)
    requires a <= 255 && b <= 255 && c <= 255 && d <= 255
    ensures PrintIP(a * 0x100_0000 + b * 0x1_0000 + c * 0x100 + d) ==
            Itoa(a) + "." + (Itoa(b) + "." + (Itoa(c) + "." + Itoa(d)))
  {
    Bytes(a, b, c, d);
    FourFields(Itoa(a), Itoa(b), Itoa(c), Itoa(d));
  }

  lemma Bytes(a: nat, b: nat, c: nat, d: nat)
    requires a <= 255 && b <= 255 && c <= 255 && d <= 255
    ensures var ip := a * 0x100_0000 + b * 0x1_0000 + c * 0x100 + d;
            ip / 0x100_0000 == a && ip / 0x1_0000 % 0x100 == b && ip / 0x100 % 0x100 == c && ip % 0x100 == d
  {
    var ip := a * 0x100_0000 + b * 0x1_0000 + c * 0x100 + d;
    var x, y := a * 0x1_0000 + b * 0x100 + c, a * 0x100 + b;
    assert ip == x * 0x100 + d;
    assert ip / 0x100 == x && ip % 0x100 == d;
    assert x == y * 0x100 + c;
    assert x / 0x100 == y && x % 0x100 == c;
    assert y / 0x100 == a && y % 0x100 == b;
    DivideAgain(ip);
    DivideAgain(ip / 0x100);
    assert ip / 0x1_0000 == y;
    assert ip / 0x1_0000 / 0x100 == ip / 0x100_0000;
  }

  lemma FourFields(a: string, b: string, c: string, d: string)
    ensures Join([a, b, c, d], ".") == a + "." + (b + "." + (c + "." + d))
  {
    assert [a, b, c, d][1..] == [b, c, d] && [b, c, d][1..] == [c, d] && [c, d][1..] == [d];
    assert Join([d], ".") == d;
    assert Join([c, d], ".") == c + "." + d;
    assert Join([b, c, d], ".") == b + "." + Join([c, d], ".");
  }

  /** A number without its `k` lowest bits. */
  function DropBits(ip: nat, k: nat): nat
    decreases k
  {
    if k == 0 then ip else DropBits(ip / 2, k - 1)
  }

  lemma {:induction false} ClearLowEqual(a: nat, b: nat, k: nat)
    ensures ClearLow(a, k) == ClearLow(b, k) <==> DropBits(a, k) == DropBits(b, k)
    decreases k
  {
    if k > 0 {
      ClearLowEqual(a / 2, b / 2, k - 1);
    }
  }

  /** An address is in a network when it agrees with it in as many leading bits as the prefix is long. */
  lemma ContainsExactly(n: IPNet, ip: IPv4)
    ensures Contains(n, ip) <==> DropBits(ip, 32 - n.ones) == DropBits(n.ip, 32 - n.ones)
  {
    ClearLowEqual(ip, n.ip, 32 - n.ones);
  }
}
