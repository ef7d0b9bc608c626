/**
 `GetIndexIP`: the address at an index of an IPv4 subnet (section 3.1 of RFC 4632), and the two service
 addresses derived from the service CIDR.
 */
module Subnets {
  import opened Options
  import opened Text
  import opened Decimal
  import opened Addresses

  // ---------------------------------------------------------------- bits

  function Pow2(k: nat): nat
  {
    if k == 0 then 1 else 2 * Pow2(k - 1)
  }

  /** `n >> k` */
  function Shr(n: nat, k: nat): nat
  {
    if k == 0 then n else Shr(n / 2, k - 1)
  }

  /** `n << k` */
  function Shl(n: nat, k: nat): nat
  {
    if k == 0 then n else 2 * Shl(n, k - 1)
  }

  /** `n` with its last `k` bits cleared. */
  function Clear(n: nat, k: nat): nat
  {
    Shl(Shr(n, k), k)
  }

  lemma {:induction false} ShrShr(n: nat, a: nat, b: nat)
    ensures Shr(n, a + b) == Shr(Shr(n, a), b)
  {
    if a > 0 {
      ShrShr(n / 2, a - 1, b);
    }
  }

  lemma {:induction false} ShlSum(n: nat, a: nat, b: nat)
    ensures Shl(n, a + b) == Shl(Shl(n, b), a)
  {
    if a > 0 {
      ShlSum(n, a - 1, b);
    }
  }

  lemma {:induction false} ShlInjective(n: nat, m: nat, k: nat)
    requires Shl(n, k) == Shl(m, k)
    ensures n == m
  {
    if k > 0 {
      ShlInjective(n, m, k - 1);
    }
  }

  lemma {:induction false} ShrOfShl(n: nat, k: nat)
    ensures Shr(Shl(n, k), k) == n
  {
    if k > 0 {
      assert Shl(n, k) / 2 == Shl(n, k - 1);
      ShrOfShl(n, k - 1);
    }
  }

  lemma {:induction false} ClearBelow(n: nat, k: nat)
    ensures Clear(n, k) <= n < Clear(n, k) + Pow2(k)
  {
    if k > 0 {
      ClearBelow(n / 2, k - 1);
      assert Clear(n, k) == 2 * Clear(n / 2, k - 1);
    }
  }

  /** Clearing at most eight bits touches the last octet only. */
  lemma {:induction false} ClearLow(hi: nat, b: nat, k: nat, m: nat)
    requires k <= m && b < Pow2(m)
    ensures Clear(Shl(hi, m) + b, k) == Shl(hi, m) + Clear(b, k)
  {
    if k > 0 {
      assert Shl(hi, m) == 2 * Shl(hi, m - 1);
      var n := Shl(hi, m) + b;
      assert n / 2 == Shl(hi, m - 1) + b / 2;
      ClearLow(hi, b / 2, k - 1, m - 1);
      assert Clear(n, k) == 2 * Clear(n / 2, k - 1) && Clear(b, k) == 2 * Clear(b / 2, k - 1);
    }
  }

  lemma FourBits(n: nat)
    ensures Shl(n, 4) == 16 * n && Shr(n, 4) == n / 16
  {
    assert Shl(n, 1) == 2 * n && Shl(n, 2) == 4 * n && Shl(n, 3) == 8 * n;
    var a, b, c, d := n / 2, n / 4, n / 8, n / 16;
    assert b == a / 2 && c == b / 2 && d == c / 2;
    assert Shr(n, 4) == Shr(a, 3) == Shr(b, 2) == Shr(c, 1) == Shr(d, 0);
  }

  lemma EightBits(n: nat)
    ensures Pow2(8) == 256 && Shl(n, 8) == 256 * n && Shr(n, 8) == n / 256
  {
    ShrShr(n, 4, 4);
    ShlSum(n, 4, 4);
    FourBits(n);
    FourBits(n / 16);
    FourBits(16 * n);
  }

  lemma ClearLastOctet(n: nat, k: nat)
    requires k <= 8
    ensures Clear(n, k) == 256 * (n / 256) + Clear(n % 256, k)
  {
    EightBits(n / 256);
    ClearLow(n / 256, n % 256, k, 8);
  }

  lemma ClearWholeOctet(n: nat, k: nat)
    requires k >= 8
    ensures Clear(n, k) == 256 * Clear(n / 256, k - 8)
  {
    EightBits(n);
    ShrShr(n, 8, k - 8);
    ShlSum(Shr(n, k), 8, k - 8);
    EightBits(Shl(Shr(n, k), k - 8));
  }

  lemma {:induction false} ShlIsTimes(q: nat, k: nat)
    ensures Shl(q, k) == q * Pow2(k)
  {
    if k > 0 {
      ShlIsTimes(q, k - 1);
    }
  }

  /** Clearing the last `k` bits gives the greatest multiple of the `k`-th power of two that is not above the number. */
  lemma ClearExactly(n: nat, k: nat)
    ensures Clear(n, k) == Shr(n, k) * Pow2(k) && Clear(n, k) <= n < Clear(n, k) + Pow2(k)
  {
    ShlIsTimes(Shr(n, k), k);
    ClearBelow(n, k);
  }

  // ---------------------------------------------------------------- the subnet

  /** The number of host bits that fall into octet `i`. */
  function HostBits(p: nat, i: nat): (k: nat)
    requires i < 4
    ensures k <= 8
  {
    if p <= 8 * i then 8 else if p >= 8 * i + 8 then 0 else 8 * i + 8 - p
  }

  /** `IP.Mask` with the mask of a `p`-bit prefix, octet by octet. */
  function Mask(b: seq<nat>, p: nat): seq<nat>
    requires |b| == 4
  {
    [Clear(b[0], HostBits(p, 0)), Clear(b[1], HostBits(p, 1)), Clear(b[2], HostBits(p, 2)), Clear(b[3], HostBits(p, 3))]
  }

  /** `IPNet.Contains` for a four-byte network; an address of another length is never contained. */
  predicate Contains(net: seq<nat>, p: nat, ip: seq<nat>)
    requires |net| == 4
  {
    |ip| == 4 && Mask(net, p) == Mask(ip, p)
  }

  /** `GetIndexIP` */
  function GetIndexIP(net: seq<nat>, p: nat, index: nat): Option<string>
    requires |net| == 4 && index < 0x8000_0000_0000_0000
  {
    var ip := ToBytes(FromBytes(net) + index);
    if Contains(net, p, ip) then Some(IPText(ip)) else None
  }

  lemma ClearOctet(b: nat, k: nat)
    requires b < 256
    ensures Octet(Clear(b, k)) && Clear(b, 0) == b && Clear(b, 8) == 0
  {
    ClearBelow(b, k);
    EightBits(b);
    EightBits(0);
  }

  /** Masking the octets clears the last 32 - p bits of the whole number. */
  lemma MaskIsClear(n: nat, p: nat)
    requires n < 0x1_0000_0000 && p <= 32
    ensures |Mask(Quad(n), p)| == 4 && Octets(Mask(Quad(n), p)) && FromBytes(Mask(Quad(n), p)) == Clear(n, 32 - p)
  {
    var b := Quad(n);
    var n2, n1, n0 := n / 256, n / 256 / 256, n / 256 / 256 / 256;
    assert b == [n0, n1 % 256, n2 % 256, n % 256];
    forall i | 0 <= i < 4 ensures Octet(Mask(b, p)[i]) && Clear(b[i], 0) == b[i] && Clear(b[i], 8) == 0 {
      assert Octet(b[i]);
      ClearOctet(b[i], HostBits(p, i));
    }
    FourBytes(Mask(b, p));
    if p >= 24 {
      ClearLastOctet(n, 32 - p);
    } else {
      ClearWholeOctet(n, 32 - p);
      if p >= 16 {
        ClearLastOctet(n2, 24 - p);
      } else {
        ClearWholeOctet(n2, 24 - p);
        if p >= 8 {
          ClearLastOctet(n1, 16 - p);
        } else {
          ClearWholeOctet(n1, 16 - p);
        }
      }
    }
  }

  /** Two addresses lie in the same block of a `p`-bit prefix when their first `p` bits agree. */
  ghost predicate SameBlock(n: nat, x: nat, p: nat)
    requires p <= 32
  {
    Shr(n, 32 - p) == Shr(x, 32 - p)
  }

  /** `Contains` compares exactly the first `p` bits. */
  lemma ContainsIsSameBlock(n: nat, x: nat, p: nat)
    requires n < 0x1_0000_0000 && x < 0x1_0000_0000 && p <= 32
    ensures Contains(Quad(n), p, Quad(x)) <==> SameBlock(n, x, p)
  {
    MaskIsClear(n, p);
    MaskIsClear(x, p);
    FromQuad(Mask(Quad(n), p));
    FromQuad(Mask(Quad(x), p));
    if Clear(n, 32 - p) == Clear(x, 32 - p) {
      ShlInjective(Shr(n, 32 - p), Shr(x, 32 - p), 32 - p);
    }
  }

  lemma {:induction false} BlockSize(q: nat, index: nat, k: nat)
    ensures Shr(Shl(q, k) + index, k) == q <==> index < Pow2(k)
  {
    if k > 0 {
      assert (Shl(q, k) + index) / 2 == Shl(q, k - 1) + index / 2;
      BlockSize(q, index / 2, k - 1);
    }
  }

  lemma {:induction false} BlockFits(q: nat, index: nat, k: nat, m: nat)
    requires k <= m && Shl(q, k) < Pow2(m) && index < Pow2(k)
    ensures Shl(q, k) + index < Pow2(m)
  {
    if k > 0 {
      BlockFits(q, index / 2, k - 1, m - 1);
    }
  }

  lemma PowValues()
    ensures Pow2(3) == 8 && Pow2(4) == 16 && Pow2(32) == 0x1_0000_0000
  {
    assert Pow2(8) == 256;
    assert Pow2(12) == 16 * Pow2(8);
    assert Pow2(16) == 16 * Pow2(12);
    assert Pow2(20) == 16 * Pow2(16);
    assert Pow2(24) == 16 * Pow2(20);
    assert Pow2(28) == 16 * Pow2(24);
  }

  lemma {:induction false} PowMonotone(a: nat, b: nat)
    requires a <= b
    ensures Pow2(a) <= Pow2(b)
  {
    if a < b {
      PowMonotone(a, b - 1);
    }
  }

  /** A network number: its host bits are zero. */
  ghost predicate Aligned(net: nat, p: nat)
  {
    p <= 32 && net < 0x1_0000_0000 && Clear(net, 32 - p) == net
  }

  lemma InsideExactly(net: nat, p: nat, index: nat)
    requires Aligned(net, p)
    ensures SameBlock(net, net + index, p) <==> index < Pow2(32 - p)
    ensures index < Pow2(32 - p) ==> net + index < 0x1_0000_0000
  {
    BlockSize(Shr(net, 32 - p), index, 32 - p);
    if index < Pow2(32 - p) {
      PowValues();
      BlockFits(Shr(net, 32 - p), index, 32 - p, 32);
    }
  }

  /** CIDR indexing, exactly: `GetIndexIP` succeeds if and only if the index lies inside the subnet and the
      address has a non-zero first octet; it then gives network + index, which lies in the subnet. */
  lemma IndexExactly(net: nat, p: nat, index: nat)
    requires Aligned(net, p) && index < 0x8000_0000_0000_0000
    ensures var r := GetIndexIP(Quad(net), p, index);
            if index < Pow2(32 - p) && net + index >= 0x100_0000
            then net + index < 0x1_0000_0000 && r == Some(Addr(net + index)) && SameBlock(net, net + index, p)
            else r == None
  {
    QuadSum(net);
    BytesOfAddress(net + index);
    InsideExactly(net, p, index);
    if 0x100_0000 <= net + index < 0x1_0000_0000 {
      ContainsIsSameBlock(net, net + index, p);
    }
  }

  // ---------------------------------------------------------------- the service addresses

  /** `net.ParseCIDR` on text without a colon: the four bytes of the network and the prefix length. */
  function ParseCIDR(s: string): Option<(seq<nat>, nat)>
  {
    var i := IndexOf(s, '/');
    if i == |s| then None
    else
      var addr, bits := ParseIP(s[..i]), s[i + 1..];
      if addr.None? || !Digits(bits) || Value(bits) > 32 then None
      else Some((Mask(addr.value, Value(bits)), Value(bits)))
  }

  /** The API server and DNS addresses of the first CIDR of a comma-separated list. */
  function ServiceIPs(svcCIDR: string): Option<(string, string)>
  {
    match ParseCIDR(SplitOn(svcCIDR, ',')[0])
    case None => None
    case Some((net, p)) => FirstAndTenth(net, p)
  }

  function FirstAndTenth(net: seq<nat>, p: nat): Option<(string, string)>
    requires |net| == 4
  {
    var kube, dns := GetIndexIP(net, p, 1), GetIndexIP(net, p, 10);
    if kube.None? || dns.None? then None else Some((kube.value, dns.value))
  }

  lemma {:induction false} ShlEven(q: nat, k: nat)
    requires k > 0
    ensures Shl(q, k) % 2 == 0
  {
  }

  /** The number of the network of a CIDR. */
  function Network(addr: nat, p: nat): nat
    requires p <= 32
  {
    Clear(addr, 32 - p)
  }

  lemma RoomForTen(net: nat, p: nat)
    requires Aligned(net, p)
    ensures 10 < Pow2(32 - p) <==> p <= 28
    ensures p <= 28 ==> net + 10 < 0x1_0000_0000 && net % 2 == 0 && 1 < Pow2(32 - p)
  {
    PowValues();
    if p <= 28 {
      PowMonotone(4, 32 - p);
      BlockFits(Shr(net, 32 - p), 15, 32 - p, 32);
      ShlEven(Shr(net, 32 - p), 32 - p);
    } else {
      PowMonotone(32 - p, 3);
    }
  }

  lemma BothExactly(net: nat, p: nat, kube: Option<string>, dns: Option<string>)
    requires Aligned(net, p) && kube == GetIndexIP(Quad(net), p, 1) && dns == GetIndexIP(Quad(net), p, 10)
    ensures p <= 28 && net >= 0x100_0000 ==>
              net + 10 < 0x1_0000_0000 && kube == Some(Addr(net + 1)) && dns == Some(Addr(net + 10))
    ensures !(p <= 28 && net >= 0x100_0000) ==> kube == None || dns == None
  {
    if p <= 28 && net >= 0x100_0000 {
      RoomForTen(net, p);
      BothFit(net, p);
    } else {
      OneMisses(net, p);
    }
  }

  lemma OneMisses(net: nat, p: nat)
    requires Aligned(net, p) && !(p <= 28 && net >= 0x100_0000)
    ensures GetIndexIP(Quad(net), p, 1) == None || GetIndexIP(Quad(net), p, 10) == None
  {
    RoomForTen(net, p);
    if p > 28 {
      IndexMisses(net, p, 10);
    } else {
      IndexMisses(net, p, 1);
    }
  }

  lemma BothFit(net: nat, p: nat)
    requires Aligned(net, p) && 10 < Pow2(32 - p) && net >= 0x100_0000
    ensures net + 10 < 0x1_0000_0000
    ensures GetIndexIP(Quad(net), p, 1) == Some(Addr(net + 1)) && GetIndexIP(Quad(net), p, 10) == Some(Addr(net + 10))
  {
    IndexFits(net, p, 1);
    IndexFits(net, p, 10);
  }

  lemma IndexFits(net: nat, p: nat, index: nat)
    requires Aligned(net, p) && index < Pow2(32 - p) && net + index >= 0x100_0000 && index < 0x8000_0000_0000_0000
    ensures net + index < 0x1_0000_0000 && GetIndexIP(Quad(net), p, index) == Some(Addr(net + index))
  {
    IndexExactly(net, p, index);
  }

  lemma IndexMisses(net: nat, p: nat, index: nat)
    requires Aligned(net, p) && index < 0x8000_0000_0000_0000
    requires index >= Pow2(32 - p) || net + index < 0x100_0000
    ensures GetIndexIP(Quad(net), p, index) == None
  {
    IndexExactly(net, p, index);
  }

  lemma FirstAndTenthExactly(net: nat, p: nat)
    requires Aligned(net, p)
    ensures p <= 28 && net >= 0x100_0000 ==>
              net + 10 < 0x1_0000_0000 && FirstAndTenth(Quad(net), p) == Some((Addr(net + 1), Addr(net + 10)))
    ensures !(p <= 28 && net >= 0x100_0000) ==> FirstAndTenth(Quad(net), p) == None
  {
    BothExactly(net, p, GetIndexIP(Quad(net), p, 1), GetIndexIP(Quad(net), p, 10));
  }

  /** The text of a CIDR parses to its network. */
  lemma NetworkAligned(addr: nat, p: nat)
    requires addr < 0x1_0000_0000 && p <= 32
    ensures Aligned(Network(addr, p), p)
  {
    ClearBelow(addr, 32 - p);
    ShrOfShl(Shr(addr, 32 - p), 32 - p);
  }

  lemma MaskIsQuad(addr: nat, p: nat)
    requires addr < 0x1_0000_0000 && p <= 32
    ensures Network(addr, p) < 0x1_0000_0000 && Mask(Quad(addr), p) == Quad(Network(addr, p))
  {
    MaskIsClear(addr, p);
    ClearBelow(addr, 32 - p);
    FromQuad(Mask(Quad(addr), p));
  }

  lemma ParsesAt(text: string, host: string, bits: string, b: seq<nat>)
    requires '/' !in host && text == host + "/" + bits && ParseIP(host) == Some(b) && |b| == 4 && Digits(bits)
             && Value(bits) <= 32
    ensures ParseCIDR(text) == Some((Mask(b, Value(bits)), Value(bits)))
  {
    IndexAfter(host, '/', bits);
    assert host + ['/'] + bits == text;
  }

  lemma ParsesToNetwork(addr: nat, bits: string)
    requires addr < 0x1_0000_0000 && Digits(bits) && Value(bits) <= 32
    ensures Aligned(Network(addr, Value(bits)), Value(bits))
    ensures ParseCIDR(Addr(addr) + "/" + bits) == Some((Quad(Network(addr, Value(bits))), Value(bits)))
  {
    AddrHasNo(addr);
    AddrToInt(addr);
    NetworkAligned(addr, Value(bits));
    MaskIsQuad(addr, Value(bits));
    ParsesAt(Addr(addr) + "/" + bits, Addr(addr), bits, Quad(addr));
  }

  lemma ServicesOfNetwork(s: string, head: string, net: nat, p: nat)
    requires Aligned(net, p) && SplitOn(s, ',')[0] == head && ParseCIDR(head) == Some((Quad(net), p))
    ensures if p <= 28 && net >= 0x100_0000
            then net + 10 < 0x1_0000_0000 && ServiceIPs(s) == Some((Addr(net + 1), Addr(net + 10)))
            else ServiceIPs(s) == None
  {
    FirstAndTenthExactly(net, p);
    assert ServiceIPs(s) == FirstAndTenth(Quad(net), p);
  }

  /** For every list that begins with an IPv4 CIDR, the two service addresses exist exactly when the prefix has
      at most 28 bits and the network a non-zero first octet, and they are network + 1 and network + 10. */
  lemma ServiceIPsExactly(text: string, addr: nat, bits: string, rest: string)
    requires addr < 0x1_0000_0000 && Digits(bits) && Value(bits) <= 32 && (rest == "" || rest[0] == ',')
    requires text == Addr(addr) + "/" + bits + rest
    ensures var net, p := Network(addr, Value(bits)), Value(bits);
            if p <= 28 && net >= 0x100_0000
            then net + 10 < 0x1_0000_0000 && ServiceIPs(text) == Some((Addr(net + 1), Addr(net + 10)))
            else ServiceIPs(text) == None
  {
    AddrHasNo(addr);
    ParsesToNetwork(addr, bits);
    ServicesOfText(text, Addr(addr), bits, rest, Network(addr, Value(bits)), Value(bits));
  }

  lemma ServicesOfText(text: string, host: string, bits: string, rest: string, net: nat, p: nat)
    requires text == host + "/" + bits + rest && ',' !in host && Digits(bits) && (rest == "" || rest[0] == ',')
    requires Aligned(net, p) && ParseCIDR(host + "/" + bits) == Some((Quad(net), p))
    ensures if p <= 28 && net >= 0x100_0000
            then net + 10 < 0x1_0000_0000 && ServiceIPs(text) == Some((Addr(net + 1), Addr(net + 10)))
            else ServiceIPs(text) == None
  {
    FirstField(host + "/" + bits, rest, host, bits);
    ServicesOfNetwork(text, host + "/" + bits, net, p);
  }

  lemma AddrHasNo(n: nat)
    requires n < 0x1_0000_0000
    ensures '/' !in Addr(n) && ',' !in Addr(n)
  {
    AddrAvoids(n, '/');
    AddrAvoids(n, ',');
  }

  lemma FirstField(text: string, rest: string, host: string, bits: string)
    requires ',' !in host && Digits(bits) && text == host + "/" + bits && (rest == "" || rest[0] == ',')
    ensures SplitOn(text + rest, ',')[0] == text
  {
    assert ',' !in bits by {
      assert forall i :: 0 <= i < |bits| ==> IsDigit(bits[i]);
    }
    assert ',' !in text;
    if rest == "" {
      assert text + rest == text;
      IndexNone(text, ',');
    } else {
      assert text + rest == text + [','] + rest[1..];
      IndexAfter(text, ',', rest[1..]);
    }
  }

  // ---------------------------------------------------------------- texts that are no CIDR

  /** Only an address, a slash and a prefix length of at most 32 is read. */
  lemma ParseCIDRExactly(s: string)
    ensures ParseCIDR(s).Some? <==>
              exists addr: nat, bits: string :: addr < 0x1_0000_0000 && IsCIDR(s, addr, bits)
  {
    if ParseCIDR(s).Some? {
      var i := IndexOf(s, '/');
      ParsedIsAddr(s[..i]);
      Cut(s, i);
      assert IsCIDR(s, IPToInt(s[..i]), s[i + 1..]);
    }
    if addr: nat, bits: string :| addr < 0x1_0000_0000 && IsCIDR(s, addr, bits) {
      ParsesToNetwork(addr, bits);
    }
  }

  ghost predicate IsCIDR(s: string, addr: nat, bits: string)
    requires addr < 0x1_0000_0000
  {
    Digits(bits) && Value(bits) <= 32 && s == Addr(addr) + "/" + bits
  }

  /** Service addresses are derived from nothing but a list that begins with an IPv4 CIDR, to which `ServiceIPsExactly`
      applies. */
  lemma ServiceIPsOnlyOf(s: string) returns (addr: nat, bits: string, rest: string)
    requires ServiceIPs(s).Some?
    ensures addr < 0x1_0000_0000 && Digits(bits) && Value(bits) <= 32 && (rest == "" || rest[0] == ',')
    ensures s == Addr(addr) + "/" + bits + rest
  {
    var i := IndexOf(s, ',');
    var head := SplitOn(s, ',')[0];
    assert head == s[..i];
    ParseCIDRExactly(head);
    addr, bits :| addr < 0x1_0000_0000 && IsCIDR(head, addr, bits);
    rest := s[i..];
    assert s == s[..i] + s[i..];
  }
}
