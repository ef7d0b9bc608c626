/**
 `utils/net/iputils.go`: IPv4 addresses as big-endian integers, dotted-quad text and range enumeration.
 */
module Addresses {
  import opened Options
  import opened Text
  import opened Decimal

  // ---------------------------------------------------------------- big-endian integers

  predicate Octet(x: nat) { x < 256 }

  predicate Octets(b: seq<nat>)
  {
    forall i :: 0 <= i < |b| ==> Octet(b[i])
  }

  /** `big.Int.SetBytes` */
  function FromBytes(b: seq<nat>): nat
  {
    if b == [] then 0 else FromBytes(b[..|b| - 1]) * 256 + b[|b| - 1]
  }

  /** `big.Int.Bytes`: no leading zero byte. */
  function ToBytes(n: nat): (b: seq<nat>)
    ensures Octets(b)
  {
    if n == 0 then [] else ToBytes(n / 256) + [n % 256]
  }

  /** The four octets of a 32-bit address. */
  function Quad(n: nat): (b: seq<nat>)
    requires n < 0x1_0000_0000
    ensures |b| == 4 && Octets(b)
  {
    [n / 0x100_0000, n / 0x1_0000 % 256, n / 256 % 256, n % 256]
  }

  lemma QuadDigits(w: nat, x: nat, y: nat, z: nat)
    requires w < 256 && x < 256 && y < 256 && z < 256
    ensures var n := w * 0x100_0000 + x * 0x1_0000 + y * 256 + z;
            n < 0x1_0000_0000 && Quad(n) == [w, x, y, z]
  {
    var n := w * 0x100_0000 + x * 0x1_0000 + y * 256 + z;
    assert n / 256 == w * 0x1_0000 + x * 256 + y;
    assert n / 0x1_0000 == w * 256 + x;
    assert n / 0x100_0000 == w;
  }

  lemma FourBytes(b: seq<nat>)
    requires |b| == 4
    ensures FromBytes(b) == b[0] * 0x100_0000 + b[1] * 0x1_0000 + b[2] * 256 + b[3]
  {
    var b3, b2, b1 := b[..3], b[..2], b[..1];
    assert b3[..2] == b2 && b2[..1] == b1 && b1[..0] == [];
    assert FromBytes(b1) == b[0];
    assert FromBytes(b2) == b[0] * 256 + b[1];
    assert FromBytes(b3) == (b[0] * 256 + b[1]) * 256 + b[2];
  }

  lemma FromQuad(b: seq<nat>)
    requires |b| == 4 && Octets(b)
    ensures FromBytes(b) < 0x1_0000_0000 && Quad(FromBytes(b)) == b
  {
    assert Octet(b[0]) && Octet(b[1]) && Octet(b[2]) && Octet(b[3]);
    FourBytes(b);
    QuadDigits(b[0], b[1], b[2], b[3]);
    assert b == [b[0], b[1], b[2], b[3]];
  }

  lemma QuadSum(n: nat)
    requires n < 0x1_0000_0000
    ensures FromBytes(Quad(n)) == n
  {
    FourBytes(Quad(n));
    assert n / 256 / 256 == n / 0x1_0000 && n / 256 / 256 / 256 == n / 0x100_0000;
  }

  /** `Bytes` gives four octets exactly for addresses with a non-zero first octet. */
  lemma BytesOfAddress(n: nat)
    ensures |ToBytes(n)| == 4 <==> 0x100_0000 <= n < 0x1_0000_0000
    ensures 0x100_0000 <= n < 0x1_0000_0000 ==> ToBytes(n) == Quad(n)
    ensures n <= 0x1_0000_0000 ==> |ToBytes(n)| <= 5
  {
    var n1, n2, n3, n4 := n / 256, n / 256 / 256, n / 256 / 256 / 256, n / 256 / 256 / 256 / 256;
    assert n > 0 ==> ToBytes(n) == ToBytes(n1) + [n % 256];
    assert n1 > 0 ==> ToBytes(n1) == ToBytes(n2) + [n1 % 256];
    assert n2 > 0 ==> ToBytes(n2) == ToBytes(n3) + [n2 % 256];
    assert n3 > 0 ==> ToBytes(n3) == ToBytes(n4) + [n3 % 256];
    assert n4 > 0 ==> ToBytes(n4) == ToBytes(n4 / 256) + [n4 % 256];
    if n4 == 0 {
      assert ToBytes(n4) == [];
    }
  }

  // ---------------------------------------------------------------- text

  function Fields(b: seq<nat>): seq<string>
  {
    seq(|b|, i requires 0 <= i < |b| => Itoa(b[i]))
  }

  /** `IP.String` of four bytes. */
  function Dotted(b: seq<nat>): string
    requires |b| == 4
  {
    JoinOn(Fields(b), '.')
  }

  function HexDigit(d: nat): char
    requires d < 16
  {
    "0123456789abcdef"[d]
  }

  function Hex(b: seq<nat>): string
    requires Octets(b)
  {
    if b == [] then "" else [HexDigit(b[0] / 16), HexDigit(b[0] % 16)] + Hex(b[1..])
  }

  /** `IP.String`: a slice of another length is shown in hexadecimal after a question mark. */
  function IPText(b: seq<nat>): string
    requires Octets(b) && |b| != 16
  {
    if |b| == 4 then Dotted(b) else if |b| == 0 then "<nil>" else "?" + Hex(b)
  }

  predicate FieldOk(f: string)
  {
    Shortest(f) && Value(f) < 256
  }

  /** `net.ParseIP` on text without a colon. */
  function ParseIP(s: string): Option<seq<nat>>
  {
    var f := SplitOn(s, '.');
    if |f| == 4 && FieldOk(f[0]) && FieldOk(f[1]) && FieldOk(f[2]) && FieldOk(f[3])
    then Some([Value(f[0]), Value(f[1]), Value(f[2]), Value(f[3])])
    else None
  }

  lemma FieldText(x: nat)
    requires x < 256
    ensures FieldOk(Itoa(x)) && Value(Itoa(x)) == x && '.' !in Itoa(x) && '-' !in Itoa(x) && ',' !in Itoa(x)
  {
    ItoaShortest(x);
    ValueItoa(x);
    assert forall i :: 0 <= i < |Itoa(x)| ==> IsDigit(Itoa(x)[i]);
  }

  /** Printing and parsing are inverse on four octets. */
  lemma ParsePrinted(b: seq<nat>)
    requires |b| == 4 && Octets(b)
    ensures ParseIP(Dotted(b)) == Some(b)
  {
    var f := Fields(b);
    forall k | 0 <= k < 4 ensures '.' !in f[k] && FieldOk(f[k]) && Value(f[k]) == b[k] {
      assert Octet(b[k]);
      FieldText(b[k]);
    }
    SplitJoin(f, '.');
    assert [Value(f[0]), Value(f[1]), Value(f[2]), Value(f[3])] == b;
  }

  /** Every text that parses is the canonical print of what it parses to. */
  lemma PrintParsed(s: string)
    requires ParseIP(s).Some?
    ensures |ParseIP(s).value| == 4 && Octets(ParseIP(s).value) && s == Dotted(ParseIP(s).value)
  {
    var f, b := SplitOn(s, '.'), ParseIP(s).value;
    JoinSplit(s, '.');
    forall k | 0 <= k < 4 ensures Fields(b)[k] == f[k] {
      ItoaValue(f[k]);
    }
    assert Fields(b) == f;
  }

  lemma {:induction false} HexHasNoDot(b: seq<nat>)
    requires Octets(b)
    ensures '.' !in Hex(b)
  {
    if b != [] {
      HexHasNoDot(b[1..]);
      assert forall d: nat :: d < 16 ==> HexDigit(d) != '.';
    }
  }

  /** The text of a slice that is not four bytes long does not parse. */
  lemma OddTextDoesNotParse(b: seq<nat>)
    requires Octets(b) && |b| != 4 && |b| != 16
    ensures ParseIP(IPText(b)) == None
  {
    HexHasNoDot(b);
    var s := IPText(b);
    assert '.' !in s;
    IndexNone(s, '.');
  }

  /** `IPToInt`; text that does not parse counts as zero. */
  function IPToInt(s: string): nat
  {
    match ParseIP(s)
    case None => 0
    case Some(b) => FromBytes(b)
  }

  lemma IPToIntBound(s: string)
    ensures IPToInt(s) < 0x1_0000_0000
  {
    if ParseIP(s).Some? {
      PrintParsed(s);
      FromQuad(ParseIP(s).value);
    }
  }

  /** `NextIP(s).String()` */
  function NextText(s: string): string
  {
    IPToIntBound(s);
    BytesOfAddress(IPToInt(s) + 1);
    IPText(ToBytes(IPToInt(s) + 1))
  }

  /** The canonical text of a 32-bit address. */
  function Addr(n: nat): string
    requires n < 0x1_0000_0000
  {
    Dotted(Quad(n))
  }

  /** The four octets in decimal, the most significant one first, with dots between them. */
  lemma AddrIs(n: nat, b: seq<nat>)
    requires |b| == 4 && Octets(b) && n == b[0] * 0x100_0000 + b[1] * 0x1_0000 + b[2] * 256 + b[3]
    ensures n < 0x1_0000_0000
    ensures Addr(n) == Itoa(b[0]) + "." + Itoa(b[1]) + "." + Itoa(b[2]) + "." + Itoa(b[3])
  {
    NumberOf(n, b);
    DottedIs(b, Itoa(b[0]), Itoa(b[1]), Itoa(b[2]), Itoa(b[3]));
  }

  lemma NumberOf(n: nat, b: seq<nat>)
    requires |b| == 4 && Octets(b) && n == b[0] * 0x100_0000 + b[1] * 0x1_0000 + b[2] * 256 + b[3]
    ensures n < 0x1_0000_0000 && Quad(n) == b
  {
    FourBytes(b);
    FromQuad(b);
  }

  lemma DottedIs(b: seq<nat>, f0: string, f1: string, f2: string, f3: string)
    requires |b| == 4 && Itoa(b[0]) == f0 && Itoa(b[1]) == f1 && Itoa(b[2]) == f2 && Itoa(b[3]) == f3
    ensures Dotted(b) == f0 + "." + f1 + "." + f2 + "." + f3
  {
    assert Fields(b) == [f0, f1, f2, f3];
    JoinFour(f0, f1, f2, f3, '.');
  }

  lemma JoinFour(a: string, b: string, c: string, d: string, sep: char)
    ensures JoinOn([a, b, c, d], sep) == a + [sep] + b + [sep] + c + [sep] + d
  {
    assert [a, b, c, d] == [a] + [b, c, d] && [b, c, d] == [b] + [c, d] && [c, d] == [c] + [d];
    JoinCons(a, [b, c, d], sep);
    JoinCons(b, [c, d], sep);
    JoinCons(c, [d], sep);
  }

  lemma AddrToInt(n: nat)
    requires n < 0x1_0000_0000
    ensures ParseIP(Addr(n)) == Some(Quad(n)) && IPToInt(Addr(n)) == n
  {
    ParsePrinted(Quad(n));
    QuadSum(n);
  }

  lemma ParsedIsAddr(s: string)
    requires ParseIP(s).Some?
    ensures IPToInt(s) < 0x1_0000_0000 && s == Addr(IPToInt(s))
  {
    PrintParsed(s);
    FromQuad(ParseIP(s).value);
  }

  /** One step inside the range that `Bytes` carries. */
  lemma NextAddr(n: nat)
    requires 0xFF_FFFF <= n < 0xFFFF_FFFF
    ensures NextText(Addr(n)) == Addr(n + 1)
  {
    AddrToInt(n);
    BytesOfAddress(n + 1);
  }

  // ---------------------------------------------------------------- range enumeration

  function Range(a: nat, b: nat): seq<string>
    requires a <= b + 1 && b < 0x1_0000_0000
  {
    seq(b + 1 - a, i requires 0 <= i < b + 1 - a => Addr(a + i))
  }

  datatype Result = Ok(text: string) | Err

  predicate IsRange(s: string)
  {
    '-' in s && |SplitOn(s, '-')| == 2 && ParseIP(SplitOn(s, '-')[0]).Some? && ParseIP(SplitOn(s, '-')[1]).Some?
  }

  function Low(s: string): nat
  {
    IPToInt(SplitOn(s, '-')[0])
  }

  function High(s: string): nat
  {
    if |SplitOn(s, '-')| > 1 then IPToInt(SplitOn(s, '-')[1]) else 0
  }

  /** The loop ends: the range is empty, or every successor it computes still has four bytes. */
  predicate Ends(a: nat, b: nat)
  {
    a > b || (0xFF_FFFF <= a && b < 0xFFFF_FFFF)
  }

  /** What the enumeration should give: the canonical prints of a, a+1, ..., b and nothing else. */
  function Expanded(s: string): Result
  {
    IPToIntBound(SplitOn(s, '-')[0]);
    if '-' !in s then Ok(s)
    else if !IsRange(s) then Err
    else if Low(s) > High(s) then Err
    else
      IPToIntBound(SplitOn(s, '-')[1]);
      Ok(JoinOn(Range(Low(s), High(s)), ','))
  }

  /** `CompareIP` */
  function CompareIP(v1: string, v2: string): int
  {
    if IPToInt(v1) < IPToInt(v2) then -1 else if IPToInt(v1) == IPToInt(v2) then 0 else 1
  }

  /** The loop variable after `k` iterations. */
  function After(s: string, k: nat): string
  {
    if k == 0 then s else NextText(After(s, k - 1))
  }

  lemma NextOfLowDoesNotParse(s: string)
    requires IPToInt(s) < 0xFF_FFFF
    ensures IPToInt(NextText(s)) == 0
  {
    var b := ToBytes(IPToInt(s) + 1);
    BytesOfAddress(IPToInt(s) + 1);
    OddTextDoesNotParse(b);
  }

  lemma {:induction false} LowRangeIsStuck(s: string, k: nat)
    requires IPToInt(s) < 0xFF_FFFF && k > 0
    ensures IPToInt(After(s, k)) == 0
  {
    if k > 1 {
      LowRangeIsStuck(s, k - 1);
    }
    NextOfLowDoesNotParse(After(s, k - 1));
  }

  /** Exactly outside `Ends` the loop condition stays true for ever. */
  lemma LoopNeverEnds(s: string, b: nat, k: nat)
    requires IPToInt(s) <= b < 0x1_0000_0000 && !Ends(IPToInt(s), b)
    ensures IPToInt(After(s, k)) <= b
  {
    if b == 0xFFFF_FFFF {
      IPToIntBound(After(s, k));
    } else if k > 0 {
      LowRangeIsStuck(s, k);
    }
  }

  /** The number of iterations the loop needs, inside `Ends`. */
  function Needed(a: nat, b: nat): nat
  {
    if a > b then 0 else b + 1 - a
  }

  /** Where the loop variable is after `k` iterations: at the next address, or for ever at or below the last one. */
  ghost predicate OnTrack(a: nat, b: nat, k: nat, cur: string)
  {
    if Ends(a, b) then a + k < 0x1_0000_0000 && cur == Addr(a + k)
    else IPToInt(cur) <= b && (b < 0xFFFF_FFFF ==> IPToInt(cur) < 0xFF_FFFF)
  }

  lemma TrackStarts(first: string, b: nat)
    requires ParseIP(first).Some? && b < 0x1_0000_0000
    ensures IPToInt(first) < 0x1_0000_0000 && OnTrack(IPToInt(first), b, 0, first)
  {
    ParsedIsAddr(first);
  }

  lemma TrackNext(a: nat, b: nat, k: nat, cur: string)
    requires OnTrack(a, b, k, cur) && b < 0x1_0000_0000 && (Ends(a, b) ==> k < Needed(a, b))
    ensures OnTrack(a, b, k + 1, NextText(cur))
  {
    if Ends(a, b) {
      NextAddr(a + k);
    } else if b < 0xFFFF_FFFF {
      NextOfLowDoesNotParse(cur);
    } else {
      IPToIntBound(NextText(cur));
    }
  }

  lemma TrackValue(a: nat, b: nat, k: nat, cur: string)
    requires OnTrack(a, b, k, cur)
    ensures if Ends(a, b) then IPToInt(cur) == a + k else IPToInt(cur) <= b
  {
    if Ends(a, b) {
      AddrToInt(a + k);
    }
  }

  lemma CompareValues(v1: string, v2: string)
    ensures CompareIP(v1, v2) <= 0 <==> IPToInt(v1) <= IPToInt(v2)
  {
  }

  /** The texts are the canonical prints of consecutive addresses from `a` on. */
  ghost predicate Listed(result: seq<string>, a: nat)
  {
    a + |result| <= 0x1_0000_0000 && forall i :: 0 <= i < |result| ==> result[i] == Addr(a + i)
  }

  lemma ListedGrows(result: seq<string>, a: nat, cur: string)
    requires Listed(result, a) && a + |result| < 0x1_0000_0000 && cur == Addr(a + |result|)
    ensures Listed(result + [cur], a)
  {
  }

  /** The state of the loop. */
  ghost predicate Enumerating(a: nat, b: nat, result: seq<string>, cur: string)
  {
    OnTrack(a, b, |result|, cur) && (Ends(a, b) ==> |result| <= Needed(a, b) && Listed(result, a))
  }

  lemma EnumeratingNext(a: nat, b: nat, result: seq<string>, cur: string)
    requires Enumerating(a, b, result, cur) && b < 0x1_0000_0000 && (Ends(a, b) ==> |result| < Needed(a, b))
    ensures Enumerating(a, b, result + [cur], NextText(cur))
  {
    TrackNext(a, b, |result|, cur);
    if Ends(a, b) {
      ListedGrows(result, a, cur);
    }
  }

  lemma EnumeratingCompares(a: nat, b: nat, result: seq<string>, cur: string, last: string)
    requires Enumerating(a, b, result, cur) && b == IPToInt(last)
    ensures CompareIP(cur, last) <= 0 <==> !Ends(a, b) || |result| < Needed(a, b)
  {
    TrackValue(a, b, |result|, cur);
    CompareValues(cur, last);
  }

  lemma ListedIsRange(result: seq<string>, a: nat, b: nat)
    requires a <= b < 0x1_0000_0000 && Listed(result, a) && |result| == Needed(a, b)
    ensures result == Range(a, b)
  {
  }

  /** The loop of `TransferToIPList`, given up after `steps` iterations.  It ends if and only if the range is one of
      `Ends` and the steps suffice. */
  method Enumerate(first: string, last: string, steps: nat) returns (result: seq<string>, ended: bool)
    requires ParseIP(first).Some?
    ensures ended <==> Ends(IPToInt(first), IPToInt(last)) && steps >= Needed(IPToInt(first), IPToInt(last))
    ensures ended && IPToInt(first) > IPToInt(last) ==> result == []
    ensures ended && IPToInt(first) <= IPToInt(last) < 0x1_0000_0000 ==> result == Range(IPToInt(first), IPToInt(last))
  {
    ghost var a, b := IPToInt(first), IPToInt(last);
    IPToIntBound(last);
    TrackStarts(first, b);
    result := [];
    var cur := first;
    EnumeratingCompares(a, b, result, cur, last);
    var res := CompareIP(cur, last);
    while res <= 0 && |result| < steps
      invariant |result| <= steps && Enumerating(a, b, result, cur)
      invariant res <= 0 <==> !Ends(a, b) || |result| < Needed(a, b)
      decreases steps - |result|
    {
      EnumeratingNext(a, b, result, cur);
      result, cur := result + [cur], NextText(cur);
      EnumeratingCompares(a, b, result, cur, last);
      res := CompareIP(cur, last);
    }
    ended := res > 0;
    if ended && a <= b {
      ListedIsRange(result, a, b);
    }
  }

  /** Both sides of the dash, when there are exactly two. */
  predicate TwoSides(s: string)
  {
    '-' in s && |SplitOn(s, '-')| == 2
  }

  /** The steps the loop takes on this text. */
  function Steps(s: string): nat
  {
    if IsRange(s) then Needed(Low(s), High(s)) else 0
  }

  /** What `TransferToIPList` gives when its loop is given up after `steps` iterations; `None` while it is running. */
  function Transferred(s: string, steps: nat): Option<Result>
  {
    if IsRange(s) && !(Ends(Low(s), High(s)) && steps >= Steps(s)) then None else Some(Expanded(s))
  }

  /** `TransferToIPList`, given up after `steps` iterations of its loop: for every number of steps it is still running
      exactly when the text is a range on which the loop does not end, or the steps do not suffice. */
  method TransferToIPList(ipStr: string, steps: nat) returns (r: Option<Result>)
    requires TwoSides(ipStr) ==> ':' !in ipStr
    ensures r == Transferred(ipStr, steps)
  {
    var ips := SplitOn(ipStr, '-');
    if ipStr == "" || '-' !in ipStr {
      return Some(Ok(ipStr));
    }
    if |ips| != 2 || ParseIP(ips[0]).None? || ParseIP(ips[1]).None? {
      return Some(Err);
    }
    IPToIntBound(ips[1]);
    var result, ended := Enumerate(ips[0], ips[1], steps);
    if !ended {
      return None;
    }
    if |result| == 0 {
      return Some(Err);
    }
    return Some(Ok(JoinOn(result, ',')));
  }

  // ---------------------------------------------------------------- the texts

  lemma AddrAvoids(n: nat, c: char)
    requires n < 0x1_0000_0000 && !IsDigit(c) && c != '.'
    ensures c !in Addr(n)
  {
    var b := Quad(n);
    forall k | 0 <= k < 4 ensures c !in Fields(b)[k] {
      assert forall i :: 0 <= i < |Itoa(b[k])| ==> IsDigit(Itoa(b[k])[i]);
    }
    JoinAvoids(Fields(b), '.', c);
  }

  /** The text is the range from `a` to `b`. */
  ghost predicate IsRangeText(s: string, a: nat, b: nat)
  {
    a < 0x1_0000_0000 && b < 0x1_0000_0000 && s == Addr(a) + "-" + Addr(b)
  }

  lemma RangeSplits(s: string, a: nat, b: nat)
    requires IsRangeText(s, a, b)
    ensures SplitOn(s, '-') == [Addr(a), Addr(b)] && '-' in s && IsRange(s) && Low(s) == a && High(s) == b
  {
    AddrAvoids(a, '-');
    AddrAvoids(b, '-');
    assert JoinOn([Addr(a), Addr(b)], '-') == s;
    SplitJoin([Addr(a), Addr(b)], '-');
    assert s[|Addr(a)|] == '-';
    AddrToInt(a);
    AddrToInt(b);
  }

  lemma RangeIsText(s: string)
    requires IsRange(s)
    ensures IsRangeText(s, Low(s), High(s))
  {
    var f := SplitOn(s, '-');
    JoinSplit(s, '-');
    ParsedIsAddr(f[0]);
    ParsedIsAddr(f[1]);
    assert f[1..] == [f[1]];
  }

  /** The text lists the addresses from `a` to `b`, separated by commas. */
  ghost predicate ListsRange(text: string, a: nat, b: nat)
    requires a <= b < 0x1_0000_0000
  {
    var f := SplitOn(text, ',');
    |f| == b + 1 - a && forall i :: 0 <= i < |f| ==> f[i] == Addr(a + i)
  }

  lemma RangeAvoids(r: seq<string>, a: nat)
    requires Listed(r, a)
    ensures Avoids(r, ',')
  {
    forall i | 0 <= i < |r| ensures ',' !in r[i] {
      AddrAvoids(a + i, ',');
    }
  }

  lemma ListedSplits(r: seq<string>, a: nat, b: nat)
    requires a <= b < 0x1_0000_0000 && Listed(r, a) && |r| == b + 1 - a
    ensures ListsRange(JoinOn(r, ','), a, b)
  {
    RangeAvoids(r, a);
    SplitJoin(r, ',');
  }

  lemma RangeListed(a: nat, b: nat)
    requires a <= b < 0x1_0000_0000
    ensures Listed(Range(a, b), a) && |Range(a, b)| == b + 1 - a
  {
  }

  lemma ExpandedLists(s: string, a: nat, b: nat)
    requires IsRangeText(s, a, b) && a <= b
    ensures Expanded(s).Ok? && ListsRange(Expanded(s).text, a, b)
  {
    RangeSplits(s, a, b);
    RangeListed(a, b);
    ListedSplits(Range(a, b), a, b);
    ExpandedIs(s, a, b, JoinOn(Range(a, b), ','));
  }

  lemma ExpandedIs(s: string, a: nat, b: nat, text: string)
    requires '-' in s && IsRange(s) && Low(s) == a && High(s) == b && a <= b < 0x1_0000_0000
    requires text == JoinOn(Range(a, b), ',')
    ensures Expanded(s) == Ok(text)
  {
  }

  /** For every range of two addresses: an error when it is empty; its addresses in order, separated by commas, when the
      loop ends and has had enough steps; and otherwise the loop is still running. */
  lemma TransferOfRange(s: string, a: nat, b: nat, steps: nat)
    requires IsRangeText(s, a, b)
    ensures a > b ==> Transferred(s, steps) == Some(Err)
    ensures a <= b && 0xFF_FFFF <= a && b < 0xFFFF_FFFF && steps >= b + 1 - a ==>
              Transferred(s, steps).Some? && Transferred(s, steps).value.Ok?
              && ListsRange(Transferred(s, steps).value.text, a, b)
    ensures a <= b && (a < 0xFF_FFFF || b == 0xFFFF_FFFF || steps < b + 1 - a) ==> Transferred(s, steps) == None
  {
    RangeSplits(s, a, b);
    if a <= b {
      ExpandedLists(s, a, b);
    }
    TransferredIs(s, a, b, steps, Expanded(s));
  }

  lemma TransferredIs(s: string, a: nat, b: nat, steps: nat, r: Result)
    requires '-' in s && IsRange(s) && Low(s) == a && High(s) == b && r == Expanded(s)
    ensures Transferred(s, steps) == if Ends(a, b) && steps >= Needed(a, b) then Some(r) else None
    ensures a > b ==> r == Err
  {
  }

  /** Every other text: it is given back when it has no dash, and refused when it has one. */
  lemma TransferOfOther(s: string, steps: nat)
    requires (forall a: nat, b: nat :: !IsRangeText(s, a, b)) && (TwoSides(s) ==> ':' !in s)
    ensures Transferred(s, steps) == Some(if '-' in s then Err else Ok(s))
  {
    if IsRange(s) {
      RangeIsText(s);
    }
  }
}
