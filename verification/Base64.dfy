/** Standard base64 with padding (section 4 of RFC 4648), as `base64.StdEncoding` writes and reads it. */
module Base64 {
  import opened Options
  import opened Bytes

  function Letter(v: nat): char
    requires v < 64
  {
    if v < 26 then ('A' as int + v) as char
    else if v < 52 then ('a' as int + v - 26) as char
    else if v < 62 then ('0' as int + v - 52) as char
    else if v == 62 then '+'
    else '/'
  }

  /** The value of a letter; 64 for a character outside the alphabet. */
  function Digit(c: char): (v: nat)
    ensures v <= 64
  {
    if 'A' <= c <= 'Z' then c as int - 'A' as int
    else if 'a' <= c <= 'z' then c as int - 'a' as int + 26
    else if '0' <= c <= '9' then c as int - '0' as int + 52
    else if c == '+' then 62
    else if c == '/' then 63
    else 64
  }

  predicate IsLetter(c: char) { Digit(c) < 64 }

  predicate IsNewline(c: char) { c == '\n' || c == '\r' }

  lemma DigitLetter(v: nat)
    requires v < 64
    ensures Digit(Letter(v)) == v && Letter(v) != '=' && !IsNewline(Letter(v))
  {
  }

  /** Three bytes as four letters; missing bytes count as zero. */
  function Quantum(a: byte, b: byte, c: byte): string
  {
    [Letter(a / 4), Letter(a % 4 * 16 + b / 16), Letter(b % 16 * 4 + c / 64), Letter(c % 64)]
  }

  function EncodeText(b: seq<byte>): string
  {
    if |b| == 0 then ""
    else if |b| == 1 then Quantum(b[0], 0, 0)[..2] + "=="
    else if |b| == 2 then Quantum(b[0], b[1], 0)[..3] + "="
    else Quantum(b[0], b[1], b[2]) + EncodeText(b[3..])
  }

  function First(v0: nat, v1: nat): byte
    requires v0 < 64 && v1 < 64
  {
    v0 * 4 + v1 / 16
  }

  function Second(v1: nat, v2: nat): byte
    requires v1 < 64 && v2 < 64
  {
    v1 % 16 * 16 + v2 / 4
  }

  function Third(v2: nat, v3: nat): byte
    requires v2 < 64 && v3 < 64
  {
    v2 % 4 * 64 + v3
  }

  /** Decoding of text without newlines; `None` is a corrupt input. */
  function DecodeQuanta(s: string): Option<seq<byte>>
  {
    if s == "" then Some([])
    else if |s| < 4 || !IsLetter(s[0]) || !IsLetter(s[1]) then None
    else if |s| == 4 && s[2] == '=' && s[3] == '=' then Some([First(Digit(s[0]), Digit(s[1]))])
    else if !IsLetter(s[2]) then None
    else if |s| == 4 && s[3] == '=' then Some([First(Digit(s[0]), Digit(s[1])), Second(Digit(s[1]), Digit(s[2]))])
    else if !IsLetter(s[3]) then None
    else
      match DecodeQuanta(s[4..])
      case None => None
      case Some(rest) =>
        Some([First(Digit(s[0]), Digit(s[1])), Second(Digit(s[1]), Digit(s[2])), Third(Digit(s[2]), Digit(s[3]))]
          + rest)
  }

  /** Newlines are ignored wherever they stand. */
  function WithoutNewlines(s: string): string
  {
    if s == "" then "" else (if IsNewline(s[0]) then "" else [s[0]]) + WithoutNewlines(s[1..])
  }

  /** `StdEncoding.DecodeString` */
  function DecodeText(s: string): Option<seq<byte>>
  {
    DecodeQuanta(WithoutNewlines(s))
  }

  ghost predicate Printable(s: string)
  {
    forall i :: 0 <= i < |s| ==> !IsNewline(s[i])
  }

  lemma {:induction false} NothingToStrip(s: string)
    requires Printable(s)
    ensures WithoutNewlines(s) == s
  {
    if s != "" {
      NothingToStrip(s[1..]);
    }
  }

  lemma QuantumDigits(a: byte, b: byte, c: byte)
    ensures Digit(Quantum(a, b, c)[0]) == a / 4 && Digit(Quantum(a, b, c)[1]) == a % 4 * 16 + b / 16
    ensures Digit(Quantum(a, b, c)[2]) == b % 16 * 4 + c / 64 && Digit(Quantum(a, b, c)[3]) == c % 64
    ensures Printable(Quantum(a, b, c)) && forall i :: 0 <= i < 4 ==> Quantum(a, b, c)[i] != '='
  {
    DigitLetter(a / 4);
    DigitLetter(a % 4 * 16 + b / 16);
    DigitLetter(b % 16 * 4 + c / 64);
    DigitLetter(c % 64);
  }

  lemma QuantumBytes(a: byte, b: byte, c: byte)
    ensures First(a / 4, a % 4 * 16 + b / 16) == a
    ensures Second(a % 4 * 16 + b / 16, b % 16 * 4 + c / 64) == b
    ensures Third(b % 16 * 4 + c / 64, c % 64) == c
  {
    assert (a % 4 * 16 + b / 16) / 16 == a % 4;
    assert (a % 4 * 16 + b / 16) % 16 == b / 16;
    assert (b % 16 * 4 + c / 64) / 4 == b % 16;
    assert (b % 16 * 4 + c / 64) % 4 == c / 64;
  }

  lemma DecodePadOne(s: string, v0: nat, v1: nat)
    requires |s| == 4 && s[2] == '=' && s[3] == '=' && Digit(s[0]) == v0 < 64 && Digit(s[1]) == v1 < 64
    ensures DecodeQuanta(s) == Some([First(v0, v1)])
  {
  }

  lemma DecodePadTwo(s: string, v0: nat, v1: nat, v2: nat)
    requires |s| == 4 && s[2] != '=' && s[3] == '=' && Digit(s[0]) == v0 < 64 && Digit(s[1]) == v1 < 64
             && Digit(s[2]) == v2 < 64
    ensures DecodeQuanta(s) == Some([First(v0, v1), Second(v1, v2)])
  {
  }

  lemma DecodeLetters(v0: nat, v1: nat, v2: nat, v3: nat, q: string, rest: seq<byte>)
    requires |q| >= 4 && DecodeQuanta(q[4..]) == Some(rest) && v0 < 64 && v1 < 64 && v2 < 64 && v3 < 64
    requires Digit(q[0]) == v0 && Digit(q[1]) == v1 && Digit(q[2]) == v2 && Digit(q[3]) == v3
    ensures DecodeQuanta(q) == Some([First(v0, v1), Second(v1, v2), Third(v2, v3)] + rest)
  {
  }

  /** The two letters that one last byte gives. */
  lemma OneByte(a: byte)
    ensures var q := Quantum(a, 0, 0);
            && Digit(q[0]) == a / 4 && Digit(q[1]) == a % 4 * 16 && First(a / 4, a % 4 * 16) == a
            && !IsNewline(q[0]) && !IsNewline(q[1])
  {
    DigitLetter(a / 4);
    DigitLetter(a % 4 * 16);
  }

  lemma DecodeOne(a: byte, s: string)
    requires s == Quantum(a, 0, 0)[..2] + "=="
    ensures DecodeQuanta(s) == Some([a]) && Printable(s)
  {
    var q := Quantum(a, 0, 0);
    assert |s| == 4 && s[0] == q[0] && s[1] == q[1] && s[2] == '=' && s[3] == '=';
    OneByte(a);
    DecodePadOne(s, a / 4, a % 4 * 16);
  }

  /** The three letters that two last bytes give. */
  lemma TwoBytes(a: byte, b: byte)
    ensures var q, v1 := Quantum(a, b, 0), a % 4 * 16 + b / 16;
            && Digit(q[0]) == a / 4 && Digit(q[1]) == v1 && Digit(q[2]) == b % 16 * 4 && q[2] != '='
            && First(a / 4, v1) == a && Second(v1, b % 16 * 4) == b
            && !IsNewline(q[0]) && !IsNewline(q[1]) && !IsNewline(q[2])
  {
    DigitLetter(a / 4);
    DigitLetter(a % 4 * 16 + b / 16);
    DigitLetter(b % 16 * 4);
    QuantumBytes(a, b, 0);
  }

  lemma DecodeTwo(a: byte, b: byte, s: string)
    requires s == Quantum(a, b, 0)[..3] + "="
    ensures DecodeQuanta(s) == Some([a, b]) && Printable(s)
  {
    var q := Quantum(a, b, 0);
    assert |s| == 4 && s[0] == q[0] && s[1] == q[1] && s[2] == q[2] && s[3] == '=';
    TwoBytes(a, b);
    DecodePadTwo(s, a / 4, a % 4 * 16 + b / 16, b % 16 * 4);
  }

  lemma DecodeThree(a: byte, b: byte, c: byte, q: string, rest: seq<byte>)
    requires |q| >= 4 && q[..4] == Quantum(a, b, c) && DecodeQuanta(q[4..]) == Some(rest)
    ensures DecodeQuanta(q) == Some([a, b, c] + rest)
  {
    QuantumDigits(a, b, c);
    QuantumBytes(a, b, c);
    assert q[0] == q[..4][0] && q[1] == q[..4][1] && q[2] == q[..4][2] && q[3] == q[..4][3];
    DecodeLetters(a / 4, a % 4 * 16 + b / 16, b % 16 * 4 + c / 64, c % 64, q, rest);
  }

  lemma EncodesLong(b: seq<byte>)
    requires |b| > 2
    ensures |EncodeText(b)| >= 4 && EncodeText(b)[..4] == Quantum(b[0], b[1], b[2])
            && EncodeText(b)[4..] == EncodeText(b[3..]) && |EncodeText(b)| == 4 + |EncodeText(b[3..])|
  {
  }

  lemma Rejoin(b: seq<byte>)
    requires |b| > 2
    ensures b == [b[0], b[1], b[2]] + b[3..]
  {
  }

  lemma EncodesShort(b: seq<byte>)
    requires 1 <= |b| <= 2
    ensures |b| == 1 ==> b == [b[0]] && EncodeText(b) == Quantum(b[0], 0, 0)[..2] + "=="
    ensures |b| == 2 ==> b == [b[0], b[1]] && EncodeText(b) == Quantum(b[0], b[1], 0)[..3] + "="
  {
  }

  lemma {:induction false} DecodeEncoded(b: seq<byte>)
    ensures DecodeQuanta(EncodeText(b)) == Some(b)
  {
    if |b| == 1 {
      EncodesShort(b);
      DecodeOne(b[0], EncodeText(b));
    } else if |b| == 2 {
      EncodesShort(b);
      DecodeTwo(b[0], b[1], EncodeText(b));
    } else if |b| > 2 {
      DecodeEncoded(b[3..]);
      EncodesLong(b);
      DecodeThree(b[0], b[1], b[2], EncodeText(b), b[3..]);
      Rejoin(b);
    }
  }

  lemma {:induction false} EncodedIsPrintable(b: seq<byte>)
    ensures Printable(EncodeText(b))
  {
    if |b| == 1 {
      EncodesShort(b);
      DecodeOne(b[0], EncodeText(b));
    } else if |b| == 2 {
      EncodesShort(b);
      DecodeTwo(b[0], b[1], EncodeText(b));
    } else if |b| > 2 {
      EncodedIsPrintable(b[3..]);
      QuantumDigits(b[0], b[1], b[2]);
    }
  }

  /** Decoding the encoding of any bytes gives them back. */
  lemma TextRoundTrip(b: seq<byte>)
    ensures DecodeText(EncodeText(b)) == Some(b)
  {
    DecodeEncoded(b);
    EncodedIsPrintable(b);
    NothingToStrip(EncodeText(b));
  }

  // ---------------------------------------------------------------- the alphabet and the bits

  /** Table 1 of RFC 4648: the upper-case letters, the lower-case letters and the digits in their order, then two
      signs. */
  lemma AlphabetIs(v: nat)
    requires v < 63
    ensures Letter(0) == 'A' && Letter(25) == 'Z' && Letter(26) == 'a' && Letter(51) == 'z'
    ensures Letter(52) == '0' && Letter(61) == '9' && Letter(62) == '+' && Letter(63) == '/'
    ensures v < 61 && v != 25 && v != 51 ==> Letter(v + 1) as int == Letter(v) as int + 1
  {
  }

  /** Exactly the letters of the table are read, each as its place in it. */
  lemma LettersAre(c: char)
    ensures IsLetter(c) <==> exists v: nat :: v < 64 && Letter(v) == c
    ensures IsLetter(c) ==> Letter(Digit(c)) == c
  {
    if v: nat :| v < 64 && Letter(v) == c {
      DigitLetter(v);
    }
    if IsLetter(c) {
      assert Letter(Digit(c)) == c;
    }
  }

  /** The 24 bits of four letters. */
  function Bits(s: string, i: nat): nat
    requires i + 4 <= |s|
  {
    Digit(s[i]) * 0x4_0000 + Digit(s[i + 1]) * 0x1000 + Digit(s[i + 2]) * 64 + Digit(s[i + 3])
  }

  function BitsOf(a: int, b: int, c: int): int
  {
    a * 0x1_0000 + b * 256 + c
  }

  lemma QuantumBits(a: byte, b: byte, c: byte)
    ensures Bits(Quantum(a, b, c), 0) == BitsOf(a, b, c)
  {
    QuantumDigits(a, b, c);
  }

  lemma OneGroupMore(n: nat)
    ensures (n + 3 + 2) / 3 == (n + 2) / 3 + 1
  {
  }

  lemma {:induction false} EncodedLength(b: seq<byte>)
    ensures |EncodeText(b)| == 4 * ((|b| + 2) / 3)
  {
    if |b| > 2 {
      EncodedLength(b[3..]);
      EncodesLong(b);
      OneGroupMore(|b| - 3);
    } else if b != [] {
      EncodesShort(b);
    }
  }

  lemma DropTwice<T>(s: seq<T>, i: nat, j: nat)
    requires i + j <= |s|
    ensures s[i..][j..] == s[i + j..]
  {
  }

  /** The last one or two bytes are encoded like a text of their own. */
  lemma {:induction false} EncodedTail(b: seq<byte>, n: nat)
    requires 3 * n <= |b|
    ensures 4 * n <= |EncodeText(b)| && EncodeText(b)[4 * n..] == EncodeText(b[3 * n..])
    decreases n
  {
    if n > 0 {
      EncodesLong(b);
      EncodedTail(b[3..], n - 1);
      DropTwice(b, 3, 3 * (n - 1));
      DropTwice(EncodeText(b), 4, 4 * (n - 1));
    } else {
      assert b[0..] == b;
    }
  }

  /** Four letters carry the 24 bits of three bytes. */
  lemma EncodedGroup(b: seq<byte>, j: nat)
    requires 3 * j + 3 <= |b|
    ensures 4 * j + 4 <= |EncodeText(b)|
    ensures Bits(EncodeText(b), 4 * j) == BitsOf(b[3 * j], b[3 * j + 1], b[3 * j + 2])
    ensures forall k :: 4 * j <= k < 4 * j + 4 ==> IsLetter(EncodeText(b)[k])
  {
    EncodedTail(b, j);
    var s, q := EncodeText(b), Quantum(b[3 * j], b[3 * j + 1], b[3 * j + 2]);
    EncodesLong(b[3 * j..]);
    assert s[4 * j..][..4] == q;
    assert s[4 * j] == q[0] && s[4 * j + 1] == q[1] && s[4 * j + 2] == q[2] && s[4 * j + 3] == q[3];
    QuantumBits(b[3 * j], b[3 * j + 1], b[3 * j + 2]);
    QuantumDigits(b[3 * j], b[3 * j + 1], b[3 * j + 2]);
  }

  /** What the last letters say when one or two bytes are left: their bits followed by zeros, and then the padding. */
  lemma EncodedEnd(b: seq<byte>)
    requires 1 <= |b| <= 2
    ensures var s := EncodeText(b);
            && |s| == 4 && s[3] == '=' && IsLetter(s[0]) && IsLetter(s[1])
            && (|b| == 1 ==> s[2] == '=' && Digit(s[0]) * 0x1000 + Digit(s[1]) * 64 == BitsOf(0, b[0], 0) * 4)
            && (|b| == 2 ==>
                  IsLetter(s[2])
                  && Digit(s[0]) * 0x1000 + Digit(s[1]) * 64 + Digit(s[2]) == BitsOf(0, b[0], b[1]) * 4)
  {
    if |b| == 1 {
      QuantumDigits(b[0], 0, 0);
    } else {
      QuantumDigits(b[0], b[1], 0);
    }
  }

  // ---------------------------------------------------------------- which texts are read

  /** Whole groups of letters, the last of which may end in one or two signs of padding. */
  ghost predicate WellPadded(s: string)
  {
    && |s| % 4 == 0
    && (forall i :: 0 <= i < |s| - 2 ==> IsLetter(s[i]))
    && (s != "" ==>
          var y, z := s[|s| - 2], s[|s| - 1]; (IsLetter(y) && (IsLetter(z) || z == '=')) || (y == '=' && z == '='))
  }

  /** How many signs of padding a text ends in. */
  function Signs(s: string): nat
  {
    if |s| >= 2 && s[|s| - 2] == '=' then 2 else if s != "" && s[|s| - 1] == '=' then 1 else 0
  }

  lemma LastGroup(s: string)
    requires |s| == 4
    ensures DecodeQuanta(s).Some? <==> WellPadded(s)
    ensures DecodeQuanta(s).Some? ==> |DecodeQuanta(s).value| == 3 - Signs(s)
  {
    assert DecodeQuanta("") == Some([]) && s[4..] == "";
  }

  lemma MoreGroups(s: string)
    requires |s| > 4
    ensures WellPadded(s) <==>
              IsLetter(s[0]) && IsLetter(s[1]) && IsLetter(s[2]) && IsLetter(s[3]) && WellPadded(s[4..])
    ensures |s| >= 6 ==> Signs(s) == Signs(s[4..])
  {
    var rest := s[4..];
    assert forall i :: 0 <= i < |rest| ==> rest[i] == s[i + 4];
    if WellPadded(rest) && IsLetter(s[0]) && IsLetter(s[1]) && IsLetter(s[2]) && IsLetter(s[3]) {
      forall i | 0 <= i < |s| - 2 ensures IsLetter(s[i]) {
        assert i >= 4 ==> s[i] == rest[i - 4];
      }
    }
  }

  /** A text without newlines is read exactly when it is well padded; it then has three bytes for each group, less one
      for each sign of padding. */
  lemma {:induction false} QuantaExactly(s: string)
    ensures DecodeQuanta(s).Some? <==> WellPadded(s)
    ensures DecodeQuanta(s).Some? ==> |DecodeQuanta(s).value| == 3 * (|s| / 4) - Signs(s)
  {
    if |s| == 4 {
      LastGroup(s);
    } else if |s| > 4 {
      QuantaExactly(s[4..]);
      MoreGroups(s);
    }
  }

  lemma {:induction false} StripAppend(a: string, b: string)
    ensures WithoutNewlines(a + b) == WithoutNewlines(a) + WithoutNewlines(b)
  {
    if a == "" {
      assert a + b == b;
    } else {
      assert (a + b)[0] == a[0] && (a + b)[1..] == a[1..] + b;
      StripAppend(a[1..], b);
    }
  }

  /** Newlines may stand anywhere. */
  lemma NewlinesAreIgnored(a: string, newline: char, b: string)
    requires newline == '\n' || newline == '\r'
    ensures DecodeText(a + [newline] + b) == DecodeText(a + b)
  {
    StripAppend(a + [newline], b);
    StripAppend(a, [newline]);
    StripAppend(a, b);
    assert WithoutNewlines([newline]) == "";
    assert WithoutNewlines(a + [newline] + b) == WithoutNewlines(a + b);
  }
}
