/**
 `utils/hash/aes.go`: PKCS#7 padding (section 6.3 of RFC 5652), cipher block chaining (section 6.2 of NIST
 SP 800-38A) and base64.  The block cipher is any pair of functions of which one inverts the other.
 */
module Cipher {
  import opened Options
  import opened Bytes
  import opened Base64

  type BlockFunction = seq<byte> -> seq<byte>

  const BLOCK_SIZE := 16

  predicate IsBlock(b: seq<byte>) { |b| == BLOCK_SIZE }

  ghost predicate Inverse(enc: BlockFunction, dec: BlockFunction)
  {
    KeepsBlocks(enc) && KeepsBlocks(dec) && forall b {:trigger enc(b)} :: IsBlock(b) ==> dec(enc(b)) == b
  }

  /** A block function keeps the length of a block. */
  ghost predicate KeepsBlocks(f: BlockFunction)
  {
    forall b {:trigger f(b)} :: IsBlock(b) ==> IsBlock(f(b))
  }

  // ---------------------------------------------------------------- exclusive or

  /** The exclusive or of the low `k` bits of two numbers. */
  function XorBits(a: nat, b: nat, k: nat): nat
  {
    if k == 0 then 0 else 2 * XorBits(a / 2, b / 2, k - 1) + (a + b) % 2
  }

  function Bound(k: nat): nat
  {
    if k == 0 then 1 else 2 * Bound(k - 1)
  }

  lemma {:induction false} XorBound(a: nat, b: nat, k: nat)
    ensures XorBits(a, b, k) < Bound(k)
  {
    if k > 0 {
      XorBound(a / 2, b / 2, k - 1);
    }
  }

  lemma SameParity(a: nat, b: nat, h: nat)
    ensures (2 * h + (a + b) % 2) / 2 == h && (2 * h + (a + b) % 2 + b) % 2 == a % 2
  {
  }

  lemma {:induction false} XorTwice(a: nat, b: nat, k: nat)
    requires a < Bound(k)
    ensures XorBits(XorBits(a, b, k), b, k) == a
  {
    if k > 0 {
      var h := XorBits(a / 2, b / 2, k - 1);
      XorTwice(a / 2, b / 2, k - 1);
      SameParity(a, b, h);
      assert XorBits(a, b, k) == 2 * h + (a + b) % 2;
    }
  }

  function XorByte(a: byte, b: byte): byte
  {
    XorBound(a, b, 8);
    assert Bound(8) == 256;
    XorBits(a, b, 8)
  }

  /** The bit of a number at place `i`. */
  function Bit(x: nat, i: nat): nat
  {
    if i == 0 then x % 2 else Bit(x / 2, i - 1)
  }

  lemma BitOfSum(h: nat, p: nat, i: nat)
    requires p < 2
    ensures Bit(2 * h + p, i) == if i == 0 then p else Bit(h, i - 1)
  {
    assert (2 * h + p) / 2 == h && (2 * h + p) % 2 == p;
  }

  lemma ParityOfSum(a: nat, b: nat)
    ensures (a + b) % 2 == if a % 2 == b % 2 then 0 else 1
  {
  }

  lemma {:induction false} XorBitsAt(a: nat, b: nat, k: nat, i: nat)
    requires i < k
    ensures Bit(XorBits(a, b, k), i) == if Bit(a, i) == Bit(b, i) then 0 else 1
  {
    BitOfSum(XorBits(a / 2, b / 2, k - 1), (a + b) % 2, i);
    if i > 0 {
      XorBitsAt(a / 2, b / 2, k - 1, i - 1);
    } else {
      ParityOfSum(a, b);
    }
  }

  /** Each bit of the result is set exactly when the two bits differ. */
  lemma XorByteBits(a: byte, b: byte, i: nat)
    requires i < 8
    ensures Bit(XorByte(a, b), i) == if Bit(a, i) == Bit(b, i) then 0 else 1
  {
    XorBitsAt(a, b, 8, i);
  }

  function Xor(a: seq<byte>, b: seq<byte>): (r: seq<byte>)
    requires |a| == |b|
    ensures |r| == |a|
  {
    seq(|a|, i requires 0 <= i < |a| => XorByte(a[i], b[i]))
  }

  lemma XorUndoes(a: seq<byte>, b: seq<byte>)
    requires |a| == |b|
    ensures Xor(Xor(a, b), b) == a
  {
    assert Bound(8) == 256;
    forall i | 0 <= i < |a| ensures XorByte(XorByte(a[i], b[i]), b[i]) == a[i] {
      XorTwice(a[i], b[i], 8);
    }
  }

  // ---------------------------------------------------------------- cipher block chaining

  predicate Whole(b: seq<byte>) { |b| % BLOCK_SIZE == 0 }

  ghost function Encrypted(enc: BlockFunction, iv: seq<byte>, p: seq<byte>): seq<byte>
    requires IsBlock(iv) && KeepsBlocks(enc)
    decreases |p|
  {
    if |p| < BLOCK_SIZE then []
    else
      var c := enc(Xor(p[..BLOCK_SIZE], iv));
      c + Encrypted(enc, c, p[BLOCK_SIZE..])
  }

  ghost function Decrypted(dec: BlockFunction, iv: seq<byte>, c: seq<byte>): seq<byte>
    requires IsBlock(iv) && KeepsBlocks(dec)
    decreases |c|
  {
    if |c| < BLOCK_SIZE then []
    else Xor(dec(c[..BLOCK_SIZE]), iv) + Decrypted(dec, c[..BLOCK_SIZE], c[BLOCK_SIZE..])
  }

  /** Decryption undoes encryption, block by block. */
  lemma {:induction false} ChainRoundTrip(enc: BlockFunction, dec: BlockFunction, iv: seq<byte>, p: seq<byte>)
    requires Inverse(enc, dec) && IsBlock(iv) && Whole(p)
    ensures Decrypted(dec, iv, Encrypted(enc, iv, p)) == p && |Encrypted(enc, iv, p)| == |p|
    decreases |p|
  {
    if |p| >= BLOCK_SIZE {
      var first, rest := p[..BLOCK_SIZE], p[BLOCK_SIZE..];
      var c := enc(Xor(first, iv));
      ChainRoundTrip(enc, dec, c, rest);
      var all := Encrypted(enc, iv, p);
      assert all[..BLOCK_SIZE] == c && all[BLOCK_SIZE..] == Encrypted(enc, c, rest);
      XorUndoes(first, iv);
      assert p == first + rest;
    }
  }

  function Block(s: seq<byte>, j: nat): seq<byte>
    requires BLOCK_SIZE * (j + 1) <= |s|
  {
    s[BLOCK_SIZE * j..BLOCK_SIZE * (j + 1)]
  }

  lemma BlockLater(head: seq<byte>, rest: seq<byte>, j: nat)
    requires IsBlock(head) && BLOCK_SIZE * (j + 1) <= |rest|
    ensures Block(head + rest, j + 1) == Block(rest, j)
  {
  }

  lemma {:induction false} EncryptedLength(enc: BlockFunction, iv: seq<byte>, p: seq<byte>)
    requires IsBlock(iv) && KeepsBlocks(enc) && Whole(p)
    ensures |Encrypted(enc, iv, p)| == |p|
    decreases |p|
  {
    if |p| >= BLOCK_SIZE {
      EncryptedLength(enc, enc(Xor(p[..BLOCK_SIZE], iv)), p[BLOCK_SIZE..]);
    }
  }

  /** The chaining rule: a block is encrypted after the exclusive or with the encrypted block before it, the first one
      with the initial vector. */
  lemma {:induction false} EncryptedBlock(enc: BlockFunction, iv: seq<byte>, p: seq<byte>, j: nat)
    requires IsBlock(iv) && KeepsBlocks(enc) && Whole(p) && BLOCK_SIZE * (j + 1) <= |p|
    ensures |Encrypted(enc, iv, p)| == |p|
    ensures var c := Encrypted(enc, iv, p);
            Block(c, j) == enc(Xor(Block(p, j), if j == 0 then iv else Block(c, j - 1)))
    decreases |p|
  {
    EncryptedLength(enc, iv, p);
    var c, rest := enc(Xor(p[..BLOCK_SIZE], iv)), p[BLOCK_SIZE..];
    var tail := Encrypted(enc, c, rest);
    assert Encrypted(enc, iv, p) == c + tail && p == p[..BLOCK_SIZE] + rest;
    if j > 0 {
      EncryptedBlock(enc, c, rest, j - 1);
      BlockLater(c, tail, j - 1);
      BlockLater(p[..BLOCK_SIZE], rest, j - 1);
      if j > 1 {
        BlockLater(c, tail, j - 2);
      }
    }
  }

  /** ... and back: the decrypted block with the encrypted block before it. */
  lemma {:induction false} DecryptedBlock(dec: BlockFunction, iv: seq<byte>, c: seq<byte>, j: nat)
    requires IsBlock(iv) && KeepsBlocks(dec) && Whole(c) && BLOCK_SIZE * (j + 1) <= |c|
    ensures |Decrypted(dec, iv, c)| == |c|
    ensures Block(Decrypted(dec, iv, c), j) == Xor(dec(Block(c, j)), if j == 0 then iv else Block(c, j - 1))
    decreases |c|
  {
    DecryptedLength(dec, iv, c);
    var first, rest := c[..BLOCK_SIZE], c[BLOCK_SIZE..];
    var head, tail := Xor(dec(first), iv), Decrypted(dec, first, rest);
    assert Decrypted(dec, iv, c) == head + tail && c == first + rest;
    if j > 0 {
      DecryptedBlock(dec, first, rest, j - 1);
      BlockLater(head, tail, j - 1);
      BlockLater(first, rest, j - 1);
      if j > 1 {
        BlockLater(first, rest, j - 2);
      }
    }
  }

  /** `CryptBlocks` of the CBC encrypter. */
  method EncryptBlocks(enc: BlockFunction, iv: seq<byte>, src: seq<byte>) returns (dst: seq<byte>)
    requires IsBlock(iv) && Whole(src) && KeepsBlocks(enc)
    ensures dst == Encrypted(enc, iv, src)
  {
    dst := [];
    var rest, prev := src, iv;
    while |rest| > 0
      invariant IsBlock(prev) && Whole(rest)
      invariant Encrypted(enc, iv, src) == dst + Encrypted(enc, prev, rest)
    {
      prev := enc(Xor(rest[..BLOCK_SIZE], prev));
      dst := dst + prev;
      rest := rest[BLOCK_SIZE..];
    }
  }

  /** `CryptBlocks` of the CBC decrypter. */
  method DecryptBlocks(dec: BlockFunction, iv: seq<byte>, src: seq<byte>) returns (dst: seq<byte>)
    requires IsBlock(iv) && Whole(src) && KeepsBlocks(dec)
    ensures dst == Decrypted(dec, iv, src)
  {
    dst := [];
    var rest, prev := src, iv;
    while |rest| > 0
      invariant IsBlock(prev) && Whole(rest)
      invariant Decrypted(dec, iv, src) == dst + Decrypted(dec, prev, rest)
    {
      dst := dst + Xor(dec(rest[..BLOCK_SIZE]), prev);
      prev := rest[..BLOCK_SIZE];
      rest := rest[BLOCK_SIZE..];
    }
  }

  // ---------------------------------------------------------------- padding

  /** `pkcs7Padding` */
  function Pad(x: seq<byte>): seq<byte>
  {
    var padding := BLOCK_SIZE - |x| % BLOCK_SIZE;
    x + seq(padding, _ => padding)
  }

  /** `pkcs7UnPadding`; `None` when the slice bounds are out of range. */
  function Unpad(p: seq<byte>): Option<seq<byte>>
    requires |p| > 0
  {
    if p[|p| - 1] > |p| then None else Some(p[..|p| - p[|p| - 1]])
  }

  lemma PadRoundTrip(x: seq<byte>)
    ensures |Pad(x)| > 0 && Whole(Pad(x)) && |x| < |Pad(x)| <= |x| + BLOCK_SIZE
    ensures Unpad(Pad(x)) == Some(x)
  {
    var padding := BLOCK_SIZE - |x| % BLOCK_SIZE;
    assert Pad(x)[|Pad(x)| - 1] == padding;
    assert Pad(x)[..|x|] == x;
    assert |Pad(x)| == BLOCK_SIZE * (|x| / BLOCK_SIZE + 1);
  }

  /** The text is followed by 1 to 16 bytes that each hold their number, up to whole blocks. */
  lemma PadExactly(x: seq<byte>)
    ensures x <= Pad(x) && Whole(Pad(x)) && 1 <= |Pad(x)| - |x| <= 16
    ensures forall k :: |x| <= k < |Pad(x)| ==> Pad(x)[k] == |Pad(x)| - |x|
  {
    PadRoundTrip(x);
  }

  // ---------------------------------------------------------------- text to text

  datatype Outcome = Ok(plain: seq<byte>) | Err | Panic

  ghost function Sealed(enc: BlockFunction, iv: seq<byte>, x: seq<byte>): string
    requires IsBlock(iv) && KeepsBlocks(enc)
  {
    EncodeText(Encrypted(enc, iv, Pad(x)))
  }

  ghost function Opened(dec: BlockFunction, iv: seq<byte>, text: string): Outcome
    requires IsBlock(iv) && KeepsBlocks(dec)
  {
    match DecodeText(text)
    case None => Err
    case Some(c) =>
      if |c| < BLOCK_SIZE then Err
      else if !Whole(c) then Panic
      else
        var p := Decrypted(dec, iv, c);
        if p == [] || Unpad(p).None? then Panic else Ok(Unpad(p).value)
  }

  /** `AesEncrypt` */
  method AesEncrypt(enc: BlockFunction, iv: seq<byte>, x: seq<byte>) returns (text: string)
    requires IsBlock(iv) && KeepsBlocks(enc)
    ensures text == Sealed(enc, iv, x)
  {
    PadRoundTrip(x);
    var c := EncryptBlocks(enc, iv, Pad(x));
    text := EncodeText(c);
  }

  /** `AesDecrypt` */
  method AesDecrypt(dec: BlockFunction, iv: seq<byte>, text: string) returns (r: Outcome)
    requires IsBlock(iv) && KeepsBlocks(dec)
    ensures r == Opened(dec, iv, text)
  {
    var decoded := DecodeText(text);
    if decoded.None? || |decoded.value| < BLOCK_SIZE {
      return Err;
    }
    var c := decoded.value;
    if !Whole(c) {
      return Panic;
    }
    var p := DecryptBlocks(dec, iv, c);
    var plain := Unpad(p);
    r := if plain.None? then Panic else Ok(plain.value);
  }

  /** For every byte string and every block permutation, decrypting what was encrypted gives the string back. */
  lemma DecryptEncrypted(enc: BlockFunction, dec: BlockFunction, iv: seq<byte>, x: seq<byte>)
    requires Inverse(enc, dec) && IsBlock(iv)
    ensures Opened(dec, iv, Sealed(enc, iv, x)) == Ok(x)
  {
    PadRoundTrip(x);
    ChainRoundTrip(enc, dec, iv, Pad(x));
    TextRoundTrip(Encrypted(enc, iv, Pad(x)));
  }

  /** A well-formed text of the wrong length is not refused: the decrypter panics. */
  lemma WrongLengthPanics(dec: BlockFunction, iv: seq<byte>, c: seq<byte>)
    requires KeepsBlocks(dec) && IsBlock(iv) && |c| > BLOCK_SIZE && !Whole(c)
    ensures Opened(dec, iv, EncodeText(c)) == Panic
  {
    TextRoundTrip(c);
  }

  lemma {:induction false} DecryptedLength(dec: BlockFunction, iv: seq<byte>, c: seq<byte>)
    requires KeepsBlocks(dec) && IsBlock(iv) && Whole(c)
    ensures |Decrypted(dec, iv, c)| == |c|
    decreases |c|
  {
    if |c| >= BLOCK_SIZE {
      DecryptedLength(dec, c[..BLOCK_SIZE], c[BLOCK_SIZE..]);
    }
  }

  /** The last byte of the decrypted text asks for more padding than there is text. */
  ghost predicate Overpadded(dec: BlockFunction, iv: seq<byte>, c: seq<byte>)
    requires KeepsBlocks(dec) && IsBlock(iv)
  {
    var p := Decrypted(dec, iv, c);
    p != [] && p[|p| - 1] > |c|
  }

  /** For every text: decryption panics if and only if the text is base64 of at least a block, and its bytes are not
      whole blocks or their last decrypted byte exceeds their length.  No padding is checked otherwise. */
  lemma PanicsExactly(dec: BlockFunction, iv: seq<byte>, text: string)
    requires KeepsBlocks(dec) && IsBlock(iv)
    ensures Opened(dec, iv, text) == Panic <==>
              DecodeText(text).Some?
              && var c := DecodeText(text).value; |c| >= BLOCK_SIZE && (!Whole(c) || Overpadded(dec, iv, c))
  {
    if DecodeText(text).Some? && Whole(DecodeText(text).value) {
      DecryptedLength(dec, iv, DecodeText(text).value);
    }
  }

  /** Every other text is refused, or decrypted to its blocks without as many bytes as the last one says: refused
      exactly when it is not base64 of at least a block. */
  lemma OpensExactly(dec: BlockFunction, iv: seq<byte>, text: string)
    requires KeepsBlocks(dec) && IsBlock(iv)
    ensures Opened(dec, iv, text) == Err <==> DecodeText(text).None? || |DecodeText(text).value| < 16
    ensures Opened(dec, iv, text).Ok? ==>
              var c := DecodeText(text).value;
              var p := Decrypted(dec, iv, c);
              && Whole(c) && p != [] && |p| == |c| && p[|p| - 1] <= |p|
              && Opened(dec, iv, text).plain == p[..|p| - p[|p| - 1]]
  {
    if DecodeText(text).Some? && Whole(DecodeText(text).value) {
      DecryptedLength(dec, iv, DecodeText(text).value);
    }
  }

  /** Whole blocks panic too: every text whose last byte exceeds its length, encrypted without being padded. */
  lemma OverpaddedPanics(enc: BlockFunction, dec: BlockFunction, iv: seq<byte>, p: seq<byte>)
    requires Inverse(enc, dec) && IsBlock(iv) && Whole(p) && p != [] && p[|p| - 1] > |p|
    ensures Opened(dec, iv, EncodeText(Encrypted(enc, iv, p))) == Panic
  {
    ChainRoundTrip(enc, dec, iv, p);
    TextRoundTrip(Encrypted(enc, iv, p));
  }

  /** One block is enough. */
  lemma OneBlockPanics(enc: BlockFunction, dec: BlockFunction, iv: seq<byte>, last: byte)
    requires Inverse(enc, dec) && IsBlock(iv) && last > BLOCK_SIZE
    ensures Opened(dec, iv, EncodeText(Encrypted(enc, iv, seq(BLOCK_SIZE, _ => last)))) == Panic
  {
    OverpaddedPanics(enc, dec, iv, seq(BLOCK_SIZE, _ => last));
  }
}
