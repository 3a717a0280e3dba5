/**
 * User-Password hiding, section 5.2 of RFC 2865: the password, padded with NUL to a multiple of 16,
 * is combined block by block with MD5 digests chained through the cipher text.
 */
module UserPassword {
  import opened Octets

  type Ascii = x: int | 0 <= x < 128
  type Md5 = Octets -> Digest

  const BASE := 16

  // ---- exclusive or ----------------------------------------------------------------------------

  function Power2(bits: nat): nat
  {
    if bits == 0 then 1 else 2 * Power2(bits - 1)
  }

  /** Exclusive or of the lowest bits of two numbers. */
  function Xor(a: nat, b: nat, bits: nat): (r: nat)
    ensures r < Power2(bits)
  {
    if bits == 0 then 0
    else 2 * Xor(a / 2, b / 2, bits - 1) + (if a % 2 == b % 2 then 0 else 1)
  }

  lemma {:induction false} XorTwice(a: nat, b: nat, bits: nat)
    requires b < Power2(bits)
    ensures Xor(a, Xor(a, b, bits), bits) == b
  {
    if bits > 0 {
      XorTwice(a / 2, b / 2, bits - 1);
      assert Xor(a, b, bits) / 2 == Xor(a / 2, b / 2, bits - 1);
    }
  }

  /** Bit k of a number, counted from the lowest. */
  predicate Bit(n: nat, k: nat)
  {
    if k == 0 then n % 2 == 1 else Bit(n / 2, k - 1)
  }

  /** A bit of the exclusive or is set if and only if the bits of the operands differ. */
  lemma {:induction false} XorBits(a: nat, b: nat, bits: nat, k: nat)
    requires k < bits
    ensures Bit(Xor(a, b, bits), k) <==> Bit(a, k) != Bit(b, k)
  {
    assert Xor(a, b, bits) / 2 == Xor(a / 2, b / 2, bits - 1);
    if k > 0 {
      XorBits(a / 2, b / 2, bits - 1, k - 1);
    }
  }

  lemma ByteRange()
    ensures Power2(8) == 256
  {
    assert Power2(4) == 16;
  }

  function XorOctet(a: Octet, b: Octet): Octet
  {
    ByteRange();
    Xor(a, b, 8)
  }

  /** The octet is the exclusive or of two others, bit by bit. */
  ghost predicate IsXor(r: Octet, a: Octet, b: Octet)
  {
    forall k: nat :: k < 8 ==> (Bit(r, k) <==> Bit(a, k) != Bit(b, k))
  }

  lemma XorOctetIsXor(a: Octet, b: Octet)
    ensures IsXor(XorOctet(a, b), a, b)
  {
    forall k: nat | k < 8 ensures Bit(XorOctet(a, b), k) <==> Bit(a, k) != Bit(b, k) {
      XorBits(a, b, 8, k);
    }
  }

  /** Bits determine an octet, so there is no other exclusive or. */
  lemma {:induction false} BitsDetermine(r: nat, q: nat, bits: nat)
    requires r < Power2(bits) && q < Power2(bits) && forall k: nat :: k < bits ==> (Bit(r, k) <==> Bit(q, k))
    ensures r == q
  {
    if bits > 0 {
      assert Bit(r, 0) <==> Bit(q, 0);
      forall k: nat | k < bits - 1 ensures Bit(r / 2, k) <==> Bit(q / 2, k) {
        assert Bit(r, k + 1) <==> Bit(q, k + 1);
      }
      BitsDetermine(r / 2, q / 2, bits - 1);
    }
  }

  /** Octet by octet, as far as the shorter operand goes. */
  function XorOctets(a: Octets, b: Octets): (r: Octets)
    ensures |r| == if |a| <= |b| then |a| else |b|
  {
    var n := if |a| <= |b| then |a| else |b|;
    seq(n, i requires 0 <= i < n => XorOctet(a[i], b[i]))
  }

  lemma XorOctetsTwice(a: Octets, b: Octets)
    requires |b| <= |a|
    ensures XorOctets(a, XorOctets(a, b)) == b
  {
    ByteRange();
    forall i | 0 <= i < |b| ensures XorOctets(a, XorOctets(a, b))[i] == b[i] {
      XorTwice(a[i], b[i], 8);
    }
  }

  // ---- the chain -------------------------------------------------------------------------------

  function EncryptFrom(md5: Md5, secret: Octets, key: Digest, clear: Octets): (cipher: Octets)
    ensures |cipher| == |clear|
    decreases |clear|
  {
    if clear == [] then []
    else
      var block := XorOctets(key, Slice(clear, 0, BASE));
      block + EncryptFrom(md5, secret, md5(secret + block), Slice(clear, BASE, |clear|))
  }

  function DecryptFrom(md5: Md5, secret: Octets, key: Digest, cipher: Octets): (clear: Octets)
    ensures |clear| == |cipher|
    decreases |cipher|
  {
    if cipher == [] then []
    else
      var block := Slice(cipher, 0, BASE);
      XorOctets(key, block) + DecryptFrom(md5, secret, md5(secret + block), Slice(cipher, BASE, |cipher|))
  }

  lemma SlicesOf(s: Octets)
    requires |s| >= BASE
    ensures Slice(s, 0, BASE) == s[..BASE] && Slice(s, BASE, |s|) == s[BASE..]
  {
  }

  /** Decryption undoes the chain, whatever MD5 computes. */
  lemma {:induction false} DecryptUndoesEncrypt(md5: Md5, secret: Octets, key: Digest, clear: Octets)
    requires |clear| % BASE == 0
    ensures DecryptFrom(md5, secret, key, EncryptFrom(md5, secret, key, clear)) == clear
    decreases |clear|
  {
    if clear != [] {
      SlicesOf(clear);
      var block := XorOctets(key, clear[..BASE]);
      var next := md5(secret + block);
      var rest := EncryptFrom(md5, secret, next, clear[BASE..]);
      DecryptUndoesEncrypt(md5, secret, next, clear[BASE..]);
      var cipher := EncryptFrom(md5, secret, key, clear);
      assert cipher == block + rest;
      SlicesOf(cipher);
      assert cipher[..BASE] == block && cipher[BASE..] == rest;
      XorOctetsTwice(key, clear[..BASE]);
      assert clear[..BASE] + clear[BASE..] == clear;
    }
  }

  function Block(s: Octets, i: nat): Octets
    requires (i + 1) * BASE <= |s|
  {
    s[i * BASE..(i + 1) * BASE]
  }

  lemma BlockOfAppend(a: Octets, b: Octets, i: nat)
    requires |a| == BASE && (i + 1) * BASE <= |b|
    ensures Block(a + b, i + 1) == Block(b, i)
  {
    assert (a + b)[BASE..] == b;
  }

  /** Each cipher block is its clear block combined with the digest of the block before it. */
  lemma {:induction false} CipherBlocks(md5: Md5, secret: Octets, start: Octets, clear: Octets, i: nat)
    requires |clear| % BASE == 0 && (i + 1) * BASE <= |clear|
    ensures var cipher := EncryptFrom(md5, secret, md5(secret + start), clear);
            Block(cipher, i)
            == XorOctets(md5(secret + (if i == 0 then start else Block(cipher, i - 1))), Block(clear, i))
    decreases i
  {
    var key := md5(secret + start);
    var block := XorOctets(key, clear[..BASE]);
    var rest := EncryptFrom(md5, secret, md5(secret + block), clear[BASE..]);
    SlicesOf(clear);
    assert EncryptFrom(md5, secret, key, clear) == block + rest;
    assert Block(block + rest, 0) == block;
    if i > 0 {
      CipherBlocks(md5, secret, block, clear[BASE..], i - 1);
      BlockOfAppend(block, rest, i - 1);
      BlockOfAppend(clear[..BASE], clear[BASE..], i - 1);
      assert clear[..BASE] + clear[BASE..] == clear;
      if i > 1 {
        BlockOfAppend(block, rest, i - 2);
      }
    }
  }

  lemma BlockOctet(s: Octets, i: nat, j: nat)
    requires (i + 1) * BASE <= |s| && j < BASE
    ensures Block(s, i)[j] == s[i * BASE + j]
  {
  }

  /** Each cipher octet is its clear octet exclusive-or an octet of the digest of the block before it. */
  lemma {:induction false} CipherOctets(md5: Md5, secret: Octets, start: Octets, clear: Octets, i: nat, j: nat)
    requires |clear| % BASE == 0 && (i + 1) * BASE <= |clear| && j < BASE
    ensures var cipher := EncryptFrom(md5, secret, md5(secret + start), clear);
            var before := if i == 0 then start else cipher[(i - 1) * BASE..i * BASE];
            IsXor(cipher[i * BASE + j], md5(secret + before)[j], clear[i * BASE + j])
  {
    var cipher := EncryptFrom(md5, secret, md5(secret + start), clear);
    var digest := md5(secret + (if i == 0 then start else Block(cipher, i - 1)));
    CipherBlocks(md5, secret, start, clear, i);
    BlockOctet(cipher, i, j);
    BlockOctet(clear, i, j);
    XorOctetIsXor(digest[j], clear[i * BASE + j]);
  }

  /** The cipher octets the digest for block i is taken over. */
  function Before(start: Octets, cipher: Octets, i: nat): Octets
    requires i * BASE <= |cipher|
  {
    if i == 0 then start else cipher[(i - 1) * BASE..i * BASE]
  }

  lemma ShiftedBefore(start: Octets, cipher: Octets, i: nat)
    requires 1 <= i && i * BASE <= |cipher|
    ensures Before(cipher[..BASE], cipher[BASE..], i - 1) == Before(start, cipher, i)
  {
  }

  lemma {:induction false} DecryptTwoParts(md5: Md5, secret: Octets, key: Digest, cipher: Octets)
    requires |cipher| >= BASE
    ensures DecryptFrom(md5, secret, key, cipher)
            == XorOctets(key, cipher[..BASE]) + DecryptFrom(md5, secret, md5(secret + cipher[..BASE]), cipher[BASE..])
  {
    SlicesOf(cipher);
  }

  lemma IndexRight(a: Octets, b: Octets, n: nat)
    requires |a| <= n < |a| + |b|
    ensures (a + b)[n] == b[n - |a|]
  {
  }

  lemma {:induction false} DecryptTail(md5: Md5, secret: Octets, key: Digest, cipher: Octets, n: nat)
    requires BASE <= n < |cipher|
    ensures DecryptFrom(md5, secret, key, cipher)[n]
            == DecryptFrom(md5, secret, md5(secret + cipher[..BASE]), cipher[BASE..])[n - BASE]
  {
    DecryptTwoParts(md5, secret, key, cipher);
    IndexRight(XorOctets(key, cipher[..BASE]), DecryptFrom(md5, secret, md5(secret + cipher[..BASE]), cipher[BASE..]), n);
  }

  lemma {:induction false} DecryptHead(md5: Md5, secret: Octets, key: Digest, cipher: Octets, n: nat)
    requires n < BASE && n < |cipher|
    ensures DecryptFrom(md5, secret, key, cipher)[n] == XorOctet(key[n], cipher[n])
  {
    var block := Slice(cipher, 0, BASE);
    assert block[n] == cipher[n];
  }

  lemma {:induction false} ClearAt(md5: Md5, secret: Octets, start: Octets, cipher: Octets, i: nat, j: nat)
    requires i * BASE + j < |cipher| && j < BASE
    ensures DecryptFrom(md5, secret, md5(secret + start), cipher)[i * BASE + j]
            == XorOctet(md5(secret + Before(start, cipher, i))[j], cipher[i * BASE + j])
    decreases i
  {
    if i == 0 {
      DecryptHead(md5, secret, md5(secret + start), cipher, j);
    } else {
      DecryptTail(md5, secret, md5(secret + start), cipher, i * BASE + j);
      ClearAt(md5, secret, cipher[..BASE], cipher[BASE..], i - 1, j);
      ShiftedBefore(start, cipher, i);
    }
  }

  /** Each clear octet is its cipher octet exclusive-or an octet of the digest of the cipher block before it. */
  lemma {:induction false} ClearOctets(md5: Md5, secret: Octets, start: Octets, cipher: Octets, i: nat, j: nat)
    requires i * 16 + j < |cipher| && j < 16
    ensures var before := if i == 0 then start else cipher[(i - 1) * 16..i * 16];
            IsXor(DecryptFrom(md5, secret, md5(secret + start), cipher)[i * 16 + j], md5(secret + before)[j], cipher[i * 16 + j])
  {
    ClearAt(md5, secret, start, cipher, i, j);
    XorOctetIsXor(md5(secret + Before(start, cipher, i))[j], cipher[i * 16 + j]);
  }

  // ---- padding and stripping -------------------------------------------------------------------

  function PaddedWidth(n: nat): nat
  {
    (n + BASE - 1) / BASE * BASE
  }

  function Zeros(n: nat): seq<Ascii>
  {
    seq(n, _ => 0)
  }

  function Pad(password: seq<Ascii>): (r: seq<Ascii>)
    ensures |r| == PaddedWidth(|password|)
  {
    password + Zeros(PaddedWidth(|password|) - |password|)
  }

  function StripLeft(s: seq<Ascii>): seq<Ascii>
  {
    if s != [] && s[0] == 0 then StripLeft(s[1..]) else s
  }

  function StripRight(s: seq<Ascii>): seq<Ascii>
  {
    if s != [] && s[|s| - 1] == 0 then StripRight(s[..|s| - 1]) else s
  }

  /** `strip('\\0')`: NUL characters go from both ends. */
  function Strip(s: seq<Ascii>): seq<Ascii>
  {
    StripRight(StripLeft(s))
  }

  predicate NoNulAtEnds(s: seq<Ascii>)
  {
    s != [] ==> s[0] != 0 && s[|s| - 1] != 0
  }

  lemma {:induction false} StripLeftZeros(s: seq<Ascii>, n: nat)
    ensures StripLeft(s + Zeros(n)) == StripLeft(s) + (if StripLeft(s) == [] then [] else Zeros(n))
    decreases |s| + n
  {
    if s == [] {
      Units(Zeros(n));
      if n > 0 {
        assert Zeros(n)[1..] == Zeros(n - 1);
        StripLeftZeros(s, n - 1);
        Units(Zeros(n - 1));
      }
    } else if s[0] == 0 {
      TailOfAppend(s, Zeros(n));
      StripLeftZeros(s[1..], n);
    }
  }

  lemma {:induction false} StripRightZeros(s: seq<Ascii>, n: nat)
    ensures StripRight(s + Zeros(n)) == StripRight(s)
    decreases n
  {
    if n == 0 {
      Units(s);
    } else {
      StripRightZeros(s, n - 1);
      assert (s + Zeros(n))[..|s| + n - 1] == s + Zeros(n - 1);
    }
  }

  lemma {:induction false} StripLeftIsSuffix(s: seq<Ascii>)
    ensures |StripLeft(s)| <= |s| && (|StripLeft(s)| == |s| ==> s == [] || s[0] != 0)
  {
    if s != [] && s[0] == 0 {
      StripLeftIsSuffix(s[1..]);
    }
  }

  lemma {:induction false} StripRightIsPrefix(s: seq<Ascii>)
    ensures |StripRight(s)| <= |s| && (|StripRight(s)| == |s| ==> s == [] || s[|s| - 1] != 0)
  {
    if s != [] && s[|s| - 1] == 0 {
      StripRightIsPrefix(s[..|s| - 1]);
    }
  }

  lemma {:induction false} StripLeftPart(s: seq<Ascii>) returns (n: nat)
    ensures s == Zeros(n) + StripLeft(s) && (StripLeft(s) != [] ==> StripLeft(s)[0] != 0)
  {
    n := 0;
    if s != [] && s[0] == 0 {
      n := StripLeftPart(s[1..]);
      n := n + 1;
      assert s == [s[0]] + s[1..];
    }
  }

  lemma {:induction false} StripRightPart(s: seq<Ascii>) returns (n: nat)
    ensures s == StripRight(s) + Zeros(n) && (StripRight(s) != [] ==> StripRight(s)[|StripRight(s)| - 1] != 0)
    ensures s != [] && StripRight(s) != [] ==> StripRight(s)[0] == s[0]
  {
    n := 0;
    if s != [] && s[|s| - 1] == 0 {
      n := StripRightPart(s[..|s| - 1]);
      n := n + 1;
      assert s == s[..|s| - 1] + [s[|s| - 1]];
    }
  }

  /** Stripping takes off NULs at both ends, all of them and nothing else. */
  lemma StripIs(s: seq<Ascii>) returns (a: nat, b: nat)
    ensures s == Zeros(a) + Strip(s) + Zeros(b) && NoNulAtEnds(Strip(s))
  {
    a := StripLeftPart(s);
    b := StripRightPart(StripLeft(s));
    Assoc(Zeros(a), Strip(s), Zeros(b));
  }

  lemma StripPadded(s: seq<Ascii>)
    ensures Strip(Pad(s)) == Strip(s)
    ensures Strip(s) == s <==> NoNulAtEnds(s)
  {
    var n := PaddedWidth(|s|) - |s|;
    StripLeftZeros(s, n);
    StripRightZeros(StripLeft(s), n);
    Units<Ascii>([]);
    StripLeftIsSuffix(s);
    StripRightIsPrefix(StripLeft(s));
    StripRightIsPrefix(s);
  }

  // ---- the two operations ----------------------------------------------------------------------

  function Encrypted(md5: Md5, secret: Octets, authenticator: Octets, password: seq<Ascii>): Octets
  {
    EncryptFrom(md5, secret, md5(secret + authenticator), Pad(password))
  }

  /**
   * The cipher text of a password, octet by octet, as section 5.2 of RFC 2865 defines it: the password
   * with zeros behind it up to a multiple of 16, exclusive-or the digest of the secret and, for the
   * first 16 octets, the authenticator, for any others the 16 cipher octets before.
   */
  lemma {:induction false} EncryptedOctets(md5: Md5, secret: Octets, authenticator: Octets, password: seq<Ascii>, n: nat)
    requires n < (|password| + 15) / 16 * 16
    ensures var cipher := Encrypted(md5, secret, authenticator, password);
            && |cipher| == (|password| + 15) / 16 * 16
            && var before := if n < 16 then authenticator else cipher[(n / 16 - 1) * 16..n / 16 * 16];
               IsXor(cipher[n], md5(secret + before)[n % 16], if n < |password| then password[n] else 0)
  {
    CipherOctets(md5, secret, authenticator, Pad(password), n / 16, n % 16);
  }

  /** Decryption fails with a decoding error on an octet outside ASCII. */
  function Decrypted(md5: Md5, secret: Octets, authenticator: Octets, cipher: Octets): Option<seq<Ascii>>
  {
    var clear := DecryptFrom(md5, secret, md5(secret + authenticator), cipher);
    if IsAscii(clear) then Some(Strip(clear)) else None
  }

  predicate IsAscii(s: Octets)
  {
    forall i :: 0 <= i < |s| ==> s[i] < 128
  }

  lemma AsciiAppend(a: Octets, b: Octets)
    ensures IsAscii(a + b) <==> IsAscii(a) && IsAscii(b)
  {
    assert forall i :: 0 <= i < |a| ==> (a + b)[i] == a[i];
    assert forall i :: 0 <= i < |b| ==> (a + b)[|a| + i] == b[i];
  }

  method Encrypt(md5: Md5, secret: Octets, authenticator: Octets, password: seq<Ascii>)
    returns (cipher: Octets)
    ensures cipher == Encrypted(md5, secret, authenticator, password)
  {
    var clear: Octets := Pad(password);
    var key := md5(secret + authenticator);
    cipher := [];
    while |clear| > 0
      invariant cipher + EncryptFrom(md5, secret, key, clear)
                == Encrypted(md5, secret, authenticator, password)
      decreases |clear|
    {
      var block := XorOctets(key, Slice(clear, 0, BASE));
      clear := Slice(clear, BASE, |clear|);
      cipher := cipher + block;
      key := md5(secret + block);
    }
  }

  method Decrypt(md5: Md5, secret: Octets, authenticator: Octets, cipher: Octets)
    returns (password: Option<seq<Ascii>>)
    ensures password == Decrypted(md5, secret, authenticator, cipher)
  {
    var rest, key := cipher, md5(secret + authenticator);
    var clear: Octets := [];
    ghost var whole := DecryptFrom(md5, secret, key, cipher);
    while |rest| > 0
      invariant IsAscii(clear) && clear + DecryptFrom(md5, secret, key, rest) == whole
      decreases |rest|
    {
      var block := Slice(rest, 0, BASE);
      var piece := XorOctets(key, block);
      rest := Slice(rest, BASE, |rest|);
      key := md5(secret + block);
      ghost var later := DecryptFrom(md5, secret, key, rest);
      Assoc(clear, piece, later);
      AsciiAppend(clear, piece);
      if !IsAscii(piece) {
        AsciiAppend(clear + piece, later);
        return None;
      }
      clear := clear + piece;
    }
    Units(clear);
    return Some(Strip(clear));
  }

  /**
   * Decrypting with the same secret and authenticator gives the password back exactly when it
   * neither begins nor ends with NUL; the cipher text is the password's length rounded up to 16.
   */
  lemma DecryptGivesPasswordBack(md5: Md5, secret: Octets, authenticator: Octets, password: seq<Ascii>)
    ensures |Encrypted(md5, secret, authenticator, password)| == PaddedWidth(|password|)
    ensures Decrypted(md5, secret, authenticator, Encrypted(md5, secret, authenticator, password))
            == Some(Strip(password))
    ensures (Decrypted(md5, secret, authenticator, Encrypted(md5, secret, authenticator, password))
             == Some(password)) <==> NoNulAtEnds(password)
  {
    DecryptUndoesEncrypt(md5, secret, md5(secret + authenticator), Pad(password));
    StripPadded(password);
  }
}
