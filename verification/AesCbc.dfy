/** AES-CBC with PKCS #7 padding: CBC as in section 6.2 of NIST SP 800-38A, the padding as in
    section 6.3 of RFC 5652. The block cipher is an abstract keyed permutation. */
module AesCbc {

  const BLOCK := 16

  type Bytes = seq<bv8>

  datatype Cipher = Cipher(enc: (Bytes, Bytes) -> Bytes, dec: (Bytes, Bytes) -> Bytes)

  /** For every key, `enc` permutes the blocks and `dec` is its inverse. */
  ghost predicate Permutation(c: Cipher) {
    && (forall k: Bytes, b: Bytes {:trigger c.enc(k, b)} :: |b| == BLOCK ==> |c.enc(k, b)| == BLOCK)
    && (forall k: Bytes, b: Bytes {:trigger c.dec(k, b)} :: |b| == BLOCK ==> |c.dec(k, b)| == BLOCK)
    && (forall k: Bytes, b: Bytes {:trigger c.dec(k, c.enc(k, b))} :: |b| == BLOCK ==> c.dec(k, c.enc(k, b)) == b)
    && (forall k: Bytes, b: Bytes {:trigger c.enc(k, c.dec(k, b))} :: |b| == BLOCK ==> c.enc(k, c.dec(k, b)) == b)
  }

  predicate ValidKey(key: Bytes) {
    |key| == 16 || |key| == 24 || |key| == 32
  }

  function Xor(a: Bytes, b: Bytes): (r: Bytes)
    requires |a| == |b|
    ensures |r| == |a| && forall i :: 0 <= i < |r| ==> r[i] == a[i] ^ b[i]
  {
    if a == [] then [] else [a[0] ^ b[0]] + Xor(a[1..], b[1..])
  }

  lemma XorTwice(a: Bytes, b: Bytes)
    requires |a| == |b|
    ensures Xor(Xor(a, b), b) == a
  {
    var r := Xor(Xor(a, b), b);
    forall i | 0 <= i < |a|
      ensures r[i] == a[i]
    {
      XorTwiceByte(a[i], b[i]);
    }
  }

  lemma XorTwiceByte(x: bv8, y: bv8)
    ensures (x ^ y) ^ y == x
  {
  }

  // ---- the modes, block by block ----

  function EncryptCbc(c: Cipher, key: Bytes, prev: Bytes, p: Bytes): (r: Bytes)
    requires Permutation(c) && |prev| == BLOCK && |p| % BLOCK == 0
    ensures |r| == |p|
    decreases |p|
  {
    if p == [] then []
    else
      var b := c.enc(key, Xor(p[..BLOCK], prev));
      b + EncryptCbc(c, key, b, p[BLOCK..])
  }

  function DecryptCbc(c: Cipher, key: Bytes, prev: Bytes, x: Bytes): (r: Bytes)
    requires Permutation(c) && |prev| == BLOCK && |x| % BLOCK == 0
    ensures |r| == |x|
    decreases |x|
  {
    if x == [] then []
    else Xor(c.dec(key, x[..BLOCK]), prev) + DecryptCbc(c, key, x[..BLOCK], x[BLOCK..])
  }

  lemma BlockInverse(c: Cipher, key: Bytes, b: Bytes)
    requires Permutation(c) && |b| == BLOCK
    ensures |c.enc(key, b)| == BLOCK && |c.dec(key, b)| == BLOCK
    ensures c.dec(key, c.enc(key, b)) == b && c.enc(key, c.dec(key, b)) == b
  {
  }

  lemma {:induction false} DecryptInverts(c: Cipher, key: Bytes, prev: Bytes, p: Bytes)
    requires Permutation(c) && |prev| == BLOCK && |p| % BLOCK == 0
    ensures DecryptCbc(c, key, prev, EncryptCbc(c, key, prev, p)) == p
    decreases |p|
  {
    hide Permutation, Xor;
    if p != [] {
      BlockInverse(c, key, Xor(p[..BLOCK], prev));
      var b := c.enc(key, Xor(p[..BLOCK], prev));
      var rest := EncryptCbc(c, key, b, p[BLOCK..]);
      assert (b + rest)[..BLOCK] == b && (b + rest)[BLOCK..] == rest;
      XorTwice(p[..BLOCK], prev);
      DecryptInverts(c, key, b, p[BLOCK..]);
      assert p[..BLOCK] + p[BLOCK..] == p;
    }
  }

  /** The converse: every whole-block text is the encryption of what it decrypts to. */
  lemma {:induction false} EncryptInverts(c: Cipher, key: Bytes, prev: Bytes, x: Bytes)
    requires Permutation(c) && |prev| == BLOCK && |x| % BLOCK == 0
    ensures EncryptCbc(c, key, prev, DecryptCbc(c, key, prev, x)) == x
    decreases |x|
  {
    hide Permutation, Xor;
    if x != [] {
      var b := x[..BLOCK];
      BlockInverse(c, key, b);
      var first := Xor(c.dec(key, b), prev);
      var rest := DecryptCbc(c, key, b, x[BLOCK..]);
      assert (first + rest)[..BLOCK] == first && (first + rest)[BLOCK..] == rest;
      XorTwice(c.dec(key, b), prev);
      EncryptInverts(c, key, b, x[BLOCK..]);
      assert x[..BLOCK] + x[BLOCK..] == x;
    }
  }

  // ---- padding, and the two operations on values ----

  function PaddingSize(n: nat): int {
    BLOCK - n % BLOCK
  }

  function Pad(data: Bytes): (r: Bytes)
    ensures |r| % BLOCK == 0 && |r| == |data| + PaddingSize(|data|)
  {
    data + seq(PaddingSize(|data|), _ => PaddingSize(|data|) as bv8)
  }

  datatype Result = Ok(data: Bytes) | BadKey | BadLength | Panic

  function Encrypted(c: Cipher, key: Bytes, iv: Bytes, data: Bytes): Result
    requires Permutation(c) && |iv| == BLOCK
  {
    if !ValidKey(key) then BadKey else Ok(iv + EncryptCbc(c, key, iv, Pad(data)))
  }

  /** The last byte is trusted as the padding length. An input without a whole block after
      the IV, and a last byte larger than the text, index out of range. */
  function Decrypted(c: Cipher, key: Bytes, data: Bytes): Result
    requires Permutation(c)
  {
    if !ValidKey(key) then BadKey
    else if |data| < BLOCK then Panic
    else if (|data| - BLOCK) % BLOCK != 0 then BadLength
    else if |data| == BLOCK then Panic
    else
      var p := DecryptCbc(c, key, data[..BLOCK], data[BLOCK..]);
      var padding := p[|p| - 1] as int;
      if padding > |p| then Panic else Ok(p[..|p| - padding])
  }

  lemma PaddingByte(n: int)
    requires 1 <= n <= BLOCK
    ensures (n as bv8) as int == n
  {
  }

  /** The last byte of a padded text says where the text ends. */
  lemma PadEnds(data: Bytes)
    ensures var p := Pad(data);
            && |p| >= BLOCK && |p| % BLOCK == 0 && BLOCK + |p| == BLOCK * (|data| / BLOCK + 2)
            && p[|p| - 1] as int == |p| - |data| && p[..|data|] == data
  {
    var p := Pad(data);
    var n := PaddingSize(|data|);
    PaddingByte(n);
    assert p[|p| - 1] == n as bv8;
  }

  /** Padding as in section 6.3 of RFC 5652: one to sixteen bytes, up to a whole block, each of
      them their number. */
  lemma PadSpelledOut(data: Bytes)
    ensures var p, n := Pad(data), 16 - |data| % 16;
            1 <= n <= 16 && |p| == |data| + n && p[..|data|] == data && forall i :: |data| <= i < |p| ==> p[i] as int == n
  {
    var p, n := Pad(data), PaddingSize(|data|);
    PaddingByte(n);
    assert forall i :: |data| <= i < |p| ==> p[i] == n as bv8;
  }

  /** The mode as in section 6.2 of NIST SP 800-38A: each ciphertext block is the encryption of
      its plaintext block and the ciphertext block before, the IV before the first. */
  lemma {:induction false} EncryptedBlocks(c: Cipher, key: Bytes, iv: Bytes, p: Bytes, i: nat)
    requires Permutation(c) && |iv| == 16 && |p| % 16 == 0 && 16 * i + 16 <= |p|
    ensures var x := EncryptCbc(c, key, iv, p);
            x[16 * i..16 * i + 16] == c.enc(key, Xor(p[16 * i..16 * i + 16], if i == 0 then iv else x[16 * i - 16..16 * i]))
    decreases i
  {
    hide Permutation, Xor;
    var b := c.enc(key, Xor(p[..16], iv));
    BlockInverse(c, key, Xor(p[..16], iv));
    var rest := EncryptCbc(c, key, b, p[16..]);
    var x := b + rest;
    if i == 0 {
      assert x[..16] == b && x[16 * i..16 * i + 16] == x[..16] && p[16 * i..16 * i + 16] == p[..16];
    } else {
      EncryptedBlocks(c, key, b, p[16..], i - 1);
      BlockShift(p[..16], p[16..], p, i);
      BlockShift(b, rest, x, i);
      if i > 1 {
        BlockShift(b, rest, x, i - 1);
      } else {
        assert x[16 * i - 16..16 * i] == b;
      }
    }
  }

  lemma BlockShift(a: Bytes, b: Bytes, s: Bytes, i: nat)
    requires |a| == 16 && s == a + b && i > 0 && 16 * i + 16 <= |s|
    ensures b[16 * (i - 1)..16 * (i - 1) + 16] == s[16 * i..16 * i + 16]
  {
  }

  lemma {:induction false} DecryptedBlocks(c: Cipher, key: Bytes, iv: Bytes, x: Bytes, i: nat)
    requires Permutation(c) && |iv| == 16 && |x| % 16 == 0 && 16 * i + 16 <= |x|
    ensures |c.dec(key, x[16 * i..16 * i + 16])| == 16
    ensures DecryptCbc(c, key, iv, x)[16 * i..16 * i + 16] ==
              Xor(c.dec(key, x[16 * i..16 * i + 16]), if i == 0 then iv else x[16 * i - 16..16 * i])
    decreases i
  {
    hide Permutation, Xor;
    BlockInverse(c, key, x[16 * i..16 * i + 16]);
    BlockInverse(c, key, x[..16]);
    var first := Xor(c.dec(key, x[..16]), iv);
    var rest := DecryptCbc(c, key, x[..16], x[16..]);
    var y := first + rest;
    if i == 0 {
      assert y[16 * i..16 * i + 16] == first && x[16 * i..16 * i + 16] == x[..16];
    } else {
      DecryptedBlocks(c, key, x[..16], x[16..], i - 1);
      BlockShift(first, rest, y, i);
      BlockShift(x[..16], x[16..], x, i);
      if i > 1 {
        BlockShift(x[..16], x[16..], x, i - 1);
      } else {
        assert x[16 * i - 16..16 * i] == x[..16];
      }
    }
  }

  /** Decrypt inverts Encrypt for every plaintext, valid key and IV, and the ciphertext has
      one block for the IV and one more than the whole blocks of the plaintext. */
  lemma RoundTrip(c: Cipher, key: Bytes, iv: Bytes, data: Bytes)
    requires Permutation(c) && ValidKey(key) && |iv| == BLOCK
    ensures Encrypted(c, key, iv, data).Ok?
    ensures |Encrypted(c, key, iv, data).data| == BLOCK * (|data| / BLOCK + 2)
    ensures Decrypted(c, key, Encrypted(c, key, iv, data).data) == Ok(data)
  {
    hide Permutation, EncryptCbc, DecryptCbc, Pad, PaddingSize;
    var p := Pad(data);
    var x := EncryptCbc(c, key, iv, p);
    PadEnds(data);
    assert (iv + x)[..BLOCK] == iv && (iv + x)[BLOCK..] == x;
    DecryptInverts(c, key, iv, p);
  }

  // ---- the operations on buffers ----

  /** Copies `src` into `dst` from position `at`. */
  method Copy(dst: array<bv8>, at: nat, src: Bytes)
    requires at + |src| <= dst.Length
    modifies dst
    ensures dst[..] == old(dst[..at]) + src + old(dst[at + |src|..])
  {
    for i := 0 to |src|
      invariant dst[..at] == old(dst[..at])
      invariant dst[at..at + i] == src[..i]
      invariant dst[at + i..] == old(dst[at + i..])
    {
      dst[at + i] := src[i];
    }
    assert dst[..] == dst[..at] + dst[at..at + |src|] + dst[at + |src|..];
  }

  /** CBC decryption in place. Blocks are taken from the last to the first, so that the
      ciphertext block each one needs is still there; the IV sits in front of them. */
  method DecryptInPlace(c: Cipher, key: Bytes, data: array<bv8>)
    requires Permutation(c) && data.Length >= BLOCK && data.Length % BLOCK == 0
    modifies data
    ensures data[..BLOCK] == old(data[..BLOCK])
    ensures data[BLOCK..] == DecryptCbc(c, key, old(data[..BLOCK]), old(data[BLOCK..]))
  {
    hide Permutation, DecryptCbc, InPlace, BlockDecrypted, Xor;
    ghost var o := data[..];
    var at := data.Length;
    InPlaceStart(c, key, o);
    while at > BLOCK
      invariant BLOCK <= at <= data.Length && at % BLOCK == 0
      invariant InPlace(c, key, o, data[..], at)
    {
      at := at - BLOCK;
      InPlaceStep(c, key, o, data[..], at);
      DecryptBlock(c, key, data, at);
    }
    InPlaceEnd(c, key, o, data[..]);
    assert data[..][..BLOCK] == data[..BLOCK] && data[..][BLOCK..] == data[BLOCK..];
    assert o[..BLOCK] == old(data[..BLOCK]) && o[BLOCK..] == old(data[BLOCK..]);
  }

  /** The buffer with the blocks from `at` on decrypted. */
  ghost predicate InPlace(c: Cipher, key: Bytes, o: Bytes, s: Bytes, at: int) {
    && Permutation(c) && |s| == |o| && |o| % BLOCK == 0 && BLOCK <= at <= |o| && at % BLOCK == 0
    && s[..at] == o[..at] && s[at..] == DecryptCbc(c, key, o[at - BLOCK..at], o[at..])
  }

  function BlockDecrypted(c: Cipher, key: Bytes, s: Bytes, at: int): Bytes
    requires Permutation(c) && BLOCK <= at && at + BLOCK <= |s|
  {
    s[..at] + Xor(c.dec(key, s[at..at + BLOCK]), s[at - BLOCK..at]) + s[at + BLOCK..]
  }

  method DecryptBlock(c: Cipher, key: Bytes, data: array<bv8>, at: int)
    requires Permutation(c) && BLOCK <= at && at + BLOCK <= data.Length
    modifies data
    ensures data[..] == BlockDecrypted(c, key, old(data[..]), at)
  {
    ghost var s := data[..];
    assert s[at..at + BLOCK] == data[at..at + BLOCK] && s[at - BLOCK..at] == data[at - BLOCK..at];
    assert s[..at] == data[..at] && s[at + BLOCK..] == data[at + BLOCK..];
    Copy(data, at, Xor(c.dec(key, data[at..at + BLOCK]), data[at - BLOCK..at]));
  }

  lemma InPlaceStart(c: Cipher, key: Bytes, o: Bytes)
    requires Permutation(c) && |o| >= BLOCK && |o| % BLOCK == 0
    ensures InPlace(c, key, o, o, |o|)
  {
    assert o[|o|..] == [];
  }

  lemma SamePart(s: Bytes, o: Bytes, n: int, i: int, j: int)
    requires 0 <= i <= j <= n <= |s| && n <= |o| && s[..n] == o[..n]
    ensures s[i..j] == o[i..j]
  {
    assert s[i..j] == s[..n][i..j];
    assert o[i..j] == o[..n][i..j];
  }

  lemma Spliced(s: Bytes, d: Bytes, at: int)
    requires 0 <= at && at + BLOCK <= |s| && |d| == BLOCK
    ensures var t := s[..at] + d + s[at + BLOCK..];
            |t| == |s| && t[..at] == s[..at] && t[at..] == d + s[at + BLOCK..]
  {
  }

  lemma InPlaceStep(c: Cipher, key: Bytes, o: Bytes, s: Bytes, at: int)
    requires InPlace(c, key, o, s, at + BLOCK) && BLOCK <= at
    ensures Permutation(c) && InPlace(c, key, o, BlockDecrypted(c, key, s, at), at)
  {
    hide Xor, Permutation, DecryptCbc;
    var b := at + BLOCK;
    SamePart(s, o, b, at, b);
    SamePart(s, o, b, at - BLOCK, at);
    SamePart(s, o, b, 0, at);
    BlockInverse(c, key, o[at..b]);
    Spliced(s, Xor(c.dec(key, o[at..b]), o[at - BLOCK..at]), at);
    DecryptStep(c, key, o, at);
  }

  lemma InPlaceEnd(c: Cipher, key: Bytes, o: Bytes, s: Bytes)
    requires InPlace(c, key, o, s, BLOCK)
    ensures Permutation(c) && s[..BLOCK] == o[..BLOCK] && s[BLOCK..] == DecryptCbc(c, key, o[..BLOCK], o[BLOCK..])
  {
    assert o[0..BLOCK] == o[..BLOCK];
  }

  lemma DecryptStep(c: Cipher, key: Bytes, o: Bytes, at: int)
    requires Permutation(c) && BLOCK <= at && at + BLOCK <= |o| && at % BLOCK == 0 && |o| % BLOCK == 0
    ensures DecryptCbc(c, key, o[at - BLOCK..at], o[at..]) ==
            Xor(c.dec(key, o[at..at + BLOCK]), o[at - BLOCK..at]) + DecryptCbc(c, key, o[at..at + BLOCK], o[at + BLOCK..])
  {
    hide Permutation, Xor;
    var x := o[at..];
    assert x[..BLOCK] == o[at..at + BLOCK] && x[BLOCK..] == o[at + BLOCK..];
  }

  /** The output buffer with the blocks before `at` encrypted, behind the IV. */
  ghost predicate Emitting(c: Cipher, key: Bytes, iv: Bytes, p: Bytes, s: Bytes, at: int) {
    && Permutation(c) && |iv| == BLOCK && |p| % BLOCK == 0 && |s| == BLOCK + |p|
    && 0 <= at <= |p| && at % BLOCK == 0 && s[..BLOCK] == iv
    && s[BLOCK..BLOCK + at] + EncryptCbc(c, key, s[at..at + BLOCK], p[at..]) == EncryptCbc(c, key, iv, p)
  }

  function BlockEncrypted(c: Cipher, key: Bytes, p: Bytes, s: Bytes, at: int): Bytes
    requires 0 <= at && at + BLOCK <= |p| && |s| == BLOCK + |p| && Permutation(c)
  {
    s[..at + BLOCK] + c.enc(key, Xor(p[at..at + BLOCK], s[at..at + BLOCK])) + s[at + 2 * BLOCK..]
  }

  lemma EmitStart(c: Cipher, key: Bytes, iv: Bytes, p: Bytes, s: Bytes)
    requires Permutation(c) && |iv| == BLOCK && |p| % BLOCK == 0 && |s| == BLOCK + |p| && s[..BLOCK] == iv
    ensures Emitting(c, key, iv, p, s, 0)
  {
    assert s[0..BLOCK] == iv && p[0..] == p && s[BLOCK..BLOCK] == [];
  }

  lemma EncryptStep(c: Cipher, key: Bytes, prev: Bytes, p: Bytes, at: int)
    requires Permutation(c) && |prev| == BLOCK && 0 <= at && at + BLOCK <= |p| && at % BLOCK == 0 && |p| % BLOCK == 0
    ensures |c.enc(key, Xor(p[at..at + BLOCK], prev))| == BLOCK
    ensures var b := c.enc(key, Xor(p[at..at + BLOCK], prev));
            EncryptCbc(c, key, prev, p[at..]) == b + EncryptCbc(c, key, b, p[at + BLOCK..])
  {
    hide Permutation, Xor;
    BlockInverse(c, key, Xor(p[at..at + BLOCK], prev));
    assert p[at..][..BLOCK] == p[at..at + BLOCK] && p[at..][BLOCK..] == p[at + BLOCK..];
  }

  /** Replacing the block behind `at + BLOCK`. */
  lemma Replaced(s: Bytes, b: Bytes, at: int)
    requires 0 <= at && at + 2 * BLOCK <= |s| && |b| == BLOCK
    ensures var t := s[..at + BLOCK] + b + s[at + 2 * BLOCK..];
            && |t| == |s| && t[..BLOCK] == s[..BLOCK]
            && t[at + BLOCK..at + 2 * BLOCK] == b
            && t[BLOCK..BLOCK + (at + BLOCK)] == s[BLOCK..BLOCK + at] + b
  {
  }

  lemma EmitStep(c: Cipher, key: Bytes, iv: Bytes, p: Bytes, s: Bytes, at: int)
    requires Emitting(c, key, iv, p, s, at) && at + BLOCK <= |p|
    ensures Permutation(c) && Emitting(c, key, iv, p, BlockEncrypted(c, key, p, s, at), at + BLOCK)
  {
    hide Xor, EncryptCbc, Permutation;
    var b := c.enc(key, Xor(p[at..at + BLOCK], s[at..at + BLOCK]));
    EncryptStep(c, key, s[at..at + BLOCK], p, at);
    Replaced(s, b, at);
    var rest := EncryptCbc(c, key, b, p[at + BLOCK..]);
    assert s[BLOCK..BLOCK + at] + (b + rest) == (s[BLOCK..BLOCK + at] + b) + rest;
  }

  lemma EmitEnd(c: Cipher, key: Bytes, iv: Bytes, p: Bytes, s: Bytes)
    requires Emitting(c, key, iv, p, s, |p|)
    ensures Permutation(c) && s == iv + EncryptCbc(c, key, iv, p)
  {
    hide Permutation, EncryptCbc;
    assert s == s[..BLOCK] + s[BLOCK..BLOCK + |p|];
  }

  method EncryptBlock(c: Cipher, key: Bytes, src: array<bv8>, dst: array<bv8>, at: int)
    requires Permutation(c) && 0 <= at && at + BLOCK <= src.Length && dst.Length == BLOCK + src.Length && src != dst
    modifies dst
    ensures dst[..] == BlockEncrypted(c, key, src[..], old(dst[..]), at)
  {
    hide Xor;
    ghost var s, p := dst[..], src[..];
    assert p[at..at + BLOCK] == src[at..at + BLOCK] && s[at..at + BLOCK] == dst[at..at + BLOCK];
    assert s[..at + BLOCK] == dst[..at + BLOCK] && s[at + 2 * BLOCK..] == dst[at + 2 * BLOCK..];
    BlockInverse(c, key, Xor(src[at..at + BLOCK], dst[at..at + BLOCK]));
    Copy(dst, at + BLOCK, c.enc(key, Xor(src[at..at + BLOCK], dst[at..at + BLOCK])));
  }

  /** The plaintext buffer: data, then the padding bytes. */
  method PadBuffer(data: array<bv8>) returns (padded: array<bv8>)
    ensures fresh(padded) && padded[..] == Pad(data[..])
  {
    var size := BLOCK - data.Length % BLOCK;
    padded := new bv8[data.Length + size];
    Copy(padded, 0, data[..]);
    Copy(padded, data.Length, seq(size, _ => size as bv8));
    assert padded[..] == Pad(data[..]);
  }

  /** Encrypt. The IV is what the random source delivered, or nothing. */
  method Encrypt(c: Cipher, data: array<bv8>, key: Bytes, random: seq<bv8>) returns (ok: bool, out: array<bv8>)
    requires Permutation(c)
    ensures fresh(out)
    ensures ok <==> |key| in {16, 24, 32} && |random| >= 16
    ensures ok ==> out[..] == random[..16] + EncryptCbc(c, key, random[..16], Pad(data[..]))
    ensures ok ==> Ok(out[..]) == Encrypted(c, key, random[..BLOCK], data[..])
  {
    hide Permutation, EncryptCbc, Emitting, Pad, BlockEncrypted;
    out := new bv8[0];
    if |key| != 16 && |key| != 24 && |key| != 32 {
      return false, out;
    }
    var plaintext := PadBuffer(data);
    if |random| < BLOCK {
      return false, out;
    }
    out := new bv8[BLOCK + plaintext.Length];
    ghost var iv, p := random[..BLOCK], plaintext[..];
    Copy(out, 0, random[..BLOCK]);
    assert out[..][..BLOCK] == iv;
    EmitStart(c, key, iv, p, out[..]);
    var at := 0;
    while at < plaintext.Length
      invariant 0 <= at <= plaintext.Length && at % BLOCK == 0 && plaintext.Length % BLOCK == 0
      invariant plaintext[..] == p && Emitting(c, key, iv, p, out[..], at)
    {
      EmitStep(c, key, iv, p, out[..], at);
      EncryptBlock(c, key, plaintext, out, at);
      at := at + BLOCK;
    }
    EmitEnd(c, key, iv, p, out[..]);
    return true, out;
  }

  datatype Slice = Slice(from: nat, len: nat)
  datatype Outcome = Plaintext(at: Slice) | KeyError | LengthError | OutOfRange

  /** Decrypt. The plaintext is a slice of the caller's own buffer, which is overwritten. */
  method Decrypt(c: Cipher, data: array<bv8>, key: Bytes) returns (r: Outcome)
    requires Permutation(c)
    modifies data
    ensures r.Plaintext? <==> Decrypted(c, key, old(data[..])).Ok?
    ensures r.Plaintext? ==>
              r.at.from + r.at.len <= data.Length && data[r.at.from..r.at.from + r.at.len] == Decrypted(c, key, old(data[..])).data
    ensures r.KeyError? <==> |key| !in {16, 24, 32}
    ensures r.LengthError? <==> |key| in {16, 24, 32} && data.Length >= 16 && data.Length % 16 != 0
    ensures r.Plaintext? ==>
              && data.Length >= 32 && r.at.from == 16
              && data[16..] == DecryptCbc(c, key, old(data[..16]), old(data[16..]))
              && r.at.len == data.Length - 16 - data[data.Length - 1] as int
    ensures r.OutOfRange? ==>
              && |key| in {16, 24, 32}
              && (|| data.Length < 16 || data.Length == 16
                  || (data.Length % 16 == 0 && data.Length - 16 < DecryptCbc(c, key, old(data[..16]), old(data[16..]))[data.Length - 17] as int))
  {
    hide Permutation, DecryptCbc;
    if |key| != 16 && |key| != 24 && |key| != 32 {
      return KeyError;
    }
    if data.Length < BLOCK {
      return OutOfRange;
    }
    if (data.Length - BLOCK) % BLOCK != 0 {
      return LengthError;
    }
    ghost var o := data[..];
    assert o[..BLOCK] == data[..BLOCK] && o[BLOCK..] == data[BLOCK..];
    DecryptInPlace(c, key, data);
    if data.Length == BLOCK {
      return OutOfRange;
    }
    ghost var p := data[BLOCK..];
    assert p[|p| - 1] == data[data.Length - 1];
    var padding := data[data.Length - 1] as int;
    var len := data.Length - BLOCK - padding;
    if len < 0 {
      return OutOfRange;
    }
    assert p[..len] == data[BLOCK..BLOCK + len];
    return Plaintext(Slice(BLOCK, len));
  }

  /** Decrypting, in place, what Encrypt produced leaves the original data in the slice. */
  method EncryptThenDecrypt(c: Cipher, data: array<bv8>, key: Bytes, random: seq<bv8>) returns (out: array<bv8>, r: Outcome)
    requires Permutation(c) && ValidKey(key) && |random| >= BLOCK
    ensures fresh(out) && r.Plaintext? && r.at.from + r.at.len <= out.Length && out[r.at.from..r.at.from + r.at.len] == data[..]
    ensures out.Length == BLOCK * (data.Length / BLOCK + 2)
  {
    hide Permutation, Encrypted, Decrypted;
    var ok;
    ok, out := Encrypt(c, data, key, random);
    RoundTrip(c, key, random[..BLOCK], data[..]);
    r := Decrypt(c, out, key);
  }
}
