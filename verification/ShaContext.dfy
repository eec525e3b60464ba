/** The streaming hash of lib/sha256.c: a context updated in place, HMAC and PBKDF2
    over local arrays that are overwritten, proved equal to the standards in Sha. */
module ShaContext {
  import opened Words
  import opened Sha

  class Context {
    var h: Hash
    var bitlen: nat
    const buf: array<u8>
    var idx: nat
    /** All bytes fed so far. */
    ghost var msg: Bytes

    /** sha_init. */
    constructor ()
      ensures Valid() && msg == [] && fresh(buf)
    {
      hide *;
      h := IV;
      bitlen := 0;
      buf := new u8[64];
      idx := 0;
      msg := [];
      new;
      Nothing();
    }

    /** The whole blocks of `m` are hashed, the rest is buffered. */
    ghost predicate Holds(m: Bytes)
      reads `h, `idx, buf
    {
      && buf.Length == 64 && idx <= 64 && idx <= |m| && Whole(|m| - idx)
      && h == Absorb(IV, m[..|m| - idx]) && buf[..idx] == m[|m| - idx..]
    }

    ghost predicate Valid()
      reads this, buf
    {
      Holds(msg) && idx < 64 && bitlen == BitLength(|msg|)
    }

    lemma Nothing()
      requires buf.Length == 64 && idx == 0 && h == IV && msg == [] && bitlen == 0
      ensures Valid()
    {
      assert msg[..0] == [];
      hide Compress, IV;
    }

    // ----- sha_block -----

    /** The 64 words of the message schedule. */
    method Expand(p: Bytes) returns (w: seq<Word>)
      requires |p| == 64
      ensures w == Schedule(p, 64)
    {
      hide NextWord;
      w := [];
      while |w| < 64
        invariant |w| <= 64 && w == Schedule(p, |w|)
      {
        var x := ExpandOne(p, w);
        w := w + [x];
      }
    }

    method ExpandOne(p: Bytes, w: seq<Word>) returns (x: Word)
      requires |p| == 64
      ensures x == NextWord(p, w)
    {
      hide BigEndian, Mix;
      var i := |w|;
      if i < 16 {
        x := BigEndian(p, i * 4);
      } else {
        x := Mix(w[i - 2], w[i - 7], w[i - 15], w[i - 16]);
      }
    }

    /** The schedule, then 64 rounds on a copy of the state. */
    method Block(p: Bytes)
      requires |p| == 64
      modifies this`h
      ensures h == Compress(old(h), p)
    {
      hide Schedule, Round, Key, Plus;
      var w := Expand(p);
      var v := h;
      var i := 0;
      while i < 64
        invariant 0 <= i <= 64 && v == Rounds(h, p, i)
      {
        v := Round(v, Key(i), w[i]);
        i := i + 1;
      }
      h := Plus(h, v);
    }

    // ----- sha_update -----

    /** One byte into the buffer. */
    method PutByte(b: u8, ghost m: Bytes)
      requires Holds(m) && idx < 64
      modifies this`idx, buf
      ensures Holds(m + [b]) && idx == old(idx) + 1
    {
      hide Absorb, IV, Whole;
      ghost var tail := buf[..idx];
      buf[idx] := b;
      idx := idx + 1;
      assert buf[..idx] == tail + [b];
      assert (m + [b])[..|m| + 1 - idx] == m[..|m| - (idx - 1)];
      assert (m + [b])[|m| + 1 - idx..] == tail + [b];
    }

    /** A full buffer is hashed. */
    method Flush(ghost m: Bytes)
      requires Holds(m) && idx == 64
      modifies this`h, this`idx
      ensures Holds(m) && idx == 0
    {
      hide Compress, IV;
      assert buf[..] == buf[..idx];
      OneBlock(m[..|m| - 64], m[|m| - 64..]);
      assert m[..|m| - 64] + m[|m| - 64..] == m && m[..|m|] == m;
      Block(buf[..]);
      idx := 0;
    }

    /** A full block straight from the input. */
    method Direct(block: Bytes, ghost m: Bytes)
      requires Holds(m) && idx == 0 && |block| == 64
      modifies this`h
      ensures Holds(m + block) && idx == 0
    {
      hide Compress, IV;
      OneBlock(m, block);
      assert m[..|m|] == m && (m + block)[..|m + block|] == m + block;
      Block(block);
    }

    /** The partial block first, then full blocks, then the rest; the input is read where
        it lies, while the context changes. */
    method Update(p: array<u8>)
      requires Valid() && p != buf
      modifies this, buf
      ensures Valid() && msg == old(msg) + p[..]
    {
      hide Holds, BitLength;
      LengthAdds(|msg|, p.Length);
      bitlen := (bitlen + p.Length * 8) % 0x1_0000_0000_0000_0000;
      var i := 0;
      assert msg + p[..0] == msg;
      if idx != 0 {
        i := FillUp(p);
      }
      while p.Length - i >= 64
        invariant 0 <= i <= p.Length && idx < 64 && (i < p.Length ==> idx == 0)
        invariant Holds(msg + p[..i]) && msg == old(msg) && bitlen == BitLength(|msg + p[..]|)
      {
        assert msg + p[..i] + p[i..i + 64] == msg + p[..i + 64];
        Direct(p[i..i + 64], msg + p[..i]);
        i := i + 64;
      }
      ghost var start := i;
      while i < p.Length
        invariant start <= i <= p.Length < start + 64 && (start < p.Length ==> idx == i - start)
        invariant idx < 64 && Holds(msg + p[..i]) && msg == old(msg) && bitlen == BitLength(|msg + p[..]|)
      {
        assert msg + p[..i] + [p[i]] == msg + p[..i + 1];
        PutByte(p[i], msg + p[..i]);
        i := i + 1;
      }
      assert p[..i] == p[..];
      msg := msg + p[..];
    }

    /** Bytes up to the end of the block that has been begun; a block that gets full
        is hashed. */
    method FillUp(p: array<u8>) returns (i: nat)
      requires Holds(msg) && 0 < idx < 64 && p != buf
      modifies this`h, this`idx, buf
      ensures i <= p.Length && Holds(msg + p[..i]) && idx < 64 && (i < p.Length ==> idx == 0)
    {
      hide Holds;
      i := 0;
      assert msg + p[..0] == msg;
      while i < p.Length && idx < 64
        invariant 0 <= i <= p.Length && idx <= 64 && Holds(msg + p[..i])
      {
        assert msg + p[..i] + [p[i]] == msg + p[..i + 1];
        PutByte(p[i], msg + p[..i]);
        i := i + 1;
      }
      if idx == 64 {
        Flush(msg + p[..i]);
      }
    }

    // ----- sha_final -----

    /** The padding is fed byte by byte until the length fits the last block; only then
        is the output written. */
    method Final(out: array<u8>)
      requires Valid() && out != buf && out.Length >= 32
      modifies this, buf, out
      ensures out[..32] == Sha256(old(msg)) && out[32..] == old(out[32..])
    {
      hide Absorb, IV, Digest, Valid;
      ghost var m := msg;
      Finish();
      assert m == old(msg);
      Output(out);
    }

    /** Bytes of the padding. */
    method Feed(s: Bytes)
      requires Valid()
      modifies this, buf
      ensures Valid() && msg == old(msg) + s
    {
      hide Valid;
      var p := Filled(s);
      Update(p);
    }

    /** The padding. */
    method Finish()
      requires Valid()
      modifies this, buf
      ensures Digest(h, 8) == Sha256(old(msg))
    {
      hide Absorb, IV, Digest, BitLength, BigBytes, ZeroCount;
      ghost var m := msg;
      var bl := bitlen;
      Feed([0x80]);
      ghost var z := 0;
      ZeroCountIsLeast(|m|, 0);
      ZerosNone(m);
      while idx != 56
        invariant Valid() && msg == m + [0x80] + Zeros(z) && z <= ZeroCount(|m|)
        decreases ZeroCount(|m|) - z
      {
        IndexIs(|m|, z);
        Feed([0]);
        ZerosMore(m, z);
        z := z + 1;
      }
      IndexIs(|m|, z);
      Feed(BigBytes(bl, 8));
      ghost var padded := msg;
      assert padded == Pad(m);
      LastBlock(|m|);
      assert padded[..|padded| - idx] == padded;
    }

    /** In a valid context the fill level is the message length modulo 64. */
    lemma IndexIs(len: nat, z: nat)
      requires Valid() && |msg| == len + 1 + z && z <= ZeroCount(len)
      ensures idx == 56 <==> z == ZeroCount(len)
    {
      hide Absorb, IV, BitLength;
    }

    lemma LastBlock(len: nat)
      requires Valid() && |msg| == len + 1 + ZeroCount(len) + 8
      ensures idx == 0
    {
      hide Absorb, IV, BitLength;
    }

    /** The eight words, most significant byte first. */
    method Output(out: array<u8>)
      requires out.Length >= 32
      modifies out
      ensures out[..32] == Digest(h, 8) && out[32..] == old(out[32..])
    {
      hide BigBytes, Digest;
      ghost var was := out[..];
      var i := 0;
      assert out[..0] == [] == Digest(h, 0);
      while i < 8
        invariant 0 <= i <= 8 && out[..4 * i] == Digest(h, i) && out[4 * i..] == was[4 * i..]
      {
        ghost var done := out[..4 * i];
        var w := BigBytes(h[i] as int, 4);
        out[4 * i], out[4 * i + 1], out[4 * i + 2], out[4 * i + 3] := w[0], w[1], w[2], w[3];
        assert out[..4 * i + 4] == done + w;
        assert out[4 * i + 4..] == was[4 * i..][4..];
        DigestStep(h, i);
        i := i + 1;
      }
    }
  }

  lemma OneBlock(a: Bytes, b: Bytes)
    requires Whole(|a|) && |b| == 64
    ensures Whole(|a + b|) && Absorb(IV, a + b) == Compress(Absorb(IV, a), b)
  {
    hide Compress, IV;
    AbsorbAppend(IV, a, b);
    assert b[..64] == b && b[64..] == [];
    var g := Absorb(IV, a);
    assert Absorb(g, b) == Absorb(Compress(g, b), []);
  }

  lemma LengthAdds(a: nat, b: nat)
    ensures (BitLength(a) + b * 8) % 0x1_0000_0000_0000_0000 == BitLength(a + b)
  {
  }

  lemma DigestStep(h: Hash, i: nat)
    requires i < 8
    ensures Digest(h, i + 1) == Digest(h, i) + BigBytes(h[i] as int, 4) && |Digest(h, i)| == 4 * i
  {
  }

  lemma ZerosNone(m: Bytes)
    ensures m + [0x80] + Zeros(0) == m + [0x80]
  {
  }

  lemma ZerosMore(m: Bytes, z: nat)
    ensures m + [0x80] + Zeros(z) + [0] == m + [0x80] + Zeros(z + 1)
  {
  }

  /** However the message is cut into updates, the digest is that of the whole. */
  function Joined(parts: seq<Bytes>): Bytes
    decreases |parts|
  {
    if parts == [] then [] else Joined(parts[..|parts| - 1]) + parts[|parts| - 1]
  }

  method HashParts(parts: seq<Bytes>, out: array<u8>)
    requires out.Length >= 32
    modifies out
    ensures out[..32] == Sha256(Joined(parts))
  {
    hide Sha256, Context.Valid;
    var c := new Context();
    var i := 0;
    while i < |parts|
      invariant 0 <= i <= |parts| && c.Valid() && fresh(c) && fresh(c.buf) && c.msg == Joined(parts[..i])
    {
      var p := Filled(parts[i]);
      c.Update(p);
      assert parts[..i + 1][..i] == parts[..i];
      i := i + 1;
    }
    assert parts[..i] == parts;
    c.Final(out);
  }

  /** sha256. */
  method OneShot(data: array<u8>, out: array<u8>)
    requires out.Length >= 32
    modifies out
    ensures out[..32] == Sha256(old(data[..])) && out[32..] == old(out[32..])
  {
    hide Sha256, Context.Valid;
    var c := new Context();
    c.Update(data);
    assert [] + data[..] == data[..];
    c.Final(out);
  }

  // ----- hmac_sha256 -----

  /** Key, message and output may be one and the same array: key and message have been
      read to the end before the output is first written. */
  method HmacInto(key: array<u8>, msg: array<u8>, out: array<u8>)
    requires out.Length == 32
    modifies out
    ensures out[..] == Hmac(old(key[..]), old(msg[..]))
  {
    hide Sha256, Xor, XorAll, BlockKey, Context.Valid;
    var k := KeyBlock(key);
    var ip, op := PadKey(k);
    var c := new Context();
    c.Update(ip);
    c.Update(msg);
    assert [] + ip[..] + msg[..] == ip[..] + msg[..];
    var inner := new u8[32];
    c.Final(inner);
    assert inner[..] == inner[..32];
    c := new Context();
    c.Update(op);
    c.Update(inner);
    assert [] + op[..] + inner[..] == op[..] + inner[..];
    c.Final(out);
    assert out[..] == out[..32];
  }

  /** A long key is hashed first; the rest of the block is zero. */
  method KeyBlock(key: array<u8>) returns (k: array<u8>)
    ensures fresh(k) && k.Length == 64 && k[..] == BlockKey(key[..])
  {
    hide Sha256;
    k := new u8[64](i => 0);
    if key.Length > 64 {
      OneShot(key, k);
      assert k[..] == k[..32] + k[32..];
      assert k[32..] == Zeros(32);
    } else {
      forall i | 0 <= i < key.Length {
        k[i] := key[i];
      }
      assert k[..] == key[..] + Zeros(64 - key.Length);
    }
  }

  /** Inner and outer key block. */
  method PadKey(k: array<u8>) returns (ip: array<u8>, op: array<u8>)
    requires k.Length == 64
    ensures fresh(ip) && fresh(op) && ip != op
    ensures ip[..] == XorAll(k[..], Repeat(0x36, 64)) && op[..] == XorAll(k[..], Repeat(0x5c, 64))
  {
    hide Xor;
    ip, op := new u8[64], new u8[64];
    var i := 0;
    while i < 64
      invariant 0 <= i <= 64
      invariant forall j :: 0 <= j < i ==> ip[j] == Xor(k[j], 0x36) && op[j] == Xor(k[j], 0x5c)
    {
      ip[i] := Xor(k[i], 0x36);
      op[i] := Xor(k[i], 0x5c);
      i := i + 1;
    }
  }

  // ----- pbkdf2_sha256 -----

  /** One block: U is overwritten by its own HMAC, T collects the exclusive or. */
  method DeriveBlock(pw: array<u8>, salt: array<u8>, b: nat, iters: nat) returns (t: array<u8>)
    requires iters >= 1
    ensures fresh(t) && t.Length == 32 && t[..] == XorSum(pw[..], salt[..], b, iters)
  {
    hide Hmac, Xor, BigBytes, XorAll;
    ghost var pwd, slt := pw[..], salt[..];
    var sb := Filled(salt[..] + BigBytes(b, 4));
    var u := new u8[32];
    t := new u8[32];
    HmacInto(pw, sb, u);
    assert u[..] == Iterate(pwd, slt, b, 1);
    forall i | 0 <= i < 32 {
      t[i] := u[i];
    }
    assert t[..] == u[..];
    var j := 1;
    while j < iters
      invariant 1 <= j <= iters && u.Length == 32 && t.Length == 32 && u != t && fresh(u) && fresh(t)
      invariant pw[..] == pwd && salt[..] == slt
      invariant u[..] == Iterate(pwd, slt, b, j) && t[..] == XorSum(pwd, slt, b, j)
    {
      HmacInto(pw, u, u);
      XorInto(t, u);
      j := j + 1;
    }
  }

  method Filled(s: Bytes) returns (a: array<u8>)
    ensures fresh(a) && a[..] == s
  {
    a := new u8[|s|];
    forall i | 0 <= i < |s| {
      a[i] := s[i];
    }
  }

  method XorInto(t: array<u8>, u: array<u8>)
    requires t.Length == 32 == u.Length && t != u
    modifies t
    ensures t[..] == XorAll(old(t[..]), u[..])
  {
    hide Xor;
    var i := 0;
    while i < 32
      invariant 0 <= i <= 32
      invariant forall j :: 0 <= j < i ==> t[j] == Xor(old(t[..])[j], u[j])
      invariant forall j :: i <= j < 32 ==> t[j] == old(t[..])[j]
    {
      t[i] := Xor(t[i], u[i]);
      i := i + 1;
    }
  }

  /** Writes the derived key, for every length whose block count does not wrap; with a
      salt over 64 bytes or no iterations it leaves the output as it was. */
  method Derive(pw: array<u8>, salt: array<u8>, iters: nat, out: array<u8>, outlen: u32)
    requires outlen <= out.Length && out != pw && out != salt
    modifies out
    ensures salt.Length > 64 || iters == 0 ==> out[..] == old(out[..])
    ensures salt.Length <= 64 && iters > 0 ==>
              var n := Min(outlen, 32 * BlockCount(outlen));
              && out[..n] == Blocks(pw[..], salt[..], iters, BlockCount(outlen))[..n]
              && out[n..] == old(out[n..])
  {
    hide XorSum, BlockCount;
    if salt.Length > 64 || iters == 0 { return; }
    var blocks := BlockCount(outlen);
    BlockBound(outlen);
    var b := 1;
    ghost var was, pwd, slt := out[..], pw[..], salt[..];
    while b <= blocks
      invariant 1 <= b <= blocks + 1 && out.Length == |was| && pw[..] == pwd && salt[..] == slt
      invariant var n := Min(outlen, 32 * (b - 1));
                out[..n] == Blocks(pwd, slt, iters, b - 1)[..n] && out[n..] == was[n..]
    {
      var t := DeriveBlock(pw, salt, b, iters);
      var off := (b - 1) * 32;
      var n := if outlen - off < 32 then outlen - off else 32;
      ghost var before := out[..];
      forall i | 0 <= i < n {
        out[off + i] := t[i];
      }
      Extended(out[..], before, was, Blocks(pwd, slt, iters, b - 1), t[..], off, n, outlen);
      b := b + 1;
    }
  }

  /** All blocks but the last are full. */
  lemma BlockBound(outlen: u32)
    ensures BlockCount(outlen) > 0 ==> 32 * (BlockCount(outlen) - 1) < outlen
  {
  }

  lemma Extended(now: Bytes, before: Bytes, was: Bytes, done: Bytes, t: Bytes, off: nat, n: nat, outlen: nat)
    requires |now| == |before| == |was| >= outlen && |done| == off < outlen && |t| == 32 && n == Min(outlen - off, 32)
    requires before[..off] == done[..off] && before[off..] == was[off..]
    requires forall i :: 0 <= i < |now| ==> now[i] == if off <= i < off + n then t[i - off] else before[i]
    ensures var e := Min(outlen, off + 32);
            now[..e] == (done + t)[..e] && now[e..] == was[e..]
  {
    var e := Min(outlen, off + 32);
    forall i | e <= i < |now|
      ensures now[i] == was[i]
    {
      assert was[off..][i - off] == was[i] && before[off..][i - off] == before[i];
    }
    forall i | 0 <= i < e
      ensures now[i] == (done + t)[i]
    {
      if i < off {
        assert before[..off][i] == before[i] && done[..off][i] == done[i];
      }
    }
  }

  /** Within the range of the block count, that is PBKDF2 of RFC 8018. */
  lemma DerivesPbkdf2(pw: Bytes, salt: Bytes, c: nat, outlen: u32)
    requires c >= 1 && outlen <= 0xFFFF_FFE0
    ensures Min(outlen, 32 * BlockCount(outlen)) == outlen
    ensures Blocks(pw, salt, c, BlockCount(outlen))[..outlen] == Pbkdf2(pw, salt, c, outlen)
  {
    BlocksCover(outlen);
    hide Blocks;
  }
}
