/** The block buffering of SHA-256 and the HMAC built on it in src/picohash.h, over any compression
    function. */
module Sha256 {
  import opened Addr
  import opened StunBytes

  const BLOCK := 64
  const DIGEST := 32

  type Block = b: Bytes | |b| == BLOCK witness Zeros(BLOCK)
  type Words = w: seq<uint32> | |w| == 8 witness Initial()

  type Compression = (Words, Block) -> Words

  function Initial(): (w: seq<uint32>)
    ensures |w| == 8
  {
    [0x6A09E667, 0xBB67AE85, 0x3C6EF372, 0xA54FF53A, 0x510E527F, 0x9B05688C, 0x1F83D9AB, 0x5BE0CD19]
  }

  // ---------- the hash function ----------

  /** Compression folded over whole blocks. */
  function Fold(f: Compression, w: Words, m: Bytes): Words
    requires |m| % BLOCK == 0
    decreases |m|
  {
    if m == [] then w else f(Fold(f, w, m[..|m| - BLOCK]), m[|m| - BLOCK..])
  }

  lemma FoldBlock(f: Compression, w: Words, m: Bytes, b: Block)
    requires |m| % BLOCK == 0
    ensures Fold(f, w, m + b) == f(Fold(f, w, m), b)
  {
    assert (m + b)[..|m + b| - BLOCK] == m && (m + b)[|m + b| - BLOCK..] == b;
  }

  /** How many zeros stand between the 1 bit and the length, for r bytes in the last block. */
  function GapOf(r: nat): (k: nat)
    requires r < BLOCK
    ensures k < BLOCK && (r + 1 + k == 56 || r + 1 + k == 120)
  {
    if r < 56 then 55 - r else 119 - r
  }

  function Gap(n: nat): (k: nat)
    ensures k < BLOCK && (n + 1 + k) % BLOCK == 56 && (n + 1 + k + 8) % BLOCK == 0
  {
    GapOf(n % BLOCK)
  }

  /** Section 5.1.1 of FIPS 180-4. */
  function Padded(m: Bytes): (p: Bytes)
    ensures |p| % BLOCK == 0
  {
    var p := m + [0x80] + Zeros(Gap(|m|)) + Bits(|m|);
    assert |p| == |m| + 1 + Gap(|m|) + 8;
    p
  }

  /** The length of a message of n bytes, in bits. */
  function Bits(n: nat): (b: Bytes)
    ensures |b| == 8
  {
    U64(n * 8 % 0x1_0000_0000_0000_0000)
  }

  /** The number of zeros is the smallest that works. */
  lemma GapIsSmallest(n: nat, k: nat)
    requires (n + 1 + k) % BLOCK == 56
    ensures Gap(n) <= k
  {
  }

  function Output(w: seq<uint32>): (d: Bytes)
    ensures |d| == 4 * |w|
  {
    if w == [] then [] else Output(w[..|w| - 1]) + U32(w[|w| - 1])
  }

  function Hash(f: Compression, m: Bytes): (d: Bytes)
    ensures |d| == DIGEST
  {
    Output(Fold(f, Initial(), Padded(m)))
  }

  // ---------- the whole blocks of a message ----------

  function Whole(n: nat): (w: nat)
    ensures w <= n < w + BLOCK && w % BLOCK == 0
  {
    n - n % BLOCK
  }

  /** The context holds the fold over the whole blocks, and what is left of the message. */
  ghost predicate Holds(f: Compression, m: Bytes, state: Words, rest: Bytes, bits: uint64) {
    && state == Fold(f, Initial(), m[..Whole(|m|)])
    && rest == m[Whole(|m|)..]
    && bits == Whole(|m|) * 8 % 0x1_0000_0000_0000_0000
  }

  lemma HoldsStart(f: Compression)
    ensures Holds(f, [], Initial(), [], 0)
  {
    hide Initial;
  }

  /** A few more bytes within the block at hand. */
  lemma HoldsMore(f: Compression, m: Bytes, state: Words, rest: Bytes, bits: uint64, x: Bytes)
    requires Holds(f, m, state, rest, bits) && |rest| + |x| < BLOCK
    ensures Holds(f, m + x, state, rest + x, bits)
  {
    hide Initial, Fold, Whole;
    WholeStays(|m|, |x|);
    assert (m + x)[..Whole(|m|)] == m[..Whole(|m|)];
    assert (m + x)[Whole(|m|)..] == m[Whole(|m|)..] + x;
  }

  /** The block at hand completed. */
  lemma HoldsBlock(f: Compression, m: Bytes, state: Words, rest: Bytes, bits: uint64, x: Bytes)
    requires Holds(f, m, state, rest, bits) && |rest| + |x| == BLOCK
    ensures Holds(f, m + x, f(state, rest + x), [], (bits + 8 * BLOCK) % 0x1_0000_0000_0000_0000)
  {
    hide Initial, Fold, Whole;
    var w := Whole(|m|);
    WholeNext(|m|, |x|);
    assert m + x == m[..w] + (rest + x);
    FoldBlock(f, Initial(), m[..w], rest + x);
    assert (m + x)[..|m + x|] == m + x;
    assert (m + x)[|m + x|..] == [];
    BitsAdd(w);
  }

  lemma WholeStays(n: nat, x: nat)
    requires n - Whole(n) + x < BLOCK
    ensures Whole(n + x) == Whole(n) <= n
  {
  }

  lemma WholeNext(n: nat, x: nat)
    requires n - Whole(n) + x == BLOCK
    ensures Whole(n) <= n < Whole(n) + BLOCK && Whole(n) % BLOCK == 0
    ensures Whole(n + x) == n + x == Whole(n) + BLOCK
  {
  }

  lemma BitsAdd(w: nat)
    ensures (w * 8 % 0x1_0000_0000_0000_0000 + 8 * BLOCK) % 0x1_0000_0000_0000_0000 == (w + BLOCK) * 8 % 0x1_0000_0000_0000_0000
  {
  }

  class Context {
    const f: Compression
    const buf: array<byte>
    var length: uint64
    var state: Words
    var curlen: nat
    ghost var message: Bytes

    ghost predicate Valid()
      reads this, buf
    {
      && buf.Length == BLOCK && curlen < BLOCK
      && Holds(f, message, state, buf[..curlen], length)
    }

    constructor (f: Compression)
      ensures this.f == f && Valid() && message == [] && fresh(buf)
    {
      hide Initial, Holds;
      this.f := f;
      buf := new byte[BLOCK](_ => 0);
      length, state, curlen := 0, Initial(), 0;
      message := [];
      HoldsStart(f);
    }

    /** _picohash_sha256_init. */
    method Reset()
      requires buf.Length == BLOCK
      modifies this
      ensures Valid() && message == []
    {
      hide Initial, Holds;
      length, state, curlen := 0, Initial(), 0;
      message := [];
      HoldsStart(f);
      assert buf[..0] == [];
    }

    /** memcpy into the buffer. */
    method Copy(x: Bytes)
      requires buf.Length == BLOCK && curlen + |x| <= BLOCK
      modifies buf, `curlen
      ensures curlen == old(curlen) + |x| && buf[..curlen] == old(buf[..curlen]) + x
    {
      forall i | 0 <= i < |x| {
        buf[curlen + i] := x[i];
      }
      curlen := curlen + |x|;
    }

    /** _picohash_sha256_update. However the message is cut up, the context depends on the whole of it only. */
    method Update(data: Bytes)
      requires Valid()
      modifies this, buf
      ensures Valid() && message == old(message) + data
    {
      hide Holds;
      ghost var before := message;
      var i := 0;
      assert before + data[..0] == before;
      while i < |data|
        invariant 0 <= i <= |data| && Valid() && message == before + data[..i]
      {
        var n := if curlen == 0 && |data| - i >= BLOCK then BLOCK
                 else if BLOCK - curlen > |data| - i then |data| - i else BLOCK - curlen;
        var x := data[i..i + n];
        assert data[..i + n] == data[..i] + x;
        assert before + data[..i] + x == before + data[..i + n];
        if curlen == 0 && |data| - i >= BLOCK {
          CompressDirectly(x);
        } else {
          AddToBuffer(x);
        }
        i := i + n;
      }
      assert data[..i] == data;
    }

    method CompressDirectly(x: Block)
      requires Valid() && curlen == 0
      modifies this
      ensures Valid() && message == old(message) + x
    {
      hide Holds;
      HoldsBlock(f, message, state, buf[..curlen], length, x);
      assert buf[..curlen] + x == x;
      state := f(state, x);
      length := (length + 8 * BLOCK) % 0x1_0000_0000_0000_0000;
      message := message + x;
    }

    method AddToBuffer(x: Bytes)
      requires Valid() && curlen + |x| <= BLOCK
      modifies this, buf
      ensures Valid() && message == old(message) + x
    {
      hide Holds;
      ghost var rest := buf[..curlen];
      if curlen + |x| == BLOCK {
        HoldsBlock(f, message, state, rest, length, x);
      } else {
        HoldsMore(f, message, state, rest, length, x);
      }
      Copy(x);
      message := message + x;
      if curlen == BLOCK {
        assert buf[..] == buf[..curlen];
        state := f(state, buf[..]);
        length := (length + 8 * BLOCK) % 0x1_0000_0000_0000_0000;
        curlen := 0;
        assert buf[..0] == [];
      }
    }

    /** _picohash_sha256_do_final: exactly the padding is compressed on top of the message. */
    method Final() returns (digest: Bytes)
      requires Valid()
      modifies this, buf
      ensures digest == Hash(f, old(message)) && buf.Length == BLOCK
    {
      hide Fold, Padded, Tail, Output, U64, Initial;
      ghost var m := message;
      TailIsPadding(f, m);
      LengthIsWhole(|m|);
      length := (length + curlen * 8) % 0x1_0000_0000_0000_0000;
      Finish();
      digest := Digest();
    }

    /** The 1 bit, the zeros and the length, into one block or two. */
    method Finish()
      requires buf.Length == BLOCK && curlen < BLOCK
      modifies buf, `curlen, `state
      ensures state == Tail(f, old(state), old(buf[..curlen]), U64(length))
    {
      hide U64, Zeros;
      ghost var rest := buf[..curlen];
      Copy([0x80]);
      if curlen > 56 {
        Fill(BLOCK);
        assert buf[..] == buf[..curlen];
        state := f(state, buf[..]);
        curlen := 0;
        Fill(56);
        assert buf[..curlen] == Zeros(56);
      } else {
        Fill(56);
      }
      Copy(U64(length));
      assert buf[..] == buf[..curlen];
      state := f(state, buf[..]);
    }

    /** Zeros up to the given offset. */
    method Fill(to: nat)
      requires buf.Length == BLOCK && curlen <= to <= BLOCK
      modifies buf, `curlen
      ensures curlen == to && buf[..curlen] == old(buf[..curlen]) + Zeros(to - old(curlen))
    {
      ghost var start := curlen;
      while curlen < to
        invariant start <= curlen <= to && buf[..curlen] == old(buf[..curlen]) + Zeros(curlen - start)
      {
        Copy([0]);
        assert Zeros(curlen - start) == Zeros(curlen - 1 - start) + [0];
      }
    }

    /** The state words, most significant byte first. */
    method Digest() returns (digest: Bytes)
      ensures digest == Output(state)
    {
      digest := [];
      for i := 0 to 8
        invariant digest == Output(state[..i])
      {
        assert state[..i + 1][..i] == state[..i];
        digest := digest + U32(state[i]);
      }
      assert state[..8] == state;
    }
  }

  lemma LengthIsWhole(n: nat)
    ensures (Whole(n) * 8 % 0x1_0000_0000_0000_0000 + n % BLOCK * 8) % 0x1_0000_0000_0000_0000 == n * 8 % 0x1_0000_0000_0000_0000
  {
  }

  /** What finishing makes of the state: the padding fills the last block, or that and one more. */
  function Tail(f: Compression, state: Words, rest: Bytes, trailer: Bytes): Words
    requires |rest| < BLOCK && |trailer| == 8
  {
    if |rest| + 1 > 56 then f(f(state, rest + [0x80] + Zeros(BLOCK - |rest| - 1)), Zeros(56) + trailer)
    else f(state, rest + [0x80] + Zeros(56 - |rest| - 1) + trailer)
  }

  lemma ZerosAdd(a: nat, b: nat)
    ensures Zeros(a + b) == Zeros(a) + Zeros(b)
  {
  }

  lemma FoldTail(f: Compression, w: Words, p: Bytes, rest: Bytes, trailer: Bytes)
    requires |p| % BLOCK == 0 && |rest| < BLOCK && |trailer| == 8
    ensures |p + (rest + [0x80] + Zeros(GapOf(|rest|)) + trailer)| % BLOCK == 0
    ensures Fold(f, w, p + (rest + [0x80] + Zeros(GapOf(|rest|)) + trailer)) == Tail(f, Fold(f, w, p), rest, trailer)
  {
    hide Fold, Zeros;
    var all := rest + [0x80] + Zeros(GapOf(|rest|)) + trailer;
    assert |all| == BLOCK || |all| == 2 * BLOCK;
    if |rest| + 1 > 56 {
      var a, b := rest + [0x80] + Zeros(BLOCK - |rest| - 1), Zeros(56) + trailer;
      ZerosAdd(BLOCK - |rest| - 1, 56);
      assert all == a + b;
      assert p + all == p + a + b;
      FoldBlock(f, w, p, a);
      FoldBlock(f, w, p + a, b);
    } else {
      FoldBlock(f, w, p, all);
    }
  }

  lemma TailIsPadding(f: Compression, m: Bytes)
    ensures Fold(f, Initial(), Padded(m)) ==
              Tail(f, Fold(f, Initial(), m[..Whole(|m|)]), m[Whole(|m|)..], Bits(|m|))
  {
    hide Fold, Tail, Initial, Bits, Zeros;
    var w := Whole(|m|);
    var trailer := Bits(|m|);
    var rest := m[w..];
    FoldTail(f, Initial(), m[..w], rest, trailer);
    assert |rest| == |m| % BLOCK;
    assert m[..w] + rest == m;
    assert Padded(m) == m[..w] + (rest + [0x80] + Zeros(GapOf(|rest|)) + trailer);
  }
}
