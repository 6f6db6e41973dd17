/** The HMAC of src/picohash.h: the padded key is masked in the context, hashed, and unmasked again. */
module Hmac {
  import opened Addr
  import opened StunBytes
  import opened Sha256

  const IPAD: byte := 0x36
  const OPAD: byte := 0x5C

  /** The key as section 2 of RFC 2104 prepares it: hashed if longer than a block, then zeros. */
  function PreparedKey(f: Compression, key: Bytes): (k: Bytes)
    ensures |k| == BLOCK
  {
    if |key| > BLOCK then Hash(f, key) + Zeros(BLOCK - DIGEST) else key + Zeros(BLOCK - |key|)
  }

  function Mask(k: Bytes, delta: byte): (r: Bytes)
    ensures |r| == |k|
  {
    seq(|k|, i requires 0 <= i < |k| => Xor8(k[i], delta))
  }

  /** Section 2 of RFC 2104. */
  function Hmac(f: Compression, key: Bytes, text: Bytes): Bytes {
    var k := PreparedKey(f, key);
    Hash(f, Mask(k, OPAD) + Hash(f, Mask(k, IPAD) + text))
  }

  lemma MaskTwice(k: Bytes, delta: byte)
    ensures Mask(Mask(k, delta), delta) == k
  {
    forall i | 0 <= i < |k| ensures Xor8(Xor8(k[i], delta), delta) == k[i] {
      Pow2Values();
      XorBack(8, k[i], delta);
    }
  }

  class HmacContext {
    const inner: Context
    const key: array<byte>
    ghost var Key: Bytes
    ghost var text: Bytes

    ghost predicate Valid()
      reads this, inner, inner.buf, key
    {
      && key != inner.buf
      && key[..] == Key && |Key| == BLOCK
      && inner.Valid() && inner.message == Mask(Key, IPAD) + text
    }

    /** picohash_init_hmac. */
    constructor (f: Compression, secret: Bytes)
      ensures Valid() && inner.f == f && Key == PreparedKey(f, secret) && text == []
      ensures fresh(inner) && fresh(inner.buf) && fresh(key)
    {
      inner := new Context(f);
      key := new byte[BLOCK](_ => 0);
      text := [];
      Key := PreparedKey(f, secret);
      new;
      assert key[..] == Zeros(BLOCK);
      if |secret| > BLOCK {
        inner.Update(secret);
        assert [] + secret == secret;
        var digest := inner.Final();
        Put(digest);
        inner.Reset();
      } else {
        Put(secret);
      }
      ApplyKey(IPAD);
      assert [] + Mask(Key, IPAD) == Mask(Key, IPAD) + [];
    }

    method Put(x: Bytes)
      requires key.Length == BLOCK && |x| <= BLOCK && key[..] == Zeros(BLOCK)
      modifies key
      ensures key[..] == x + Zeros(BLOCK - |x|)
    {
      forall i | 0 <= i < |x| {
        key[i] := x[i];
      }
    }

    method Xor(delta: byte)
      modifies key
      ensures key[..] == Mask(old(key[..]), delta)
    {
      for i := 0 to key.Length
        invariant forall j :: 0 <= j < i ==> key[j] == Xor8(old(key[j]), delta)
        invariant forall j :: i <= j < key.Length ==> key[j] == old(key[j])
      {
        key[i] := Xor8(key[i], delta);
      }
    }

    /** _picohash_hmac_apply_key: the key is the same afterwards. */
    method ApplyKey(delta: byte)
      requires inner.Valid() && key != inner.buf && key.Length == BLOCK
      modifies inner, inner.buf, key
      ensures inner.Valid() && inner.message == old(inner.message) + Mask(old(key[..]), delta)
      ensures key[..] == old(key[..])
    {
      MaskTwice(key[..], delta);
      Xor(delta);
      inner.Update(key[..]);
      Xor(delta);
    }

    method Update(data: Bytes)
      requires Valid()
      modifies this, inner, inner.buf
      ensures Valid() && text == old(text) + data && Key == old(Key)
    {
      assert Mask(Key, IPAD) + text + data == Mask(Key, IPAD) + (text + data);
      inner.Update(data);
      text := text + data;
    }

    /** _picohash_hmac_final. The key is kept, so that the context can be reset. */
    method Final(ghost secret: Bytes) returns (digest: Bytes)
      requires Valid() && Key == PreparedKey(inner.f, secret)
      modifies inner, inner.buf, key
      ensures digest == Hmac(inner.f, secret, text)
      ensures key[..] == Key && inner.buf.Length == BLOCK
    {
      hide Hash, PreparedKey;
      var innerDigest := inner.Final();
      inner.Reset();
      ApplyKey(OPAD);
      assert [] + Mask(Key, OPAD) == Mask(Key, OPAD);
      inner.Update(innerDigest);
      digest := inner.Final();
    }

    /** _picohash_hmac_reset: ready for another text under the same key. */
    method Reset()
      requires key != inner.buf && key[..] == Key && |Key| == BLOCK && inner.buf.Length == BLOCK
      modifies this, inner, inner.buf, key
      ensures Valid() && text == [] && Key == old(Key)
    {
      inner.Reset();
      ApplyKey(IPAD);
      text := [];
      assert [] + Mask(Key, IPAD) == Mask(Key, IPAD) + [];
    }
  }

  /** hmac_sha256: one text in one piece. */
  method Compute(f: Compression, secret: Bytes, data: Bytes) returns (digest: Bytes)
    ensures digest == Hmac(f, secret, data)
  {
    var context := new HmacContext(f, secret);
    context.Update(data);
    assert [] + data == data;
    digest := context.Final(secret);
  }
}
