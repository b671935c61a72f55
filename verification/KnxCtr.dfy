/**
 * AES-128 in counter mode for KNXnet/IP Secure, with the block cipher as an uninterpreted function:
 * a 16-byte big-endian counter incremented in place, keystream block S0 for the MAC and S1, S2, ...
 * for the payload.
 */
module KnxCtr {
  import opened Binary

  // ---- The counter ----

  /** Big-endian value. */
  function CounterValue(c: seq<byte>): (v: int)
    ensures v >= 0
  {
    if c == [] then 0 else 256 * CounterValue(c[..|c| - 1]) + c[|c| - 1]
  }

  function Pow256(n: nat): (p: int)
    ensures p >= 1
  {
    if n == 0 then 1 else 256 * Pow256(n - 1)
  }

  /** `++b` on a byte. */
  function Wrapped(b: byte): byte {
    ((b + 1) % 256)
  }

  /** Increments the last byte; when it wraps, the rest is incremented too. */
  function Successor(c: seq<byte>): (r: seq<byte>)
    ensures |r| == |c|
  {
    if c == [] then []
    else (if Wrapped(c[|c| - 1]) != 0 then c[..|c| - 1] else Successor(c[..|c| - 1])) + [Wrapped(c[|c| - 1])]
  }

  lemma {:induction false} CounterBelow(c: seq<byte>)
    ensures CounterValue(c) < Pow256(|c|)
  {
    if c != [] {
      CounterBelow(c[..|c| - 1]);
    }
  }

  /** The successor is plus one modulo 256^n on the big-endian value. */
  lemma {:induction false} SuccessorIsPlusOne(c: seq<byte>)
    ensures CounterValue(Successor(c)) == (CounterValue(c) + 1) % Pow256(|c|)
  {
    if c != [] {
      var init, last := c[..|c| - 1], c[|c| - 1];
      SuccessorIsPlusOne(init);
      CounterBelow(init);
      SuccessorValue(c);
      WrapAround(CounterValue(init), last, Pow256(|init|), Pow256(|c|));
    }
  }

  lemma SuccessorValue(c: seq<byte>)
    requires c != []
    ensures var init, last := c[..|c| - 1], c[|c| - 1];
            CounterValue(Successor(c)) ==
              if last < 255 then 256 * CounterValue(init) + last + 1 else 256 * CounterValue(Successor(init))
  {
    var next := Successor(c);
    assert next[..|next| - 1] == if c[|c| - 1] < 255 then c[..|c| - 1] else Successor(c[..|c| - 1]);
  }

  lemma WrapAround(high: int, last: byte, p: int, q: int)
    requires 0 <= high < p && q == 256 * p
    ensures (256 * high + last + 1) % q == if last < 255 then 256 * high + last + 1 else 256 * ((high + 1) % p)
  {
    Modulo(256 * high + last + 1, q);
    Modulo(high + 1, p);
  }

  lemma Modulo(x: int, m: int)
    requires 0 <= x <= m && m > 0
    ensures x % m == if x == m then 0 else x
  {
    if x == m {
      assert m % m == 0;
    }
  }

  /** The bytes behind position `i` wrap, the one at `i` does not, the ones before stay. */
  lemma {:induction false} SuccessorBytes(c: seq<byte>, i: int)
    requires -1 <= i < |c|
    requires forall k :: i < k < |c| ==> Wrapped(c[k]) == 0
    requires i >= 0 ==> Wrapped(c[i]) != 0
    ensures forall k :: 0 <= k < |c| ==> Successor(c)[k] == if k < i then c[k] else Wrapped(c[k])
  {
    if c != [] && i < |c| - 1 {
      SuccessorBytes(c[..|c| - 1], i);
    }
  }

  /** Increments in place, from the last byte up, until a byte does not wrap. */
  method IncrementCounter(counter: array<byte>)
    modifies counter
    ensures counter[..] == Successor(old(counter[..]))
  {
    ghost var before := counter[..];
    var i := counter.Length - 1;
    while i >= 0
      invariant -1 <= i < counter.Length
      invariant forall k :: 0 <= k <= i ==> counter[k] == before[k]
      invariant forall k :: i < k < counter.Length ==> counter[k] == Wrapped(before[k]) == 0
    {
      counter[i] := Wrapped(counter[i]);
      if counter[i] != 0 {
        break;
      }
      i := i - 1;
    }
    SuccessorBytes(before, i);
  }

  /** The counter after `n` increments. */
  function Advanced(c: seq<byte>, n: nat): (r: seq<byte>)
    ensures |r| == |c|
  {
    if n == 0 then c else Successor(Advanced(c, n - 1))
  }

  /** 2^128 */
  const COUNTER_MODULUS := 0x1_0000_0000_0000_0000_0000_0000_0000_0000

  lemma CounterModulus()
    ensures Pow256(16) == COUNTER_MODULUS
  {
    assert Pow256(4) == 0x1_0000_0000;
    assert Pow256(8) == 0x1_0000_0000_0000_0000;
    assert Pow256(12) == 0x1_0000_0000_0000_0000_0000_0000;
  }

  /** `n` increments of a 16-byte counter add `n` modulo 2^128. */
  lemma {:induction false} AdvancedValue(c: seq<byte>, n: nat)
    requires |c| == 16
    ensures CounterValue(Advanced(c, n)) == (CounterValue(c) + n) % COUNTER_MODULUS
  {
    CounterModulus();
    if n == 0 {
      CounterBelow(c);
    } else {
      AdvancedValue(c, n - 1);
      var before := Advanced(c, n - 1);
      assert Advanced(c, n) == Successor(before);
      SuccessorIsPlusOne(before);
      NextModulo(CounterValue(c) + n - 1);
    }
  }

  lemma NextModulo(x: int)
    ensures (x % COUNTER_MODULUS + 1) % COUNTER_MODULUS == (x + 1) % COUNTER_MODULUS
  {
  }

  lemma DistinctModulo(x: int, y: int)
    requires x < y < x + COUNTER_MODULUS
    ensures x % COUNTER_MODULUS != y % COUNTER_MODULUS
  {
  }

  /** No two of the first 2^128 keystream blocks come from the same counter block. */
  lemma CountersDistinct(c: seq<byte>, m: nat, n: nat)
    requires |c| == 16 && m < n < COUNTER_MODULUS
    ensures Advanced(c, m) != Advanced(c, n)
  {
    AdvancedValue(c, m);
    AdvancedValue(c, n);
    DistinctModulo(CounterValue(c) + m, CounterValue(c) + n);
  }

  // ---- The keystream ----

  /** The block cipher under a fixed key. */
  type Cipher = f: seq<byte> -> seq<byte> | forall s: seq<byte> :: |f(s)| == 16 witness s => seq(16, i => 0)

  /** Exclusive or of the lowest `n` bits. */
  function XorBits(a: nat, b: nat, n: nat): (r: nat)
    ensures r < Pow2(n)
  {
    if n == 0 then 0 else 2 * XorBits(a / 2, b / 2, n - 1) + if a % 2 != b % 2 then 1 else 0
  }

  lemma ByteRange(n: nat)
    requires n == 8
    ensures Pow2(n) == 256
  {
    assert Pow2(n - 6) == 4;
    assert Pow2(n - 4) == 16;
    assert Pow2(n - 2) == 64;
  }

  const BYTE_BITS: nat := 8

  function Xor(a: byte, b: byte): byte {
    XorBits(a, b, BYTE_BITS)
  }

  lemma XorBitsParts(a: nat, k: nat, n: nat)
    requires n > 0
    ensures XorBits(a, k, n) / 2 == XorBits(a / 2, k / 2, n - 1)
    ensures XorBits(a, k, n) % 2 == if a % 2 != k % 2 then 1 else 0
  {
  }

  /** Bit `i` counted from the lowest. */
  predicate Bit(x: nat, i: nat) {
    x / Pow2(i) % 2 == 1
  }

  lemma BitAbove(x: nat, i: nat)
    requires i > 0
    ensures Bit(x, i) <==> Bit(x / 2, i - 1)
  {
    HalvesFirst(x, Pow2(i - 1));
  }

  lemma HalvesFirst(x: nat, p: nat)
    requires p > 0
    ensures x / (2 * p) == x / 2 / p
  {
    var q, r := x / 2 / p, x / 2 % p;
    assert x == 2 * (q * p + r) + x % 2;
    assert 2 * (q * p + r) + x % 2 == q * (2 * p) + (2 * r + x % 2);
    QuotientIs(x, 2 * p, q, 2 * r + x % 2);
  }

  lemma QuotientIs(x: nat, d: nat, q: nat, rest: nat)
    requires x == q * d + rest && rest < d
    ensures x / d == q
  {
    var found := x / d;
    assert x == found * d + x % d;
    SameQuotient(d, q, rest, found, x % d);
  }

  lemma SameQuotient(d: nat, q: nat, rest: nat, q': nat, rest': nat)
    requires q * d + rest == q' * d + rest' && rest < d && rest' < d
    ensures q == q'
  {
    var steps := q - q';
    assert steps * d == rest' - rest;
  }

  lemma BitsUp(x: nat, a: nat, k: nat, i: nat)
    requires i > 0 && (Bit(x / 2, i - 1) <==> Bit(a / 2, i - 1) != Bit(k / 2, i - 1))
    ensures Bit(x, i) <==> Bit(a, i) != Bit(k, i)
  {
    BitAbove(x, i);
    BitAbove(a, i);
    BitAbove(k, i);
  }

  lemma LowestBits(x: nat, a: nat, k: nat)
    requires x % 2 == if a % 2 != k % 2 then 1 else 0
    ensures Bit(x, 0) <==> Bit(a, 0) != Bit(k, 0)
  {
    assert Pow2(0) == 1;
  }

  lemma {:induction false} XorBit(a: nat, k: nat, n: nat, i: nat)
    requires i < n
    ensures Bit(XorBits(a, k, n), i) <==> Bit(a, i) != Bit(k, i)
  {
    var x := XorBits(a, k, n);
    XorBitsParts(a, k, n);
    if i == 0 {
      LowestBits(x, a, k);
    } else {
      XorBit(a / 2, k / 2, n - 1, i - 1);
      BitsUp(x, a, k, i);
    }
  }

  /** Exclusive or, bit by bit. */
  lemma XorIsBitwise(a: byte, k: byte, i: nat)
    requires i < 8
    ensures Bit(Xor(a, k), i) <==> Bit(a, i) != Bit(k, i)
  {
    XorBit(a, k, BYTE_BITS, i);
  }

  lemma {:induction false} XorBitsTwice(a: nat, k: nat, n: nat)
    requires a < Pow2(n)
    ensures XorBits(XorBits(a, k, n), k, n) == a
  {
    if n > 0 {
      var once := XorBits(a, k, n);
      XorBitsParts(a, k, n);
      XorBitsParts(once, k, n);
      XorBitsTwice(a / 2, k / 2, n - 1);
      var twice := XorBits(once, k, n);
      assert twice / 2 == a / 2 && twice % 2 == a % 2;
    }
  }

  lemma XorTwice(a: byte, k: byte)
    ensures Xor(Xor(a, k), k) == a
  {
    ByteRange(BYTE_BITS);
    XorBitsTwice(a, k, BYTE_BITS);
  }

  /** The keystream: the encrypted counters `at(0)`, `at(1)`, ... one after the other. */
  function Keystream(enc: Cipher, at: nat -> seq<byte>, length: nat): (r: seq<byte>)
    ensures |r| == length
  {
    if length == 0 then [] else Keystream(enc, at, length - 1) + [KeystreamByte(enc, at, length - 1)]
  }

  lemma {:induction false} KeystreamAt(enc: Cipher, at: nat -> seq<byte>, length: nat, j: nat)
    requires j < length
    ensures Keystream(enc, at, length)[j] == KeystreamByte(enc, at, j)
  {
    if j < length - 1 {
      KeystreamAt(enc, at, length - 1, j);
    }
  }

  function KeystreamByte(enc: Cipher, at: nat -> seq<byte>, j: nat): byte {
    enc(at(j / 16))[j % 16]
  }

  lemma KeystreamBlock(enc: Cipher, at: nat -> seq<byte>, length: nat, n: nat, i: nat, j: nat)
    requires i < 16 && j == 16 * n + i < length
    ensures Keystream(enc, at, length)[j] == enc(at(n))[i]
  {
    KeystreamAt(enc, at, length, j);
    BlockOf(n, i, j);
  }

  /** A block of the keystream is one encrypted counter. */
  lemma {:induction false} KeystreamBlocks(enc: Cipher, at: nat -> seq<byte>, length: nat, n: nat, offset: nat,
                                           block: nat)
    requires offset == 16 * n && block <= 16 && offset + block <= length
    ensures Keystream(enc, at, length)[offset..offset + block] == enc(at(n))[..block]
  {
    if block > 0 {
      var stream, key := Keystream(enc, at, length), enc(at(n));
      KeystreamBlocks(enc, at, length, n, offset, block - 1);
      KeystreamBlock(enc, at, length, n, block - 1, offset + block - 1);
      assert stream[offset..offset + block] == stream[offset..offset + block - 1] + [stream[offset + block - 1]];
      assert key[..block] == key[..block - 1] + [key[block - 1]];
    }
  }

  lemma BlockOf(n: nat, i: nat, j: nat)
    requires i < 16 && j == 16 * n + i
    ensures j / 16 == n && j % 16 == i
  {
  }

  /** The counters of successive blocks, the first one after `skip` increments. */
  function CounterAt(counter0: seq<byte>, skip: nat): nat -> seq<byte> {
    (n: nat) => Advanced(counter0, skip + n)
  }

  lemma AdvancedNext(c: seq<byte>, k: nat)
    ensures Advanced(c, k + 1) == Successor(Advanced(c, k))
  {
  }

  lemma CountersFollow(counter0: seq<byte>, skip: nat)
    ensures forall n: nat :: CounterAt(counter0, skip)(n + 1) == Successor(CounterAt(counter0, skip)(n))
  {
    forall n: nat ensures CounterAt(counter0, skip)(n + 1) == Successor(CounterAt(counter0, skip)(n)) {
      AdvancedNext(counter0, skip + n);
    }
  }

  lemma FirstCounter(counter0: seq<byte>)
    ensures CounterAt(counter0, 0)(0) == counter0
    ensures CounterAt(counter0, 1)(0) == Successor(counter0)
  {
    assert Advanced(counter0, 0) == counter0;
    assert Advanced(counter0, 1) == Successor(Advanced(counter0, 0));
  }

  /** Byte for byte, the data xored with the stream. */
  ghost predicate IsXor(result: seq<byte>, data: seq<byte>, stream: seq<byte>) {
    && |result| <= |data| && |result| <= |stream|
    && forall j :: 0 <= j < |result| ==> result[j] == Xor(data[j], stream[j])
  }

  method XorWithKeystream(enc: Cipher, counter: array<byte>, data: array<byte>, length: nat, advanceFirst: bool)
    returns (result: array<byte>)
    requires length <= data.Length && counter != data
    modifies counter
    ensures fresh(result) && result.Length == length
    ensures IsXor(result[..], data[..], Keystream(enc, CounterAt(old(counter[..]), if advanceFirst then 1 else 0),
              result.Length))
    ensures 0 < length <= 16 && !advanceFirst ==> counter[..] == old(counter[..])
  {
    ghost var at := CounterAt(counter[..], if advanceFirst then 1 else 0);
    CountersFollow(counter[..], if advanceFirst then 1 else 0);
    FirstCounter(counter[..]);
    result := new byte[length];
    XorBlocks(enc, counter, data, result, advanceFirst, at);
  }

  /** The loop over the blocks. */
  method XorBlocks(enc: Cipher, counter: array<byte>, data: array<byte>, result: array<byte>, advanceFirst: bool,
                   ghost at: nat -> seq<byte>)
    requires result.Length <= data.Length && counter != data && result != data && result != counter
    requires at(0) == if advanceFirst then Successor(counter[..]) else counter[..]
    requires forall n: nat :: at(n + 1) == Successor(at(n))
    modifies counter, result
    ensures IsXor(result[..], data[..], Keystream(enc, at, result.Length))
    ensures 0 < result.Length <= 16 ==> counter[..] == at(0)
  {
    var length := result.Length;
    ghost var stream: seq<byte> := Keystream(enc, at, length);
    var advance := advanceFirst;
    var offset := 0;
    ghost var n: nat := 0;
    while offset < length
      invariant offset == 16 * n && advance == (advanceFirst || n > 0)
      invariant counter[..] == if n == 0 then old(counter[..]) else at(n - 1)
      invariant length > 0 ==> offset < length + 16
      invariant forall j :: 0 <= j < offset && j < length ==> result[j] == Xor(data[j], stream[j])
    {
      ghost var before := counter[..];
      var keystream := NextKeystream(enc, counter, advance);
      assert n > 0 ==> at(n - 1 + 1) == Successor(before);
      assert keystream == enc(at(n));
      advance := true;
      var block := if length - offset < 16 then length - offset else 16;
      KeystreamBlocks(enc, at, length, n, offset, block);
      XorBlock(data, keystream, result, offset, block, stream);
      offset := offset + 16;
      n := n + 1;
    }
  }

  /** Advances the counter, if it is to be advanced first, and encrypts it. */
  method NextKeystream(enc: Cipher, counter: array<byte>, advance: bool) returns (keystream: seq<byte>)
    modifies counter
    ensures counter[..] == if advance then Successor(old(counter[..])) else old(counter[..])
    ensures keystream == enc(counter[..]) && |keystream| == 16
  {
    if advance {
      IncrementCounter(counter);
    }
    keystream := enc(counter[..]);
  }

  /** The inner loop: one block of the data. */
  method XorBlock(data: array<byte>, keystream: seq<byte>, result: array<byte>, offset: nat, block: nat,
                  ghost stream: seq<byte>)
    requires |keystream| == 16 && block <= 16 && result != data
    requires offset + block <= data.Length && offset + block <= result.Length <= |stream|
    requires keystream[..block] == stream[offset..offset + block]
    requires forall j :: 0 <= j < offset ==> result[j] == Xor(data[j], stream[j])
    modifies result
    ensures forall j :: 0 <= j < offset + block ==> result[j] == Xor(data[j], stream[j])
  {
    for i := 0 to block
      invariant forall j :: 0 <= j < offset + i ==> result[j] == Xor(data[j], stream[j])
    {
      assert keystream[i] == keystream[..block][i] == stream[offset..offset + block][i] == stream[offset + i];
      result[offset + i] := Xor(data[offset + i], keystream[i]);
    }
  }

  /** What counter mode makes of a payload and a MAC: S0 on the MAC, S1, S2, ... on the payload. */
  ghost predicate IsCtr(enc: Cipher, counter0: seq<byte>, payload: seq<byte>, mac: seq<byte>, payload': seq<byte>,
                        mac': seq<byte>) {
    && |payload'| == |payload| && IsXor(payload', payload, Keystream(enc, CounterAt(counter0, 1), |payload|))
    && |mac'| == 16 && IsXor(mac', mac, Keystream(enc, CounterAt(counter0, 0), |mac'|))
  }

  method Ctr(enc: Cipher, counter0: array<byte>, payload: array<byte>, mac: array<byte>)
    returns (encPayload: array<byte>, encMac: array<byte>)
    requires mac.Length >= 16
    ensures IsCtr(enc, counter0[..], payload[..], mac[..], encPayload[..], encMac[..])
  {
    var ctr := new byte[counter0.Length](i requires 0 <= i < counter0.Length reads counter0 => counter0[i]);
    assert ctr[..] == counter0[..];
    encMac := XorWithKeystream(enc, ctr, mac, 16, false);
    encPayload := XorWithKeystream(enc, ctr, payload, payload.Length, true);
  }

  /** A byte xored with the keystream, by its block `n` and its place `i` there. */
  lemma XoredByte(enc: Cipher, at: nat -> seq<byte>, result: seq<byte>, data: seq<byte>, j: nat, n: nat, i: nat)
    requires j < |result| && i < 16 && j == 16 * n + i && IsXor(result, data, Keystream(enc, at, |result|))
    ensures result[j] == Xor(data[j], enc(at(n))[i])
  {
    KeystreamBlock(enc, at, |result|, n, i, j);
  }

  lemma CounterAtIs(counter0: seq<byte>, skip: nat, n: nat)
    ensures CounterAt(counter0, skip)(n) == Advanced(counter0, skip + n)
  {
  }

  lemma PayloadByte(enc: Cipher, counter0: seq<byte>, payload: seq<byte>, payload': seq<byte>, j: nat)
    requires j < |payload'| == |payload| && IsXor(payload', payload, Keystream(enc, CounterAt(counter0, 1), |payload'|))
    ensures payload'[j] == Xor(payload[j], enc(Advanced(counter0, 1 + j / 16))[j % 16])
  {
    XoredByte(enc, CounterAt(counter0, 1), payload', payload, j, j / 16, j % 16);
    CounterAtIs(counter0, 1, j / 16);
  }

  lemma MacByte(enc: Cipher, counter0: seq<byte>, mac: seq<byte>, mac': seq<byte>, j: nat)
    requires j < |mac'| <= 16 && IsXor(mac', mac, Keystream(enc, CounterAt(counter0, 0), |mac'|))
    ensures mac'[j] == Xor(mac[j], enc(counter0)[j])
  {
    XoredByte(enc, CounterAt(counter0, 0), mac', mac, j, 0, j);
    FirstCounter(counter0);
  }

  /** Payload byte j meets E(counter0 + 1 + j/16)[j%16], MAC byte j meets E(counter0)[j]. */
  lemma CtrBytes(enc: Cipher, counter0: seq<byte>, payload: seq<byte>, mac: seq<byte>, payload': seq<byte>,
                 mac': seq<byte>, j: nat)
    requires IsCtr(enc, counter0, payload, mac, payload', mac')
    ensures j < |payload| ==> payload'[j] == Xor(payload[j], enc(Advanced(counter0, 1 + j / 16))[j % 16])
    ensures j < 16 ==> mac'[j] == Xor(mac[j], enc(counter0)[j])
  {
    if j < |payload| {
      PayloadByte(enc, counter0, payload, payload', j);
    }
    if j < 16 {
      MacByte(enc, counter0, mac, mac', j);
    }
  }

  /** Counter mode undoes itself: the same routine decrypts. */
  lemma CtrTwiceIsIdentity(enc: Cipher, counter0: seq<byte>, payload: seq<byte>, mac: seq<byte>,
                           payload': seq<byte>, mac': seq<byte>, payload'': seq<byte>, mac'': seq<byte>)
    requires |mac| == 16
    requires IsCtr(enc, counter0, payload, mac, payload', mac')
    requires IsCtr(enc, counter0, payload', mac', payload'', mac'')
    ensures payload'' == payload && mac'' == mac
  {
    XorStreamTwice(payload, Keystream(enc, CounterAt(counter0, 1), |payload|), payload', payload'');
    XorStreamTwice(mac, Keystream(enc, CounterAt(counter0, 0), |mac|), mac', mac'');
  }

  lemma XorStreamTwice(data: seq<byte>, stream: seq<byte>, once: seq<byte>, twice: seq<byte>)
    requires |twice| == |once| == |data| && IsXor(once, data, stream) && IsXor(twice, once, stream)
    ensures twice == data
  {
    forall j | 0 <= j < |data| ensures twice[j] == data[j] {
      XorTwice(data[j], stream[j]);
    }
  }
}
