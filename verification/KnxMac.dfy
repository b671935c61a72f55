/** What the CBC-MAC of KNXnet/IP Secure is computed over. */
module KnxMac {
  import opened Binary

  function Zeros(n: nat): (z: seq<byte>)
    ensures |z| == n && forall i :: 0 <= i < n ==> z[i] == 0
  {
    seq(n, i => 0)
  }

  /** Length of the whole input, rounded up to blocks of 16. */
  function PaddedLength(unpadded: nat): (n: nat)
    ensures n % 16 == 0 && unpadded <= n < unpadded + 16
  {
    (unpadded + 15) / 16 * 16
  }

  /** Block 0, the length of the additional data in two bytes, the additional data, the payload, zeros. */
  function Layout(block0: seq<byte>, ad: seq<byte>, payload: seq<byte>): (blocks: seq<byte>)
    ensures |blocks| == PaddedLength(|block0| + 2 + |ad| + |payload|)
  {
    block0 + [|ad| / 256 % 256, |ad| % 256] + ad + payload
    + Zeros(PaddedLength(|block0| + 2 + |ad| + |payload|) - (|block0| + 2 + |ad| + |payload|))
  }

  /** `Array.Copy(data, 0, blocks, pos, data.Length)` behind what has been filled so far. */
  method CopyTo(data: seq<byte>, blocks: array<byte>, pos: nat, ghost filled: seq<byte>)
    requires pos == |filled| && pos + |data| <= blocks.Length
    requires blocks[..] == filled + Zeros(blocks.Length - pos)
    modifies blocks
    ensures blocks[..] == filled + data + Zeros(blocks.Length - pos - |data|)
  {
    for i := 0 to |data|
      invariant blocks[..] == filled + data[..i] + Zeros(blocks.Length - pos - i)
    {
      ghost var before := blocks[..];
      blocks[pos + i] := data[i];
      assert blocks[..] == before[..pos + i] + [data[i]] + before[pos + i + 1..];
    }
    assert data[..|data|] == data;
  }

  /** Fills the blocks that go through the cipher; a missing block 0 is 16 zeros, a missing payload is empty. */
  method FillBlocks(ad: seq<byte>, payload: seq<byte>, block0: seq<byte>) returns (blocks: array<byte>)
    ensures fresh(blocks) && blocks[..] == Layout(block0, ad, payload)
  {
    var unpadded := |block0| + 2 + |ad| + |payload|;
    var padded := PaddedLength(unpadded);
    var adLength: seq<byte> := [|ad| / 256 % 256, |ad| % 256];
    blocks := new byte[padded](i => 0);
    assert blocks[..] == [] + Zeros(padded);
    CopyTo(block0, blocks, 0, []);
    assert [] + block0 == block0;
    CopyTo(adLength, blocks, |block0|, block0);
    CopyTo(ad, blocks, |block0| + 2, block0 + adLength);
    CopyTo(payload, blocks, |block0| + 2 + |ad|, block0 + adLength + ad);
  }

  // ---- What the layout tells apart ----

  /** A payload with the zeros that fill its last block. */
  function ZeroFilled(payload: seq<byte>, length: nat): seq<byte>
    requires |payload| <= length
  {
    payload + Zeros(length - |payload|)
  }

  lemma LayoutParts(block0: seq<byte>, ad: seq<byte>, payload: seq<byte>)
    requires |block0| == 16
    ensures var blocks := Layout(block0, ad, payload);
            && |blocks| >= 18 + |ad| + |payload|
            && blocks[..16] == block0 && blocks[16] == |ad| / 256 % 256 && blocks[17] == |ad| % 256
            && blocks[18..18 + |ad|] == ad
            && blocks[18 + |ad|..] == ZeroFilled(payload, |blocks| - 18 - |ad|)
  {
  }

  /**
   * Two inputs with at most 65535 bytes of additional data have the same blocks exactly when block 0 and the
   * additional data agree and the payloads differ by no more than zeros at the end, within the last block.
   */
  lemma SameLayoutIff(block0: seq<byte>, ad: seq<byte>, payload: seq<byte>, block0': seq<byte>, ad': seq<byte>,
                      payload': seq<byte>)
    requires |block0| == |block0'| == 16 && |ad| < 65536 && |ad'| < 65536
    ensures Layout(block0, ad, payload) == Layout(block0', ad', payload') <==>
              var length, length' := |Layout(block0, ad, payload)| - 18 - |ad|,
                  |Layout(block0', ad', payload')| - 18 - |ad'|;
              && block0 == block0' && ad == ad' && length == length'
              && ZeroFilled(payload, length) == ZeroFilled(payload', length')
  {
    LayoutParts(block0, ad, payload);
    LayoutParts(block0', ad', payload');
    LayoutComposed(block0, ad, payload);
    LayoutComposed(block0', ad', payload');
    SameLength(|ad|, |ad'|);
  }

  /** Block 0, the length of the additional data, the additional data and the rest. */
  function Composed(block0: seq<byte>, ad: seq<byte>, rest: seq<byte>): seq<byte> {
    block0 + [|ad| / 256 % 256, |ad| % 256] + ad + rest
  }

  lemma LayoutComposed(block0: seq<byte>, ad: seq<byte>, payload: seq<byte>)
    requires |block0| == 16
    ensures var blocks := Layout(block0, ad, payload);
            |blocks| >= 18 + |ad| + |payload|
                && blocks == Composed(block0, ad, ZeroFilled(payload, |blocks| - 18 - |ad|))
  {
  }

  /** Two bytes tell lengths up to 65535 apart. */
  lemma SameLength(m: int, n: int)
    requires 0 <= m < 65536 && 0 <= n < 65536
    ensures m / 256 % 256 == n / 256 % 256 && m % 256 == n % 256 ==> m == n
  {
  }

  /** So payloads of one length are told apart. */
  lemma SameLengthsToldApart(block0: seq<byte>, ad: seq<byte>, payload: seq<byte>, ad': seq<byte>, payload': seq<byte>)
    requires |block0| == 16 && |ad| < 65536 && |ad'| < 65536 && |payload| == |payload'|
    requires Layout(block0, ad, payload) == Layout(block0, ad', payload')
    ensures ad == ad' && payload == payload'
  {
    SameLayoutIff(block0, ad, payload, block0, ad', payload');
    LayoutParts(block0, ad, payload);
    LayoutParts(block0, ad', payload');
    var length := |Layout(block0, ad, payload)| - 18 - |ad|;
    assert ZeroFilled(payload, length)[..|payload|] == payload;
    assert ZeroFilled(payload', length)[..|payload|] == payload';
  }

  /** Only block 0, which carries the payload's length, tells a payload from the same one with a zero behind it. */
  lemma TrailingZeroLooksAlike(block0: seq<byte>)
    requires |block0| == 16
    ensures Layout(block0, [], []) == Layout(block0, [], [0])
  {
  }
}
