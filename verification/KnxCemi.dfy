/** cEMI frames over KNXnet/IP tunnelling: what is sent for a group telegram and what is read back. */
module KnxCemi {
  import opened Binary

  /** 16-bit group address. */
  type GroupAddress = x: int | 0 <= x < 65536

  function Low(x: int): byte { x % 256 }
  function High(x: int): byte { x / 256 % 256 }

  function Word(hi: int, lo: int): int { hi * 256 + lo }

  // ---- Sending ----

  function DataLength(data: seq<byte>, isSmall: bool): byte {
    if isSmall then 1 else Low(1 + |data|)
  }

  function Apci(data: seq<byte>, isSmall: bool, isWrite: bool): byte
    requires isSmall ==> data != []
  {
    (if isWrite then 0x80 else 0) + if isSmall then data[0] % 64 else 0
  }

  function TotalLength(data: seq<byte>, isSmall: bool): nat {
    21 + if isSmall then 0 else |data|
  }

  /** Header and connection header. */
  function TunnelHead(total: nat, channel: byte, sequence: byte): seq<byte> {
    [0x06, 0x10, 0x04, 0x20, High(total), Low(total), 0x04, channel, sequence, 0x00]
  }

  /** The cEMI bytes before the payload. */
  function CemiHead(ga: GroupAddress, dataLength: byte, apci: byte): seq<byte> {
    [0x11, 0x00, 0xBC, 0xE0, 0x00, 0x00, High(ga), Low(ga), dataLength, 0x00, apci]
  }

  /** The tunnelling request for one group telegram. */
  function Frame(ga: GroupAddress, data: seq<byte>, isSmall: bool, isWrite: bool, channel: byte,
                 sequence: byte): (f: seq<byte>)
    requires isSmall ==> data != []
    ensures |f| == TotalLength(data, isSmall)
  {
    TunnelHead(TotalLength(data, isSmall), channel, sequence)
    + CemiHead(ga, DataLength(data, isSmall), Apci(data, isSmall, isWrite))
    + if isSmall then [] else data
  }

  method FillTunnelHead(pkt: array<byte>, channel: byte)
    requires pkt.Length >= 21
    modifies pkt
    ensures pkt[..10] == TunnelHead(pkt.Length, channel, 0x00)
  {
    var high, low := High(pkt.Length), Low(pkt.Length);
    pkt[0], pkt[1], pkt[2], pkt[3] := 0x06, 0x10, 0x04, 0x20;
    pkt[4], pkt[5] := high, low;
    pkt[6], pkt[7], pkt[8], pkt[9] := 0x04, channel, 0x00, 0x00;
  }

  method FillCemiHead(pkt: array<byte>, ga: GroupAddress, dataLength: byte, apci: byte)
    requires pkt.Length >= 21
    modifies pkt
    ensures pkt[..10] == old(pkt[..10])
    ensures pkt[10..21] == CemiHead(ga, dataLength, apci)
  {
    var high, low := High(ga), Low(ga);
    pkt[10], pkt[11], pkt[12], pkt[13] := 0x11, 0x00, 0xBC, 0xE0;
    pkt[14], pkt[15] := 0x00, 0x00;
    pkt[16], pkt[17] := high, low;
    pkt[18], pkt[19], pkt[20] := dataLength, 0x00, apci;
  }

  /** Fills the packet; the sequence number comes last, under the send gate. */
  method BuildFrame(ga: GroupAddress, data: seq<byte>, isSmall: bool, isWrite: bool, channel: byte, sequence: byte)
    returns (pkt: array<byte>)
    requires isSmall ==> data != []
    ensures pkt[..] == Frame(ga, data, isSmall, isWrite, channel, sequence)
  {
    var cemiLen := 11 + if isSmall then 0 else |data|;
    pkt := new byte[10 + cemiLen];
    var cmdBits: byte := if isWrite then 0x80 else 0x00;
    var dataLength: byte := if isSmall then 1 else Low(1 + |data|);
    var apci: byte := cmdBits + if isSmall then data[0] % 64 else 0;
    FillTunnelHead(pkt, channel);
    FillCemiHead(pkt, ga, dataLength, apci);
    ghost var tunnel, cemi, payload: seq<byte> := pkt[..10], pkt[10..21], if isSmall then [] else data;
    assert pkt[..21] == tunnel + cemi;
    if !isSmall {
      CopyPayload(data, pkt);
    }
    assert pkt[..] == tunnel + cemi + payload;
    SequenceAt8(pkt.Length, channel, sequence, cemi, payload);
    pkt[8] := sequence;
  }

  lemma SequenceAt8(total: nat, channel: byte, sequence: byte, cemi: seq<byte>, payload: seq<byte>)
    ensures (TunnelHead(total, channel, 0x00) + cemi + payload)[8 := sequence]
              == TunnelHead(total, channel, sequence) + cemi + payload
  {
    assert TunnelHead(total, channel, 0x00)[8 := sequence] == TunnelHead(total, channel, sequence);
  }

  method CopyPayload(data: seq<byte>, pkt: array<byte>)
    requires pkt.Length == 21 + |data|
    modifies pkt
    ensures pkt[..] == old(pkt[..21]) + data
  {
    for i := 0 to |data|
      invariant forall k :: 0 <= k < 21 ==> pkt[k] == old(pkt[k])
      invariant forall k :: 0 <= k < i ==> pkt[21 + k] == data[k]
    {
      pkt[21 + i] := data[i];
    }
  }

  // ---- Receiving ----

  /** What a frame means for the listener; exceptions while parsing count as ignored. */
  datatype Outcome = Ignored | Telegram(dest: GroupAddress, payload: seq<byte>, isWrite: bool)

  /** Parses `length` bytes of cEMI at `offset`; reading past the end throws and is swallowed. */
  function ParseCemi(data: seq<byte>, offset: nat, length: int): Outcome {
    if length < 10 || offset + 1 >= |data| then Ignored
    else if data[offset] != 0x29 && data[offset] != 0x11 then Ignored  // 0x2E confirms our own sends
    else
      var addInfoLen := data[offset + 1];
      var at := offset + 2 + addInfoLen;
      var remaining := length - 2 - addInfoLen;
      if remaining < 8 || at + 8 >= |data| then Ignored
      else
        var dest := Word(data[at + 4], data[at + 5]);
        var dataLen: int := data[at + 6];
        if remaining < 7 + dataLen then Ignored
        else
          var tpci, apci := data[at + 7], data[at + 8];
          var command := tpci % 4 * 4 + apci / 64;
          if command != 2 && command != 1 then Ignored
          else if dataLen == 1 then Telegram(dest, [apci % 64], command == 2)
          else if dataLen == 0 || at + 9 + (dataLen - 1) > |data| then Ignored
          else Telegram(dest, data[at + 9..at + 9 + (dataLen - 1)], command == 2)
  }

  /** The listener on one received frame: header checks, then the cEMI part of tunnelling requests. */
  function Receive(data: seq<byte>): Outcome {
    if |data| < 6 || data[0] < 6 || data[1] != 0x10 then Ignored
    else
      var totalLen := Word(data[4], data[5]);
      if |data| < totalLen || Word(data[2], data[3]) != 0x0420 || |data| < 10 then Ignored
      else ParseCemi(data, 10, totalLen - 10)
  }

  // ---- Round trips ----

  /** Whatever arrives, a telegram carries 1 to 254 bytes. */
  lemma PayloadLength(data: seq<byte>)
    ensures Receive(data).Telegram? ==> 1 <= |Receive(data).payload| <= 254
  {
  }

  /** The fields of a request for one group telegram, before its payload. */
  ghost predicate IsRequest(f: seq<byte>, ga: GroupAddress, dataLength: byte, apci: byte) {
    && |f| >= 21
    && f[0] == 0x06 && f[1] == 0x10 && f[2] == 0x04 && f[3] == 0x20
    && f[10] == 0x11 && f[11] == 0x00 && Word(f[16], f[17]) == ga
    && f[18] == dataLength && f[19] == 0x00 && f[20] == apci
  }

  lemma FrameFields(ga: GroupAddress, data: seq<byte>, isSmall: bool, isWrite: bool, channel: byte, sequence: byte)
    requires isSmall ==> data != []
    ensures var f := Frame(ga, data, isSmall, isWrite, channel, sequence);
            && IsRequest(f, ga, DataLength(data, isSmall), Apci(data, isSmall, isWrite))
            && f[21..] == (if isSmall then [] else data)
            && (|f| < 65536 ==> Word(f[4], f[5]) == |f|)
  {
    RequestFields(TotalLength(data, isSmall), channel, sequence, ga, DataLength(data, isSmall),
        Apci(data, isSmall, isWrite),
                  if isSmall then [] else data);
  }

  lemma RequestFields(total: nat, channel: byte, sequence: byte, ga: GroupAddress, dataLength: byte, apci: byte,
                      payload: seq<byte>)
    ensures var f := TunnelHead(total, channel, sequence) + CemiHead(ga, dataLength, apci) + payload;
            && IsRequest(f, ga, dataLength, apci) && f[21..] == payload
            && (total < 65536 ==> Word(f[4], f[5]) == total)
  {
    if total < 65536 {
      WordOfBytes(total);
    }
    WordOfBytes(ga);
    ConcatBytes(TunnelHead(total, channel, sequence), CemiHead(ga, dataLength, apci), payload);
  }

  lemma WordOfBytes(x: int)
    requires 0 <= x < 65536
    ensures Word(High(x), Low(x)) == x
  {
  }

  lemma ConcatBytes(a: seq<byte>, b: seq<byte>, c: seq<byte>)
    requires |a| == 10 && |b| == 11
    ensures var f := a + b + c;
            && f[0] == a[0] && f[1] == a[1] && f[2] == a[2] && f[3] == a[3] && f[4] == a[4] && f[5] == a[5]
            && f[10] == b[0] && f[11] == b[1] && f[16] == b[6] && f[17] == b[7] && f[18] == b[8] && f[19] == b[9]
                && f[20] == b[10]
            && f[21..] == c
  {
  }

  lemma LongWriteParses(f: seq<byte>, ga: GroupAddress, data: seq<byte>)
    requires 1 <= |data| <= 254 && IsRequest(f, ga, 1 + |data|, 0x80) && Word(f[4], f[5]) == |f| && f[21..] == data
    ensures Receive(f) == Telegram(ga, data, true)
  {
    assert f[21..21 + |data|] == data;
  }

  lemma ShortWriteParses(f: seq<byte>, ga: GroupAddress, value: byte)
    requires value < 64 && |f| == 21 && IsRequest(f, ga, 1, 0x80 + value) && Word(f[4], f[5]) == |f|
    ensures Receive(f) == Telegram(ga, [value], true)
  {
  }

  lemma LongWriteRoundTrip(ga: GroupAddress, data: seq<byte>, channel: byte, sequence: byte)
    requires 1 <= |data| <= 254
    ensures Receive(Frame(ga, data, false, true, channel, sequence)) == Telegram(ga, data, true)
  {
    FrameFields(ga, data, false, true, channel, sequence);
    LongWriteParses(Frame(ga, data, false, true, channel, sequence), ga, data);
  }

  /**
   * A write in the long form comes back with its address, payload and command exactly when the
   * payload has 1 to 254 bytes: the length byte counts the APCI byte too, and 1 means the short form.
   */
  lemma LongWriteRoundTripIff(ga: GroupAddress, data: seq<byte>, channel: byte, sequence: byte)
    ensures Receive(Frame(ga, data, false, true, channel, sequence)) == Telegram(ga, data, true) <==> 1 <= |data| <= 254
  {
    PayloadLength(Frame(ga, data, false, true, channel, sequence));
    if 1 <= |data| <= 254 {
      LongWriteRoundTrip(ga, data, channel, sequence);
    }
  }

  /** A write in the short form carries the low 6 bits of the first byte. */
  lemma ShortWriteRoundTrip(ga: GroupAddress, data: seq<byte>, channel: byte, sequence: byte)
    requires data != []
    ensures Receive(Frame(ga, data, true, true, channel, sequence)) == Telegram(ga, [data[0] % 64], true)
  {
    FrameFields(ga, data, true, true, channel, sequence);
    ShortWriteParses(Frame(ga, data, true, true, channel, sequence), ga, data[0] % 64);
  }

  lemma LowBitsOnly(data: seq<byte>)
    requires data != []
    ensures data == [data[0] % 64] <==> |data| == 1 && data[0] < 64
  {
  }

  /** So it comes back unchanged exactly for a single byte below 64. */
  lemma ShortWriteRoundTripIff(ga: GroupAddress, data: seq<byte>, channel: byte, sequence: byte)
    requires data != []
    ensures (Receive(Frame(ga, data, true, true, channel, sequence)) == Telegram(ga, data, true)) <==>
              (|data| == 1 && data[0] < 64)
  {
    ShortWriteRoundTrip(ga, data, channel, sequence);
    LowBitsOnly(data);
  }

  /** The command in the cEMI part of a frame; -1 where the frame is too short to hold one. */
  function Command(data: seq<byte>): int {
    if |data| < 12 then -1
    else
      var addInfoLen: int := data[11];
      if |data| <= 20 + addInfoLen then -1 else data[19 + addInfoLen] % 4 * 4 + data[20 + addInfoLen] / 64
  }

  /** Whatever arrives: only indications and requests count, and of these only responses (1) and writes (2). */
  lemma TelegramsAreResponsesOrWrites(data: seq<byte>)
    ensures Receive(data).Telegram? ==>
              && |data| > 10 && (data[10] == 0x29 || data[10] == 0x11)
              && (Command(data) == 1 || Command(data) == 2)
              && (Receive(data).isWrite <==> Command(data) == 2)
  {
  }

  /** So the gateway's confirmations of our own sends and all read requests are not telegrams. */
  lemma ReadsAndConfirmationsIgnored(data: seq<byte>)
    ensures |data| > 10 && data[10] == 0x2E ==> Receive(data) == Ignored
    ensures Command(data) == 0 ==> Receive(data) == Ignored
  {
    TelegramsAreResponsesOrWrites(data);
  }

  /** The read requests that are sent have that command. */
  lemma SentReadsAreReads(ga: GroupAddress, data: seq<byte>, isSmall: bool, channel: byte, sequence: byte)
    requires isSmall ==> data != []
    ensures Command(Frame(ga, data, isSmall, false, channel, sequence)) == 0
  {
    FrameFields(ga, data, isSmall, false, channel, sequence);
    CommandOfRequest(Frame(ga, data, isSmall, false, channel, sequence), ga, DataLength(data, isSmall),
        Apci(data, isSmall, false));
  }

  lemma CommandOfRequest(f: seq<byte>, ga: GroupAddress, dataLength: byte, apci: byte)
    requires IsRequest(f, ga, dataLength, apci)
    ensures Command(f) == apci / 64
  {
  }
}
