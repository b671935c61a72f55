/** Group telegrams byte by byte, as the bus puts them on the wire, and which of them the listener takes in. */
module KnxWire {
  import opened Binary
  import opened KnxCemi

  /** Six bits in the APCI byte itself, or bytes behind it (whose low APCI bits mean nothing). */
  datatype Value = Short(bits: int) | Long(bytes: seq<byte>, low: int)

  datatype Wire = Wire(
    headerLength: byte, total: int,  // KNXnet/IP header
    connection: seq<byte>,           // connection header
    code: byte, added: seq<byte>,    // message code and additional info
    control: seq<byte>,              // two control fields and the source address
    ga: GroupAddress,
    tpci: int,                       // upper six bits of the TPCI byte
    command: int,                    // the four bits between TPCI and APCI
    value: Value,
    trailing: seq<byte>)
  {
    /** Each field fits its place. */
    ghost predicate Fits() {
      && 0 <= total < 65536 && |connection| == 4 && |added| < 256 && |control| == 4
      && 0 <= tpci < 64 && 0 <= command < 16
      && match value
         case Short(bits) => 0 <= bits < 64
         case Long(bytes, low) => 1 <= |bytes| <= 254 && 0 <= low < 64
    }

    /** The length byte counts what follows the TPCI byte. */
    function Length(): int {
      match value
      case Short(_) => 1
      case Long(bytes, _) => 1 + |bytes|
    }

    function Payload(): seq<int> {
      match value
      case Short(bits) => [bits]
      case Long(bytes, _) => bytes
    }

    function Behind(): seq<byte> {
      (match value case Short(_) => [] case Long(bytes, _) => bytes) + trailing
    }

    function Low(): int {
      match value
      case Short(bits) => bits
      case Long(_, low) => low
    }

    ghost function Head(): (r: seq<byte>)
      requires Fits()
      ensures |r| == 10 && r[0] == headerLength && r[1] == 0x10 && r[2] == 0x04 && r[3] == 0x20
      ensures Word(r[4], r[5]) == total
    {
      [headerLength, 0x10, 0x04, 0x20, total / 256, total % 256] + connection
    }

    ghost function Core(): (r: seq<byte>)
      requires Fits()
      ensures |r| == 9 && Word(r[4], r[5]) == ga && r[6] == Length()
      ensures r[7] == tpci * 4 + command / 4 && r[8] == command % 4 * 64 + Low()
    {
      control + [ga / 256, ga % 256, Length(), tpci * 4 + command / 4, command % 4 * 64 + Low()]
    }

    ghost function Bytes(): seq<byte>
      requires Fits()
    {
      Head() + [code, |added|] + added + Core() + Behind()
    }

    /** An indication or request with a response or write, whose stated length reaches its last but one byte. */
    ghost predicate IsTelegram()
      requires Fits()
    {
      && 6 <= headerLength && (code == 0x29 || code == 0x11) && (command == 1 || command == 2)
      && 19 + |added| + Length() <= total <= |Bytes()|
    }
  }

  /** Where the parts of the concatenation are. */
  lemma PartsAt(a: seq<byte>, code: byte, c: seq<byte>, d: seq<byte>, e: seq<byte>)
    requires |a| == 10 && |c| < 256 && |d| == 9
    ensures var s, n := a + [code, |c|] + c + d + e, |c|;
            && |s| == 21 + n + |e|
            && s[0] == a[0] && s[1] == a[1] && s[2] == a[2] && s[3] == a[3] && s[4] == a[4] && s[5] == a[5]
            && s[10] == code && s[11] == n
            && s[16 + n] == d[4] && s[17 + n] == d[5] && s[18 + n] == d[6] && s[19 + n] == d[7] && s[20 + n] == d[8]
            && s[21 + n..] == e
  {
  }

  /** The fields of a wire format by position. */
  lemma FieldsAt(x: Wire)
    requires x.Fits()
    ensures var s, n := x.Bytes(), |x.added|;
            && |s| == 21 + n + |x.Behind()|
            && s[0] == x.headerLength && s[1] == 0x10 && s[2] == 0x04 && s[3] == 0x20
            && Word(s[4], s[5]) == x.total && s[10] == x.code && s[11] == n
            && Word(s[16 + n], s[17 + n]) == x.ga && s[18 + n] == x.Length()
            && s[19 + n] == x.tpci * 4 + x.command / 4 && s[20 + n] == x.command % 4 * 64 + x.Low()
            && s[21 + n..] == x.Behind()
  {
    PartsAt(x.Head(), x.code, x.added, x.Core(), x.Behind());
  }

  /** Whatever stands in the other fields, such a telegram is taken in with its address, payload and command. */
  lemma TelegramIsReceived(x: Wire)
    requires x.Fits() && x.IsTelegram()
    ensures Receive(x.Bytes()) == Telegram(x.ga, x.Payload(), x.command == 2)
  {
    FieldsAt(x);
    var s, n := x.Bytes(), |x.added|;
    if x.value.Long? {
      assert s[21 + n..21 + n + |x.value.bytes|] == s[21 + n..][..|x.value.bytes|] == x.value.bytes;
    }
  }

  /** Additional info of `n` bytes and a length byte of `length`, with all that they announce. */
  predicate Announces(data: seq<byte>, n: nat, length: nat) {
    && |data| >= 21 + n && n == data[11] && length == data[18 + n]
    && 1 <= length && (length == 1 || 20 + n + length <= |data|)
  }

  /** The fields of whatever is taken in. */
  function WireOf(data: seq<byte>, n: nat, length: nat): Wire
    requires Announces(data, n, length)
  {
    var tpci, apci := data[19 + n], data[20 + n];
    var value := if length == 1 then Short(apci % 64) else Long(data[21 + n..20 + n + length], apci % 64);
    Wire(data[0], Word(data[4], data[5]), data[6..10], data[10], data[12..12 + n], data[12 + n..16 + n],
         Word(data[16 + n], data[17 + n]), tpci / 4, tpci % 4 * 4 + apci / 64, value, data[20 + n + length..])
  }

  lemma WordBytes(hi: byte, lo: byte)
    ensures Word(hi, lo) / 256 == hi && Word(hi, lo) % 256 == lo
  {
  }

  /** The command takes two bits of the TPCI byte and two of the APCI byte. */
  lemma CommandBytes(tpci: byte, apci: byte)
    ensures var command := tpci % 4 * 4 + apci / 64;
            tpci / 4 * 4 + command / 4 == tpci && command % 4 * 64 + apci % 64 == apci
  {
  }

  lemma HeadOfWire(data: seq<byte>, n: nat, length: nat)
    requires Announces(data, n, length) && data[1] == 0x10 && data[2] == 0x04 && data[3] == 0x20
    ensures var x := WireOf(data, n, length);
            x.Fits() && data[..10] == x.Head()
  {
    WordBytes(data[4], data[5]);
  }

  lemma BodyOfWire(data: seq<byte>, n: nat, length: nat)
    requires Announces(data, n, length)
    ensures var x := WireOf(data, n, length);
            x.Fits() && data[12 + n..21 + n] == x.Core() && data[21 + n..] == x.Behind()
  {
    WordBytes(data[16 + n], data[17 + n]);
    CommandBytes(data[19 + n], data[20 + n]);
    if length == 1 {
      assert [] + data[21 + n..] == data[21 + n..];
    } else {
      assert data[21 + n..20 + n + length] + data[20 + n + length..] == data[21 + n..];
    }
  }

  lemma BytesOfWire(data: seq<byte>, n: nat, length: nat)
    requires Announces(data, n, length) && data[1] == 0x10 && data[2] == 0x04 && data[3] == 0x20
    ensures WireOf(data, n, length).Fits() && WireOf(data, n, length).Bytes() == data
  {
    var x := WireOf(data, n, length);
    HeadOfWire(data, n, length);
    BodyOfWire(data, n, length);
    assert data[10..12] == [x.code, |x.added|];
    FivePieces(data, n);
  }

  lemma FivePieces(data: seq<byte>, n: nat)
    requires |data| >= 21 + n
    ensures data == data[..10] + data[10..12] + data[12..12 + n] + data[12 + n..21 + n] + data[21 + n..]
  {
  }

  /** The frame has, byte for byte, the form of a telegram with this content. */
  ghost predicate OnWire(data: seq<byte>, ga: GroupAddress, payload: seq<byte>, isWrite: bool) {
    exists x: Wire :: HasContent(x, ga, payload, isWrite) && x.Bytes() == data
  }

  ghost predicate HasContent(x: Wire, ga: GroupAddress, payload: seq<byte>, isWrite: bool) {
    x.Fits() && x.IsTelegram() && x.ga == ga && x.Payload() == payload && isWrite == (x.command == 2)
  }

  /** Exactly the telegrams on the wire are taken in, with their address, payload and command. */
  lemma ReceivedIffOnWire(data: seq<byte>, ga: GroupAddress, payload: seq<byte>, isWrite: bool)
    ensures Receive(data) == Telegram(ga, payload, isWrite) <==> OnWire(data, ga, payload, isWrite)
  {
    if Receive(data) == Telegram(ga, payload, isWrite) {
      var n, length := ReceivedAnnounces(data);
      ReceivedIsOnWire(data, n, length);
      assert HasContent(WireOf(data, n, length), ga, payload, isWrite);
    }
    if OnWire(data, ga, payload, isWrite) {
      var x: Wire :| HasContent(x, ga, payload, isWrite) && x.Bytes() == data;
      TelegramIsReceived(x);
    }
  }

  lemma ReceivedAnnounces(data: seq<byte>) returns (n: nat, length: nat)
    requires Receive(data).Telegram?
    ensures Announces(data, n, length)
  {
    n := data[11];
    length := data[18 + n];
  }

  lemma ReceivedIsOnWire(data: seq<byte>, n: nat, length: nat)
    requires Receive(data).Telegram? && Announces(data, n, length)
    ensures var x := WireOf(data, n, length);
            && x.Fits() && x.IsTelegram() && x.Bytes() == data
            && Receive(data) == Telegram(x.ga, x.Payload(), x.command == 2)
  {
    BytesOfWire(data, n, length);
  }

  /** What is sent has that form too: a request without additional info, from address 0. */
  lemma SentIsOnWire(ga: GroupAddress, data: seq<byte>, isSmall: bool, isWrite: bool, channel: byte, sequence: byte)
    requires if isSmall then data != [] else 1 <= |data| <= 254
    ensures var value := if isSmall then Short(data[0] % 64) else Long(data, 0);
            var x := Wire(6, if isSmall then 21 else 21 + |data|, [4, channel, sequence, 0], 0x11, [],
                          [0xBC, 0xE0, 0, 0], ga, 0, if isWrite then 2 else 0, value, []);
            x.Fits() && Frame(ga, data, isSmall, isWrite, channel, sequence) == x.Bytes()
  {
    var value := if isSmall then Short(data[0] % 64) else Long(data, 0);
    var total := if isSmall then 21 else 21 + |data|;
    var x := Wire(6, total, [4, channel, sequence, 0], 0x11, [], [0xBC, 0xE0, 0, 0], ga, 0, if isWrite then 2 else 0,
                  value, []);
    SentHead(x, total, channel, sequence);
    SentCore(x, DataLength(data, isSmall), Apci(data, isSmall, isWrite));
    SentParts(x.Head(), [0x11, 0], x.Core(), if isSmall then [] else data);
  }

  lemma SentHead(x: Wire, total: nat, channel: byte, sequence: byte)
    requires x.Fits() && x.headerLength == 6 && x.total == total && x.connection == [4, channel, sequence, 0]
    ensures TunnelHead(total, channel, sequence) == x.Head()
  {
  }

  lemma SentCore(x: Wire, length: byte, apci: byte)
    requires x.Fits() && x.control == [0xBC, 0xE0, 0, 0] && x.tpci == 0 && x.command < 4
    requires length == x.Length() && apci == x.command * 64 + x.Low()
    ensures CemiHead(x.ga, length, apci) == [0x11, 0] + x.Core()
  {
  }

  lemma SentParts(a: seq<byte>, b: seq<byte>, d: seq<byte>, e: seq<byte>)
    ensures a + (b + d) + e == a + b + [] + d + (e + [])
  {
  }
}
