/** A datagram as bytes: the header word, then commands with their payloads. */
module Datagram {
  import opened Carryless

  const COMMAND_COUNT := 13
  const CONNECT := 2
  const MAXIMUM_PEER_ID: bv16 := 0xFFF
  const FLAG_SENT_TIME: bv16 := 0x8000
  const FLAG_COMPRESSED: bv16 := 0x4000
  const SESSION_MASK: bv16 := 0x3000

  /** A command: its number, whether it asks for an acknowledgement or is unsequenced, its channel and sequence
      number, the rest of its structure, and the payload that follows. */
  datatype Command = Command(number: nat, acknowledge: bool, unsequenced: bool, channel: Byte, sequence: nat,
                             body: seq<Byte>, payload: seq<Byte>)

  /** commandSizes: the structures of the protocol, 0 for numbers that are not commands. */
  function Size(number: nat): nat {
    match number
    case 1 => 8 case 2 => 48 case 3 => 44 case 4 => 8 case 5 => 4 case 6 => 6 case 7 => 8 case 8 => 24 case 9 => 8
    case 10 => 12 case 11 => 16 case 12 => 24 case _ => 0
  }

  /** The header of four bytes, then the fields of the structure: connection, verification, disconnection, ping, packets of
      each kind, bandwidth, throttle. */
  lemma {:induction false} SizesExactly()
    ensures Size(1) == 4 + 2 * 2 && Size(2) == 4 + 2 + 2 * 1 + 10 * 4 && Size(3) == 4 + 2 + 2 * 1 + 9 * 4
    ensures Size(4) == 4 + 4 && Size(5) == 4 && Size(6) == 4 + 2 && Size(7) == 4 + 2 * 2 && Size(9) == 4 + 2 * 2
    ensures Size(8) == Size(12) == 4 + 2 * 2 + 4 * 4 && Size(10) == 4 + 2 * 4 && Size(11) == 4 + 3 * 4
    ensures forall number :: number == 0 || number > 12 ==> Size(number) == 0
  {
  }

  /** Where dataLength stands in the body of a command that carries a payload. */
  function LengthAt(number: nat): nat { if number == 6 then 0 else 2 }

  predicate Carries(number: nat) { 6 <= number <= 9 || number == 12 }

  /** Two bytes in network order. */
  function Short(hi: Byte, lo: Byte): nat { 256 * hi + lo }

  function PayloadLength(number: nat, body: seq<Byte>): nat
    requires Size(number) >= 4 && |body| == Size(number) - 4
  {
    if Carries(number) then Short(body[LengthAt(number)], body[LengthAt(number) + 1]) else 0
  }

  predicate WellFormed(c: Command) {
    && Size(c.number) > 0 && |c.body| == Size(c.number) - 4 && c.sequence < 0x10000
    && |c.payload| == PayloadLength(c.number, c.body)
  }

  /** The command byte: the number with its flags. */
  function Tag(c: Command): Byte
    requires c.number < 16
  {
    c.number + (if c.unsequenced then 64 else 0) + (if c.acknowledge then 128 else 0)
  }

  function Encode(c: Command): (bytes: seq<Byte>)
    requires WellFormed(c)
    ensures |bytes| == Size(c.number) + |c.payload|
  {
    [Tag(c), c.channel, c.sequence / 256, c.sequence % 256] + c.body + c.payload
  }

  function EncodeAll(commands: seq<Command>): seq<Byte>
    requires forall c :: c in commands ==> WellFormed(c)
  {
    if commands == [] then [] else Encode(commands[0]) + EncodeAll(commands[1..])
  }

  /** What the first bytes give: a command, unless there are too few or they name none. */
  datatype Reading = Stop | Read(command: Command, length: nat)

  function ReadOne(bytes: seq<Byte>): (r: Reading)
    ensures r.Read? ==> 0 < r.length <= |bytes|
  {
    if |bytes| < 4 then Stop
    else
      var number := bytes[0] % 16;
      if number >= COMMAND_COUNT || Size(number) == 0 || Size(number) > |bytes| then Stop
      else
        var size := Size(number);
        var length := PayloadLength(number, bytes[4..size]);
        if size + length > |bytes| then Stop
        else
          Read(Command(number, bytes[0] >= 128, bytes[0] % 128 >= 64, bytes[1], Short(bytes[2], bytes[3]), bytes[4..size],
                       bytes[size..size + length]), size + length)
  }

  /** What the handlers of the commands say: whether they accept a command, after those they accepted before. */
  type Handlers = (seq<Command>, Command) -> bool

  /** A datagram for no peer must begin by connecting one; a peer that is known cannot be connected again. */
  predicate Accepted(known: bool, handlers: Handlers, past: seq<Command>, c: Command) {
    ((known || past != []) <==> c.number != CONNECT) && handlers(past, c)
  }

  /** The commands a datagram is taken apart into. The first one that is refused ends it, and so does one that asks
      for an acknowledgement when the header carries no time. */
  function Parse(bytes: seq<Byte>, sentTime: bool, known: bool, handlers: Handlers, past: seq<Command>): seq<Command>
    decreases |bytes|
  {
    match ReadOne(bytes)
    case Stop => past
    case Read(c, length) =>
      if !Accepted(known, handlers, past, c) then past
      else if c.acknowledge && !sentTime then past + [c]
      else Parse(bytes[length..], sentTime, known, handlers, past + [c])
  }

  /** The header flag a sender sets: some command asks for an acknowledgement. */
  predicate SentTime(commands: seq<Command>) { exists c :: c in commands && c.acknowledge }

  lemma {:induction false} TagReads(c: Command)
    requires WellFormed(c)
    ensures Tag(c) % 16 == c.number && (Tag(c) >= 128 <==> c.acknowledge) && (Tag(c) % 128 >= 64 <==> c.unsequenced)
  {
  }

  lemma {:induction false} ShortReads(n: nat)
    requires n < 0x10000
    ensures n / 256 < 256 && Short(n / 256, n % 256) == n
  {
  }

  lemma {:induction false} ReadsWhatWasEncoded(c: Command, rest: seq<Byte>)
    requires WellFormed(c)
    ensures ReadOne(Encode(c) + rest) == Read(c, |Encode(c)|)
  {
    hide Tag, Short;
    var bytes := Encode(c) + rest;
    TagReads(c);
    ShortReads(c.sequence);
    assert bytes[0] == Tag(c) && bytes[1] == c.channel && bytes[2] == c.sequence / 256 && bytes[3] == c.sequence % 256;
    assert bytes[4..Size(c.number)] == c.body;
    assert bytes[Size(c.number)..Size(c.number) + |c.payload|] == c.payload;
  }

  /** Of packed commands exactly those before the first refused one are taken up, unchanged and in order. */
  lemma {:induction false} ParseInvertsPack(past: seq<Command>, commands: seq<Command>, sentTime: bool, known: bool,
                                            handlers: Handlers) returns (n: nat)
    requires forall c :: c in commands ==> WellFormed(c)
    requires SentTime(commands) ==> sentTime
    ensures n <= |commands|
    decreases |commands|
    ensures Parse(EncodeAll(commands), sentTime, known, handlers, past) == past + commands[..n]
    ensures forall i | 0 <= i < n :: Accepted(known, handlers, past + commands[..i], commands[i])
    ensures n < |commands| ==> !Accepted(known, handlers, past + commands[..n], commands[n])
  {
    hide Encode, ReadOne, Accepted;
    n := 0;
    assert past + [] == past;
    if commands == [] {
      NothingToRead();
    } else {
      var c, rest := commands[0], EncodeAll(commands[1..]);
      ReadsWhatWasEncoded(c, rest);
      assert (Encode(c) + rest)[|Encode(c)|..] == rest;
      assert c in commands;
      if Accepted(known, handlers, past, c) {
        var k := ParseInvertsPack(past + [c], commands[1..], sentTime, known, handlers);
        n := k + 1;
        forall i | 0 <= i <= k ensures past + commands[..i + 1] == (past + [c]) + commands[1..][..i] {}
        forall i | 0 <= i < n ensures Accepted(known, handlers, past + commands[..i], commands[i]) {
          if i > 0 {
            assert past + commands[..i] == (past + [c]) + commands[1..][..i - 1];
          }
        }
      }
    }
  }

  /** From a known peer everything is taken up that the handlers accept, if no command is CONNECT; what comes from no peer
      is not looked at unless it begins with one. */
  lemma {:induction false} TakenUpExactly(commands: seq<Command>, sentTime: bool, known: bool, handlers: Handlers)
    requires commands != [] && (SentTime(commands) ==> sentTime)
    requires forall c :: c in commands ==> WellFormed(c)
    requires forall past, c :: c in commands ==> handlers(past, c)
    ensures known && (forall c :: c in commands ==> c.number != 2) ==>
              Parse(EncodeAll(commands), sentTime, known, handlers, []) == commands
    ensures !known && commands[0].number == 2 && (forall i :: 0 < i < |commands| ==> commands[i].number != 2) ==>
              Parse(EncodeAll(commands), sentTime, known, handlers, []) == commands
    ensures (known <==> commands[0].number == 2) ==> Parse(EncodeAll(commands), sentTime, known, handlers, []) == []
  {
    hide Encode, ReadOne, Parse, WellFormed;
    var n := ParseInvertsPack([], commands, sentTime, known, handlers);
    assert [] + commands[..n] == commands[..n];
    if n < |commands| { assert commands[n] in commands && [] + commands[..n] == commands[..n]; }
    if n > 0 { assert Accepted(known, handlers, [] + commands[..0], commands[0]) && [] + commands[..0] == []; }
  }

  lemma {:induction false} NothingToRead()
    ensures ReadOne([]) == Stop
  {
  }

  lemma {:induction false} SizesHold(number: nat)
    ensures Size(number) == 0 || Size(number) >= 4
    ensures Carries(number) ==> Size(number) >= 4 + LengthAt(number) + 2
  {
  }

  /** One round of the parsing loop: the command that begins at currentData, and where the next one begins. */
  method ReadCommand(received: seq<Byte>, currentData: nat) returns (command: Command, next: nat)
    requires currentData <= |received|
    ensures var r := ReadOne(received[currentData..]);
            if r.Stop? then next == currentData else command == r.command && next == currentData + r.length
    ensures currentData <= next <= |received|
  {
    hide Size, Short, Carries;
    command, next := Command(0, false, false, 0, 0, [], []), currentData;
    if currentData + 4 > |received| {
      return;
    }
    var commandNumber := received[currentData] % 16;
    if commandNumber >= COMMAND_COUNT {
      return;
    }
    var commandSize := Size(commandNumber);
    if commandSize == 0 || currentData + commandSize > |received| {
      return;
    }
    SizesHold(commandNumber);
    ghost var rest := received[currentData..];
    var body := received[currentData + 4..currentData + commandSize];
    assert body == rest[4..commandSize];
    var length := PayloadLength(commandNumber, body);
    if currentData + commandSize + length > |received| {
      return;
    }
    var payload := received[currentData + commandSize..currentData + commandSize + length];
    assert payload == rest[commandSize..commandSize + length];
    command := Command(commandNumber, received[currentData] >= 128, received[currentData] % 128 >= 64,
                       received[currentData + 1], Short(received[currentData + 2], received[currentData + 3]), body, payload);
    next := currentData + commandSize + length;
  }

  /** The loop of `enet_protocol_handle_incoming_commands`. */
  method ParseCommands(received: seq<Byte>, headerSize: nat, sentTime: bool, known: bool, handlers: Handlers)
    returns (commands: seq<Command>)
    requires headerSize <= |received|
    ensures commands == Parse(received[headerSize..], sentTime, known, handlers, [])
  {
    hide ReadOne, Accepted;
    commands := [];
    var currentData := headerSize;
    while currentData < |received|
      invariant currentData <= |received|
      invariant Parse(received[currentData..], sentTime, known, handlers, commands) ==
                Parse(received[headerSize..], sentTime, known, handlers, [])
      decreases |received| - currentData
    {
      var command, next := ReadCommand(received, currentData);
      if next == currentData || !Accepted(known, handlers, commands, command) {
        return;
      }
      assert received[currentData..][next - currentData..] == received[next..];
      commands := commands + [command];
      if command.acknowledge && !sentTime {
        return;
      }
      currentData := next;
    }
    assert received[currentData..] == [];
    NothingToRead();
  }

  // The whole datagram.

  /** The peer the datagram is for, its session unless the peer has no number yet, and the flags. */
  function HeaderWord(peerID: bv16, session: bv16, flags: bv16): bv16
    requires session < 4
  {
    peerID | flags | (if peerID < MAXIMUM_PEER_ID then session << 12 else 0)
  }

  /** What the receiver reads off the word. */
  lemma {:induction false} HeaderReads(peerID: bv16, session: bv16, flags: bv16)
    requires peerID <= MAXIMUM_PEER_ID && session < 4 && flags & !(FLAG_SENT_TIME | FLAG_COMPRESSED) == 0
    ensures var w := HeaderWord(peerID, session, flags);
            && w & !(FLAG_SENT_TIME | FLAG_COMPRESSED | SESSION_MASK) == peerID
            && w & (FLAG_SENT_TIME | FLAG_COMPRESSED) == flags
            && (w & SESSION_MASK) >> 12 == if peerID < MAXIMUM_PEER_ID then session else 0
  {
  }

  function HighByte(w: bv16): Byte { ((w >> 8) as bv8) as int }
  function LowByte(w: bv16): Byte { ((w & 0xFF) as bv8) as int }
  function Word(hi: Byte, lo: Byte): bv16 { (((hi as bv8) as bv16) << 8) | ((lo as bv8) as bv16) }

  lemma {:induction false} WordReads(w: bv16)
    ensures Word(HighByte(w), LowByte(w)) == w
  {
    OctetReads((w >> 8) as bv8);
    OctetReads((w & 0xFF) as bv8);
  }

  lemma {:induction false} OctetReads(b: bv8)
    ensures (b as int) as bv8 == b
  {
  }

  /** What a datagram says: who it is for, when it was sent if that matters, and its commands. */
  datatype Datagram = Datagram(peerID: bv16, session: bv16, time: nat, commands: seq<Command>)

  function Pack(d: Datagram): seq<Byte>
    requires d.session < 4 && d.time < 0x10000
    requires forall c :: c in d.commands ==> WellFormed(c)
  {
    var stamped := SentTime(d.commands);
    var word := HeaderWord(d.peerID, d.session, if stamped then FLAG_SENT_TIME else 0);
    [HighByte(word), LowByte(word)] + (if stamped then [d.time / 256, d.time % 256] else []) + EncodeAll(d.commands)
  }

  datatype Heading = Heading(peerID: bv16, session: bv16, compressed: bool, sentTime: bool, size: nat)

  /** The header of a datagram of at least two bytes. */
  function ReadHeading(bytes: seq<Byte>): Heading
    requires |bytes| >= 2
  {
    var word := Word(bytes[0], bytes[1]);
    var sentTime := word & FLAG_SENT_TIME != 0;
    Heading(word & !(FLAG_SENT_TIME | FLAG_COMPRESSED | SESSION_MASK), (word & SESSION_MASK) >> 12,
            word & FLAG_COMPRESSED != 0, sentTime, if sentTime then 4 else 2)
  }

  /** A packed datagram names its peer, session and time, and parses back to the commands up to the first refused. */
  lemma {:induction false} UnpackInvertsPack(d: Datagram, known: bool, handlers: Handlers) returns (n: nat)
    requires d.peerID <= MAXIMUM_PEER_ID && d.session < 4 && d.time < 0x10000
    requires forall c :: c in d.commands ==> WellFormed(c)
    ensures |Pack(d)| >= 2
    ensures var bytes, h := Pack(d), ReadHeading(Pack(d));
            && h.peerID == d.peerID && !h.compressed && (h.sentTime <==> SentTime(d.commands))
            && (d.peerID < MAXIMUM_PEER_ID ==> h.session == d.session)
            && h.size <= |bytes| && (h.sentTime ==> Short(bytes[2], bytes[3]) == d.time)
            && n <= |d.commands| && Parse(bytes[h.size..], h.sentTime, known, handlers, []) == d.commands[..n]
            && (n < |d.commands| ==> !Accepted(known, handlers, d.commands[..n], d.commands[n]))
    ensures forall i | 0 <= i < n :: Accepted(known, handlers, d.commands[..i], d.commands[i])
  {
    hide EncodeAll, Parse, Accepted, HeaderWord, HighByte, LowByte, Word, Short;
    var flags := if SentTime(d.commands) then FLAG_SENT_TIME else 0;
    var word := HeaderWord(d.peerID, d.session, flags);
    HeaderReads(d.peerID, d.session, flags);
    WordReads(word);
    FlagsRead(word, flags);
    ShortReads(d.time);
    n := ParseInvertsPack([], d.commands, SentTime(d.commands), known, handlers);
    assert [] + d.commands[..n] == d.commands[..n];
    forall i | 0 <= i < n ensures Accepted(known, handlers, d.commands[..i], d.commands[i]) {
      assert [] + d.commands[..i] == d.commands[..i];
    }
    assert Pack(d)[if SentTime(d.commands) then 4 else 2..] == EncodeAll(d.commands);
  }

  lemma {:induction false} FlagsRead(w: bv16, flags: bv16)
    requires flags == FLAG_SENT_TIME || flags == 0
    requires w & (FLAG_SENT_TIME | FLAG_COMPRESSED) == flags
    ensures w & FLAG_COMPRESSED == 0 && (w & FLAG_SENT_TIME != 0 <==> flags == FLAG_SENT_TIME)
  {
  }
}
