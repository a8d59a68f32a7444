/** MQTT Version 5.0 framing as the readiness probe speaks it: variable byte integers,
    length-prefixed strings, and the CONNECT packet (sections 1.5.4 to 1.5.6 and 3.1). */
module MqttFraming {
  import opened Results

  type Byte = b: int | 0 <= b < 256

  const MAX_REMAINING: nat := 268_435_455

  datatype ReadinessError = RemainingLengthInvalid | Utf8Invalid | BinaryInvalid | PeerClosed

  // ----- Variable byte integers

  /** Seven bits a byte, least significant group first; the top bit means that more follow. */
  function Encoding(value: nat): seq<Byte> {
    if value < 128 then [value] else [value % 128 + 128] + Encoding(value / 128)
  }

  method Varint(value: int) returns (r: Result<seq<Byte>, ReadinessError>)
    ensures r == if 0 <= value <= MAX_REMAINING then Success(Encoding(value)) else Failure(RemainingLengthInvalid)
  {
    if !(0 <= value <= MAX_REMAINING) {
      return Failure(RemainingLengthInvalid);
    }
    var encoded: seq<Byte> := [];
    var rest: nat := value;
    while true
      invariant encoded + Encoding(rest) == Encoding(value)
      decreases rest
    {
      var digit := rest % 128;
      var next := rest / 128;
      if next != 0 {
        digit := digit + 128;
      }
      if next == 0 {
        assert Encoding(rest) == [digit];
        return Success(encoded + [digit]);
      }
      assert encoded + ([digit] + Encoding(next)) == encoded + [digit] + Encoding(next);
      encoded := encoded + [digit];
      rest := next;
    }
  }

  /** Reading at most `limit` bytes: the value and the number of bytes it took. */
  datatype Decoded = Value(value: nat, used: nat) | TooLong | Incomplete

  function Decode(bytes: seq<Byte>, limit: nat): Decoded {
    if limit == 0 then TooLong
    else if bytes == [] then Incomplete
    else if bytes[0] < 128 then Value(bytes[0], 1)
    else
      match Decode(bytes[1..], limit - 1)
      case Value(value, used) => Value(bytes[0] - 128 + 128 * value, used + 1)
      case other => other
  }

  lemma {:induction false} EncodingLength(value: nat, n: nat, bound: nat)
    requires bound == Pow128(n) && value < bound && n >= 1
    ensures |Encoding(value)| <= n
  {
    if value >= 128 {
      EncodingLength(value / 128, n - 1, Pow128(n - 1));
    }
  }

  function Pow128(n: nat): nat {
    if n == 0 then 1 else 128 * Pow128(n - 1)
  }

  lemma FourBytes()
    ensures Pow128(4) == MAX_REMAINING + 1
  {
    assert Pow128(2) == 16_384;
  }

  /** Decoding inverts encoding, whatever follows on the wire. */
  lemma {:induction false} DecodeInvertsEncode(value: nat, rest: seq<Byte>, limit: nat)
    requires |Encoding(value)| <= limit
    ensures Decode(Encoding(value) + rest, limit) == Value(value, |Encoding(value)|)
  {
    if value < 128 {
      assert (Encoding(value) + rest)[0] == value;
    } else {
      var tail := Encoding(value / 128) + rest;
      DecodeInvertsEncode(value / 128, rest, limit - 1);
      assert Encoding(value) + rest == [value % 128 + 128] + tail;
      assert ([value % 128 + 128] + tail)[1..] == tail;
    }
  }

  /** No shorter byte string decodes to the same value: the encoding is minimal. */
  lemma {:induction false} EncodingIsMinimal(bytes: seq<Byte>, limit: nat, value: nat, used: nat)
    requires Decode(bytes, limit) == Value(value, used)
    ensures used <= |bytes| && |Encoding(value)| <= used
  {
    if bytes[0] >= 128 {
      var d := Decode(bytes[1..], limit - 1);
      EncodingIsMinimal(bytes[1..], limit - 1, d.value, d.used);
      assert value / 128 == d.value;
    }
  }

  /** The decoder accepts one spelling of each value that the encoder produces, and longer
      ones with padding as well: exactly the encodings are those without a final zero. */
  lemma {:induction false} CanonicalIff(bytes: seq<Byte>, limit: nat, value: nat, used: nat)
    requires Decode(bytes, limit) == Value(value, used)
    ensures used <= |bytes| && used >= 1
    ensures bytes[..used] == Encoding(value) <==> used == 1 || bytes[used - 1] != 0
  {
    if bytes[0] >= 128 {
      var d := Decode(bytes[1..], limit - 1);
      CanonicalIff(bytes[1..], limit - 1, d.value, d.used);
      assert value / 128 == d.value && value % 128 == bytes[0] - 128;
      assert bytes[..used] == [bytes[0]] + bytes[1..][..used - 1];
      if used == 2 {
        assert bytes[1] == d.value;
      }
      if value >= 128 {
        assert Encoding(value) == [bytes[0]] + Encoding(d.value);
        if bytes[..used] == Encoding(value) {
          assert bytes[1..][..used - 1] == Encoding(value)[1..];
        }
      } else {
        assert |Encoding(value)| == 1;
      }
    }
  }

  // ----- The receiving side

  /** A socket: the bytes the peer will still send before it closes, and how many of them
      each receive call delivers. */
  class Socket {
    var pending: seq<Byte>
    var calls: nat
    const chunk: nat -> nat

    constructor (pending: seq<Byte>, chunk: nat -> nat)
      ensures this.pending == pending && calls == 0
    {
      this.pending, this.calls, this.chunk := pending, 0, chunk;
    }

    /** Some bytes, at least one unless the peer has closed, and no more than asked for. */
    method Recv(size: nat) returns (block: seq<Byte>)
      requires size > 0
      modifies this
      ensures old(pending) == block + pending && |block| <= size
      ensures block == [] <==> old(pending) == []
    {
      var n := chunk(calls);
      calls := calls + 1;
      if n > size {
        n := size;
      }
      if n == 0 {
        n := 1;
      }
      if n > |pending| {
        n := |pending|;
      }
      block := pending[..n];
      pending := pending[n..];
    }

    method RecvExact(size: nat) returns (r: Result<seq<Byte>, ReadinessError>)
      modifies this
      ensures |old(pending)| >= size ==> r == Success(old(pending)[..size]) && pending == old(pending)[size..]
      ensures |old(pending)| < size ==> r == Failure(PeerClosed) && pending == []
    {
      var blocks: seq<Byte> := [];
      while |blocks| < size
        invariant |blocks| <= size && blocks + pending == old(pending)
        decreases size - |blocks|
      {
        var block := Recv(size - |blocks|);
        if block == [] {
          assert blocks == old(pending);
          return Failure(PeerClosed);
        }
        assert blocks + (block + pending) == blocks + block + pending;
        blocks := blocks + block;
      }
      return Success(blocks);
    }

    /** The value read does not depend on how the bytes arrive: it is what the bytes on the
        wire decode to. */
    method RecvVarint() returns (r: Result<nat, ReadinessError>)
      modifies this
      ensures match Decode(old(pending), 4)
              case Value(value, used) => used <= |old(pending)| && r == Success(value)
                  && pending == old(pending)[used..]
              case TooLong => |old(pending)| >= 4 && r == Failure(RemainingLengthInvalid)
                  && pending == old(pending)[4..]
              case Incomplete => r == Failure(PeerClosed) && pending == []
    {
      var multiplier: nat, value: nat := 1, 0;
      ghost var wire := pending;
      for i := 0 to 4
        invariant i <= |wire| && pending == wire[i..]
        invariant Decode(wire, 4) == Resume(Decode(wire[i..], 4 - i), value, multiplier, i)
      {
        var block := RecvExact(1);
        if block.Failure? {
          return Failure(block.error);
        }
        var digit := block.value[0];
        assert digit == wire[i] && wire[i..][1..] == wire[i + 1..];
        if digit < 128 {
          value := value + multiplier * digit;
          return Success(value);
        }
        DecodeStep(wire[i..], 4 - i, value, multiplier, i);
        value := value + multiplier * (digit - 128);
        multiplier := multiplier * 128;
      }
      return Failure(RemainingLengthInvalid);
    }
  }

  /** A decoding continued after `i` bytes that contributed `value`. */
  function Resume(d: Decoded, value: nat, multiplier: nat, i: nat): Decoded {
    match d
    case Value(v, used) => Value(value + multiplier * v, used + i)
    case other => other
  }

  lemma DecodeStep(bytes: seq<Byte>, limit: nat, value: nat, multiplier: nat, i: nat)
    requires limit > 0 && bytes != [] && bytes[0] >= 128
    ensures Resume(Decode(bytes, limit), value, multiplier, i) ==
              Resume(Decode(bytes[1..], limit - 1), value + multiplier * (bytes[0] - 128), multiplier * 128, i + 1)
  {
    match Decode(bytes[1..], limit - 1)
    case Value(v, used) =>
      assert multiplier * (bytes[0] - 128 + 128 * v) == multiplier * (bytes[0] - 128) + multiplier * 128 * v;
    case other =>
  }

  /** Reading a variable byte integer that was written as one gives the value back and
      consumes exactly its bytes, for every value in range and every split of the stream. */
  lemma VarintRoundTrip(value: nat, rest: seq<Byte>)
    requires value <= MAX_REMAINING
    ensures |Encoding(value)| <= 4
    ensures Decode(Encoding(value) + rest, 4) == Value(value, |Encoding(value)|)
  {
    FourBytes();
    EncodingLength(value, 4, Pow128(4));
    DecodeInvertsEncode(value, rest, 4);
  }

  // ----- Strings, binary data and the CONNECT packet

  function Length16(n: nat): seq<Byte>
    requires n <= 65_535
  {
    [n / 256, n % 256]
  }

  /** A text by its UTF-8 bytes: not empty, short enough, and without a zero byte. */
  function Utf8(text: seq<Byte>): Result<seq<Byte>, ReadinessError> {
    if text == [] || |text| > 65_535 || 0 in text then Failure(Utf8Invalid)
    else Success(Length16(|text|) + text)
  }

  function Binary(data: seq<Byte>): Result<seq<Byte>, ReadinessError> {
    if data == [] || |data| > 65_535 then Failure(BinaryInvalid) else Success(Length16(|data|) + data)
  }

  /** Protocol name and version, connect flags (user name, password, clean start), keep
      alive of ten seconds, no properties. */
  const CONNECT_VARIABLE: seq<Byte> := [0, 4, 77, 81, 84, 84, 5, 0xC2, 0, 10, 0]

  function ConnectBody(clientId: seq<Byte>, username: seq<Byte>, password: seq<Byte>)
    : Result<seq<Byte>, ReadinessError>
  {
    match (Utf8(clientId), Utf8(username), Binary(password))
    case (Failure(e), _, _) => Failure(e)
    case (_, Failure(e), _) => Failure(e)
    case (_, _, Failure(e)) => Failure(e)
    case (Success(a), Success(b), Success(c)) => Success(CONNECT_VARIABLE + (a + (b + c)))
  }

  method ConnectPacket(clientId: seq<Byte>, username: seq<Byte>, password: seq<Byte>)
    returns (r: Result<seq<Byte>, ReadinessError>)
    ensures r == match ConnectBody(clientId, username, password)
                 case Failure(e) => Failure(e)
                 case Success(body) => Success([0x10] + Encoding(|body|) + body)
  {
    var body := ConnectBody(clientId, username, password);
    if body.Failure? {
      return Failure(body.error);
    }
    BodyFits(clientId, username, password);
    var length := Varint(|body.value|);
    if length.Failure? {
      return Failure(RemainingLengthInvalid);
    }
    return Success([0x10] + length.value + body.value);
  }

  /** Every body that can be built fits the length encoding, so that never fails. */
  lemma BodyFits(clientId: seq<Byte>, username: seq<Byte>, password: seq<Byte>)
    ensures var body := ConnectBody(clientId, username, password);
            body.Success? ==> |body.value| <= 11 + 3 * 65_537 <= MAX_REMAINING
  {
  }

  // ----- A reader for CONNECT packets, written from the standard

  datatype Field = Field(content: seq<Byte>, rest: seq<Byte>)

  function ReadField(bytes: seq<Byte>): Option<Field> {
    if |bytes| < 2 then None
    else
      var n: nat := bytes[0] as int * 256 + bytes[1] as int;
      if |bytes| < n + 2 then None else Some(Field(bytes[2..n + 2], bytes[n + 2..]))
  }

  datatype Connect = Connect(
    protocol: seq<Byte>, version: Byte, flags: Byte, keepAlive: nat,
    clientId: seq<Byte>, username: seq<Byte>, password: seq<Byte>)

  /** The payload fields that the flags announce, without a will, and nothing after them. */
  function ReadPayload(bytes: seq<Byte>): Option<(seq<Byte>, seq<Byte>, seq<Byte>)> {
    match ReadField(bytes)
    case None => None
    case Some(client) =>
      match ReadField(client.rest)
      case None => None
      case Some(user) =>
        match ReadField(user.rest)
        case None => None
        case Some(pass) => if pass.rest != [] then None else Some((client.content, user.content, pass.content))
  }

  /** What follows the fixed header, if that is a CONNECT header with the length of it. */
  function FramedBody(packet: seq<Byte>): Option<seq<Byte>> {
    if packet == [] || packet[0] != 0x10 then None
    else
      match Decode(packet[1..], 4)
      case TooLong => None
      case Incomplete => None
      case Value(length, used) => if used + 1 + length == |packet| then Some(packet[used + 1..]) else None
  }

  /** Section 3.1: fixed header, remaining length, variable header, properties, payload. */
  function ReadConnect(packet: seq<Byte>): Option<Connect> {
    match FramedBody(packet)
    case None => None
    case Some(body) => ReadBody(body)
  }

  function ReadBody(body: seq<Byte>): Option<Connect> {
    match ReadField(body)
    case None => None
    case Some(name) =>
      if |name.rest| < 4 then None
      else
        var flags, properties := name.rest[1], name.rest[4..];
        if flags != 0xC2 || properties == [] || properties[0] != 0 then None
        else
          match ReadPayload(properties[1..])
          case None => None
          case Some(payload) =>
            Some(Connect(name.content, name.rest[0], flags, name.rest[2] as int * 256 + name.rest[3] as int,
                         payload.0, payload.1, payload.2))
  }

  lemma FieldReadsBack(content: seq<Byte>, rest: seq<Byte>)
    requires |content| <= 65_535
    ensures ReadField(Length16(|content|) + content + rest) == Some(Field(content, rest))
  {
    var n := |content|;
    var bytes := Length16(n) + content + rest;
    assert bytes[0] == n / 256 && bytes[1] == n % 256;
    assert bytes[2..n + 2] == content && bytes[n + 2..] == rest;
  }

  lemma PayloadReadsBack(clientId: seq<Byte>, username: seq<Byte>, password: seq<Byte>)
    requires |clientId| <= 65_535 && |username| <= 65_535 && |password| <= 65_535
    ensures ReadPayload(Payload(clientId, username, password)) == Some((clientId, username, password))
  {
    var last := Length16(|password|) + password;
    var tail := Length16(|username|) + username + last;
    FieldReadsBack(clientId, tail);
    FieldReadsBack(username, last);
    FieldReadsBack(password, []);
    assert Length16(|password|) + password + [] == last;
  }

  lemma VariableHeaderReads(payload: seq<Byte>)
    ensures ReadField(CONNECT_VARIABLE + payload) == Some(Field([77, 81, 84, 84], [5, 0xC2, 0, 10, 0] + payload))
  {
    var body := CONNECT_VARIABLE + payload;
    assert body[2..6] == [77, 81, 84, 84] && body[6..] == [5, 0xC2, 0, 10, 0] + payload;
  }

  lemma BodyReadsBack(clientId: seq<Byte>, username: seq<Byte>, password: seq<Byte>)
    requires ConnectBody(clientId, username, password).Success?
    ensures var body := ConnectBody(clientId, username, password).value;
            ReadBody(body) == Some(Connect([77, 81, 84, 84], 5, 0xC2, 10, clientId, username, password))
  {
    var payload := Payload(clientId, username, password);
    assert ConnectBody(clientId, username, password).value == CONNECT_VARIABLE + payload;
    VariableHeaderReads(payload);
    PayloadReadsBack(clientId, username, password);
    HeaderReads(CONNECT_VARIABLE + payload, [5, 0xC2, 0, 10, 0] + payload, payload, [77, 81, 84, 84],
                clientId, username, password);
  }

  function Payload(clientId: seq<Byte>, username: seq<Byte>, password: seq<Byte>): seq<Byte>
    requires |clientId| <= 65_535 && |username| <= 65_535 && |password| <= 65_535
  {
    Length16(|clientId|) + clientId + (Length16(|username|) + username + (Length16(|password|) + password))
  }

  lemma HeaderReads(body: seq<Byte>, rest: seq<Byte>, payload: seq<Byte>, name: seq<Byte>,
                    clientId: seq<Byte>, username: seq<Byte>, password: seq<Byte>)
    requires ReadPayload(payload) == Some((clientId, username, password))
    requires ReadField(body) == Some(Field(name, rest)) && rest == [5, 0xC2, 0, 10, 0] + payload
    ensures ReadBody(body) == Some(Connect(name, 5, 0xC2, 10, clientId, username, password))
  {
    assert rest[0] == 5 && rest[1] == 0xC2 && rest[2] == 0 && rest[3] == 10;
    assert rest[4..] == [0] + payload;
    assert rest[4..][0] == 0 && rest[4..][1..] == payload;
  }

  /** A reader that follows the standard gets the client id, the user name and the password
      out of every packet that can be built. */
  lemma ConnectReadsBack(clientId: seq<Byte>, username: seq<Byte>, password: seq<Byte>)
    requires ConnectBody(clientId, username, password).Success?
    ensures var body := ConnectBody(clientId, username, password).value;
            ReadConnect([0x10] + Encoding(|body|) + body) ==
              Some(Connect([77, 81, 84, 84], 5, 0xC2, 10, clientId, username, password))
  {
    var body := ConnectBody(clientId, username, password).value;
    BodyFits(clientId, username, password);
    BodyReadsBack(clientId, username, password);
    PacketReads(body);
  }

  lemma PacketReads(body: seq<Byte>)
    requires |body| <= MAX_REMAINING
    ensures FramedBody([0x10] + Encoding(|body|) + body) == Some(body)
  {
    VarintRoundTrip(|body|, body);
    LengthReads([0x10] + Encoding(|body|) + body, Encoding(|body|), body);
  }

  lemma LengthReads(packet: seq<Byte>, encoded: seq<Byte>, body: seq<Byte>)
    requires packet == [0x10] + encoded + body && Decode(encoded + body, 4) == Value(|body|, |encoded|)
    ensures FramedBody(packet) == Some(body)
  {
    hide Decode;
    assert packet[1..] == encoded + body;
    assert packet[|encoded| + 1..] == body;
  }
}
