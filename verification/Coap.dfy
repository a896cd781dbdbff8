/** The CoAP packet codec: internal/protocol/coap/packet.go (RFC 7252, sections 3 and 3.1). */
module Coap {
  import opened Basics
  import opened Sorting

  const VERSION1: byte := 1
  const MAX_TOKEN_SIZE := 8
  const PAYLOAD_MARKER: byte := 0xff

  const CONFIRMABLE: byte := 0
  const NON_CONFIRMABLE: byte := 1
  const ACKNOWLEDGEMENT: byte := 2
  const RESET: byte := 3

  datatype CoapOption = CoapOption(number: uint16, value: Bytes)

  datatype Packet = Packet(
    version: byte,
    typ: byte,
    code: byte,
    messageId: uint16,
    token: Bytes,
    options: seq<CoapOption>,
    payload: Bytes)

  datatype Error =
    | UnsupportedVersion
    | TokenTooLong
    | OptionsOutOfOrder
    | TooShort
    | TruncatedToken
    | EmptyPayloadMarker
    | MissingOptionHeader
    | ReservedNibble
    | TruncatedExtended
    | TruncatedValue

  predicate NumberBefore(a: CoapOption, b: CoapOption) {
    a.number < b.number
  }

  /** `sorted` is a possible result of sorting `options` by number. */
  ghost predicate SortedByNumber(options: seq<CoapOption>, sorted: seq<CoapOption>) {
    SliceSorted(NumberBefore, options, sorted)
  }

  // ---------------------------------------------------------------- encoding

  /** The nibble and the extra bytes that stand for an option delta or length. */
  function EncodeExtended(value: uint16): (byte, Bytes) {
    if value < 13 then (value, [])
    else if value < 269 then (13, [value - 13])
    else (14, PutUint16(value - 269))
  }

  /** A value of 65536 bytes or more has its length cut to 16 bits. */
  function WriteOption(delta: uint16, value: Bytes): Bytes {
    var (deltaNibble: int, deltaExtra) := EncodeExtended(delta);
    var (lengthNibble: int, lengthExtra) := EncodeExtended(|value| % 0x1_0000);
    [deltaNibble * 16 + lengthNibble] + deltaExtra + lengthExtra + value
  }

  /** Option numbers never fall, and the first is at least `previous`. */
  predicate Ascending(options: seq<CoapOption>, previous: uint16) {
    options == [] || (previous <= options[0].number && Ascending(options[1..], options[0].number))
  }

  function EncodePayload(payload: Bytes): Bytes {
    if payload == [] then [] else [PAYLOAD_MARKER] + payload
  }

  /** The options, each with its distance to the one before, and then the payload. */
  function EncodeBody(options: seq<CoapOption>, previous: uint16, payload: Bytes): Bytes
    requires Ascending(options, previous)
  {
    if options == [] then EncodePayload(payload)
    else WriteOption(options[0].number - previous, options[0].value)
         + EncodeBody(options[1..], options[0].number, payload)
  }

  function Header(packet: Packet): Bytes
    requires |packet.token| <= MAX_TOKEN_SIZE
  {
    var typ: int := packet.typ;
    [64 + typ % 4 * 16 + |packet.token|, packet.code] + PutUint16(packet.messageId) + packet.token
  }

  predicate Marshals(packet: Packet) {
    packet.version <= VERSION1 && |packet.token| <= MAX_TOKEN_SIZE
  }

  /** The bytes of `packet` with its options in the order `sorted`. */
  function Encode(packet: Packet, sorted: seq<CoapOption>): Bytes
    requires Marshals(packet) && Ascending(sorted, 0)
  {
    Header(packet) + EncodeBody(sorted, 0, packet.payload)
  }

  // ---------------------------------------------------------------- decoding

  /** The value and the number of extra bytes used; the sum is taken modulo 65536. */
  function DecodeExtended(nibble: byte, data: Bytes): Result<(uint16, nat), Error>
    requires nibble < 16
  {
    if nibble == 15 then Err(ReservedNibble)
    else if nibble == 14 then
      if |data| < 2 then Err(TruncatedExtended)
      else Ok(((Uint16(data[..2]) as int + 269) % 0x1_0000, 2))
    else if nibble == 13 then
      if |data| < 1 then Err(TruncatedExtended)
      else Ok((data[0] as int + 13, 1))
    else Ok((nibble as int, 0))
  }

  /** One option and the number of bytes it takes; the number wraps at 65536. */
  function ParseOption(data: Bytes, previous: uint16): (r: Result<(CoapOption, nat), Error>)
    ensures r.Ok? ==> 1 <= r.value.1 <= |data|
  {
    if data == [] then Err(MissingOptionHeader)
    else
      var (delta: int, consumed) :- DecodeExtended(data[0] / 16, data[1..]);
      var offset: nat := 1 + consumed;
      var (length, consumed2) :- DecodeExtended(data[0] % 16, data[offset..]);
      var start: nat := offset + consumed2;
      if |data| < start + length then Err(TruncatedValue)
      else Ok((CoapOption((previous + delta) % 0x1_0000, data[start..start + length]), start + length))
  }

  /** Options and payload of the bytes after the token. */
  function DecodeBody(data: Bytes, previous: uint16): Result<(seq<CoapOption>, Bytes), Error>
    decreases |data|
  {
    if data == [] then Ok(([], []))
    else if data[0] == PAYLOAD_MARKER then
      if |data| == 1 then Err(EmptyPayloadMarker) else Ok(([], data[1..]))
    else
      var (option, consumed) :- ParseOption(data, previous);
      var (options, payload) :- DecodeBody(data[consumed..], option.number);
      Ok(([option] + options, payload))
  }

  /** The packet with the header of `header` and the options and payload of `body`. */
  function Complete(header: Packet, body: Result<(seq<CoapOption>, Bytes), Error>): Result<Packet, Error> {
    match body
    case Err(e) => Err(e)
    case Ok((options, payload)) => Ok(header.(options := options, payload := payload))
  }

  function Decode(data: Bytes): Result<Packet, Error> {
    if |data| < 4 then Err(TooShort)
    else if data[0] / 64 != VERSION1 then Err(UnsupportedVersion)
    else
      var tokenLength: nat := data[0] % 16;
      if tokenLength > MAX_TOKEN_SIZE then Err(TokenTooLong)
      else if |data| < 4 + tokenLength then Err(TruncatedToken)
      else
        Complete(Packet(VERSION1, data[0] / 16 % 4, data[1], Uint16(data[2..4]), data[4..4 + tokenLength], [], []),
                 DecodeBody(data[4 + tokenLength..], 0))
  }

  /** Puts options already read in front of what the rest decodes to. */
  function Prepend(options: seq<CoapOption>, rest: Result<(seq<CoapOption>, Bytes), Error>)
    : Result<(seq<CoapOption>, Bytes), Error>
  {
    match rest
    case Err(e) => Err(e)
    case Ok((more, payload)) => Ok((options + more, payload))
  }

  // ------------------------------------------- the sums that may exceed 16 bits

  /** The extended value as an unbounded sum. */
  function WideExtended(nibble: byte, data: Bytes): nat
    requires nibble < 16 && DecodeExtended(nibble, data).Ok?
  {
    if nibble == 14 then Uint16(data[..2]) as int + 269
    else if nibble == 13 then data[0] as int + 13
    else nibble as int
  }

  /** No sum made while reading the option at the front of `data` reaches 65536. */
  predicate OptionFits(data: Bytes, previous: uint16)
    requires ParseOption(data, previous).Ok?
  {
    var delta := WideExtended(data[0] / 16, data[1..]);
    var offset := 1 + DecodeExtended(data[0] / 16, data[1..]).value.1;
    previous + delta < 0x1_0000 && WideExtended(data[0] % 16, data[offset..]) < 0x1_0000
  }

  predicate BodyFits(data: Bytes, previous: uint16)
    requires DecodeBody(data, previous).Ok?
    decreases |data|
  {
    data == [] || data[0] == PAYLOAD_MARKER ||
    (OptionFits(data, previous) &&
     var (option, consumed) := ParseOption(data, previous).value;
     BodyFits(data[consumed..], option.number))
  }

  /** No 16-bit sum overflows while `data` is parsed. */
  predicate Fits(data: Bytes)
    requires Decode(data).Ok?
  {
    BodyFits(data[4 + data[0] % 16..], 0)
  }

  // ------------------------------------------------- encoding, then decoding

  lemma ExtendedRoundTrip(value: uint16, rest: Bytes)
    ensures EncodeExtended(value).0 <= 14
    ensures var (nibble, extra) := EncodeExtended(value);
            DecodeExtended(nibble, extra + rest) == Ok((value, |extra|)) &&
            WideExtended(nibble, extra + rest) == value
  {
    var (nibble, extra) := EncodeExtended(value);
    if value >= 269 {
      assert (extra + rest)[..2] == extra;
    }
  }

  /** What WriteOption writes is read back, and never starts with the payload marker. */
  lemma OptionRoundTrip(previous: uint16, delta: uint16, value: Bytes, rest: Bytes)
    requires previous + delta < 0x1_0000 && |value| < 0x1_0000
    ensures var written := WriteOption(delta, value);
            written[0] != PAYLOAD_MARKER &&
            ParseOption(written + rest, previous) == Ok((CoapOption(previous + delta, value), |written|)) &&
            OptionFits(written + rest, previous)
  {
    hide EncodeExtended, DecodeExtended, WideExtended;
    var (deltaNibble, deltaExtra) := EncodeExtended(delta);
    var (lengthNibble, lengthExtra) := EncodeExtended(|value|);
    ExtendedRoundTrip(delta, lengthExtra + value + rest);
    ExtendedRoundTrip(|value|, value + rest);
    var data := WriteOption(delta, value) + rest;
    Nibbles(deltaNibble, lengthNibble);
    assert data[1..] == deltaExtra + (lengthExtra + value + rest);
    assert data[1 + |deltaExtra|..] == lengthExtra + (value + rest);
    var start := 1 + |deltaExtra| + |lengthExtra|;
    assert data[start..start + |value|] == value;
  }

  lemma Nibbles(high: byte, low: byte)
    requires high <= 14 && low <= 14
    ensures var header: int := high as int * 16 + low;
            header < PAYLOAD_MARKER && header / 16 == high && header % 16 == low
  {
  }

  predicate ShortValues(options: seq<CoapOption>) {
    forall i :: 0 <= i < |options| ==> |options[i].value| < 0x1_0000
  }

  /** Decoding an option that stands in front of `rest`. */
  lemma DecodeBodyStep(written: Bytes, rest: Bytes, previous: uint16, option: CoapOption)
    requires written != [] && written[0] != PAYLOAD_MARKER
    requires ParseOption(written + rest, previous) == Ok((option, |written|))
    ensures DecodeBody(written + rest, previous) == Prepend([option], DecodeBody(rest, option.number))
    ensures OptionFits(written + rest, previous) && DecodeBody(rest, option.number).Ok? && BodyFits(rest, option.number)
        ==> BodyFits(written + rest, previous)
  {
    var data := written + rest;
    assert data[0] == written[0];
    assert data[|written|..] == rest;
  }

  /** Decoding `data` from `previous` gives these options and payload, without overflow. */
  predicate Reads(data: Bytes, previous: uint16, options: seq<CoapOption>, payload: Bytes) {
    DecodeBody(data, previous) == Ok((options, payload)) && BodyFits(data, previous)
  }

  lemma ReadsPayload(previous: uint16, payload: Bytes)
    ensures Reads(EncodePayload(payload), previous, [], payload)
  {
    if payload != [] {
      assert EncodePayload(payload)[1..] == payload;
    }
  }

  lemma ReadsOption(previous: uint16, option: CoapOption, rest: Bytes, options: seq<CoapOption>, payload: Bytes)
    requires previous <= option.number && |option.value| < 0x1_0000
    requires Reads(rest, option.number, options, payload)
    ensures Reads(WriteOption(option.number - previous, option.value) + rest, previous, [option] + options, payload)
  {
    OptionRoundTrip(previous, option.number - previous, option.value, rest);
    DecodeBodyStep(WriteOption(option.number - previous, option.value), rest, previous, option);
  }

  lemma {:induction false} BodyRoundTrip(options: seq<CoapOption>, previous: uint16, payload: Bytes)
    requires Ascending(options, previous) && ShortValues(options)
    ensures Reads(EncodeBody(options, previous, payload), previous, options, payload)
    decreases |options|
  {
    hide Reads, WriteOption;
    if options == [] {
      ReadsPayload(previous, payload);
    } else {
      BodyRoundTrip(options[1..], options[0].number, payload);
      ReadsOption(previous, options[0], EncodeBody(options[1..], options[0].number, payload), options[1..], payload);
      assert options == [options[0]] + options[1..];
    }
  }

  /** Every option value that decoding returns has a 16-bit length. */
  lemma {:induction false} DecodedValuesShort(data: Bytes, previous: uint16)
    requires DecodeBody(data, previous).Ok?
    ensures ShortValues(DecodeBody(data, previous).value.0)
    decreases |data|
  {
    if data != [] && data[0] != PAYLOAD_MARKER {
      var (option, consumed) := ParseOption(data, previous).value;
      DecodedValuesShort(data[consumed..], option.number);
    }
  }

  /** The fields packed into the first byte come apart again. */
  lemma FirstByte(typ: int, tokenLength: int)
    requires 0 <= tokenLength < 16
    ensures var first := 64 + typ % 4 * 16 + tokenLength;
            first / 64 == 1 && first / 16 % 4 == typ % 4 && first % 16 == tokenLength
  {
  }

  lemma DecodeSplitsHeader(packet: Packet, body: Bytes)
    requires |packet.token| <= MAX_TOKEN_SIZE
    ensures var data := Header(packet) + body;
            |data| >= 4 + |packet.token| && data[4 + data[0] % 16..] == body &&
            (Decode(data).Ok? ==> (Fits(data) <==> BodyFits(body, 0))) &&
            Decode(data) == match DecodeBody(body, 0)
                            case Err(e) => Err(e)
                            case Ok((options, payload)) =>
                              Ok(Packet(1, packet.typ % 4, packet.code, packet.messageId, packet.token, options, payload))
  {
    var data := Header(packet) + body;
    FirstByte(packet.typ, |packet.token|);
    assert data[2..4] == PutUint16(packet.messageId);
    assert data[4..4 + |packet.token|] == packet.token;
    assert data[4 + |packet.token|..] == body;
  }

  /**
   * Parsing what Marshal wrote gives the packet back, with its options in number
   * order, exactly when the type is a real CoAP type and no option value is
   * longer than 65535 bytes.
   */
  lemma ParseInvertsMarshal(packet: Packet, sorted: seq<CoapOption>)
    requires Marshals(packet) && Ascending(sorted, 0)
    ensures Decode(Encode(packet, sorted)) == Ok(packet.(version := 1, options := sorted))
       <==> packet.typ < 4 && ShortValues(sorted)
    ensures packet.typ < 4 && ShortValues(sorted) ==> Fits(Encode(packet, sorted))
  {
    hide DecodeBody, BodyFits, EncodeBody, Ascending, Header, Decode;
    var body := EncodeBody(sorted, 0, packet.payload);
    DecodeSplitsHeader(packet, body);
    if packet.typ < 4 && ShortValues(sorted) {
      BodyRoundTrip(sorted, 0, packet.payload);
    } else if ShortValues(sorted) {
    } else if DecodeBody(body, 0).Ok? {
      DecodedValuesShort(body, 0);
    }
  }

  // ------------------------------------------------- decoding, then encoding

  lemma ExtendedCanonical(nibble: byte, data: Bytes)
    requires nibble < 16 && DecodeExtended(nibble, data).Ok?
    requires WideExtended(nibble, data) < 0x1_0000
    ensures var (value, consumed) := DecodeExtended(nibble, data).value;
            value == WideExtended(nibble, data) && consumed <= |data| &&
            EncodeExtended(value) == (nibble, data[..consumed])
  {
    var (value, consumed) := DecodeExtended(nibble, data).value;
    if nibble == 14 {
      assert PutUint16(value - 269) == data[..2];
    } else if nibble == 13 {
      assert [value - 13] == data[..1];
    } else {
      assert data[..0] == [];
    }
  }

  lemma OptionCanonical(data: Bytes, previous: uint16)
    requires ParseOption(data, previous).Ok? && OptionFits(data, previous)
    ensures var (option, consumed) := ParseOption(data, previous).value;
            previous <= option.number &&
            data[..consumed] == WriteOption(option.number - previous, option.value)
  {
    hide EncodeExtended, DecodeExtended, WideExtended;
    var (option, consumed) := ParseOption(data, previous).value;
    ExtendedCanonical(data[0] / 16, data[1..]);
    var (delta, deltaSize) := DecodeExtended(data[0] / 16, data[1..]).value;
    ExtendedCanonical(data[0] % 16, data[1 + deltaSize..]);
    var (length, lengthSize) := DecodeExtended(data[0] % 16, data[1 + deltaSize..]).value;
    assert option.number - previous == delta && |option.value| == length;
    assert data[..consumed] == [data[0]] + data[1..][..deltaSize] + data[1 + deltaSize..][..lengthSize] + option.value;
  }

  lemma {:induction false} BodyCanonical(data: Bytes, previous: uint16)
    requires DecodeBody(data, previous).Ok? && BodyFits(data, previous)
    ensures var (options, payload) := DecodeBody(data, previous).value;
            Ascending(options, previous) &&
            EncodeBody(options, previous, payload) == data
    decreases |data|
  {
    hide DecodeExtended, WideExtended, WriteOption, ParseOption, OptionFits;
    if data != [] && data[0] != PAYLOAD_MARKER {
      OptionCanonical(data, previous);
      var (option, consumed) := ParseOption(data, previous).value;
      BodyCanonical(data[consumed..], option.number);
      var (options, payload) := DecodeBody(data, previous).value;
      assert options[1..] == DecodeBody(data[consumed..], option.number).value.0;
      assert data == data[..consumed] + data[consumed..];
    }
  }

  lemma {:induction false} AscendingIsSorted(options: seq<CoapOption>, previous: uint16)
    ensures Ascending(options, previous)
       <==> Sorted(NumberBefore, options) && (options != [] ==> previous <= options[0].number)
  {
    if options != [] {
      AscendingIsSorted(options[1..], options[0].number);
      if Sorted(NumberBefore, options) && |options| > 1 {
        assert !NumberBefore(options[1], options[0]);
      }
      if Ascending(options, previous) {
        forall i, j | 0 <= i < j < |options| ensures !NumberBefore(options[j], options[i]) {
          if i > 0 {
            assert options[1..][i - 1] == options[i] && options[1..][j - 1] == options[j];
          } else if j > 1 {
            assert options[1..][0] == options[1] && options[1..][j - 1] == options[j];
            assert !NumberBefore(options[1..][j - 1], options[1..][0]);
          }
        }
      }
      if Sorted(NumberBefore, options) {
        forall i, j | 0 <= i < j < |options| - 1
          ensures !NumberBefore(options[1..][j], options[1..][i])
        {
          assert options[1..][i] == options[i + 1] && options[1..][j] == options[j + 1];
        }
      }
    }
  }

  lemma SortedAscends(options: seq<CoapOption>, sorted: seq<CoapOption>)
    requires SortedByNumber(options, sorted)
    ensures Ascending(sorted, 0)
  {
    AscendingIsSorted(sorted, 0);
  }

  lemma SortedIsOwnSorting(options: seq<CoapOption>)
    requires Sorted(NumberBefore, options)
    ensures SortedByNumber(options, options)
  {
    InsertionSortKeepsSorted(NumberBefore, options);
  }

  lemma SortingKeepsValuesShort(options: seq<CoapOption>, sorted: seq<CoapOption>)
    requires multiset(options) == multiset(sorted) && ShortValues(options)
    ensures ShortValues(sorted)
  {
    forall i | 0 <= i < |sorted| ensures |sorted[i].value| < 0x1_0000 {
      assert sorted[i] in multiset(sorted);
      assert sorted[i] in options;
    }
  }

  /** The header fields Parse reads are the ones Header writes. */
  lemma HeaderCanonical(data: Bytes)
    requires Decode(data).Ok?
    ensures var packet := Decode(data).value;
            Marshals(packet) && packet.typ < 4 && |packet.token| == data[0] % 16 &&
            Header(packet) == data[..4 + |packet.token|]
  {
    hide DecodeBody;
    var packet := Decode(data).value;
    assert PutUint16(packet.messageId) == data[2..4];
    assert data[..4 + |packet.token|] == [data[0], data[1]] + data[2..4] + data[4..4 + |packet.token|];
  }

  /**
   * Marshalling what Parse accepted gives the same bytes exactly when no 16-bit
   * sum overflowed during the parse.
   */
  lemma MarshalInvertsParse(data: Bytes, sorted: seq<CoapOption>)
    requires Decode(data).Ok?
    requires SortedByNumber(Decode(data).value.options, sorted)
    ensures Marshals(Decode(data).value) && Ascending(sorted, 0)
    ensures Encode(Decode(data).value, sorted) == data <==> Fits(data)
  {
    hide DecodeBody, BodyFits, EncodeBody, Ascending;
    var packet := Decode(data).value;
    var body := data[4 + |packet.token|..];
    SortedAscends(packet.options, sorted);
    HeaderCanonical(data);
    DecodedValuesShort(body, 0);
    SortingKeepsValuesShort(packet.options, sorted);
    if Fits(data) {
      BodyCanonical(body, 0);
      AscendingIsSorted(packet.options, 0);
      assert sorted == packet.options;
      assert data == data[..4 + |packet.token|] + body;
    } else {
      ParseInvertsMarshal(packet, sorted);
    }
  }

  /** The byte strings Parse accepts without overflow are exactly what Marshal can write. */
  lemma AcceptedIsMarshalled(data: Bytes)
    ensures Decode(data).Ok? && Fits(data)
       <==> exists packet :: Marshals(packet) && packet.typ < 4 && Ascending(packet.options, 0) &&
                             ShortValues(packet.options) && data == Encode(packet, packet.options)
  {
    if Decode(data).Ok? && Fits(data) {
      var packet := Decode(data).value;
      var body := data[4 + |packet.token|..];
      BodyCanonical(body, 0);
      DecodedValuesShort(body, 0);
      AscendingIsSorted(packet.options, 0);
      SortedIsOwnSorting(packet.options);
      MarshalInvertsParse(data, packet.options);
    }
    forall packet | Marshals(packet) && packet.typ < 4 && Ascending(packet.options, 0) &&
                    ShortValues(packet.options) && data == Encode(packet, packet.options)
      ensures Decode(data).Ok? && Fits(data)
    {
      ParseInvertsMarshal(packet, packet.options);
    }
  }

  /** The overflow of the extended sum is real: this 7-byte packet is not canonical. */
  lemma OverflowIsNotCanonical()
    ensures var data := [0x40, 1, 0, 0, 0xe0, 0xff, 0xff];
            Decode(data) == Ok(Packet(1, 0, 1, 0, [], [CoapOption(268, [])], [])) && !Fits(data)
  {
    hide DecodeBody, BodyFits;
    var data: Bytes := [0x40, 1, 0, 0, 0xe0, 0xff, 0xff];
    var body: Bytes := [0xe0, 0xff, 0xff];
    assert data[4..] == body;
    assert body[1..][..2] == [0xff, 0xff] && body[3..] == [];
    assert body[1..] == [0xff, 0xff] && body[1..][..2] == [0xff, 0xff];
    assert body[3..] == [] && body[3..3] == [];
    assert DecodeExtended(14, body[1..]) == Ok((268, 2));
    assert DecodeExtended(0, body[3..]) == Ok((0, 0));
    hide DecodeExtended, WideExtended, ParseOption;
    OverflowingBody(body);
    assert data[2..4] == [0, 0] && data[4..4] == [];
    DecodeUnfolds(data);
  }

  lemma OverflowingBody(body: Bytes)
    requires |body| == 3 && body[0] == 0xe0
    requires DecodeExtended(14, body[1..]) == Ok((268, 2)) && WideExtended(14, body[1..]) == 65804
    requires DecodeExtended(0, body[3..]) == Ok((0, 0))
    ensures DecodeBody(body, 0) == Ok(([CoapOption(268, [])], [])) && !BodyFits(body, 0)
  {
    assert body[3..] == [] && body[3..3] == [];
    assert ParseOption(body, 0) == Ok((CoapOption(268, []), 3));
    var rest := body[3..];
    assert DecodeBody(rest, 268) == Ok(([], []));
    assert DecodeBody(body, 0) == Prepend([CoapOption(268, [])], DecodeBody(rest, 268));
    assert [CoapOption(268, [])] + [] == [CoapOption(268, [])];
  }

  // ---------------------------------------------------------------- the code

  lemma NumberBeforeIsStrictWeak()
    ensures StrictWeak(NumberBefore)
  {
  }

  /** What the option loop has written, followed by what it still has to write. */
  lemma AscendingStep(options: seq<CoapOption>, i: nat)
    requires Ascending(options, 0) && i < |options|
    ensures var previous := if i == 0 then 0 else options[i - 1].number;
            previous <= options[i].number &&
            Ascending(options[i..], previous) && Ascending(options[i + 1..], options[i].number)
  {
    AscendingIsSorted(options, 0);
    if i > 0 {
      assert !NumberBefore(options[i], options[i - 1]);
    }
    AscendingIsSorted(options[i..], if i == 0 then 0 else options[i - 1].number);
    assert options[i..][1..] == options[i + 1..];
  }

  lemma Associate(a: Bytes, b: Bytes, c: Bytes)
    ensures a + (b + c) == a + b + c
  {
  }

  method Marshal(packet: Packet) returns (r: Result<Bytes, Error>)
    ensures r.Ok? <==> Marshals(packet)
    ensures packet.version > 1 ==> r == Err(UnsupportedVersion)
    ensures packet.version <= 1 && |packet.token| > MAX_TOKEN_SIZE ==> r == Err(TokenTooLong)
    ensures r.Ok? ==> exists sorted :: SortedByNumber(packet.options, sorted) &&
                                       Ascending(sorted, 0) && r.value == Encode(packet, sorted)
  {
    var version := if packet.version == 0 then VERSION1 else packet.version;
    if version != VERSION1 {
      return Err(UnsupportedVersion);
    }
    if |packet.token| > MAX_TOKEN_SIZE {
      return Err(TokenTooLong);
    }

    NumberBeforeIsStrictWeak();
    var options := SortSlice(NumberBefore, packet.options);
    SortedAscends(packet.options, options);

    var typ: int := packet.typ;
    var buffer: Bytes := [version * 64 + typ % 4 * 16 + |packet.token|];
    buffer := buffer + [packet.code];
    buffer := buffer + PutUint16(packet.messageId);
    buffer := buffer + packet.token;
    assert buffer == Header(packet);

    r := MarshalBody(buffer, options, packet.payload);
  }

  lemma EncodeBodyUnfolds(options: seq<CoapOption>, previous: uint16, payload: Bytes)
    requires Ascending(options, previous)
    ensures options == [] ==> EncodeBody(options, previous, payload) == EncodePayload(payload)
    ensures options != [] ==>
              EncodeBody(options, previous, payload) ==
              WriteOption(options[0].number - previous, options[0].value) + EncodeBody(options[1..], options[0].number, payload)
  {
  }

  /** The option loop of Marshal, and the payload. */
  method MarshalBody(start: Bytes, options: seq<CoapOption>, payload: Bytes) returns (r: Result<Bytes, Error>)
    requires Ascending(options, 0)
    ensures r == Ok(start + EncodeBody(options, 0, payload))
  {
    hide Ascending, EncodeBody, WriteOption;
    var buffer := start;
    var previous: uint16 := 0;
    ghost var goal := start + EncodeBody(options, 0, payload);
    assert options[0..] == options;
    for i := 0 to |options|
      invariant previous == if i == 0 then 0 else options[i - 1].number
      invariant Ascending(options[i..], previous)
      invariant goal == buffer + EncodeBody(options[i..], previous, payload)
    {
      AscendingStep(options, i);
      EncodeBodyUnfolds(options[i..], previous, payload);
      assert options[i..][1..] == options[i + 1..];
      if options[i].number < previous {
        return Err(OptionsOutOfOrder);
      }
      var written := WriteOption(options[i].number - previous, options[i].value);
      Associate(buffer, written, EncodeBody(options[i + 1..], options[i].number, payload));
      buffer := buffer + written;
      previous := options[i].number;
    }
    EncodeBodyUnfolds(options[|options|..], previous, payload);

    if |payload| > 0 {
      buffer := buffer + [PAYLOAD_MARKER];
      buffer := buffer + payload;
    }
    assert buffer == goal;
    return Ok(buffer);
  }

  lemma DecodeUnfolds(data: Bytes)
    requires |data| >= 4 && data[0] / 64 == VERSION1 && data[0] % 16 <= MAX_TOKEN_SIZE && |data| >= 4 + data[0] % 16
    ensures Decode(data)
         == Complete(Packet(VERSION1, data[0] / 16 % 4, data[1], Uint16(data[2..4]), data[4..4 + data[0] % 16], [], []),
                     DecodeBody(data[4 + data[0] % 16..], 0))
  {
  }

  lemma DecodeBodyUnfolds(data: Bytes, previous: uint16)
    ensures data == [] ==> DecodeBody(data, previous) == Ok(([], []))
    ensures data != [] && data[0] == PAYLOAD_MARKER ==>
              DecodeBody(data, previous) == if |data| == 1 then Err(EmptyPayloadMarker) else Ok(([], data[1..]))
    ensures data != [] && data[0] != PAYLOAD_MARKER ==>
              DecodeBody(data, previous) ==
              match ParseOption(data, previous)
              case Err(e) => Err(e)
              case Ok((option, consumed)) => Prepend([option], DecodeBody(data[consumed..], option.number))
  {
  }

  lemma PrependNothing(rest: Result<(seq<CoapOption>, Bytes), Error>)
    ensures Prepend([], rest) == rest
  {
    if rest.Ok? {
      assert [] + rest.value.0 == rest.value.0;
    }
  }

  lemma PrependTwice(options: seq<CoapOption>, next: CoapOption, rest: Result<(seq<CoapOption>, Bytes), Error>)
    ensures Prepend(options, Prepend([next], rest)) == Prepend(options + [next], rest)
  {
    if rest.Ok? {
      assert options + ([next] + rest.value.0) == options + [next] + rest.value.0;
    }
  }

  method Parse(data: Bytes) returns (r: Result<Packet, Error>)
    ensures r == Decode(data)
  {
    if |data| < 4 {
      return Err(TooShort);
    }
    var first := data[0];
    var tokenLength: nat := first % 16;
    if first / 64 != VERSION1 {
      return Err(UnsupportedVersion);
    }
    if tokenLength > MAX_TOKEN_SIZE {
      return Err(TokenTooLong);
    }
    if |data| < 4 + tokenLength {
      return Err(TruncatedToken);
    }
    var packet := Packet(VERSION1, first / 16 % 4, data[1], Uint16(data[2..4]), data[4..4 + tokenLength], [], []);
    r := ParseBody(data, 4 + tokenLength, packet);
  }

  /** The loop of Parse: options up to the payload marker or the end. */
  method ParseBody(data: Bytes, start: nat, header: Packet) returns (r: Result<Packet, Error>)
    requires start <= |data| && header.options == [] && header.payload == []
    ensures r == Complete(header, DecodeBody(data[start..], 0))
  {
    hide DecodeBody, ParseOption;
    var packet, offset := header, start;
    var previous: uint16 := 0;
    PrependNothing(DecodeBody(data[start..], 0));
    while offset < |data|
      invariant start <= offset <= |data|
      invariant packet == header.(options := packet.options)
      invariant DecodeBody(data[start..], 0) == Prepend(packet.options, DecodeBody(data[offset..], previous))
    {
      DecodeBodyUnfolds(data[offset..], previous);
      if data[offset] == PAYLOAD_MARKER {
        offset := offset + 1;
        if offset == |data| {
          return Err(EmptyPayloadMarker);
        }
        assert data[offset - 1..][1..] == data[offset..];
        packet := packet.(payload := data[offset..]);
        assert packet.options + [] == packet.options;
        return Ok(packet);
      }
      var parsed := ParseOption(data[offset..], previous);
      if parsed.Err? {
        return Err(parsed.error);
      }
      var (option, consumed) := parsed.value;
      assert data[offset..][consumed..] == data[offset + consumed..];
      PrependTwice(packet.options, option, DecodeBody(data[offset + consumed..], option.number));
      packet := packet.(options := packet.options + [option]);
      previous := option.number;
      offset := offset + consumed;
    }
    assert data[offset..] == [];
    DecodeBodyUnfolds([], previous);
    assert packet.options + [] == packet.options;
    return Ok(packet);
  }

  // ---------------------------------------------------------------- paths

  const OPTION_URI_PATH: uint16 := 11
  const OPTION_URI_QUERY: uint16 := 15

  /** The options with one number, in packet order. */
  function OptionsNumbered(options: seq<CoapOption>, number: uint16): seq<CoapOption> {
    Filter((o: CoapOption) => o.number == number, options)
  }

  /**
   * Up to 12 options, sorting keeps options with equal numbers in their order,
   * so a path of several segments arrives as it was sent.
   */
  lemma SegmentsKeepTheirOrder(options: seq<CoapOption>, sorted: seq<CoapOption>, number: uint16)
    requires |options| <= 12 && SortedByNumber(options, sorted)
    ensures OptionsNumbered(sorted, number) == OptionsNumbered(options, number)
  {
    InsertionSortStable(NumberBefore, (o: CoapOption) => o.number == number, options);
  }
}
