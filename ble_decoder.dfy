/**
 * The packet decoder of the BLE link (ble/ble_decoder.py): a frame arrives as
 * hexadecimal text, is checked for its terminator, its payload is read as a
 * decimal integer and the value is routed by the header byte into one of
 * three bounded FIFO buffers.
 */
module BleDecoder {
  import opened Wrappers
  import opened PyBuiltins
  import opened BoundedDeque

  const Af4Header: Byte := 0x24
  const PpgHeader: Byte := 0x25
  const Af3Header: Byte := 0x26
  const Terminator: Byte := 0x0A

  /** `deque(maxlen=...)` capacities of the three buffers. */
  const EegCapacity: nat := 2000
  const PpgCapacity: nat := 200

  /** PPG values at or above this are dropped as transport glitches. */
  const PpgCeiling: int := 1000000

  /** The flat-line test of `clear_noise`. */
  const NoiseMinSamples: nat := 100
  const NoiseBaseline: int := 8809000
  const NoiseThreshold: real := 2000.0

  datatype Channel = AF4 | AF3 | PPG | Unknown
  {
    /** The label `decode_packet` returns with the value. */
    function Tag(): string
    {
      match this
      case AF4 => "EEG AF4 (Right)"
      case AF3 => "EEG AF3 (Left)"
      case PPG => "PPG"
      case Unknown => "Unknown"
    }
  }

  function ChannelOf(header: Byte): Channel
  {
    if header == Af4Header then AF4
    else if header == Af3Header then AF3
    else if header == PpgHeader then PPG
    else Unknown
  }

  /** A frame whose hex, length, terminator, ASCII and integer checks all passed. */
  datatype Frame = Frame(header: Byte, value: int)

  /** What one call of `decode_packet` does: drop the frame, or accept a value on a channel. */
  datatype Outcome = Rejected | Accepted(channel: Channel, value: int)

  /** `frame` came from `raw`: long enough, terminated, and headed by its first byte. */
  predicate FramedBy(raw: seq<Byte>, frame: Frame)
  {
    |raw| >= 3 && raw[|raw| - 1] == Terminator && frame.header == raw[0]
  }

  /** The parsing steps of `decode_packet`; every failure is an exception it swallows. */
  function ParseFrame(hexPacket: string): (r: Option<Frame>)
    ensures FromHex(hexPacket).None? ==> r.None?
    ensures r.Some? ==> FramedBy(FromHex(hexPacket).value, r.value)
  {
    match FromHex(hexPacket)
    case None => None
    case Some(raw) => ParseBytes(raw)
  }

  /** The steps of `decode_packet` after `bytes.fromhex`: length, terminator, ASCII and `int`. */
  function ParseBytes(raw: seq<Byte>): (r: Option<Frame>)
    ensures r.Some? ==> FramedBy(raw, r.value)
  {
    if |raw| < 3 || raw[|raw| - 1] != Terminator then None
    else
      match AsciiDecode(raw[1..|raw| - 1])
      case None => None
      case Some(text) =>
        match ParseInt(Strip(text))
        case None => None
        case Some(value) => Some(Frame(raw[0], value))
  }

  /** The routing decision of `decode_packet`, including the PPG ceiling. */
  function PacketOutcome(hexPacket: string): (o: Outcome)
    ensures o.Accepted? ==> ParseFrame(hexPacket).Some? && ParseFrame(hexPacket).value.value == o.value
    ensures o.Accepted? ==> o.channel == ChannelOf(ParseFrame(hexPacket).value.header)
    ensures o.Accepted? && o.channel == PPG ==> o.value < PpgCeiling
    ensures ParseFrame(hexPacket).None? ==> o == Rejected
  {
    Route(ParseFrame(hexPacket))
  }

  /** The routing step of `decode_packet`: by header, with PPG values of a million or more dropped. */
  function Route(parsed: Option<Frame>): (o: Outcome)
    ensures parsed.None? ==> o == Rejected
    ensures o.Accepted? ==> parsed.Some? && o.channel == ChannelOf(parsed.value.header) && o.value == parsed.value.value
    ensures o.Accepted? && o.channel == PPG ==> o.value < PpgCeiling
    ensures parsed.Some? && ChannelOf(parsed.value.header) != PPG ==> o.Accepted?
  {
    match parsed
    case None => Rejected
    case Some(frame) =>
      var channel := ChannelOf(frame.header);
      if channel == PPG && frame.value >= PpgCeiling then Rejected
      else Accepted(channel, frame.value)
  }

  /** The value `decode_packet` returns for an outcome. */
  function Reported(outcome: Outcome): Option<(string, int)>
  {
    match outcome
    case Rejected => None
    case Accepted(channel, value) => Some((channel.Tag(), value))
  }

  /** The buffer after an outcome: appended to only when the value was accepted on `channel`. */
  function AfterOutcome(buffer: seq<int>, capacity: nat, channel: Channel, outcome: Outcome): seq<int>
    requires 0 < capacity && |buffer| <= capacity
  {
    if outcome.Accepted? && outcome.channel == channel then Push(buffer, capacity, outcome.value)
    else buffer
  }

  // ---------------------------------------------------------------------
  // Frame properties
  // ---------------------------------------------------------------------

  /** A frame that is too short or lacks the terminator is dropped. */
  lemma MalformedFrameRejected(hexPacket: string)
    requires FromHex(hexPacket).Some?
    requires var raw := FromHex(hexPacket).value; |raw| < 3 || raw[|raw| - 1] != Terminator
    ensures PacketOutcome(hexPacket) == Rejected
  {
  }

  /**
   * Decoding the hex text of `header ++ payload ++ 0x0A` reads the payload as
   * ASCII, strips it and parses it as a base-10 integer.
   */
  lemma {:induction false} ParseWellFramed(header: Byte, payload: seq<Byte>)
    ensures ParseFrame(ToHex([header] + payload + [Terminator])) ==
      match AsciiDecode(payload)
      case None => None
      case Some(text) =>
        match ParseInt(Strip(text))
        case None => None
        case Some(value) => Some(Frame(header, value))
  {
    var raw := [header] + payload + [Terminator];
    FromHexToHex(raw);
    assert raw[1..|raw| - 1] == payload;
  }

  /** A well-framed packet with a parseable payload is routed by its header alone. */
  lemma Routing(header: Byte, payload: seq<Byte>, text: string, value: int)
    requires AsciiDecode(payload) == Some(text) && ParseInt(Strip(text)) == Some(value)
    ensures var o := PacketOutcome(ToHex([header] + payload + [Terminator]));
      && (header == Af4Header ==> o == Accepted(AF4, value))
      && (header == Af3Header ==> o == Accepted(AF3, value))
      && (header == PpgHeader ==> o == if value < PpgCeiling then Accepted(PPG, value) else Rejected)
      && (header !in {Af4Header, Af3Header, PpgHeader} ==> o == Accepted(Unknown, value))
  {
    ParseWellFramed(header, payload);
  }

  /** `int` accepts a sign, so a frame carrying `-n` decodes to a negative value. */
  lemma NegativeValueAccepted(header: Byte, n: nat)
    ensures PacketOutcome(TextFrame(header, "-" + DecimalString(n))) == Accepted(ChannelOf(header), -(n as int))
  {
    ParseDecimalString(n);
    NegatedDigitsAccepted(header, DecimalString(n), n);
  }

  /** A minus sign before a string of digits that parses as `m` gives the value -m. */
  lemma NegatedDigitsAccepted(header: Byte, digits: string, m: nat)
    requires |digits| > 0 && forall i :: 0 <= i < |digits| ==> IsDigit(digits[i])
    requires ParseInt(digits) == Some(m)
    ensures PacketOutcome(TextFrame(header, "-" + digits)) == Accepted(ChannelOf(header), -(m as int))
  {
    NegatedDigitsAscii(digits);
    ParseStrippedNegated(digits, m);
    TextAccepted(header, "-" + digits, -(m as int));
  }

  /** A minus sign followed by decimal digits is ASCII text. */
  lemma NegatedDigitsAscii(digits: string)
    requires forall i :: 0 <= i < |digits| ==> IsDigit(digits[i])
    ensures forall i :: 0 <= i < |"-" + digits| ==> ("-" + digits)[i] as int < 128
  {
    var text := "-" + digits;
    forall i | 0 < i < |text|
      ensures text[i] as int < 128
    {
      assert text[i] == digits[i - 1];
    }
  }

  /** The hexadecimal text of the frame `header ++ ASCII(text) ++ 0x0A`. */
  function TextFrame(header: Byte, text: string): string
    requires forall i :: 0 <= i < |text| ==> text[i] as int < 128
  {
    ToHex([header] + AsciiBytes(text) + [Terminator])
  }

  /** The frame of an ASCII text that parses is routed by its header and that value alone. */
  lemma TextRouted(header: Byte, text: string, value: int)
    requires forall i :: 0 <= i < |text| ==> text[i] as int < 128
    requires ParseInt(Strip(text)) == Some(value)
    ensures PacketOutcome(TextFrame(header, text)) == Route(Some(Frame(header, value)))
  {
    AsciiRoundTrip(text);
    ParseWellFramed(header, AsciiBytes(text));
  }

  /** Below the PPG ceiling, the frame of an ASCII text that parses is accepted on its header's channel. */
  lemma TextAccepted(header: Byte, text: string, value: int)
    requires forall i :: 0 <= i < |text| ==> text[i] as int < 128
    requires ParseInt(Strip(text)) == Some(value) && value < PpgCeiling
    ensures PacketOutcome(TextFrame(header, text)) == Accepted(ChannelOf(header), value)
  {
    TextRouted(header, text, value);
  }

  // ---------------------------------------------------------------------
  // The flat-line test of clear_noise
  // ---------------------------------------------------------------------

  function Abs(x: int): nat { if x < 0 then -x else x }

  /** The sum of `|x - 8809000|` over the buffer. */
  function SumDeviation(s: seq<int>): nat
  {
    if |s| == 0 then 0 else SumDeviation(s[..|s| - 1]) + Abs(s[|s| - 1] - NoiseBaseline)
  }

  /** More than 100 AF3 samples whose mean distance from the baseline is below 2000. */
  predicate Flatlined(af3: seq<int>)
    ensures Flatlined(af3) ==> |af3| > NoiseMinSamples && SumDeviation(af3) < 2000 * |af3|
  {
    |af3| > NoiseMinSamples && (SumDeviation(af3) as real) / (|af3| as real) < NoiseThreshold
  }

  lemma {:induction false} SmallSumHasSmallTerm(s: seq<int>)
    requires |s| > 0 && SumDeviation(s) < 2000 * |s|
    ensures exists i :: 0 <= i < |s| && Abs(s[i] - NoiseBaseline) < 2000
  {
    var last := |s| - 1;
    if Abs(s[last] - NoiseBaseline) >= 2000 {
      SmallSumHasSmallTerm(s[..last]);
      var i :| 0 <= i < last && Abs(s[..last][i] - NoiseBaseline) < 2000;
      assert s[i] == s[..last][i];
    }
  }

  /** A flat-lined buffer has at least one sample within 2000 of the baseline. */
  lemma FlatlinedHasSampleNearBaseline(af3: seq<int>)
    requires Flatlined(af3)
    ensures exists i :: 0 <= i < |af3| && Abs(af3[i] - NoiseBaseline) < 2000
  {
    var n := |af3| as real;
    var sum := SumDeviation(af3) as real;
    assert sum / n < 2000.0;
    assert sum < 2000.0 * n;
    SmallSumHasSmallTerm(af3);
  }

  // ---------------------------------------------------------------------
  // The decoder object
  // ---------------------------------------------------------------------

  /**
   * The parsing steps of `decode_packet`, up to routing: hex, length and
   * terminator, ASCII, then `int` of the stripped text; any failure is `None`.
   */
  method ParsePacket(hexPacket: string) returns (frame: Option<Frame>)
    ensures frame == ParseFrame(hexPacket)
  {
    var decoded := FromHex(hexPacket);
    if decoded.None? {
      return None;
    }
    var raw := decoded.value;
    if |raw| < 3 || raw[|raw| - 1] != Terminator {
      return None;
    }
    var header := raw[0];
    var payloadBytes := raw[1..|raw| - 1];
    var payloadStr := AsciiDecode(payloadBytes);
    if payloadStr.None? {
      return None;
    }
    var parsed := ParseInt(Strip(payloadStr.value));
    if parsed.None? {
      return None;
    }
    return Some(Frame(header, parsed.value));
  }

  class BLEPacketDecoder {
    var eegAf3: seq<int>
    var eegAf4: seq<int>
    var ppg: seq<int>

    ghost predicate Valid()
      reads this
    {
      |eegAf3| <= EegCapacity && |eegAf4| <= EegCapacity && |ppg| <= PpgCapacity
    }

    constructor ()
      ensures Valid()
      ensures eegAf3 == [] && eegAf4 == [] && ppg == []
    {
      eegAf3, eegAf4, ppg := [], [], [];
    }

    /**
     * `decode_packet`: returns the channel label and value of an accepted
     * frame and appends the value to that channel's buffer; a dropped frame
     * returns `None` and leaves every buffer as it was.
     */
    method DecodePacket(hexPacket: string) returns (r: Option<(string, int)>)
      requires Valid()
      modifies this
      ensures Valid()
      ensures r == Reported(PacketOutcome(hexPacket))
      ensures eegAf4 == AfterOutcome(old(eegAf4), EegCapacity, AF4, PacketOutcome(hexPacket))
      ensures eegAf3 == AfterOutcome(old(eegAf3), EegCapacity, AF3, PacketOutcome(hexPacket))
      ensures ppg == AfterOutcome(old(ppg), PpgCapacity, PPG, PacketOutcome(hexPacket))
    {
      var frame := ParsePacket(hexPacket);
      r := StoreFrame(frame);
    }

    /** The header dispatch of `decode_packet` once the frame is parsed. */
    method StoreFrame(frame: Option<Frame>) returns (r: Option<(string, int)>)
      requires Valid()
      modifies this
      ensures Valid()
      ensures r == Reported(Route(frame))
      ensures eegAf4 == AfterOutcome(old(eegAf4), EegCapacity, AF4, Route(frame))
      ensures eegAf3 == AfterOutcome(old(eegAf3), EegCapacity, AF3, Route(frame))
      ensures ppg == AfterOutcome(old(ppg), PpgCapacity, PPG, Route(frame))
    {
      if frame.None? {
        return None;
      }
      var header := frame.value.header;
      var value := frame.value.value;
      if header == Af4Header {
        eegAf4 := Push(eegAf4, EegCapacity, value);
        r := Some(("EEG AF4 (Right)", value));
      } else if header == Af3Header {
        eegAf3 := Push(eegAf3, EegCapacity, value);
        r := Some(("EEG AF3 (Left)", value));
      } else if header == PpgHeader {
        if value < PpgCeiling {
          ppg := Push(ppg, PpgCapacity, value);
          r := Some(("PPG", value));
        } else {
          r := None;
        }
      } else {
        r := Some(("Unknown", value));
      }
    }

    /** `clear_noise`: empties all three buffers exactly when AF3 looks flat-lined. */
    method ClearNoise()
      requires Valid()
      modifies this
      ensures Valid()
      ensures Flatlined(old(eegAf3)) ==> eegAf3 == [] && eegAf4 == [] && ppg == []
      ensures !Flatlined(old(eegAf3)) ==>
        eegAf3 == old(eegAf3) && eegAf4 == old(eegAf4) && ppg == old(ppg)
    {
      if |eegAf3| > NoiseMinSamples
        && (SumDeviation(eegAf3) as real) / (|eegAf3| as real) < NoiseThreshold
      {
        eegAf3 := [];
        eegAf4 := [];
        ppg := [];
      }
    }
  }
}
