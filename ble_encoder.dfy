/**
 * The frame encoder of the mock BLE adapter (mock_ble_adapter.py): it turns
 * the first sample of a block into exactly the frame the packet decoder
 * reads, `header byte ++ ASCII decimal digits ++ 0x0A`, written as
 * lower-case hexadecimal text, and feeds AF3 and AF4 frames to the decoder.
 */
module BleEncoder {
  import opened Wrappers
  import opened PyBuiltins
  import opened BoundedDeque
  import opened BleDecoder

  /** Used when the sample block is empty: the mid-scale of a 24-bit ADC. */
  const DefaultSample: int := 8388608
  const MaxSample: int := 16777215

  /** `samples[0] if samples else 8388608`, clamped into `[0, 16777215]`. */
  function EncodedSample(samples: seq<int>): (v: nat)
    ensures v <= MaxSample
    ensures samples == [] ==> v == DefaultSample
    ensures samples != [] && 0 <= samples[0] <= MaxSample ==> v == samples[0]
    ensures samples != [] && samples[0] < 0 ==> v == 0
    ensures samples != [] && samples[0] > MaxSample ==> v == MaxSample
  {
    var sample := if |samples| > 0 then samples[0] else DefaultSample;
    if sample < 0 then 0 else if sample > MaxSample then MaxSample else sample
  }

  /** The bytes of the frame: `header & 0xFF`, the digits of the sample, then 0x0A. */
  function FrameBytes(samples: seq<int>, header: int): seq<Byte>
  {
    var digits := DecimalString(EncodedSample(samples));
    assert forall i :: 0 <= i < |digits| ==> digits[i] as int < 128;
    [header % 256] + AsciiBytes(digits) + [Terminator]
  }

  /**
   * `_convert_to_ble_hex`: the header byte, the digit bytes and the
   * terminator, joined as two lower-case hexadecimal digits per byte.
   */
  method ConvertToBleHex(samples: seq<int>, header: int) returns (hexString: string)
    ensures hexString == ToHex(FrameBytes(samples, header))
  {
    var sample := if |samples| > 0 then samples[0] else DefaultSample;
    sample := if sample > MaxSample then MaxSample else sample;
    sample := if sample < 0 then 0 else sample;
    var digits := SampleDigits(sample);
    var packetBytes: seq<Byte> := [header % 256] + digits + [Terminator];
    hexString := ToHex(packetBytes);
  }

  /** The `for char in str(sample)` loop: one ASCII byte per decimal digit. */
  method SampleDigits(sample: nat) returns (bytes: seq<Byte>)
    ensures bytes == AsciiBytes(DecimalString(sample))
  {
    var sampleStr := DecimalString(sample);
    ghost var digits := AsciiBytes(sampleStr);
    bytes := [];
    for i := 0 to |sampleStr|
      invariant bytes == digits[..i]
    {
      assert digits[..i + 1] == digits[..i] + [digits[i]];
      bytes := bytes + [sampleStr[i] as int];
    }
    assert digits[..|sampleStr|] == digits;
  }

  /** Only the final byte is the terminator: the payload is all decimal digits. */
  lemma PayloadHasNoTerminator(samples: seq<int>, header: int)
    ensures var frame := FrameBytes(samples, header);
      && |frame| >= 3
      && frame[|frame| - 1] == Terminator
      && forall i :: 0 < i < |frame| - 1 ==> 0x30 <= frame[i] <= 0x39 && frame[i] != Terminator
  {
  }

  /** The encoder writes two lower-case hexadecimal digits per frame byte. */
  lemma EncodedTextIsLowerHex(samples: seq<int>, header: int)
    ensures var text := ToHex(FrameBytes(samples, header));
      && |text| == 2 * |FrameBytes(samples, header)|
      && forall i :: 0 <= i < |text| ==> IsDigit(text[i]) || 'a' <= text[i] <= 'f'
  {
    ToHexIsLowerHex(FrameBytes(samples, header));
  }

  /**
   * Decoding an encoded frame gives back the clamped first sample on the
   * channel its header names; only a PPG value of a million or more is dropped.
   */
  lemma {:induction false} RoundTrip(samples: seq<int>, header: int)
    ensures var v := EncodedSample(samples);
      var channel := ChannelOf(header % 256);
      PacketOutcome(ToHex(FrameBytes(samples, header))) ==
        if channel == PPG && v >= PpgCeiling then Rejected else Accepted(channel, v)
  {
    var v := EncodedSample(samples);
    var text := DecimalString(v);
    StripNoEdgeSpace(text);
    ParseDecimalString(v);
    TextRouted(header % 256, text, v);
    assert ToHex(FrameBytes(samples, header)) == TextFrame(header % 256, text);
  }

  /** The AF3 and AF4 frames of the mock adapter always decode to their clamped sample. */
  lemma EegRoundTrip(samples: seq<int>)
    ensures PacketOutcome(ToHex(FrameBytes(samples, 0x26))) == Accepted(AF3, EncodedSample(samples))
    ensures PacketOutcome(ToHex(FrameBytes(samples, 0x24))) == Accepted(AF4, EncodedSample(samples))
    ensures Reported(PacketOutcome(ToHex(FrameBytes(samples, 0x26)))) ==
      Some(("EEG AF3 (Left)", EncodedSample(samples)))
  {
    assert 0x26 % 256 == Af3Header && 0x24 % 256 == Af4Header;
    RoundTrip(samples, 0x26);
    RoundTrip(samples, 0x24);
  }

  /**
   * `_process_mock_packet` without its sleeps and processing triggers: the
   * AF3 frame and then the AF4 frame go through the decoder, so each buffer
   * gains the clamped first sample of its block and PPG is untouched.
   */
  method ProcessMockPacket(decoder: BLEPacketDecoder, af3Data: seq<int>, af4Data: seq<int>)
    requires decoder.Valid()
    modifies decoder
    ensures decoder.Valid()
    ensures decoder.eegAf3 == Push(old(decoder.eegAf3), EegCapacity, EncodedSample(af3Data))
    ensures decoder.eegAf4 == Push(old(decoder.eegAf4), EegCapacity, EncodedSample(af4Data))
    ensures decoder.ppg == old(decoder.ppg)
  {
    EegRoundTrip(af3Data);
    EegRoundTrip(af4Data);
    SendFrame(decoder, af3Data, 0x26);
    SendFrame(decoder, af4Data, 0x24);
  }

  /** One `_convert_to_ble_hex` followed by `decode_packet` on the text it returns. */
  method SendFrame(decoder: BLEPacketDecoder, samples: seq<int>, header: int)
    requires decoder.Valid()
    modifies decoder
    ensures decoder.Valid()
    ensures var outcome := PacketOutcome(ToHex(FrameBytes(samples, header)));
      && decoder.eegAf3 == AfterOutcome(old(decoder.eegAf3), EegCapacity, AF3, outcome)
      && decoder.eegAf4 == AfterOutcome(old(decoder.eegAf4), EegCapacity, AF4, outcome)
      && decoder.ppg == AfterOutcome(old(decoder.ppg), PpgCapacity, PPG, outcome)
  {
    var hexString := ConvertToBleHex(samples, header);
    var _ := decoder.DecodePacket(hexString);
  }
}
