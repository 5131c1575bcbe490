/** The sample side of the ADS1299 driver
    (`Reading_EEG_Data/ads1299_main/ADS1299.cpp`): turning the 24-bit
    samples of a data frame into 32-bit channel words, the synthetic test
    ramp, and the two serial packet formats built from the channel words.

    On the ESP32 a `long` is 32 bits wide and stored least significant byte
    first, so a channel word is a `bv32` and `Serial.write(val_ptr, 4)`
    sends its four bytes in that order. */
module Ads1299Data {
  import opened Ads1299Regs
  import Ads1299Driver

  // ---------------------------------------------------------------------
  // 32-bit words and their bytes.

  function Byte0(v: bv32): bv8 { (v & 0xFF) as bv8 }
  function Byte1(v: bv32): bv8 { ((v >> 8) & 0xFF) as bv8 }
  function Byte2(v: bv32): bv8 { ((v >> 16) & 0xFF) as bv8 }
  function Byte3(v: bv32): bv8 { (v >> 24) as bv8 }

  /** The four bytes `Serial.write(val_ptr, 4)` sends for a word. */
  function LeWord(v: bv32): (b: seq<bv8>)
    ensures |b| == 4
  {
    [Byte0(v), Byte1(v), Byte2(v), Byte3(v)]
  }

  /** The word a receiver assembles from four bytes, least significant first. */
  function WordOf(b: seq<bv8>): bv32
    requires |b| == 4
  {
    (b[0] as bv32) | ((b[1] as bv32) << 8) | ((b[2] as bv32) << 16) | ((b[3] as bv32) << 24)
  }

  /** A receiver gets back exactly the word that was sent. */
  lemma LeWordRoundTrip(v: bv32)
    ensures WordOf(LeWord(v)) == v
  {
  }

  /** Every four bytes are the encoding of the word they assemble to. */
  lemma WordOfRoundTrip(b: seq<bv8>)
    requires |b| == 4
    ensures LeWord(WordOf(b)) == b
  {
  }

  /** The integer a 32-bit two's-complement word stands for. */
  function Signed32(v: bv32): (i: int)
    ensures -0x8000_0000 <= i < 0x8000_0000
  {
    var u := Byte0(v) as int + 0x100 * Byte1(v) as int + 0x1_0000 * Byte2(v) as int + 0x100_0000 * Byte3(v) as int;
    if u >= 0x8000_0000 then u - 0x1_0000_0000 else u
  }

  /** The word holding a 32-bit integer in two's complement. */
  function FromInt32(i: int): bv32
    requires -0x8000_0000 <= i < 0x8000_0000
  {
    if i < 0 then (i + 0x1_0000_0000) as bv32 else i as bv32
  }

  // ---------------------------------------------------------------------
  // Data frames.

  /** `acc = (acc << 8) | b`, the step with which `updateChannelData`
      accumulates the status word and each channel word byte by byte. */
  function ShiftByte(acc: bv32, b: bv8): bv32 {
    (acc << 8) | (b as bv32)
  }

  /** `acc` after `ShiftByte` with each of `bytes` in turn. */
  function ShiftIn(acc: bv32, bytes: seq<bv8>): bv32
    decreases |bytes|
  {
    if |bytes| == 0 then acc else ShiftByte(ShiftIn(acc, bytes[..|bytes| - 1]), bytes[|bytes| - 1])
  }

  lemma ShiftInThree(acc: bv32, s: seq<bv8>)
    requires |s| == 3
    ensures ShiftIn(acc, s) == ShiftByte(ShiftByte(ShiftByte(acc, s[0]), s[1]), s[2])
  {
    assert s[..2][..1][..0] == [];
    assert ShiftIn(acc, s[..1]) == ShiftByte(acc, s[0]);
    assert ShiftIn(acc, s[..2]) == ShiftByte(ShiftByte(acc, s[0]), s[1]);
  }

  /** Three bytes shifted into the status word: the old word moves up by 24
      bits and the bytes fill the low 24. */
  lemma StatusShifted(acc: bv32, b0: bv8, b1: bv8, b2: bv8)
    ensures ShiftByte(ShiftByte(ShiftByte(acc, b0), b1), b2) == (acc << 24) | Frame24(b0, b1, b2)
  {
    var raw := ((((((acc << 8) | (b0 as bv32)) << 8) | (b1 as bv32)) << 8) | (b2 as bv32));
    assert ShiftByte(ShiftByte(ShiftByte(acc, b0), b1), b2) == raw;
    StatusRaw(acc, b0, b1, b2);
  }

  lemma StatusRaw(acc: bv32, b0: bv8, b1: bv8, b2: bv8)
    ensures ((((((acc << 8) | (b0 as bv32)) << 8) | (b1 as bv32)) << 8) | (b2 as bv32)) ==
            (acc << 24) | (((b0 as bv32) << 16) | ((b1 as bv32) << 8) | (b2 as bv32))
  {
  }

  /** The reformatting step: bit 23 (`bitRead(channelData[i], 23)`) copied
      into the top byte. */
  function Reformat(raw: bv32): bv32 {
    if raw & 0x80_0000 != 0 then raw | 0xFF00_0000 else raw & 0x00FF_FFFF
  }

  /** The 24-bit sample `b0 b1 b2`, most significant byte first, in the
      low bits of a word. */
  function Frame24(b0: bv8, b1: bv8, b2: bv8): bv32 {
    ((b0 as bv32) << 16) | ((b1 as bv32) << 8) | (b2 as bv32)
  }

  /** The 24-bit sample sign-extended to 32 bits. */
  function SignExtend24(b0: bv8, b1: bv8, b2: bv8): bv32 {
    var raw := Frame24(b0, b1, b2);
    if raw & 0x80_0000 != 0 then raw | 0xFF00_0000 else raw
  }

  /** The bytes of a sign-extended sample: the sample's own three bytes and
      a top byte copying its sign bit. */
  lemma SignExtendBytes(b0: bv8, b1: bv8, b2: bv8)
    ensures var v := SignExtend24(b0, b1, b2);
            Byte0(v) == b2 && Byte1(v) == b1 && Byte2(v) == b0 && Byte3(v) == if b0 & 0x80 != 0 then 0xFF else 0x00
  {
  }

  /** Three bytes shifted into a channel word and reformatted give the
      sign-extended sample, whatever the word held before: the old contents
      are shifted out above bit 23 and overwritten by the reformatting. */
  lemma ReformatShifted(acc: bv32, b0: bv8, b1: bv8, b2: bv8)
    ensures Reformat(ShiftByte(ShiftByte(ShiftByte(acc, b0), b1), b2)) == SignExtend24(b0, b1, b2)
  {
    var raw := ((((((acc << 8) | (b0 as bv32)) << 8) | (b1 as bv32)) << 8) | (b2 as bv32));
    assert ShiftByte(ShiftByte(ShiftByte(acc, b0), b1), b2) == raw;
    ReformatRaw(acc, b0, b1, b2);
  }

  lemma ReformatRaw(acc: bv32, b0: bv8, b1: bv8, b2: bv8)
    ensures var raw := ((((((acc << 8) | (b0 as bv32)) << 8) | (b1 as bv32)) << 8) | (b2 as bv32));
            (if raw & 0x80_0000 != 0 then raw | 0xFF00_0000 else raw & 0x00FF_FFFF) == SignExtend24(b0, b1, b2)
  {
  }

  /** The sign-extended sample stands for the 24-bit two's-complement
      number `b0 b1 b2`. */
  lemma SignExtendValue(b0: bv8, b1: bv8, b2: bv8)
    ensures Signed32(SignExtend24(b0, b1, b2)) ==
            b0 as int * 0x1_0000 + b1 as int * 0x100 + b2 as int - (if b0 as int >= 0x80 then 0x100_0000 else 0)
  {
    var v := SignExtend24(b0, b1, b2);
    var top: bv8 := if b0 & 0x80 != 0 then 0xFF else 0x00;
    SignExtendBytes(b0, b1, b2);
    HighBit(b0);
    assert Byte3(v) == top;
    assert top as int == if b0 as int >= 0x80 then 255 else 0;
    SignedOfBytes(v, b2, b1, b0, top);
  }

  lemma HighBit(b: bv8)
    ensures (b & 0x80 != 0) == (b as int >= 0x80)
  {
  }

  lemma SignedOfBytes(v: bv32, c0: bv8, c1: bv8, c2: bv8, c3: bv8)
    requires Byte0(v) == c0 && Byte1(v) == c1 && Byte2(v) == c2 && Byte3(v) == c3
    ensures var u := c0 as int + 0x100 * c1 as int + 0x1_0000 * c2 as int + 0x100_0000 * c3 as int;
            Signed32(v) == if u >= 0x8000_0000 then u - 0x1_0000_0000 else u
  {
  }

  /** Bytes in one data frame: three status bytes, then three per channel. */
  const FrameLength: nat := 3 + 3 * ChannelsPerBoard

  /** Channel `i` of a data frame, as `updateChannelData` leaves it in
      `channelData[i]`. */
  function FrameSample(frame: seq<bv8>, i: nat): bv32
    requires |frame| == FrameLength && i < ChannelsPerBoard
  {
    SignExtend24(frame[3 + 3 * i], frame[4 + 3 * i], frame[5 + 3 * i])
  }
  /** Shifting the three status bytes of a frame into `acc` leaves `acc`'s
      low byte in the top byte and the status bytes below it. */
  lemma StatusShiftIn(acc: bv32, frame: seq<bv8>)
    requires |frame| == FrameLength
    ensures ShiftIn(acc, frame[..3]) == (acc << 24) | Frame24(frame[0], frame[1], frame[2])
  {
    ShiftInThree(acc, frame[..3]);
    StatusShifted(acc, frame[0], frame[1], frame[2]);
  }

  /** Shifting channel `i`'s three bytes into any word and reformatting
      gives the channel's sample: whatever the word held is shifted out or
      overwritten by the sign bits. */
  lemma ChannelShiftIn(acc: bv32, frame: seq<bv8>, i: nat)
    requires |frame| == FrameLength && i < ChannelsPerBoard
    ensures Reformat(ShiftIn(acc, frame[3 + 3 * i..6 + 3 * i])) == FrameSample(frame, i)
  {
    var bytes := frame[3 + 3 * i..6 + 3 * i];
    ShiftInThree(acc, bytes);
    ReformatShifted(acc, bytes[0], bytes[1], bytes[2]);
  }


  // ---------------------------------------------------------------------
  // The synthetic ramp.

  /** C division of `long`s: the quotient truncated toward zero. */
  function TruncDiv(a: int, b: int): int
    requires b > 0
  {
    if a >= 0 then a / b else -((-a) / b)
  }

  /** `synthetic_amplitude_counts`. */
  const SyntheticAmplitude: int := 8950

  /** The ramp position of `makeSyntheticSample`: the low byte of the
      sample number times `chan + 1`, kept to its low byte. */
  function RampPhase(sampleNumber: bv32, chan: int): (p: int)
    requires 0 <= chan < ChannelsPerBoard
    ensures 0 <= p < 256
  {
    (Byte0(sampleNumber) as int * (chan + 1)) % 256
  }

  /** `makeSyntheticSample(sampleNumber, chan)`: a sawtooth of amplitude
      about `synthetic_amplitude_counts / 2` around zero. */
  function SyntheticSample(sampleNumber: bv32, chan: int): (v: int)
    requires 0 <= chan < ChannelsPerBoard
    ensures -4457 <= v <= 4492
  {
    TruncDiv(SyntheticAmplitude * (RampPhase(sampleNumber, chan) - 127), 255)
  }

  /** The ramp is negative on its first half, zero at its middle (phase 127)
      and positive after. */
  lemma SyntheticSign(sampleNumber: bv32, chan: int)
    requires 0 <= chan < ChannelsPerBoard
    ensures SyntheticSample(sampleNumber, chan) < 0 <==> RampPhase(sampleNumber, chan) < 127
    ensures SyntheticSample(sampleNumber, chan) == 0 <==> RampPhase(sampleNumber, chan) == 127
  {
  }

  /** The ramp repeats every 256 samples, sample-number wrap-around included. */
  lemma SyntheticPeriodic(sampleNumber: bv32, chan: int)
    requires 0 <= chan < ChannelsPerBoard
    ensures SyntheticSample(sampleNumber + 256, chan) == SyntheticSample(sampleNumber, chan)
  {
    assert Byte0(sampleNumber + 256) == Byte0(sampleNumber);
  }

  // ---------------------------------------------------------------------
  // The binary packet of `writeChannelDataAsBinary`.

  lemma AppendAssoc<T>(a: seq<T>, b: seq<T>, c: seq<T>)
    ensures (a + b) + c == a + (b + c)
  {
  }

  lemma SliceOfPrefix<T>(a: seq<T>, b: seq<T>, i: nat, j: nat)
    requires i <= j <= |a|
    ensures (a + b)[i..j] == a[i..j]
  {
  }

  lemma SliceInSuffix<T>(a: seq<T>, b: seq<T>, i: nat, j: nat)
    requires i <= j <= |b|
    ensures (a + b)[|a| + i..|a| + j] == b[i..j]
  {
  }

  lemma SliceOfMiddle<T>(a: seq<T>, b: seq<T>, c: seq<T>, i: nat, j: nat)
    requires i <= j <= |b|
    ensures (a + b + c)[|a| + i..|a| + j] == b[i..j]
  {
    assert (a + b + c)[|a| + i..|a| + j] == (a + b)[|a| + i..|a| + j];
  }

  /** A small number survives the round trip through a byte. */
  lemma SmallByte(x: int)
    requires 0 <= x < 256
    ensures (x as bv8) as int == x
  {
    if x < 16 {
    } else if x < 32 {
    } else if x < 64 {
    } else if x < 128 {
    } else {
    }
  }

  /** The word sent for channel `chan`: the synthetic ramp or the stored sample. */
  function ChannelWord(sampleNumber: bv32, synthetic: bool, channelData: seq<bv32>, chan: nat): bv32
    requires |channelData| == ChannelsPerBoard && chan < ChannelsPerBoard
  {
    if synthetic then FromInt32(SyntheticSample(sampleNumber, chan)) else channelData[chan]
  }

  /** The words of channels `0..n-1`. */
  function SentWords(sampleNumber: bv32, synthetic: bool, channelData: seq<bv32>, n: nat): (ws: seq<bv32>)
    requires |channelData| == ChannelsPerBoard && n <= ChannelsPerBoard
    ensures |ws| == n
  {
    seq(n, c requires 0 <= c < n => ChannelWord(sampleNumber, synthetic, channelData, c))
  }

  /** The bytes of a run of words, each least significant byte first. */
  function WordBytes(ws: seq<bv32>): (b: seq<bv8>)
    ensures |b| == 4 * |ws|
  {
    if |ws| == 0 then [] else WordBytes(ws[..|ws| - 1]) + LeWord(ws[|ws| - 1])
  }

  /** One more word adds its four bytes at the end. */
  lemma WordBytesSnoc(ws: seq<bv32>, k: nat)
    requires k < |ws|
    ensures WordBytes(ws[..k + 1]) == WordBytes(ws[..k]) + LeWord(ws[k])
  {
    assert ws[..k + 1][..k] == ws[..k];
  }

  /** Bytes `4c..4c+3` of a run are the bytes of its word `c`. */
  lemma {:induction false} WordBytesAt(ws: seq<bv32>, c: nat)
    requires c < |ws|
    ensures WordBytes(ws)[4 * c..4 * c + 4] == LeWord(ws[c])
  {
    var init := ws[..|ws| - 1];
    var prefix := WordBytes(init);
    var last := LeWord(ws[|ws| - 1]);
    assert WordBytes(ws) == prefix + last;
    if c < |ws| - 1 {
      WordBytesAt(init, c);
      assert init[c] == ws[c];
      SliceOfPrefix(prefix, last, 4 * c, 4 * c + 4);
    } else {
      SliceInSuffix(prefix, last, 0, 4);
      assert last[0..4] == last;
    }
  }

  /** The payload length byte: four bytes for the sample number and four per
      channel, four more with the aux value. */
  function PayloadLength(n: int, sendAux: bool): (len: bv8)
    requires 1 <= n <= ChannelsPerBoard
  {
    var payload := ((1 + n) * 4) as bv8;
    if sendAux then payload + 4 else payload
  }

  /** The length byte holds the number of bytes after it, end marker excluded. */
  lemma PayloadLengthValue(n: int, sendAux: bool)
    requires 1 <= n <= ChannelsPerBoard
    ensures PayloadLength(n, sendAux) as int == 4 + 4 * n + (if sendAux then 4 else 0)
  {
    var payload := ((1 + n) * 4) as bv8;
    SmallByte((1 + n) * 4);
    if sendAux {
      AddFour(payload);
    }
  }

  lemma AddFour(b: bv8)
    requires b as int < 252
    ensures (b + 4) as int == b as int + 4
  {
  }

  /** `writeChannelDataAsBinary(N, sampleNumber, sendAuxValue, auxValue,
      useSyntheticData)`: nothing for `N` outside 1..8; otherwise the start
      marker, the payload length, the sample number, the words of channels
      `0..N-1`, the aux value when asked for, and the end marker. */
  function BinaryPacket(n: int, sampleNumber: bv32, sendAux: bool, aux: bv32, synthetic: bool,
                        channelData: seq<bv32>): (p: seq<bv8>)
    requires |channelData| == ChannelsPerBoard
    ensures p == [] <==> !(1 <= n <= ChannelsPerBoard)
  {
    if !(1 <= n <= ChannelsPerBoard) then []
    else
      [PCKT_START, PayloadLength(n, sendAux)] + LeWord(sampleNumber) + WordBytes(SentWords(sampleNumber, synthetic, channelData, n))
      + (if sendAux then LeWord(aux) else []) + [PCKT_END]
  }

  /** The frame of a binary packet: the markers at both ends, a length byte
      counting the bytes between itself and the end marker, and the sample
      number in the four bytes after it. */
  lemma BinaryPacketFrame(n: int, sampleNumber: bv32, sendAux: bool, aux: bv32, synthetic: bool,
                          channelData: seq<bv32>)
    requires |channelData| == ChannelsPerBoard && 1 <= n <= ChannelsPerBoard
    ensures var p := BinaryPacket(n, sampleNumber, sendAux, aux, synthetic, channelData);
            && |p| == 7 + 4 * n + (if sendAux then 4 else 0)
            && p[0] == PCKT_START && p[|p| - 1] == PCKT_END
            && p[1] as int == |p| - 3
            && WordOf(p[2..6]) == sampleNumber
  {
    var head: seq<bv8> := [PCKT_START, PayloadLength(n, sendAux)] + LeWord(sampleNumber);
    var rest := WordBytes(SentWords(sampleNumber, synthetic, channelData, n)) + (if sendAux then LeWord(aux) else []) + [PCKT_END];
    var p := head + rest;
    assert p == BinaryPacket(n, sampleNumber, sendAux, aux, synthetic, channelData);
    PayloadLengthValue(n, sendAux);
    SliceOfPrefix(head, rest, 2, 6);
    assert head[2..6] == LeWord(sampleNumber);
    LeWordRoundTrip(sampleNumber);
  }

  /** The binary packet as its three parts: the head (markers, length and
      sample number), the channel words, and the tail (aux value and end
      marker). */
  lemma BinaryPacketParts(n: int, sampleNumber: bv32, sendAux: bool, aux: bv32, synthetic: bool,
                          channelData: seq<bv32>)
    requires |channelData| == ChannelsPerBoard && 1 <= n <= ChannelsPerBoard
    ensures BinaryPacket(n, sampleNumber, sendAux, aux, synthetic, channelData) ==
            ([PCKT_START, PayloadLength(n, sendAux)] + LeWord(sampleNumber))
            + WordBytes(SentWords(sampleNumber, synthetic, channelData, n))
            + ((if sendAux then LeWord(aux) else []) + [PCKT_END])
  {
  }

  /** Reading the four bytes at `6 + 4c` gives back channel `c`'s word. */
  lemma BinaryPacketWordAt(n: int, sampleNumber: bv32, sendAux: bool, aux: bv32, synthetic: bool,
                           channelData: seq<bv32>, c: nat)
    requires |channelData| == ChannelsPerBoard && c < n <= ChannelsPerBoard
    ensures var p := BinaryPacket(n, sampleNumber, sendAux, aux, synthetic, channelData);
            10 + 4 * c <= |p| && WordOf(p[6 + 4 * c..10 + 4 * c]) == ChannelWord(sampleNumber, synthetic, channelData, c)
  {
    var ws := SentWords(sampleNumber, synthetic, channelData, n);
    var head: seq<bv8> := [PCKT_START, PayloadLength(n, sendAux)] + LeWord(sampleNumber);
    var words := WordBytes(ws);
    var tail: seq<bv8> := (if sendAux then LeWord(aux) else []) + [PCKT_END];
    BinaryPacketParts(n, sampleNumber, sendAux, aux, synthetic, channelData);
    WordBytesAt(ws, c);
    SliceOfPrefix(head + words, tail, 6 + 4 * c, 10 + 4 * c);
    SliceInSuffix(head, words, 4 * c, 4 * c + 4);
    LeWordRoundTrip(ws[c]);
  }

  /** Reading the four bytes after the last channel word gives back the aux
      value, when one was sent. */
  lemma BinaryPacketAux(n: int, sampleNumber: bv32, aux: bv32, synthetic: bool, channelData: seq<bv32>)
    requires |channelData| == ChannelsPerBoard && 1 <= n <= ChannelsPerBoard
    ensures var p := BinaryPacket(n, sampleNumber, true, aux, synthetic, channelData);
            10 + 4 * n <= |p| && WordOf(p[6 + 4 * n..10 + 4 * n]) == aux
  {
    var head: seq<bv8> := [PCKT_START, PayloadLength(n, true)] + LeWord(sampleNumber);
    var words := WordBytes(SentWords(sampleNumber, synthetic, channelData, n));
    var tail: seq<bv8> := LeWord(aux) + [PCKT_END];
    BinaryPacketParts(n, sampleNumber, true, aux, synthetic, channelData);
    SliceInSuffix(head + words, tail, 0, 4);
    SliceOfPrefix(LeWord(aux), [PCKT_END], 0, 4);
    assert LeWord(aux)[0..4] == LeWord(aux);
    LeWordRoundTrip(aux);
  }

  /** The words of a binary packet: reading four bytes at a time after the
      sample number gives back each channel word in order, then the aux
      value when one was sent. */
  lemma BinaryPacketWords(n: int, sampleNumber: bv32, sendAux: bool, aux: bv32, synthetic: bool,
                          channelData: seq<bv32>)
    requires |channelData| == ChannelsPerBoard && 1 <= n <= ChannelsPerBoard
    ensures var p := BinaryPacket(n, sampleNumber, sendAux, aux, synthetic, channelData);
            && |p| == 7 + 4 * n + (if sendAux then 4 else 0)
            && (forall c :: 0 <= c < n ==> WordOf(p[6 + 4 * c..10 + 4 * c]) == ChannelWord(sampleNumber, synthetic, channelData, c))
            && (sendAux ==> WordOf(p[6 + 4 * n..10 + 4 * n]) == aux)
  {
    forall c | 0 <= c < n {
      BinaryPacketWordAt(n, sampleNumber, sendAux, aux, synthetic, channelData, c);
    }
    if sendAux {
      BinaryPacketAux(n, sampleNumber, aux, synthetic, channelData);
    }
  }

  // ---------------------------------------------------------------------
  // The OpenEEG P2 packet of `writeChannelDataAsOpenEEG_P2`.

  const Sync0: bv8 := 0xA5
  const Sync1: bv8 := 0x5A
  const P2Version: bv8 := 2
  /** `max_int16` and `min_int16`. */
  const MaxInt16: int := 32767
  const MinInt16: int := -32767
  /** Channels a P2 packet carries. */
  const P2Channels: nat := 6

  /** A byte equal to the first sync byte is sent one lower, so that the
      sync byte starts packets only. */
  function Escape(b: bv8): (e: bv8)
    ensures e != Sync0
    ensures b != Sync0 ==> e == b
    ensures b == Sync0 ==> e == 0xA4
  {
    if b == Sync0 then b - 1 else b
  }

  /** The 10-bit value sent for a channel value: divided by 32 (truncating),
      limited to the 16-bit range, its low 16 bits taken as unsigned and
      capped at 1023. */
  function P2Word(v: int): (w: int)
    ensures 0 <= w <= 1023
  {
    var scaled := Ads1299Driver.Constrain(TruncDiv(v, 32), MinInt16, MaxInt16);
    var unsigned := scaled % 0x1_0000;
    if unsigned > 1023 then 1023 else unsigned
  }

  /** What the 10-bit value is in terms of the truncated quotient `q = v / 32`:
      `q` itself for `0 <= q <= 1023`, 1023 above, and 1023 for every
      negative `q` as well. */
  lemma P2WordScale(v: int)
    ensures var q := TruncDiv(v, 32);
            P2Word(v) == if q < 0 then 1023 else if q > 1023 then 1023 else q
  {
  }

  /** The channel value before scaling: the synthetic ramp offset by
      `127 + 2 * 256`, or the stored sample read as a signed `long`. */
  function P2Value(sampleNumber: bv32, synthetic: bool, channelData: seq<bv32>, chan: nat): int
    requires |channelData| == ChannelsPerBoard && chan < ChannelsPerBoard
  {
    if synthetic then SyntheticSample(sampleNumber, chan) + 127 + 256 * 2 else Signed32(channelData[chan])
  }

  /** The 10-bit values of channels `0..5`. */
  function P2Words(sampleNumber: bv32, synthetic: bool, channelData: seq<bv32>): (ws: seq<int>)
    requires |channelData| == ChannelsPerBoard
    ensures |ws| == P2Channels
    ensures forall c :: 0 <= c < P2Channels ==> 0 <= ws[c] <= 1023
  {
    seq(P2Channels, c requires 0 <= c < P2Channels => P2Word(P2Value(sampleNumber, synthetic, channelData, c)))
  }

  /** The high and low byte of a 10-bit value, each escaped. */
  function P2Pair(w: int): (b: seq<bv8>)
    requires 0 <= w <= 1023
    ensures |b| == 2 && b[0] != Sync0 && b[1] != Sync0
  {
    [Escape((w / 256) as bv8), Escape((w % 256) as bv8)]
  }

  /** The pair carries the 10-bit value: its high byte (at most 3, so never
      escaped) is `w / 256`, and its low byte is `w % 256` unless that was
      the sync byte. */
  lemma P2PairBytes(w: int)
    requires 0 <= w <= 1023
    ensures P2Pair(w)[0] as int == w / 256
    ensures w % 256 != 0xA5 ==> P2Pair(w)[1] as int == w % 256
  {
    SmallByte(w / 256);
    SmallByte(w % 256);
    assert (w / 256) as bv8 != Sync0;
    if w % 256 != 0xA5 {
      assert (w % 256) as bv8 != Sync0;
    }
  }

  /** The byte pairs of a run of 10-bit values. */
  function PairBytes(ws: seq<int>): (b: seq<bv8>)
    requires forall c :: 0 <= c < |ws| ==> 0 <= ws[c] <= 1023
    ensures |b| == 2 * |ws|
    ensures forall i :: 0 <= i < |b| ==> b[i] != Sync0
  {
    if |ws| == 0 then [] else PairBytes(ws[..|ws| - 1]) + P2Pair(ws[|ws| - 1])
  }

  /** One more value adds its pair at the end. */
  lemma PairBytesSnoc(ws: seq<int>, k: nat)
    requires forall c :: 0 <= c < |ws| ==> 0 <= ws[c] <= 1023
    requires k < |ws|
    ensures PairBytes(ws[..k + 1]) == PairBytes(ws[..k]) + P2Pair(ws[k])
  {
    assert ws[..k + 1][..k] == ws[..k];
  }

  /** Bytes `2c` and `2c+1` of a run are the pair of its value `c`. */
  lemma {:induction false} PairBytesAt(ws: seq<int>, c: nat)
    requires forall c :: 0 <= c < |ws| ==> 0 <= ws[c] <= 1023
    requires c < |ws|
    ensures PairBytes(ws)[2 * c..2 * c + 2] == P2Pair(ws[c])
  {
    var init := ws[..|ws| - 1];
    var prefix := PairBytes(init);
    var last := P2Pair(ws[|ws| - 1]);
    assert PairBytes(ws) == prefix + last;
    if c < |ws| - 1 {
      PairBytesAt(init, c);
      assert init[c] == ws[c];
      SliceOfPrefix(prefix, last, 2 * c, 2 * c + 2);
    } else {
      SliceInSuffix(prefix, last, 0, 2);
      assert last[0..2] == last;
    }
  }

  /** The static packet counter after one more packet: incremented, and
      back to 0 on reaching 18. */
  function NextCount(count: int): (c: int)
    ensures -1 <= count < 18 ==> c == (count + 1) % 18
  {
    if count + 1 >= 18 then 0 else count + 1
  }

  /** The switches byte: 0x0F for counts 9..17, 0x07 otherwise. */
  function Switches(count: int): bv8 {
    if count >= 9 then 0x0F else 0x07
  }

  /** `writeChannelDataAsOpenEEG_P2(sampleNumber, useSyntheticData)` with
      the counter value `count` after its increment: the sync bytes and
      version, the escaped low byte of the sample number, two bytes for each
      of channels 0..5, and the switches byte. */
  function P2Packet(sampleNumber: bv32, synthetic: bool, channelData: seq<bv32>, count: int): (p: seq<bv8>)
    requires |channelData| == ChannelsPerBoard
  {
    [Sync0, Sync1, P2Version, Escape(Byte0(sampleNumber))] + PairBytes(P2Words(sampleNumber, synthetic, channelData)) + [Switches(count)]
  }

  /** A P2 packet is 17 bytes; it starts with the sync bytes and version,
      ends with the switches byte, and the first sync byte occurs nowhere
      else in it, so a receiver can find packet starts. */
  lemma P2PacketFrame(sampleNumber: bv32, synthetic: bool, channelData: seq<bv32>, count: int)
    requires |channelData| == ChannelsPerBoard
    ensures var p := P2Packet(sampleNumber, synthetic, channelData, count);
            && |p| == 17
            && p[0] == Sync0 && p[1] == Sync1 && p[2] == P2Version && p[16] == Switches(count)
            && (forall i :: 1 <= i < |p| ==> p[i] != Sync0)
  {
    var head: seq<bv8> := [Sync0, Sync1, P2Version, Escape(Byte0(sampleNumber))];
    var body := PairBytes(P2Words(sampleNumber, synthetic, channelData));
    var p := head + body + [Switches(count)];
    assert p == P2Packet(sampleNumber, synthetic, channelData, count);
    forall i | 1 <= i < |p|
      ensures p[i] != Sync0
    {
      if i < 4 {
        assert p[i] == head[i];
      } else if i < 16 {
        assert p[i] == body[i - 4];
      }
    }
  }

  /** Channel `c`'s pair sits at bytes `4 + 2c` and `5 + 2c`. */
  lemma P2PacketPairAt(sampleNumber: bv32, synthetic: bool, channelData: seq<bv32>, count: int, c: nat)
    requires |channelData| == ChannelsPerBoard && c < P2Channels
    ensures var p := P2Packet(sampleNumber, synthetic, channelData, count);
            6 + 2 * c <= |p| && p[4 + 2 * c..6 + 2 * c] == P2Pair(P2Words(sampleNumber, synthetic, channelData)[c])
  {
    var head: seq<bv8> := [Sync0, Sync1, P2Version, Escape(Byte0(sampleNumber))];
    var ws := P2Words(sampleNumber, synthetic, channelData);
    var body := PairBytes(ws);
    PairBytesAt(ws, c);
    SliceOfMiddle(head, body, [Switches(count)], 2 * c, 2 * c + 2);
  }

  /** The counter after `calls` packets, starting from its initial -1. */
  function CountAfter(calls: nat): int {
    if calls == 0 then -1 else NextCount(CountAfter(calls - 1))
  }

  /** The counter cycles through 0..17: after `18q + r + 1` packets it is
      `r`, so the switches byte is 0x07 for nine packets and 0x0F for the
      next nine, over and over. */
  lemma {:induction false} CountCycle(q: nat, r: nat)
    requires r < 18
    ensures CountAfter(18 * q + r + 1) == r
    ensures Switches(CountAfter(18 * q + r + 1)) == if r >= 9 then 0x0F else 0x07
    decreases q, r
  {
    if r > 0 {
      CountCycle(q, r - 1);
    } else if q > 0 {
      CountCycle(q - 1, 17);
      assert 18 * q + r + 1 - 1 == 18 * (q - 1) + 17 + 1;
    }
  }
}
