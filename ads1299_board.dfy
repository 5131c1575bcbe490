/** The `ADS1299` driver object of
    `Reading_EEG_Data/ads1299_main/ADS1299.cpp`: its register mirror, its
    channel words and status word, its configuration flags, and the bytes it
    writes to the serial port. Every routine is proved to leave the state
    the specification functions of `Ads1299Driver` and `Ads1299Data`
    describe.

    The SPI `transfer` routine returns no value, so register reads have no
    defined result on the device; the model takes the device to hold what
    the `regData` mirror records, so `RREG` returns the mirror entry. The
    bytes of a data frame come in as a parameter. */
module Ads1299Board {
  import opened Ads1299Regs
  import opened Ads1299Driver
  import opened Ads1299Data

  class Ads1299 {
    /** `regData`: the mirror of the 24 device registers. */
    const regData: array<bv8>
    /** `channelData`: the latest sample of each channel, a 32-bit `long`. */
    const channelData: array<bv32>
    /** `stat_1`: the status word. */
    var stat: bv32
    /** `use_channels_for_bias`. */
    var useChannelsForBias: bool
    /** `use_neg_inputs`. */
    const useNegInputs: bool
    /** `use_SRB2[8]`. */
    const useSrb2: seq<bool>
    /** The packet bytes written to the serial port so far. The driver is
        modelled with `serial_feedback` off, as before `initialize()`; once it
        is on, `WREG` and `RREG` also print text to the same port, and that
        text is not part of this sequence. */
    var serial: seq<bv8>
    /** The static `count` of `writeChannelDataAsOpenEEG_P2`. In the source it
        is shared by every driver object; here each object has its own, which
        agrees with the source when the program has one driver object. */
    var p2Count: int

    ghost predicate Valid()
      reads this
    {
      regData.Length == NumRegisters && channelData.Length == ChannelsPerBoard && |useSrb2| == ChannelsPerBoard
    }

    /** A driver object as static storage starts it: everything zero, the
        P2 counter at -1; the two input-routing flags are given. */
    constructor (useNegInputs: bool, useSrb2: seq<bool>)
      requires |useSrb2| == ChannelsPerBoard
      ensures Valid()
      ensures regData[..] == seq(NumRegisters, _ => 0) && channelData[..] == seq(ChannelsPerBoard, _ => 0)
      ensures stat == 0 && !useChannelsForBias && serial == [] && p2Count == -1
      ensures this.useNegInputs == useNegInputs && this.useSrb2 == useSrb2
    {
      regData := new bv8[NumRegisters](_ => 0);
      channelData := new bv32[ChannelsPerBoard](_ => 0);
      stat := 0;
      useChannelsForBias := false;
      this.useNegInputs := useNegInputs;
      this.useSrb2 := useSrb2;
      serial := [];
      p2Count := -1;
    }

    // -------------------------------------------------------------------
    // Register access.

    /** `RREG(_address)`: the register's value. */
    method Rreg(address: nat) returns (value: bv8)
      requires Valid() && address < NumRegisters
      ensures value == regData[address]
    {
      value := regData[address];
    }

    /** `WREG(_address, _value)`: the register written and its mirror entry
        updated; nothing else changes. */
    method Wreg(address: nat, value: bv8)
      requires Valid() && address < NumRegisters
      modifies regData
      ensures regData[..] == old(regData[..])[address := value]
    {
      regData[address] := value;
    }

    // -------------------------------------------------------------------
    // Bias routing.

    /** `isChannelActive(N_oneRef)`. */
    method IsChannelActive(nOneRef: int) returns (active: bool)
      requires Valid()
      ensures active == ChannelActiveAsRead(regData[..], nOneRef)
    {
      var zero := ZeroRef(nOneRef);
      var config := Rreg(CH1SET + zero);
      active := BitRead(config, 7);
    }

    /** `deactivateBiasForChannel(N_oneRef)`. */
    method DeactivateBiasForChannel(nOneRef: int)
      requires Valid()
      modifies regData
      ensures regData[..] == BiasDeactivated(old(regData[..]), nOneRef)
    {
      var zero := ZeroRef(nOneRef);
      ghost var start: Regs := regData[..];
      var i := 0;
      while i < 2
        invariant 0 <= i <= 2
        invariant regData[..] == if i == 0 then start
                                 else if i == 1 then WithBit(start, BIAS_SENSP, zero, false)
                                 else BiasDeactivated(start, nOneRef)
      {
        var reg := if i == 0 then BIAS_SENSP else BIAS_SENSN;
        var config := Rreg(reg);
        config := ClearBit(config, zero);
        Wreg(reg, config);
        i := i + 1;
      }
    }

    /** `activateBiasForChannel(N_oneRef)`. */
    method ActivateBiasForChannel(nOneRef: int)
      requires Valid()
      modifies regData
      ensures regData[..] == BiasActivated(old(regData[..]), useNegInputs, nOneRef)
    {
      var zero := ZeroRef(nOneRef);
      ghost var start: Regs := regData[..];
      var nLoop := if useNegInputs then 2 else 1;
      var i := 0;
      while i < nLoop
        invariant 0 <= i <= nLoop
        invariant regData[..] == if i == 0 then start
                                 else if i == 1 then WithBit(start, BIAS_SENSP, zero, true)
                                 else WithBit(WithBit(start, BIAS_SENSP, zero, true), BIAS_SENSN, zero, true)
      {
        var reg := BIAS_SENSP;
        if i > 0 {
          reg := BIAS_SENSN;
        }
        var config := Rreg(reg);
        config := SetBit(config, zero);
        Wreg(reg, config);
        i := i + 1;
      }
    }

    /** `alterBiasBasedOnChannelState(N_oneRef)`. */
    method AlterBiasBasedOnChannelState(nOneRef: int)
      requires Valid()
      modifies regData
      ensures regData[..] == BiasAltered(old(regData[..]), useChannelsForBias, useNegInputs, nOneRef)
    {
      var active := false;
      if useChannelsForBias {
        active := IsChannelActive(nOneRef);
      }
      if useChannelsForBias && active {
        ActivateBiasForChannel(nOneRef);
      } else {
        DeactivateBiasForChannel(nOneRef);
      }
    }

    /** `setAutoBiasGeneration(state)`: the flag set, then the bias routing
        recomputed for channels 1..7. */
    method SetAutoBiasGeneration(state: bool)
      requires Valid()
      modifies this, regData
      ensures useChannelsForBias == state
      ensures regData[..] == AutoBiased(old(regData[..]), state, useNegInputs, ChannelsPerBoard - 1)
      ensures stat == old(stat) && serial == old(serial) && p2Count == old(p2Count)
    {
      useChannelsForBias := state;
      var ichan := 1;
      while ichan < ChannelsPerBoard
        invariant 1 <= ichan <= ChannelsPerBoard
        invariant useChannelsForBias == state
        invariant regData[..] == AutoBiased(old(regData[..]), state, useNegInputs, ichan - 1)
        invariant stat == old(stat) && serial == old(serial) && p2Count == old(p2Count)
      {
        AlterBiasBasedOnChannelState(ichan);
        ichan := ichan + 1;
      }
    }

    // -------------------------------------------------------------------
    // Channel and input configuration.

    /** `deactivateChannel(N)`. */
    method DeactivateChannel(n: int)
      requires Valid()
      modifies regData
      ensures regData[..] == Deactivated(old(regData[..]), useChannelsForBias, useNegInputs, n)
    {
      if n < 1 || n > ChannelsPerBoard {
        return;
      }
      var zero := ZeroRef(n);
      var reg := CH1SET + zero;
      var config := Rreg(reg);
      config := SetBit(config, 7);
      if useNegInputs {
        config := ClearBit(config, 3);
      }
      Wreg(reg, config);
      AlterBiasBasedOnChannelState(n);
    }

    /** `use_SRB1()`: whether no channel uses SRB2. */
    method UseSrb1() returns (use: bool)
      requires Valid()
      ensures use == NoSrb2(useSrb2)
    {
      var ichan := 0;
      while ichan < ChannelsPerBoard
        invariant 0 <= ichan <= ChannelsPerBoard
        invariant forall j :: 0 <= j < ichan ==> !useSrb2[j]
      {
        if useSrb2[ichan] {
          return false;
        }
        ichan := ichan + 1;
      }
      return true;
    }

    /** `setSRB1(desired_state)`. */
    method SetSrb1(desiredState: bool)
      requires Valid()
      modifies regData
      ensures regData[..] == old(regData[..])[MISC1 := Srb1Setting(desiredState)]
    {
      if desiredState {
        Wreg(MISC1, 0x20);
      } else {
        Wreg(MISC1, 0x00);
      }
    }

    /** `activateChannel(N, gainCode, inputCode)`. */
    method ActivateChannel(n: int, gainCode: bv8, inputCode: bv8)
      requires Valid()
      modifies regData
      ensures regData[..] == Activated(old(regData[..]), useChannelsForBias, useNegInputs, useSrb2, n, gainCode, inputCode)
    {
      if n < 1 || n > ChannelsPerBoard {
        return;
      }
      var zero := ZeroRef(n);
      var config := ChannelSetting(gainCode, inputCode, useSrb2[zero]);
      Wreg(CH1SET + zero, config);
      AlterBiasBasedOnChannelState(zero);
      var srb1 := UseSrb1();
      SetSrb1(srb1);
      Wreg(CONFIG3, BiasConfig3);
    }

    /** The channel setting `activateChannel` builds: the gain bits and the
        input bits of the codes, and the SRB2 bit when the channel uses SRB2. */
    static method ChannelSetting(gainCode: bv8, inputCode: bv8, srb2: bool) returns (config: bv8)
      ensures config == ChannelConfig(gainCode, inputCode, srb2)
    {
      config := 0x00;
      var gain := gainCode & 0x70;
      config := config | gain;
      var input := inputCode & 0x07;
      config := config | input;
      if srb2 {
        config := config | 0x08;
      }
    }

    /** `changeChannelLeadOffDetection(N, code_OFF_ON, code_P_N_Both)`. */
    method ChangeChannelLeadOffDetection(n: int, codeOffOn: int, codePNBoth: int)
      requires Valid()
      modifies regData
      ensures regData[..] == LeadOffChanged(old(regData[..]), n, codeOffOn, codePNBoth)
    {
      if n < 1 || n > ChannelsPerBoard {
        return;
      }
      var zero := ZeroRef(n);
      if codePNBoth == PCHAN || codePNBoth == BOTHCHAN {
        var config := Rreg(LOFF_SENSP);
        if codeOffOn == OFF {
          config := ClearBit(config, zero);
        } else {
          config := SetBit(config, zero);
        }
        Wreg(LOFF_SENSP, config);
      }
      if codePNBoth == NCHAN || codePNBoth == BOTHCHAN {
        var config := Rreg(LOFF_SENSN);
        if codeOffOn == OFF {
          config := ClearBit(config, zero);
        } else {
          config := SetBit(config, zero);
        }
        Wreg(LOFF_SENSN, config);
      }
    }

    /** `configureLeadOffDetection(amplitudeCode, freqCode)`. */
    method ConfigureLeadOffDetection(amplitudeCode: bv8, freqCode: bv8)
      requires Valid()
      modifies regData
      ensures regData[..] == LeadOffConfigured(old(regData[..]), amplitudeCode, freqCode)
    {
      var amplitude := amplitudeCode & 0x0C;
      var freq := freqCode & 0x03;
      var config := Rreg(LOFF);
      config := config & 0xF0;
      config := config | amplitude;
      config := config | freq;
      Wreg(LOFF, config);
    }

    /** `configureInternalTestSignal(amplitudeCode, freqCode)`. */
    method ConfigureInternalTestSignal(amplitudeCode: bv8, freqCode: bv8)
      requires Valid()
      modifies regData
      ensures regData[..] == TestSignalConfigured(old(regData[..]), amplitudeCode, freqCode)
    {
      var amplitude := amplitudeCode;
      if amplitude == ADSTESTSIG_NOCHANGE {
        var current := Rreg(CONFIG2);
        amplitude := current & 0x04;
      }
      var freq := freqCode;
      if freq == ADSTESTSIG_NOCHANGE {
        var current := Rreg(CONFIG2);
        freq := current & 0x03;
      }
      freq := freq & 0x03;
      var message := (0xD0 | freq) | amplitude;
      Wreg(CONFIG2, message);
    }

    /** `reset()`, from the register loop on: every channel deactivated with
        its lead-off detection off, SRB1 set, and automatic bias switched on. */
    method Reset()
      requires Valid()
      modifies this, regData
      ensures regData[..] == ResetRegs(old(regData[..]), old(useChannelsForBias), useNegInputs, useSrb2)
      ensures useChannelsForBias
      ensures stat == old(stat) && serial == old(serial) && p2Count == old(p2Count)
    {
      DeactivateAllChannels();
      var srb1 := UseSrb1();
      SetSrb1(srb1);
      SetAutoBiasGeneration(true);
    }

    /** The channel loop of `reset()`: channels 1..8 in turn deactivated and
        their lead-off detection switched off on both sides. */
    method DeactivateAllChannels()
      requires Valid()
      modifies regData
      ensures regData[..] == ResetChannels(old(regData[..]), useChannelsForBias, useNegInputs, ChannelsPerBoard)
    {
      var chan := 1;
      while chan <= ChannelsPerBoard
        invariant 1 <= chan <= ChannelsPerBoard + 1
        invariant regData[..] == ResetChannels(old(regData[..]), useChannelsForBias, useNegInputs, chan - 1)
      {
        DeactivateChannel(chan);
        ChangeChannelLeadOffDetection(chan, OFF, BOTHCHAN);
        chan := chan + 1;
      }
    }

    // -------------------------------------------------------------------
    // Data frames.

    /** The three status bytes shifted into `stat_1`. */
    method ShiftStatus(frame: seq<bv8>)
      requires Valid() && |frame| == FrameLength
      modifies this
      ensures stat == (old(stat) << 24) | Frame24(frame[0], frame[1], frame[2])
      ensures useChannelsForBias == old(useChannelsForBias) && serial == old(serial) && p2Count == old(p2Count)
    {
      var word := ShiftWord(stat, frame[..3]);
      StatusShiftIn(stat, frame);
      stat := word;
    }

    /** The 24 sample bytes shifted into the channel words, three per
        channel, then each word reformatted from its bit 23. */
    method ShiftChannels(frame: seq<bv8>)
      requires Valid() && |frame| == FrameLength
      modifies channelData
      ensures forall i :: 0 <= i < ChannelsPerBoard ==> channelData[i] == FrameSample(frame, i)
    {
      ghost var before := channelData[..];
      var i := 0;
      while i < ChannelsPerBoard
        invariant 0 <= i <= ChannelsPerBoard
        invariant forall k :: 0 <= k < i ==> channelData[k] == ShiftIn(before[k], frame[3 + 3 * k..6 + 3 * k])
        invariant forall k :: i <= k < ChannelsPerBoard ==> channelData[k] == before[k]
      {
        channelData[i] := ShiftWord(channelData[i], frame[3 + 3 * i..6 + 3 * i]);
        i := i + 1;
      }
      i := 0;
      while i < ChannelsPerBoard
        invariant 0 <= i <= ChannelsPerBoard
        invariant forall k :: 0 <= k < i ==> channelData[k] == FrameSample(frame, k)
        invariant forall k :: i <= k < ChannelsPerBoard ==> channelData[k] == ShiftIn(before[k], frame[3 + 3 * k..6 + 3 * k])
      {
        ChannelShiftIn(before[i], frame, i);
        channelData[i] := ReformatWord(channelData[i]);
        i := i + 1;
      }
    }

    /** The inner loop of both readers: `bytes` shifted into `acc` one at a
        time, most significant first. */
    static method ShiftWord(acc: bv32, bytes: seq<bv8>) returns (word: bv32)
      ensures word == ShiftIn(acc, bytes)
    {
      word := acc;
      var j := 0;
      while j < |bytes|
        invariant 0 <= j <= |bytes|
        invariant word == ShiftIn(acc, bytes[..j])
      {
        assert bytes[..j + 1][..j] == bytes[..j];
        word := (word << 8) | (bytes[j] as bv32);
        j := j + 1;
      }
      assert bytes[..|bytes|] == bytes;
    }

    /** The reformatting step: bit 23 copied into the top byte. */
    static method ReformatWord(raw: bv32) returns (word: bv32)
      ensures word == Reformat(raw)
    {
      if raw & 0x80_0000 != 0 {
        word := raw | 0xFF00_0000;
      } else {
        word := raw & 0x00FF_FFFF;
      }
    }

    /** `updateChannelData()` reading `frame`: the status bytes shifted into
        `stat_1` (which is not cleared first) and every channel word the
        sign-extended sample of the frame, whatever it held before. */
    method UpdateChannelData(frame: seq<bv8>)
      requires Valid() && |frame| == FrameLength
      modifies this, channelData
      ensures stat == (old(stat) << 24) | Frame24(frame[0], frame[1], frame[2])
      ensures forall i :: 0 <= i < ChannelsPerBoard ==> channelData[i] == FrameSample(frame, i)
      ensures useChannelsForBias == old(useChannelsForBias) && serial == old(serial) && p2Count == old(p2Count)
    {
      ShiftStatus(frame);
      ShiftChannels(frame);
    }

    /** `RDATA()` reading `frame`: as `updateChannelData`, with `stat_1`
        cleared first, so that it ends up holding just the status bytes. */
    method Rdata(frame: seq<bv8>)
      requires Valid() && |frame| == FrameLength
      modifies this, channelData
      ensures stat == Frame24(frame[0], frame[1], frame[2])
      ensures forall i :: 0 <= i < ChannelsPerBoard ==> channelData[i] == FrameSample(frame, i)
      ensures useChannelsForBias == old(useChannelsForBias) && serial == old(serial) && p2Count == old(p2Count)
    {
      stat := 0;
      ShiftStatus(frame);
      ShiftChannels(frame);
    }

    // -------------------------------------------------------------------
    // Serial output.

    /** `writeChannelDataAsBinary(N, sampleNumber, sendAuxValue, auxValue,
        useSyntheticData)`: the binary packet appended to the serial output. */
    method WriteChannelDataAsBinary(n: int, sampleNumber: bv32, sendAux: bool, aux: bv32, synthetic: bool)
      requires Valid()
      modifies this
      ensures serial == old(serial) + BinaryPacket(n, sampleNumber, sendAux, aux, synthetic, channelData[..])
      ensures stat == old(stat) && useChannelsForBias == old(useChannelsForBias) && p2Count == old(p2Count)
    {
      if n < 1 || n > ChannelsPerBoard {
        return;
      }
      var packet := BinaryPacketBytes(n, sampleNumber, sendAux, aux, synthetic, channelData[..]);
      serial := serial + packet;
    }

    /** The bytes one call of `writeChannelDataAsBinary` with `N` in 1..8
        writes, in the order it writes them. */
    static method BinaryPacketBytes(n: int, sampleNumber: bv32, sendAux: bool, aux: bv32, synthetic: bool,
                                    channelData: seq<bv32>) returns (packet: seq<bv8>)
      requires 1 <= n <= ChannelsPerBoard && |channelData| == ChannelsPerBoard
      ensures packet == BinaryPacket(n, sampleNumber, sendAux, aux, synthetic, channelData)
    {
      var payload := PayloadLength(n, sendAux);
      var words := ChannelWordBytes(n, sampleNumber, synthetic, channelData);
      packet := [PCKT_START, payload] + LeWord(sampleNumber) + words;
      if sendAux {
        packet := packet + LeWord(aux);
      }
      packet := packet + [PCKT_END];
    }

    /** The channel loop of `writeChannelDataAsBinary`: four little-endian
        bytes per channel, synthetic or read back from `channelData`. */
    static method ChannelWordBytes(n: int, sampleNumber: bv32, synthetic: bool, channelData: seq<bv32>)
      returns (bytes: seq<bv8>)
      requires 1 <= n <= ChannelsPerBoard && |channelData| == ChannelsPerBoard
      ensures bytes == WordBytes(SentWords(sampleNumber, synthetic, channelData, n))
    {
      ghost var ws := SentWords(sampleNumber, synthetic, channelData, n);
      bytes := [];
      var chan := 0;
      while chan < n
        invariant 0 <= chan <= n
        invariant bytes == WordBytes(ws[..chan])
      {
        var val: bv32;
        if synthetic {
          val := FromInt32(SyntheticSample(sampleNumber, chan));
        } else {
          val := channelData[chan];
        }
        assert val == ws[chan];
        WordBytesSnoc(ws, chan);
        bytes := bytes + LeWord(val);
        chan := chan + 1;
      }
      assert ws[..n] == ws;
    }

    /** `writeChannelDataAsOpenEEG_P2(sampleNumber, useSyntheticData)`: the
        counter advanced and the P2 packet appended to the serial output. */
    method WriteChannelDataAsOpenEEG_P2(sampleNumber: bv32, synthetic: bool)
      requires Valid()
      modifies this
      ensures p2Count == NextCount(old(p2Count))
      ensures serial == old(serial) + P2Packet(sampleNumber, synthetic, channelData[..], p2Count)
      ensures stat == old(stat) && useChannelsForBias == old(useChannelsForBias)
    {
      var count := p2Count + 1;
      if count >= 18 {
        count := 0;
      }
      var packet := P2PacketBytes(sampleNumber, synthetic, channelData[..], count);
      p2Count := count;
      serial := serial + packet;
    }

    /** The bytes of one P2 packet, given the counter after its increment. */
    static method P2PacketBytes(sampleNumber: bv32, synthetic: bool, channelData: seq<bv32>, count: int)
      returns (packet: seq<bv8>)
      requires |channelData| == ChannelsPerBoard
      ensures packet == P2Packet(sampleNumber, synthetic, channelData, count)
    {
      var foo := EscapeByte(Byte0(sampleNumber));
      var body := P2ChannelBytes(sampleNumber, synthetic, channelData);
      var switches: bv8 := 0x07;
      if count >= 9 {
        switches := 0x0F;
      }
      packet := [Sync0, Sync1, P2Version, foo] + body + [switches];
    }

    /** The channel loop of `writeChannelDataAsOpenEEG_P2`: channels 0..5,
        each scaled to 10 bits and sent as two escaped bytes. */
    static method P2ChannelBytes(sampleNumber: bv32, synthetic: bool, channelData: seq<bv32>)
      returns (bytes: seq<bv8>)
      requires |channelData| == ChannelsPerBoard
      ensures bytes == PairBytes(P2Words(sampleNumber, synthetic, channelData))
    {
      ghost var ws := P2Words(sampleNumber, synthetic, channelData);
      bytes := [];
      var chan := 0;
      while chan < P2Channels
        invariant 0 <= chan <= P2Channels
        invariant bytes == PairBytes(ws[..chan])
      {
        var val32: int;
        if synthetic {
          val32 := SyntheticSample(sampleNumber, chan) + 127 + 256 * 2;
        } else {
          val32 := Signed32(channelData[chan]);
        }
        assert val32 == P2Value(sampleNumber, synthetic, channelData, chan);
        var valU16 := P2Scale(val32);
        assert valU16 == ws[chan];
        var hi, lo := EscapedPair(valU16);
        PairBytesSnoc(ws, chan);
        bytes := bytes + [hi, lo];
        chan := chan + 1;
      }
      assert ws[..P2Channels] == ws;
    }

    /** One channel value scaled to the 10 bits a P2 packet carries:
        divided by 32, limited to 16 bits, read back as unsigned and capped. */
    static method P2Scale(val32: int) returns (valU16: int)
      ensures valU16 == P2Word(val32)
    {
      var v := TruncDiv(val32, 32);
      v := Constrain(v, MinInt16, MaxInt16);
      valU16 := v % 0x1_0000;
      if valU16 > 1023 {
        valU16 := 1023;
      }
    }

    /** The two bytes one channel adds to a P2 packet: the high and the low
        byte of its 10-bit value, each moved off the sync byte. */
    static method EscapedPair(valU16: int) returns (hi: bv8, lo: bv8)
      requires 0 <= valU16 <= 1023
      ensures [hi, lo] == P2Pair(valU16)
    {
      hi := EscapeByte((valU16 / 256) as bv8);
      lo := EscapeByte((valU16 % 256) as bv8);
    }

    /** The escape applied to every byte after the first sync byte: the sync
        byte itself goes out as one less. */
    static method EscapeByte(b: bv8) returns (e: bv8)
      ensures e == Escape(b)
    {
      e := b;
      if e == Sync0 {
        e := e - 1;
      }
    }
  }
}
