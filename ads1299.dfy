/** The ADS1299 driver of `Reading_EEG_Data/ads1299_main/ADS1299.cpp`: the
    register mirror `regData` and what the channel, lead-off, bias and
    test-signal routines write into it, the decoding of sample frames into
    `channelData`, and the two serial packet formats.

    The SPI `transfer` routine returns no value, so what a register read
    yields is not defined by the program; the model takes the device to hold
    what the mirror holds, which makes `RREG` a read of the mirror. */
module Ads1299Driver {
  import opened Ads1299Regs

  // ---------------------------------------------------------------------
  // Bits of a register byte (Arduino `bitRead`, `bitSet`, `bitClear`).

  /** The mask `1 << k` of bit `k`. */
  function Bit(k: nat): bv8
    requires k < 8
  {
    if k == 0 then 0x01 else if k == 1 then 0x02 else if k == 2 then 0x04 else if k == 3 then 0x08
    else if k == 4 then 0x10 else if k == 5 then 0x20 else if k == 6 then 0x40 else 0x80
  }

  /** `bitRead(x, k)`. */
  predicate BitRead(x: bv8, k: nat)
    requires k < 8
  {
    x & Bit(k) != 0
  }

  /** `x` and `y` agree on every bit other than bit `k`. */
  predicate OtherBitsAgree(x: bv8, y: bv8, k: nat) {
    forall j :: 0 <= j < 8 && j != k ==> BitRead(x, j) == BitRead(y, j)
  }

  /** Bits `k` and `j` are one bit each, and the same bit only when `k == j`. */
  lemma SingleBits(k: nat, j: nat)
    requires k < 8 && j < 8
    ensures (Bit(k) & Bit(j) != 0) == (j == k)
    ensures Bit(j) != 0 && Bit(j) & (Bit(j) - 1) == 0
  {
  }

  /** Or-ing in, or masking out, `m` as seen through a one-bit mask `b`. */
  lemma OneBitMask(x: bv8, m: bv8, b: bv8)
    requires b != 0 && b & (b - 1) == 0
    ensures ((x | m) & b != 0) == (m & b != 0 || x & b != 0)
    ensures ((x & !m) & b != 0) == (m & b == 0 && x & b != 0)
  {
  }

  /** Bit `j` after setting bit `k`. */
  lemma SetMaskedBit(x: bv8, k: nat, j: nat)
    requires k < 8 && j < 8
    ensures BitRead(x | Bit(k), j) == (j == k || BitRead(x, j))
  {
    SingleBits(k, j);
    OneBitMask(x, Bit(k), Bit(j));
  }

  /** Bit `j` after clearing bit `k`. */
  lemma ClearMaskedBit(x: bv8, k: nat, j: nat)
    requires k < 8 && j < 8
    ensures BitRead(x & !Bit(k), j) == (j != k && BitRead(x, j))
  {
    SingleBits(k, j);
    OneBitMask(x, Bit(k), Bit(j));
  }

  /** `bitSet(x, k)`: bit `k` set, every other bit as it was. */
  function SetBit(x: bv8, k: nat): (r: bv8)
    requires k < 8
    ensures BitRead(r, k) && OtherBitsAgree(r, x, k)
  {
    var r := x | Bit(k);
    assert forall j :: 0 <= j < 8 ==> BitRead(r, j) == (j == k || BitRead(x, j)) by {
      forall j | 0 <= j < 8 { SetMaskedBit(x, k, j); }
    }
    r
  }

  /** `bitClear(x, k)`: bit `k` clear, every other bit as it was. */
  function ClearBit(x: bv8, k: nat): (r: bv8)
    requires k < 8
    ensures !BitRead(r, k) && OtherBitsAgree(r, x, k)
  {
    var r := x & !Bit(k);
    assert forall j :: 0 <= j < 8 ==> BitRead(r, j) == (j != k && BitRead(x, j)) by {
      forall j | 0 <= j < 8 { ClearMaskedBit(x, k, j); }
    }
    r
  }

  /** A byte with no bit set is zero. */
  lemma NoBitSetIsZero(x: bv8)
    requires forall j :: 0 <= j < 8 ==> !BitRead(x, j)
    ensures x == 0
  {
    assert !BitRead(x, 0) && !BitRead(x, 1) && !BitRead(x, 2) && !BitRead(x, 3);
    assert !BitRead(x, 4) && !BitRead(x, 5) && !BitRead(x, 6) && !BitRead(x, 7);
  }

  /** Arduino `constrain(v, lo, hi)`. */
  function Constrain(v: int, lo: int, hi: int): (r: int)
    requires lo <= hi
    ensures lo <= r <= hi
    ensures lo <= v <= hi ==> r == v
  {
    if v < lo then lo else if v > hi then hi else v
  }

  /** `constrain(N_oneRef - 1, 0, NCHAN_PER_BOARD - 1)`: the bit of a
      one-based channel number, with out-of-range numbers pinned to the ends. */
  function ZeroRef(nOneRef: int): (z: nat)
    ensures z < ChannelsPerBoard
    ensures 1 <= nOneRef <= ChannelsPerBoard ==> z == nOneRef - 1
  {
    Constrain(nOneRef - 1, 0, ChannelsPerBoard - 1)
  }

  // ---------------------------------------------------------------------
  // The register file.

  /** The contents of the 24 registers, as the `regData` mirror holds them. */
  type Regs = r: seq<bv8> | |r| == NumRegisters witness seq(NumRegisters, _ => 0)

  /** One bit of one register set or cleared, everything else untouched. */
  function WithBit(regs: Regs, address: nat, k: nat, on: bool): (r: Regs)
    requires address < NumRegisters && k < 8
    ensures r == regs[address := r[address]]
    ensures BitRead(r[address], k) == on && OtherBitsAgree(r[address], regs[address], k)
  {
    var v := if on then SetBit(regs[address], k) else ClearBit(regs[address], k);
    regs[address := v]
  }

  /** `isChannelActive(N)`: bit 7 of the channel's setting register. That is
      the power-down bit, which `deactivateChannel` sets and
      `activateChannel` clears, so the answer is `true` for a channel that
      is switched off. */
  predicate ChannelActiveAsRead(regs: Regs, nOneRef: int) {
    BitRead(regs[CH1SET + ZeroRef(nOneRef)], 7)
  }

  /** `deactivateBiasForChannel(N)`: the channel's bit cleared in
      BIAS_SENSP and in BIAS_SENSN. */
  function BiasDeactivated(regs: Regs, nOneRef: int): (r: Regs)
    ensures r == regs[BIAS_SENSP := r[BIAS_SENSP]][BIAS_SENSN := r[BIAS_SENSN]]
    ensures !BitRead(r[BIAS_SENSP], ZeroRef(nOneRef)) && !BitRead(r[BIAS_SENSN], ZeroRef(nOneRef))
    ensures OtherBitsAgree(r[BIAS_SENSP], regs[BIAS_SENSP], ZeroRef(nOneRef))
    ensures OtherBitsAgree(r[BIAS_SENSN], regs[BIAS_SENSN], ZeroRef(nOneRef))
  {
    var z := ZeroRef(nOneRef);
    WithBit(WithBit(regs, BIAS_SENSP, z, false), BIAS_SENSN, z, false)
  }

  /** `activateBiasForChannel(N)`: the channel's bit set in BIAS_SENSP, and
      in BIAS_SENSN too when negative inputs are in use. */
  function BiasActivated(regs: Regs, useNegInputs: bool, nOneRef: int): (r: Regs)
    ensures r == regs[BIAS_SENSP := r[BIAS_SENSP]][BIAS_SENSN := r[BIAS_SENSN]]
    ensures BitRead(r[BIAS_SENSP], ZeroRef(nOneRef))
    ensures BitRead(r[BIAS_SENSN], ZeroRef(nOneRef)) == (useNegInputs || BitRead(regs[BIAS_SENSN], ZeroRef(nOneRef)))
    ensures OtherBitsAgree(r[BIAS_SENSP], regs[BIAS_SENSP], ZeroRef(nOneRef))
    ensures OtherBitsAgree(r[BIAS_SENSN], regs[BIAS_SENSN], ZeroRef(nOneRef))
  {
    var z := ZeroRef(nOneRef);
    var afterP := WithBit(regs, BIAS_SENSP, z, true);
    if useNegInputs then WithBit(afterP, BIAS_SENSN, z, true) else afterP
  }

  /** `alterBiasBasedOnChannelState(N)`: with automatic bias on and the
      channel read as active, its bias bits are set, otherwise cleared. Only
      the channel's own bit of the two bias registers can change. */
  function BiasAltered(regs: Regs, useBias: bool, useNegInputs: bool, nOneRef: int): (r: Regs)
    ensures r == regs[BIAS_SENSP := r[BIAS_SENSP]][BIAS_SENSN := r[BIAS_SENSN]]
    ensures BitRead(r[BIAS_SENSP], ZeroRef(nOneRef)) == (useBias && ChannelActiveAsRead(regs, nOneRef))
    ensures BitRead(r[BIAS_SENSN], ZeroRef(nOneRef)) ==
              (useBias && ChannelActiveAsRead(regs, nOneRef) && (useNegInputs || BitRead(regs[BIAS_SENSN], ZeroRef(nOneRef))))
    ensures OtherBitsAgree(r[BIAS_SENSP], regs[BIAS_SENSP], ZeroRef(nOneRef))
    ensures OtherBitsAgree(r[BIAS_SENSN], regs[BIAS_SENSN], ZeroRef(nOneRef))
  {
    if useBias && ChannelActiveAsRead(regs, nOneRef) then BiasActivated(regs, useNegInputs, nOneRef)
    else BiasDeactivated(regs, nOneRef)
  }

  /** The channel setting `activateChannel` writes: powered up (bit 7
      clear), the gain field (bits 6..4) and input field (bits 2..0) taken
      from the codes, and the SRB2 switch (bit 3) from the channel's flag. */
  function ChannelConfig(gainCode: bv8, inputCode: bv8, srb2: bool): (c: bv8)
    ensures !BitRead(c, 7) && BitRead(c, 3) == srb2
    ensures c & 0x70 == gainCode & 0x70 && c & 0x07 == inputCode & 0x07
  {
    var config := (0x00 | (gainCode & 0x70)) | (inputCode & 0x07);
    if srb2 then config | 0x08 else config
  }

  /** The channel setting `deactivateChannel` writes: bit 7 (power-down)
      set, bit 3 (SRB2) cleared when negative inputs are in use, the other
      bits as they were. */
  function PoweredDown(config: bv8, useNegInputs: bool): (c: bv8)
    ensures BitRead(c, 7)
    ensures useNegInputs ==> !BitRead(c, 3)
    ensures c & 0x77 == config & 0x77
    ensures !useNegInputs ==> c & 0x7F == config & 0x7F
  {
    var down := SetBit(config, 7);
    if useNegInputs then ClearBit(down, 3) else down
  }

  /** `use_SRB1()`: SRB1 is used only when no channel uses SRB2. */
  predicate NoSrb2(useSrb2: seq<bool>) {
    forall i :: 0 <= i < |useSrb2| ==> !useSrb2[i]
  }

  /** `setSRB1(state)`: the value MISC1 receives. */
  function Srb1Setting(state: bool): (v: bv8)
    ensures v == 0x20 || v == 0x00
    ensures BitRead(v, 5) == state
  {
    if state then 0x20 else 0x00
  }

  /** The value `activateChannel` writes to CONFIG3 to finish the bias setup. */
  const BiasConfig3: bv8 := 0xEC

  /** `deactivateChannel(N)`: nothing for `N` outside 1..8; otherwise the
      channel register powered down, then the channel's bias routing
      recomputed. */
  function Deactivated(regs: Regs, useBias: bool, useNegInputs: bool, n: int): (r: Regs)
    ensures !(1 <= n <= ChannelsPerBoard) ==> r == regs
  {
    if !(1 <= n <= ChannelsPerBoard) then regs
    else
      var reg := ChannelRegister(n);
      var down := PoweredDown(regs[reg], useNegInputs);
      BiasAltered(regs[reg := down], useBias, useNegInputs, n)
  }

  /** `activateChannel(N, gainCode, inputCode)` as written: nothing for `N`
      outside 1..8; otherwise the channel register set, the bias routing
      recomputed for the ZERO-based channel number (that is, for channel
      `N - 1`, or channel 1 when `N` is 1), MISC1 set from `use_SRB1()` and
      CONFIG3 written. */
  function Activated(regs: Regs, useBias: bool, useNegInputs: bool, useSrb2: seq<bool>, n: int,
                     gainCode: bv8, inputCode: bv8): (r: Regs)
    requires |useSrb2| == ChannelsPerBoard
    ensures !(1 <= n <= ChannelsPerBoard) ==> r == regs
  {
    if !(1 <= n <= ChannelsPerBoard) then regs
    else
      var zero := n - 1;
      var config := ChannelConfig(gainCode, inputCode, useSrb2[zero]);
      var biased := BiasAltered(regs[CH1SET + zero := config], useBias, useNegInputs, zero);
      var misc1 := Srb1Setting(NoSrb2(useSrb2));
      biased[MISC1 := misc1][CONFIG3 := BiasConfig3]
  }

  /** `changeChannelLeadOffDetection(N, code_OFF_ON, code_P_N_Both)`: for
      `N` in 1..8, bit `N - 1` of LOFF_SENSP (side P or both) and of
      LOFF_SENSN (side N or both) cleared for OFF and set otherwise. */
  function LeadOffChanged(regs: Regs, n: int, onOff: int, side: int): (r: Regs)
    ensures r == regs[LOFF_SENSP := r[LOFF_SENSP]][LOFF_SENSN := r[LOFF_SENSN]]
    ensures !(1 <= n <= ChannelsPerBoard) ==> r == regs
    ensures 1 <= n <= ChannelsPerBoard ==>
              && (side == PCHAN || side == BOTHCHAN ==> BitRead(r[LOFF_SENSP], n - 1) == (onOff != OFF))
              && (side == NCHAN || side == BOTHCHAN ==> BitRead(r[LOFF_SENSN], n - 1) == (onOff != OFF))
              && OtherBitsAgree(r[LOFF_SENSP], regs[LOFF_SENSP], n - 1)
              && OtherBitsAgree(r[LOFF_SENSN], regs[LOFF_SENSN], n - 1)
    ensures side != PCHAN && side != BOTHCHAN ==> r[LOFF_SENSP] == regs[LOFF_SENSP]
    ensures side != NCHAN && side != BOTHCHAN ==> r[LOFF_SENSN] == regs[LOFF_SENSN]
  {
    if !(1 <= n <= ChannelsPerBoard) then regs
    else
      var afterP := if side == PCHAN || side == BOTHCHAN then WithBit(regs, LOFF_SENSP, n - 1, onOff != OFF) else regs;
      if side == NCHAN || side == BOTHCHAN then WithBit(afterP, LOFF_SENSN, n - 1, onOff != OFF) else afterP
  }

  /** `configureLeadOffDetection(amplitudeCode, freqCode)`: LOFF keeps its
      high nibble; the low nibble becomes the masked amplitude and frequency
      codes. */
  function LeadOffConfigured(regs: Regs, amplitudeCode: bv8, freqCode: bv8): (r: Regs)
    ensures r == regs[LOFF := r[LOFF]]
    ensures r[LOFF] & 0xF0 == regs[LOFF] & 0xF0
    ensures r[LOFF] & 0x0C == amplitudeCode & 0x0C && r[LOFF] & 0x03 == freqCode & 0x03
  {
    var v := ((regs[LOFF] & 0xF0) | (amplitudeCode & 0x0C)) | (freqCode & 0x03);
    regs[LOFF := v]
  }

  /** `configureInternalTestSignal(amplitudeCode, freqCode)`: CONFIG2
      becomes `0b11010000` with the amplitude and frequency codes; a
      `NOCHANGE` code takes that field from the current CONFIG2. The
      amplitude code is not masked. */
  function TestSignalConfigured(regs: Regs, amplitudeCode: bv8, freqCode: bv8): (r: Regs)
    ensures r == regs[CONFIG2 := r[CONFIG2]]
    ensures r[CONFIG2] & 0xD0 == 0xD0
    ensures amplitudeCode == ADSTESTSIG_NOCHANGE || amplitudeCode & 0xFB == 0 ==>
              && r[CONFIG2] & 0xF8 == 0xD0
              && r[CONFIG2] & 0x04 == (if amplitudeCode == ADSTESTSIG_NOCHANGE then regs[CONFIG2] else amplitudeCode) & 0x04
              && r[CONFIG2] & 0x03 == (if freqCode == ADSTESTSIG_NOCHANGE then regs[CONFIG2] else freqCode) & 0x03
  {
    var amplitude := if amplitudeCode == ADSTESTSIG_NOCHANGE then regs[CONFIG2] & 0x04 else amplitudeCode;
    var freq := (if freqCode == ADSTESTSIG_NOCHANGE then regs[CONFIG2] & 0x03 else freqCode) & 0x03;
    var v := (0xD0 | freq) | amplitude;
    regs[CONFIG2 := v]
  }

  /** The bias routing recomputed for channels `1..k` in turn, as the loop
      of `setAutoBiasGeneration` does. Only the two bias registers change. */
  function AutoBiased(regs: Regs, useBias: bool, useNegInputs: bool, k: nat): (r: Regs)
    ensures r == regs[BIAS_SENSP := r[BIAS_SENSP]][BIAS_SENSN := r[BIAS_SENSN]]
  {
    if k == 0 then regs else BiasAltered(AutoBiased(regs, useBias, useNegInputs, k - 1), useBias, useNegInputs, k)
  }

  /** The channel loop of `reset`: channels `1..k` each deactivated, then
      lead-off detection switched off on both sides. */
  function ResetChannels(regs: Regs, useBias: bool, useNegInputs: bool, k: nat): Regs
    requires k <= ChannelsPerBoard
  {
    if k == 0 then regs
    else LeadOffChanged(Deactivated(ResetChannels(regs, useBias, useNegInputs, k - 1), useBias, useNegInputs, k),
                        k, OFF, BOTHCHAN)
  }

  /** `reset()`: every channel deactivated with lead-off detection off, SRB1
      set from `use_SRB1()`, then automatic bias generation switched on. */
  function ResetRegs(regs: Regs, useBias: bool, useNegInputs: bool, useSrb2: seq<bool>): Regs {
    var channels := ResetChannels(regs, useBias, useNegInputs, ChannelsPerBoard);
    AutoBiased(channels[MISC1 := Srb1Setting(NoSrb2(useSrb2))], true, useNegInputs, ChannelsPerBoard - 1)
  }

  // ---------------------------------------------------------------------
  // What the register routines promise.

  /** After `activateChannel(N, …)` with `N` in 1..8 the channel register
      holds the requested configuration, MISC1 the SRB1 setting and CONFIG3
      the bias configuration. For `N` in 2..8 the bias bits of channel `N`
      are left as they were and those of channel `N - 1` are recomputed from
      channel `N - 1`'s register: the routine passes its zero-based number
      where a one-based one is expected. For `N` = 1 the pinned channel is
      channel 1 itself, just powered up and so read as inactive: its bias
      bits are cleared. No other bit and no other register changes. */
  lemma ActivatedRegisters(regs: Regs, useBias: bool, useNegInputs: bool, useSrb2: seq<bool>, n: int,
                           gainCode: bv8, inputCode: bv8)
    requires |useSrb2| == ChannelsPerBoard && 1 <= n <= ChannelsPerBoard
    ensures var r := Activated(regs, useBias, useNegInputs, useSrb2, n, gainCode, inputCode);
            && r[ChannelRegister(n)] == ChannelConfig(gainCode, inputCode, useSrb2[n - 1])
            && r[MISC1] == Srb1Setting(NoSrb2(useSrb2)) && r[CONFIG3] == BiasConfig3
            && (n >= 2 ==> BitRead(r[BIAS_SENSP], n - 1) == BitRead(regs[BIAS_SENSP], n - 1))
            && (n >= 2 ==> BitRead(r[BIAS_SENSN], n - 1) == BitRead(regs[BIAS_SENSN], n - 1))
            && (n >= 2 ==> BitRead(r[BIAS_SENSP], n - 2) == (useBias && BitRead(regs[ChannelRegister(n - 1)], 7)))
            && (n >= 2 ==> BitRead(r[BIAS_SENSN], n - 2) ==
                             (useBias && BitRead(regs[ChannelRegister(n - 1)], 7) &&
                              (useNegInputs || BitRead(regs[BIAS_SENSN], n - 2))))
            && (n == 1 ==> !BitRead(r[BIAS_SENSP], 0) && !BitRead(r[BIAS_SENSN], 0))
            && OtherBitsAgree(r[BIAS_SENSP], regs[BIAS_SENSP], ZeroRef(n - 1))
            && OtherBitsAgree(r[BIAS_SENSN], regs[BIAS_SENSN], ZeroRef(n - 1))
            && (forall a :: 0 <= a < NumRegisters && a !in {ChannelRegister(n), BIAS_SENSP, BIAS_SENSN, MISC1, CONFIG3} ==>
                  r[a] == regs[a])
  {
    var zero := n - 1;
    var config := ChannelConfig(gainCode, inputCode, useSrb2[zero]);
    var configured := regs[CH1SET + zero := config];
    var biased := BiasAltered(configured, useBias, useNegInputs, zero);
    if n >= 2 {
      assert ZeroRef(zero) == n - 2;
    } else {
      assert ZeroRef(zero) == 0;
      assert !ChannelActiveAsRead(configured, zero);
    }
  }

  /** After `deactivateChannel(N)` with `N` in 1..8 the channel is powered
      down, and `isChannelActive(N)` then answers `true`; with automatic bias
      on, the powered-down channel is routed into the bias. */
  lemma DeactivatedRegisters(regs: Regs, useBias: bool, useNegInputs: bool, n: int)
    requires 1 <= n <= ChannelsPerBoard
    ensures var r := Deactivated(regs, useBias, useNegInputs, n);
            && r[ChannelRegister(n)] == PoweredDown(regs[ChannelRegister(n)], useNegInputs)
            && ChannelActiveAsRead(r, n)
            && BitRead(r[BIAS_SENSP], n - 1) == useBias
            && (forall a :: 0 <= a < NumRegisters && a != ChannelRegister(n) && a != BIAS_SENSP && a != BIAS_SENSN ==>
                  r[a] == regs[a])
  {
    var reg := ChannelRegister(n);
    var down := regs[reg := PoweredDown(regs[reg], useNegInputs)];
    assert ChannelActiveAsRead(down, n);
  }

  /** Recomputing the bias routing for channels `1..k` leaves every channel
      register alone, and routes exactly those of channels `1..k` that read
      as active; the bits of channels above `k` stay as they were. */
  lemma {:induction false} AutoBiasedRouting(regs: Regs, useBias: bool, useNegInputs: bool, k: nat, n: int)
    requires k <= ChannelsPerBoard && 1 <= n <= ChannelsPerBoard
    ensures var r := AutoBiased(regs, useBias, useNegInputs, k);
            && (n <= k ==> BitRead(r[BIAS_SENSP], n - 1) == (useBias && BitRead(regs[ChannelRegister(n)], 7)))
            && (n > k ==> BitRead(r[BIAS_SENSP], n - 1) == BitRead(regs[BIAS_SENSP], n - 1))
            && (n > k ==> BitRead(r[BIAS_SENSN], n - 1) == BitRead(regs[BIAS_SENSN], n - 1))
  {
    if k > 0 {
      var prev := AutoBiased(regs, useBias, useNegInputs, k - 1);
      var r := AutoBiased(regs, useBias, useNegInputs, k);
      AutoBiasedRouting(regs, useBias, useNegInputs, k - 1, n);
      assert ZeroRef(k) == k - 1;
      if n == k {
        assert prev[ChannelRegister(k)] == regs[ChannelRegister(k)];
        assert ChannelActiveAsRead(prev, k) == BitRead(regs[ChannelRegister(k)], 7);
      } else {
        assert OtherBitsAgree(r[BIAS_SENSP], prev[BIAS_SENSP], k - 1);
        assert OtherBitsAgree(r[BIAS_SENSN], prev[BIAS_SENSN], k - 1);
        assert BitRead(r[BIAS_SENSP], n - 1) == BitRead(prev[BIAS_SENSP], n - 1);
        assert BitRead(r[BIAS_SENSN], n - 1) == BitRead(prev[BIAS_SENSN], n - 1);
      }
    }
  }

  /** `setAutoBiasGeneration` recomputes channels 1..7 only (its loop stops
      below `NCHAN_PER_BOARD`), so channel 8's bias bits keep whatever they
      held. */
  lemma AutoBiasSkipsChannelEight(regs: Regs, useBias: bool, useNegInputs: bool)
    ensures var r := AutoBiased(regs, useBias, useNegInputs, ChannelsPerBoard - 1);
            BitRead(r[BIAS_SENSP], 7) == BitRead(regs[BIAS_SENSP], 7) &&
            BitRead(r[BIAS_SENSN], 7) == BitRead(regs[BIAS_SENSN], 7)
  {
    AutoBiasedRouting(regs, useBias, useNegInputs, ChannelsPerBoard - 1, 8);
  }

  /** After the first `k` channels of `reset`'s loop, each of those
      channels is powered down. */
  lemma {:induction false} ResetChannelsPowerDown(regs: Regs, useBias: bool, useNegInputs: bool, k: nat, n: int)
    requires k <= ChannelsPerBoard && 1 <= n <= k
    ensures BitRead(ResetChannels(regs, useBias, useNegInputs, k)[ChannelRegister(n)], 7)
  {
    var prev := ResetChannels(regs, useBias, useNegInputs, k - 1);
    var down := Deactivated(prev, useBias, useNegInputs, k);
    var r := LeadOffChanged(down, k, OFF, BOTHCHAN);
    DeactivatedRegisters(prev, useBias, useNegInputs, k);
    assert r[ChannelRegister(n)] == down[ChannelRegister(n)];
    if n < k {
      ResetChannelsPowerDown(regs, useBias, useNegInputs, k - 1, n);
      assert down[ChannelRegister(n)] == prev[ChannelRegister(n)];
    }
  }

  /** One channel of `reset`'s loop clears that channel's lead-off bits and
      keeps the others. */
  lemma ResetStepLeadOff(prev: Regs, useBias: bool, useNegInputs: bool, k: nat)
    requires 1 <= k <= ChannelsPerBoard
    ensures var r := LeadOffChanged(Deactivated(prev, useBias, useNegInputs, k), k, OFF, BOTHCHAN);
            && !BitRead(r[LOFF_SENSP], k - 1) && OtherBitsAgree(r[LOFF_SENSP], prev[LOFF_SENSP], k - 1)
            && !BitRead(r[LOFF_SENSN], k - 1) && OtherBitsAgree(r[LOFF_SENSN], prev[LOFF_SENSN], k - 1)
  {
    var down := Deactivated(prev, useBias, useNegInputs, k);
    DeactivatedRegisters(prev, useBias, useNegInputs, k);
    assert down[LOFF_SENSP] == prev[LOFF_SENSP] && down[LOFF_SENSN] == prev[LOFF_SENSN];
  }

  /** After the first `k` channels of `reset`'s loop, the lead-off bit of
      each of those channels is clear on both sides. */
  lemma {:induction false} ResetChannelsLeadOff(regs: Regs, useBias: bool, useNegInputs: bool, k: nat, j: nat)
    requires k <= ChannelsPerBoard && j < k
    ensures var r := ResetChannels(regs, useBias, useNegInputs, k);
            !BitRead(r[LOFF_SENSP], j) && !BitRead(r[LOFF_SENSN], j)
  {
    var prev := ResetChannels(regs, useBias, useNegInputs, k - 1);
    var r := ResetChannels(regs, useBias, useNegInputs, k);
    assert r == LeadOffChanged(Deactivated(prev, useBias, useNegInputs, k), k, OFF, BOTHCHAN);
    ResetStepLeadOff(prev, useBias, useNegInputs, k);
    if j < k - 1 {
      ResetChannelsLeadOff(regs, useBias, useNegInputs, k - 1, j);
      assert BitRead(r[LOFF_SENSP], j) == BitRead(prev[LOFF_SENSP], j);
      assert BitRead(r[LOFF_SENSN], j) == BitRead(prev[LOFF_SENSN], j);
    }
  }

  /** After `reset()` every channel is powered down, lead-off detection is
      off on every channel and side, and MISC1 holds the SRB1 setting. */
  lemma ResetRegisters(regs: Regs, useBias: bool, useNegInputs: bool, useSrb2: seq<bool>)
    ensures var r := ResetRegs(regs, useBias, useNegInputs, useSrb2);
            && (forall n :: 1 <= n <= ChannelsPerBoard ==> BitRead(r[ChannelRegister(n)], 7))
            && r[LOFF_SENSP] == 0 && r[LOFF_SENSN] == 0
            && r[MISC1] == Srb1Setting(NoSrb2(useSrb2))
  {
    var channels := ResetChannels(regs, useBias, useNegInputs, ChannelsPerBoard);
    forall j | 0 <= j < ChannelsPerBoard
      ensures !BitRead(channels[LOFF_SENSP], j) && !BitRead(channels[LOFF_SENSN], j)
    {
      ResetChannelsLeadOff(regs, useBias, useNegInputs, ChannelsPerBoard, j);
    }
    var withSrb1 := channels[MISC1 := Srb1Setting(NoSrb2(useSrb2))];
    var r := AutoBiased(withSrb1, true, useNegInputs, ChannelsPerBoard - 1);
    forall n | 1 <= n <= ChannelsPerBoard
      ensures BitRead(r[ChannelRegister(n)], 7)
    {
      ResetChannelsPowerDown(regs, useBias, useNegInputs, ChannelsPerBoard, n);
      assert r[ChannelRegister(n)] == channels[ChannelRegister(n)];
    }
    NoBitSetIsZero(r[LOFF_SENSP]);
    NoBitSetIsZero(r[LOFF_SENSN]);
  }
}
