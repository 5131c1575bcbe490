/** The register map and setting codes of the ADS1299 analog front end
    (`Reading_EEG_Data/SenderCode/SenderCode.h`). Register addresses index
    the 24-byte register mirror, so they are numbers; setting codes are
    register bytes. */
module Ads1299Regs {

  /** `NCHAN_PER_BOARD`. */
  const ChannelsPerBoard: nat := 8
  /** `NUM_REGISTERS`, the size of the `regData` mirror. */
  const NumRegisters: nat := 24

  // Register addresses.
  const ID: nat := 0x00
  const CONFIG1: nat := 0x01
  const CONFIG2: nat := 0x02
  const CONFIG3: nat := 0x03
  const LOFF: nat := 0x04
  const CH1SET: nat := 0x05
  const CH2SET: nat := 0x06
  const CH3SET: nat := 0x07
  const CH4SET: nat := 0x08
  const CH5SET: nat := 0x09
  const CH6SET: nat := 0x0A
  const CH7SET: nat := 0x0B
  const CH8SET: nat := 0x0C
  const BIAS_SENSN: nat := 0x0D
  const BIAS_SENSP: nat := 0x0E
  const LOFF_SENSN: nat := 0x0F
  const LOFF_SENSP: nat := 0x10
  const LOFF_FLIP: nat := 0x11
  const LOFF_STATN: nat := 0x12
  const LOFF_STATP: nat := 0x13
  const MISC1: nat := 0x14
  const MISC2: nat := 0x15
  const GPIO: nat := 0x16
  const CONFIG4: nat := 0x17

  /** Every register address the header names, in address order. */
  const Registers: seq<nat> := [ID, CONFIG1, CONFIG2, CONFIG3, LOFF, CH1SET, CH2SET, CH3SET, CH4SET,
                                CH5SET, CH6SET, CH7SET, CH8SET, BIAS_SENSN, BIAS_SENSP, LOFF_SENSN,
                                LOFF_SENSP, LOFF_FLIP, LOFF_STATN, LOFF_STATP, MISC1, MISC2, GPIO, CONFIG4]

  /** The per-channel setting registers, channel 1 first. */
  const ChannelSetRegisters: seq<nat> := [CH1SET, CH2SET, CH3SET, CH4SET, CH5SET, CH6SET, CH7SET, CH8SET]

  // Gain codes (bits 6..4 of a CHnSET register).
  const ADS_GAIN01: bv8 := 0x00
  const ADS_GAIN02: bv8 := 0x10
  const ADS_GAIN04: bv8 := 0x20
  const ADS_GAIN06: bv8 := 0x30
  const ADS_GAIN08: bv8 := 0x40
  const ADS_GAIN12: bv8 := 0x50
  const ADS_GAIN24: bv8 := 0x60
  const GainCodes: seq<bv8> := [ADS_GAIN01, ADS_GAIN02, ADS_GAIN04, ADS_GAIN06, ADS_GAIN08, ADS_GAIN12, ADS_GAIN24]

  // Input codes (bits 2..0 of a CHnSET register).
  const ADSINPUT_NORMAL: bv8 := 0x00
  const ADSINPUT_SHORTED: bv8 := 0x01
  const ADSINPUT_TESTSIG: bv8 := 0x05
  const InputCodes: seq<bv8> := [ADSINPUT_NORMAL, ADSINPUT_SHORTED, ADSINPUT_TESTSIG]

  // Internal test signal codes (CONFIG2).
  const ADSTESTSIG_AMP_1X: bv8 := 0x00
  const ADSTESTSIG_AMP_2X: bv8 := 0x04
  const ADSTESTSIG_PULSE_SLOW: bv8 := 0x00
  const ADSTESTSIG_PULSE_FAST: bv8 := 0x01
  const ADSTESTSIG_DCSIG: bv8 := 0x03
  /** Sentinel: keep the setting currently in CONFIG2. */
  const ADSTESTSIG_NOCHANGE: bv8 := 0xFF
  const TestAmplitudeCodes: seq<bv8> := [ADSTESTSIG_AMP_1X, ADSTESTSIG_AMP_2X]
  const TestFrequencyCodes: seq<bv8> := [ADSTESTSIG_PULSE_SLOW, ADSTESTSIG_PULSE_FAST, ADSTESTSIG_DCSIG]

  // Lead-off detection codes (LOFF).
  const LOFF_MAG_6NA: bv8 := 0x00
  const LOFF_MAG_24NA: bv8 := 0x04
  const LOFF_MAG_6UA: bv8 := 0x08
  const LOFF_MAG_24UA: bv8 := 0x0C
  const LOFF_FREQ_DC: bv8 := 0x00
  const LOFF_FREQ_7p8HZ: bv8 := 0x01
  const LOFF_FREQ_31p2HZ: bv8 := 0x02
  const LOFF_FREQ_FS_4: bv8 := 0x03
  const LeadOffMagnitudeCodes: seq<bv8> := [LOFF_MAG_6NA, LOFF_MAG_24NA, LOFF_MAG_6UA, LOFF_MAG_24UA]
  const LeadOffFrequencyCodes: seq<bv8> := [LOFF_FREQ_DC, LOFF_FREQ_7p8HZ, LOFF_FREQ_31p2HZ, LOFF_FREQ_FS_4]

  // Which side of a channel a lead-off change applies to, and on/off.
  const PCHAN: int := 1
  const NCHAN: int := 2
  const BOTHCHAN: int := 3
  const OFF: int := 0
  const ON: int := 1

  // Binary packet markers.
  const PCKT_START: bv8 := 0xA0
  const PCKT_END: bv8 := 0xC0

  /** `CH1SET + (n - 1)`: the setting register of one-based channel `n`. */
  function ChannelRegister(n: int): (r: nat)
    requires 1 <= n <= ChannelsPerBoard
    ensures r == ChannelSetRegisters[n - 1] && r < NumRegisters
  {
    CH1SET + (n - 1)
  }

  /** The addresses are `0x00..0x17` in order, so each one indexes the mirror
      and the mirror has a slot for every register. */
  lemma RegistersFitMirror()
    ensures |Registers| == NumRegisters
    ensures forall i :: 0 <= i < |Registers| ==> Registers[i] == i
  {
  }

  /** The gain and input codes pass the masks `activateChannel` applies
      unchanged, and occupy disjoint bits. */
  lemma ChannelCodesWithinMasks()
    ensures forall g :: g in GainCodes ==> g & 0x70 == g && g & 0x8F == 0
    ensures forall c :: c in InputCodes ==> c & 0x07 == c
  {
  }

  /** The lead-off codes pass the masks `configureLeadOffDetection` applies,
      and the test-signal codes those of `configureInternalTestSignal`; the
      no-change sentinel is none of them. */
  lemma SettingCodesWithinMasks()
    ensures forall a :: a in LeadOffMagnitudeCodes ==> a & 0x0C == a
    ensures forall f :: f in LeadOffFrequencyCodes ==> f & 0x03 == f
    ensures forall a :: a in TestAmplitudeCodes ==> a & 0x04 == a && a != ADSTESTSIG_NOCHANGE
    ensures forall f :: f in TestFrequencyCodes ==> f & 0x03 == f && f != ADSTESTSIG_NOCHANGE
  {
  }

  /** The side codes, the on/off codes and the packet markers are pairwise distinct. */
  lemma CodesDistinct()
    ensures PCHAN != NCHAN && NCHAN != BOTHCHAN && PCHAN != BOTHCHAN && OFF != ON
    ensures PCKT_START != PCKT_END
  {
  }
}
