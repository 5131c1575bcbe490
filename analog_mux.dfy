/** The Raspberry Pi Pico transmitter that scans eight electrodes through an
    8-to-1 analog multiplexer driven by three select lines
    (`rpi_low_cost/code.py`, class `AnalogDataTransmitter`). The analog input
    is a parameter `sensor` giving the reading seen when the multiplexer
    selects a given input. */
module AnalogMux {
  import opened Wrappers
  import opened PyText

  /** Bit `i` of `v`, counted from the least significant. */
  predicate Bit(v: nat, i: nat) {
    if i == 0 then v % 2 == 1 else Bit(v / 2, i - 1)
  }

  function BitValue(b: bool): nat {
    if b then 1 else 0
  }

  /** `("000" + bin(value)[2:])[-3:]`: the last three binary digits, padded. */
  function ThreeBinaryDigits(value: nat): (s: string)
    ensures |s| == 3
  {
    var binaryValue := FormatNat(value, 2);
    ("000" + binaryValue)[|binaryValue|..]
  }

  /** Counting from the right, character `i` of the padded binary digits of
      `value` is `'1'` exactly when bit `i` of `value` is set. */
  lemma {:induction false} PaddedDigitIsBit(value: nat, i: nat)
    requires i < 3
    ensures var s := "000" + FormatNat(value, 2);
            (s[|s| - 1 - i] == '1' <==> Bit(value, i)) &&
            (s[|s| - 1 - i] == '0' || s[|s| - 1 - i] == '1')
  {
    var s := "000" + FormatNat(value, 2);
    if value < 2 {
      assert FormatNat(value, 2) == [DigitChar(value)];
      if i > 0 {
        assert value / 2 == 0;
        ZeroHasNoBits(i - 1);
      }
    } else {
      var t := "000" + FormatNat(value / 2, 2);
      assert s == t + [DigitChar(value % 2)];
      if i > 0 {
        PaddedDigitIsBit(value / 2, i - 1);
        assert s[|s| - 1 - i] == t[|t| - 1 - (i - 1)];
      }
    }
  }

  lemma {:induction false} ZeroHasNoBits(i: nat)
    ensures !Bit(0, i)
  {
    if i > 0 {
      ZeroHasNoBits(i - 1);
    }
  }

  /** The three low bits of `value` recompose `value % 8`. */
  lemma LowBits(value: nat)
    ensures BitValue(Bit(value, 0)) + 2 * BitValue(Bit(value, 1)) + 4 * BitValue(Bit(value, 2)) == value % 8
  {
    var v1, v2 := value / 2, value / 2 / 2;
    var a0, a1, a2 := value % 2, v1 % 2, v2 % 2;
    assert value == 2 * v1 + a0;
    assert v1 == 2 * v2 + a1;
    assert v2 == 2 * (v2 / 2) + a2;
    assert BitValue(Bit(value, 0)) == a0;
    assert BitValue(Bit(value, 1)) == a1;
    assert BitValue(Bit(value, 2)) == a2;
    ResidueOfEight(value, v2 / 2, a0 + 2 * a1 + 4 * a2);
  }

  lemma ResidueOfEight(v: nat, q: nat, r: nat)
    requires r < 8 && v == 8 * q + r
    ensures v % 8 == r
  {
  }

  /** The dictionary key `f"CH{i}"` of a one-digit channel number. */
  function ChannelKey(i: nat): (key: string)
    requires i < 10
  {
    "CH" + [DigitChar(i)]
  }

  /** `ChannelKey(i)` is `"CH"` followed by the decimal digits of `i`. */
  lemma ChannelKeyFormat(i: nat)
    requires i < 10
    ensures ChannelKey(i) == "CH" + FormatNat(i, 10)
    ensures PyInt(ChannelKey(i)[2..], 10) == Some(i as int)
  {
    ParseNonNegative(i, 10);
    assert ChannelKey(i)[2..] == FormatNat(i, 10);
  }

  lemma ChannelKeysDistinct()
    ensures forall i, j :: 0 <= i < 8 && 0 <= j < 8 && ChannelKey(i) == ChannelKey(j) ==> i == j
  {
    forall i, j | 0 <= i < 8 && 0 <= j < 8 && ChannelKey(i) == ChannelKey(j)
      ensures i == j
    {
      assert ChannelKey(i)[2] == DigitChar(i);
      assert ChannelKey(j)[2] == DigitChar(j);
    }
  }

  /** The dictionary `{"CH0": f(0), ..., f"CH{n-1}": f(n - 1)}`, built one
      key at a time as the loops of `getData` build it. */
  function Readings(f: nat -> int, n: nat): (m: map<string, int>)
    requires n <= 8
    ensures forall i :: 0 <= i < n ==> ChannelKey(i) in m && m[ChannelKey(i)] == f(i)
  {
    if n == 0 then map[]
    else
      ChannelKeysDistinct();
      Readings(f, n - 1)[ChannelKey(n - 1) := f(n - 1)]
  }

  /** The dictionary has no keys besides `CH0` .. `CH{n-1}`. */
  lemma {:induction false} ReadingsKeys(f: nat -> int, n: nat)
    requires n <= 8
    ensures forall key :: key in Readings(f, n) ==> exists i :: 0 <= i < n && key == ChannelKey(i)
    ensures |Readings(f, n)| == n
  {
    if n > 0 {
      ReadingsKeys(f, n - 1);
      ChannelKeysDistinct();
      assert ChannelKey(n - 1) !in Readings(f, n - 1);
    }
  }

  /** The reading `getData` stores under `CHi`: for `CH0` the input that was
      selected when it started, otherwise multiplexer input i - 1, because
      each reading is taken before the select lines move on. */
  function StoredReading(startCode: nat, sensor: nat -> int): nat -> int {
    (i: nat) => sensor(if i == 0 then startCode else i - 1)
  }

  /** What `getData` stores when it starts with input `startCode` selected:
      `CH0` holds that input and `CHi` holds input i - 1. */
  lemma ReadingsAsWritten(startCode: nat, sensor: nat -> int)
    ensures var m := Readings(StoredReading(startCode, sensor), 8);
            ChannelKey(0) in m && m[ChannelKey(0)] == sensor(startCode) &&
            forall i :: 1 <= i < 8 ==> ChannelKey(i) in m && m[ChannelKey(i)] == sensor(i - 1)
  {
    var stored := StoredReading(startCode, sensor);
    assert stored(0) == sensor(startCode);
    forall i | 1 <= i < 8
      ensures stored(i) == sensor(i - 1)
    {
    }
  }

  /** With a sensor that reports the selected input itself, `CH1` holds
      input 0 where its name promises input 1. */
  lemma ReadingsShiftedByOne()
    ensures Readings(StoredReading(0, (c: nat) => c as int), 8)[ChannelKey(1)] == 0
    ensures Readings((c: nat) => c as int, 8)[ChannelKey(1)] == 1
  {
    ReadingsAsWritten(0, (c: nat) => c as int);
  }

  lemma SmallResidue(i: nat)
    requires i < 8
    ensures i % 8 == i
  {
  }

  class AnalogDataTransmitter {
    /** The GP18, GP19 and GP20 outputs driving the multiplexer's S0..S2. */
    const selectLines: array<bool>

    ghost predicate Valid()
      reads this
    {
      selectLines.Length == 3
    }

    /** The multiplexer input the select lines currently choose. */
    function SelectedCode(): (code: nat)
      requires Valid()
      reads this, selectLines
      ensures code < 8
    {
      BitValue(selectLines[0]) + 2 * BitValue(selectLines[1]) + 4 * BitValue(selectLines[2])
    }

    /** The outputs start low, selecting input 0. The settings file, the
        access point and the UDP socket are not part of this model. */
    constructor ()
      ensures Valid() && fresh(selectLines) && SelectedCode() == 0
    {
      selectLines := new bool[3](_ => false);
    }

    /** `setSelectLines(value)`: line i carries bit i of `value`, so the
        multiplexer selects input `value % 8`. */
    method SetSelectLines(value: nat)
      requires Valid()
      modifies selectLines
      ensures forall i :: 0 <= i < 3 ==> selectLines[i] == Bit(value, i)
      ensures SelectedCode() == value % 8
    {
      var binaryValue := ThreeBinaryDigits(value);
      PaddedDigitIsBit(value, 0);
      PaddedDigitIsBit(value, 1);
      PaddedDigitIsBit(value, 2);
      // `reversed(binary_value)` visits the characters from the right;
      // `bool(int(bit))` of a `'0'`/`'1'` character is whether it is `'1'`.
      for i := 0 to 3
        invariant forall k :: 0 <= k < i ==> selectLines[k] == Bit(value, k)
      {
        selectLines[i] := binaryValue[2 - i] == '1';
      }
      LowBits(value);
    }

    /** `getData()` without the final `json.dumps` and the pauses. */
    method GetData(sensor: nat -> int) returns (channels: map<string, int>)
      requires Valid()
      modifies selectLines
      ensures channels == Readings(StoredReading(old(SelectedCode()), sensor), 8)
      ensures SelectedCode() == 7
    {
      ghost var startCode := SelectedCode();
      ghost var stored := StoredReading(startCode, sensor);
      channels := map[];
      for i := 0 to 8
        invariant channels == Readings(stored, i)
        invariant SelectedCode() == if i == 0 then startCode else i - 1
      {
        var reading := ReadThenSelect(sensor, i);
        assert reading == stored(i);
        channels := channels[ChannelKey(i) := reading];
      }
    }

    /** One pass of `getData`'s loop: the reading of the input selected now,
        then the select lines moved to input `i`. */
    method ReadThenSelect(sensor: nat -> int, i: nat) returns (reading: int)
      requires Valid() && i < 8
      modifies selectLines
      ensures reading == sensor(old(SelectedCode()))
      ensures SelectedCode() == i
    {
      var code := SelectedCode();
      reading := sensor(code);
      SetSelectLines(i);
      SmallResidue(i);
    }

    /** `getData()` with the select lines set before each reading. */
    method GetDataSelectingFirst(sensor: nat -> int) returns (channels: map<string, int>)
      requires Valid()
      modifies selectLines
      ensures channels == Readings(sensor, 8)
    {
      channels := map[];
      for i := 0 to 8
        invariant channels == Readings(sensor, i)
      {
        SetSelectLines(i);
        SmallResidue(i);
        var code := SelectedCode();
        var reading := sensor(code);
        channels := channels[ChannelKey(i) := reading];
      }
    }
  }
}
