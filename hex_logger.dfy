/** The serial logger that turns lines of whitespace-separated hexadecimal
    samples into OpenBCI-style text rows (`Reading_EEG_Data/code.py`). The
    module-level `index` and the rows written become the state of a class;
    one call of `HandleLine` is one pass of the script's read loop that got
    a non-empty line. */
module HexLogger {
  import opened Wrappers
  import opened PyText

  /** A value in an output row. `hex_to_decimal` returns the integer `0` on a
      bad token but a float otherwise, and the two print differently. */
  datatype Field = IntField(i: int) | RealField(r: real) | TextField(t: string)

  /** `scale_value(value, scale_factor)`: true division. */
  function ScaleValue(value: int, scaleFactor: real): (r: real)
    requires scaleFactor != 0.0
    ensures r * scaleFactor == value as real
  {
    value as real / scaleFactor
  }

  /** `hex_to_decimal(hex_value, scale_factor)`: `int(hex_value, 16)` scaled,
      or the integer 0 when `int` raises `ValueError`. */
  function HexToDecimal(hexValue: string, scaleFactor: real): (f: Field)
    requires scaleFactor != 0.0
    ensures f.IntField? <==> PyInt(hexValue, 16).None?
    ensures f.IntField? ==> f.i == 0
    ensures f.RealField? ==> f.r == ScaleValue(PyInt(hexValue, 16).value, scaleFactor)
    ensures f.TextField? == false
  {
    var decimalValue := PyInt(hexValue, 16);
    if decimalValue.Some? then RealField(ScaleValue(decimalValue.value, scaleFactor)) else IntField(0)
  }

  /** Hex digits written by `format(n, 'x')` come back as `n / scale_factor`. */
  lemma HexRoundTrip(n: nat, scaleFactor: real)
    requires scaleFactor != 0.0
    ensures HexToDecimal(FormatNat(n, 16), scaleFactor) == RealField(n as real / scaleFactor)
  {
    ParseNonNegative(n, 16);
  }

  /** `[hex_to_decimal(val, scale) for val in hex_values[:8]]`. */
  function FirstEightDecimals(hexValues: seq<string>, scaleFactor: real): (fs: seq<Field>)
    requires |hexValues| >= 8 && scaleFactor != 0.0
    ensures |fs| == 8
    ensures forall k :: 0 <= k < 8 ==> fs[k] == HexToDecimal(hexValues[k], scaleFactor)
  {
    seq(8, k requires 0 <= k < 8 => HexToDecimal(hexValues[k], scaleFactor))
  }

  const Header: seq<string> :=
    ["Sample Index",
     "EXG Channel 0", "EXG Channel 1", "EXG Channel 2", "EXG Channel 3",
     "EXG Channel 4", "EXG Channel 5", "EXG Channel 6", "EXG Channel 7",
     "Accel Channel 0", "Accel Channel 1", "Accel Channel 2", "Not Used",
     "Digital Channel 0 (D11)", "Digital Channel 1 (D12)", "Digital Channel 2 (D13)",
     "Digital Channel 3 (D17)", "Not Used", "Digital Channel 4 (D18)",
     "Analog Channel 0", "Analog Channel 1", "Analog Channel 2",
     "Timestamp", "Marker Channel", "Timestamp (Formatted)"]

  /** One output line: the index, the eight samples, fifteen zero columns
      and the formatted timestamp. */
  function Row(index: nat, samples: seq<Field>, timestamp: string): (row: seq<Field>)
    requires |samples| == 8
    ensures |row| == |Header|
    ensures row[0] == IntField(index) && row[1..9] == samples
    ensures forall k :: 9 <= k < 24 ==> row[k] == IntField(0)
    ensures row[24] == TextField(timestamp)
  {
    [IntField(index)] + samples + seq(15, _ => IntField(0)) + [TextField(timestamp)]
  }

  class Logger {
    var index: nat
    var rows: seq<seq<Field>>

    /** Every row written has as many columns as the header and carries its
        own position as sample index. */
    ghost predicate Valid()
      reads this
    {
      |rows| == index &&
      forall k :: 0 <= k < |rows| ==> |rows[k]| == |Header| && rows[k][0] == IntField(k)
    }

    constructor ()
      ensures Valid() && index == 0 && rows == []
    {
      index := 0;
      rows := [];
    }

    /** The decoded line `decodedData` and the clock reading `timestamp`
        (`generate_timestamp()`) are inputs. Lines with fewer than eight
        tokens are ignored. */
    method HandleLine(decodedData: string, timestamp: string)
      requires Valid()
      modifies this
      ensures Valid()
      ensures |Split(decodedData)| >= 8 ==>
        rows == old(rows) + [Row(old(index), FirstEightDecimals(Split(decodedData), 1.0), timestamp)] &&
        index == old(index) + 1
      ensures |Split(decodedData)| < 8 ==> rows == old(rows) && index == old(index)
    {
      var hexValues := Split(decodedData);
      if |hexValues| >= 8 {
        var decimalValues := FirstEightDecimals(hexValues, 1.0);
        var formattedData := Row(index, decimalValues, timestamp);
        rows := rows + [formattedData];
        index := index + 1;
      }
    }
  }
}
