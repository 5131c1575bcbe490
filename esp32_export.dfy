/** The serial-to-CSV exporter: each text line the ESP32 prints is parsed by
    `parse_serial_data` into a timestamp and eight channel values, and every
    line that parses becomes one CSV row under a nine-column header. */
module Esp32DataExport {
  import opened Wrappers
  import opened PyText

  const Header: seq<string> :=
    ["Timestamp", "Channel1", "Channel2", "Channel3", "Channel4",
     "Channel5", "Channel6", "Channel7", "Channel8"]

  datatype Reading = Reading(timestamp: real, channelData: seq<int>)

  /** `[int(t) for t in tokens]`: `None` as soon as one token is not a
      base-10 integer (the `ValueError` is caught by the caller). */
  function ParseInts(tokens: seq<string>): (r: Option<seq<int>>)
    ensures r.Some? ==> |r.value| == |tokens|
  {
    if forall i :: 0 <= i < |tokens| ==> PyInt(tokens[i], 10).Some? then
      Some(seq(|tokens|, i requires 0 <= i < |tokens| => PyInt(tokens[i], 10).value))
    else
      None
  }

  /** The list parses exactly when every token does, and then holds the
      tokens' values in order. */
  lemma ParseIntsValues(tokens: seq<string>)
    ensures ParseInts(tokens).Some? <==> forall i :: 0 <= i < |tokens| ==> PyInt(tokens[i], 10).Some?
    ensures ParseInts(tokens).Some? ==>
              forall i :: 0 <= i < |tokens| ==> PyInt(tokens[i], 10) == Some(ParseInts(tokens).value[i])
  {
  }

  /** Integers written out with `str` convert back to themselves, one
      value per token and in order. */
  lemma ParseIntsFormatted(values: seq<int>)
    ensures ParseInts(seq(|values|, i requires 0 <= i < |values| => FormatInt(values[i]))) == Some(values)
  {
    var tokens := seq(|values|, i requires 0 <= i < |values| => FormatInt(values[i]));
    forall i | 0 <= i < |tokens|
      ensures PyInt(tokens[i], 10) == Some(values[i])
    {
      FormatIntParses(values[i]);
    }
    ParseIntsValues(tokens);
    assert ParseInts(tokens).value == values;
  }

  /** The conversions of `parse_serial_data` on the split line `parts`. */
  function ParseParts(parts: seq<string>, pyFloat: string -> Option<real>): (r: Option<Reading>)
    ensures r.Some? ==> |r.value.channelData| == 8
  {
    if |parts| < 2 then None  // IndexError on parts[1]
    else
      match pyFloat(parts[1])
      case None => None
      case Some(timestamp) =>
        if |parts| < 12 then None  // IndexError in the comprehension
        else
          var ints := ParseInts(parts[4..12]);
          match ints
          case None => None
          case Some(channelData) => Some(Reading(timestamp, channelData))
  }

  /** The split line converts exactly when it has at least twelve fields,
      field 1 is a float and fields 4..11 (the slice `parts[4..12]`) are
      integers; the reading then holds those values. */
  lemma ParsePartsValues(parts: seq<string>, pyFloat: string -> Option<real>)
    ensures var r := ParseParts(parts, pyFloat);
            && (r.Some? <==>
                  |parts| >= 12 && pyFloat(parts[1]).Some? &&
                  forall k :: 0 <= k < 8 ==> PyInt(parts[4..12][k], 10).Some?)
            && (r.Some? ==> r.value.timestamp == pyFloat(parts[1]).value)
            && (r.Some? ==> forall k :: 0 <= k < 8 ==> PyInt(parts[4..12][k], 10) == Some(r.value.channelData[k]))
  {
    if |parts| >= 12 && pyFloat(parts[1]).Some? {
      var numbers := parts[4..12];
      ParseIntsValues(numbers);
      if ParseInts(numbers).Some? {
        assert ParseParts(parts, pyFloat) == Some(Reading(pyFloat(parts[1]).value, ParseInts(numbers).value));
      } else {
        assert ParseParts(parts, pyFloat) == None;
      }
    }
  }

  /** `parse_serial_data(line)`. Python's `float()` is the parameter `pyFloat`;
      an `IndexError` on a short line or a `ValueError` from a conversion is
      caught and gives `None`, as does a line missing either marker. */
  function ParseSerialData(line: string, pyFloat: string -> Option<real>): (r: Option<Reading>)
    ensures r.Some? ==> Contains(line, "Timestamp:") && Contains(line, "Channel Data:")
    ensures r.Some? <==>
      Contains(line, "Timestamp:") && Contains(line, "Channel Data:") &&
      ParseParts(Split(Strip(line)), pyFloat).Some?
  {
    if Contains(line, "Timestamp:") && Contains(line, "Channel Data:") then
      ParseParts(Split(Strip(line)), pyFloat)
    else
      None
  }

  /** The CSV row `[timestamp] + channel_data`. */
  function CsvRow(r: Reading): (row: seq<real>)
    ensures |row| == 1 + |r.channelData|
    ensures row[0] == r.timestamp
    ensures forall k :: 0 <= k < |r.channelData| ==> row[k + 1] == r.channelData[k] as real
  {
    [r.timestamp] + seq(|r.channelData|, k requires 0 <= k < |r.channelData| => r.channelData[k] as real)
  }

  /** What `main` writes for one line read from the port: the stripped line
      is skipped when empty, otherwise parsed, and a parsed line is a row. */
  function RowForLine(rawLine: string, pyFloat: string -> Option<real>): (row: Option<seq<real>>)
    ensures row.Some? ==> |row.value| == |Header|
    ensures row.Some? <==> ParseSerialData(Strip(rawLine), pyFloat).Some?
  {
    var line := Strip(rawLine);
    if line == [] then None
    else
      match ParseSerialData(line, pyFloat)
      case None => None
      case Some(reading) => Some(CsvRow(reading))
  }

  function LineTokens(timestampText: string, channelData: seq<int>): seq<string> {
    ["Timestamp:", timestampText, "Channel", "Data:"] +
    seq(|channelData|, k requires 0 <= k < |channelData| => FormatInt(channelData[k]))
  }

  /** The line layout the parser expects: `Timestamp: <t> Channel Data: <c1> ... <c8>`. */
  function FormatLine(timestampText: string, channelData: seq<int>): string {
    JoinSpaced(LineTokens(timestampText, channelData))
  }

  lemma FormattedLineMarkers(timestampText: string, channelData: seq<int>)
    requires |channelData| == 8
    ensures Contains(FormatLine(timestampText, channelData), "Timestamp:")
    ensures Contains(FormatLine(timestampText, channelData), "Channel Data:")
  {
    var tokens := LineTokens(timestampText, channelData);
    var line := JoinSpaced(tokens);
    var rest := JoinSpaced(tokens[4..]);
    assert tokens[1..][1..] == tokens[2..];
    assert tokens[2..][1..] == tokens[3..];
    assert tokens[3..][1..] == tokens[4..];
    assert JoinSpaced(tokens[3..]) == "Data:" + " " + rest;
    assert JoinSpaced(tokens[2..]) == "Channel" + " " + JoinSpaced(tokens[3..]);
    assert JoinSpaced(tokens[1..]) == timestampText + " " + JoinSpaced(tokens[2..]);
    assert line == "Timestamp:" + " " + JoinSpaced(tokens[1..]);
    assert "Timestamp:" <= line;
    assert line == ("Timestamp: " + timestampText + " ") + "Channel Data:" + (" " + rest);
    ContainsMiddle("Timestamp: " + timestampText + " ", "Channel Data:", " " + rest);
  }

  lemma FormattedLineTokens(timestampText: string, channelData: seq<int>)
    requires timestampText != [] && NoSpace(timestampText)
    requires |channelData| == 8
    ensures Split(Strip(FormatLine(timestampText, channelData))) == LineTokens(timestampText, channelData)
  {
    var tokens := LineTokens(timestampText, channelData);
    assert forall k :: 0 <= k < |tokens| ==> tokens[k] != [] && NoSpace(tokens[k]);
    JoinSpacedEnds(tokens);
    var last := tokens[|tokens| - 1];
    assert !IsSpace(last[|last| - 1]);
    StripUnpadded(JoinSpaced(tokens));
    SplitJoinSpaced(tokens);
  }

  /** A line in the expected layout parses back to its timestamp and its
      eight channel values. */
  lemma ParseFormattedLine(timestampText: string, channelData: seq<int>, pyFloat: string -> Option<real>)
    requires timestampText != [] && NoSpace(timestampText)
    requires pyFloat(timestampText).Some?
    requires |channelData| == 8
    ensures ParseSerialData(FormatLine(timestampText, channelData), pyFloat)
            == Some(Reading(pyFloat(timestampText).value, channelData))
  {
    var line := FormatLine(timestampText, channelData);
    var parts := LineTokens(timestampText, channelData);
    FormattedLineMarkers(timestampText, channelData);
    FormattedLineTokens(timestampText, channelData);
    assert ParseSerialData(line, pyFloat) == ParseParts(parts, pyFloat);
    PartsParse(timestampText, channelData, pyFloat);
  }

  lemma PartsParse(timestampText: string, channelData: seq<int>, pyFloat: string -> Option<real>)
    requires pyFloat(timestampText).Some?
    requires |channelData| == 8
    ensures ParseParts(LineTokens(timestampText, channelData), pyFloat)
            == Some(Reading(pyFloat(timestampText).value, channelData))
  {
    var parts := LineTokens(timestampText, channelData);
    assert parts[4..12] == seq(8, i requires 0 <= i < 8 => FormatInt(channelData[i]));
    ParseIntsFormatted(channelData);
  }
}
