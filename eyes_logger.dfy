/** The CSV recorder that labels each sample with whether the Tab key is
    held ("eyes closed") (`High_Performance/Recorded_data/eeg_data_to_file.py`).
    The module-level `eyes_closed`, the key listener's running state, `index`
    and the rows written become the state of a class. */
module EyesClosedLogger {
  import opened PyText
  import HexLogger

  datatype Key = Tab | Esc | OtherKey(code: int)
  datatype KeyEvent = Press(key: Key) | Release(key: Key)

  const Header: seq<string> :=
    ["Sample index", "Fp1", "Fp2", "C3", "C4", "P7", "P8", "O1", "O2", "Timestamp", "Eyes closed"]

  /** `[index] + decimal_values + [timestamp] + [eyes_closed]`. */
  function Row(index: nat, samples: seq<HexLogger.Field>, timestamp: string, eyesClosed: int): (row: seq<HexLogger.Field>)
    requires |samples| == 8
    ensures |row| == |Header|
    ensures row[0] == HexLogger.IntField(index) && row[1..9] == samples
    ensures row[9] == HexLogger.TextField(timestamp) && row[10] == HexLogger.IntField(eyesClosed)
  {
    [HexLogger.IntField(index)] + samples + [HexLogger.TextField(timestamp)] + [HexLogger.IntField(eyesClosed)]
  }

  class Recorder {
    var eyesClosed: int
    /** Whether the keyboard listener still delivers events. */
    var listening: bool
    var index: nat
    var rows: seq<seq<HexLogger.Field>>

    ghost predicate Valid()
      reads this
    {
      (eyesClosed == 0 || eyesClosed == 1) &&
      |rows| == index &&
      forall k :: 0 <= k < |rows| ==>
        |rows[k]| == |Header| && rows[k][0] == HexLogger.IntField(k) &&
        (rows[k][10] == HexLogger.IntField(0) || rows[k][10] == HexLogger.IntField(1))
    }

    constructor ()
      ensures Valid() && eyesClosed == 0 && listening && index == 0 && rows == []
    {
      eyesClosed := 0;
      listening := true;
      index := 0;
      rows := [];
    }

    /** `on_press`. */
    method OnPress(key: Key)
      modifies this`eyesClosed
      ensures eyesClosed == if key == Tab then 1 else old(eyesClosed)
    {
      if key == Tab {
        eyesClosed := 1;
      }
    }

    /** `on_release`; `stop` is its `return False`. */
    method OnRelease(key: Key) returns (stop: bool)
      modifies this`eyesClosed
      ensures eyesClosed == if key == Tab then 0 else old(eyesClosed)
      ensures stop <==> key == Esc
    {
      if key == Tab {
        eyesClosed := 0;
      }
      stop := key == Esc;
    }

    /** The listener thread: callbacks run only while it listens, and a
        release callback returning `False` stops it. */
    method Deliver(event: KeyEvent)
      requires Valid()
      modifies this`eyesClosed, this`listening
      ensures Valid()
      ensures !old(listening) ==> eyesClosed == old(eyesClosed) && !listening
      ensures old(listening) && event.key == Tab ==> eyesClosed == (if event.Press? then 1 else 0)
      ensures event.key != Tab ==> eyesClosed == old(eyesClosed)
      ensures listening <==> old(listening) && event != Release(Esc)
    {
      if listening {
        match event
        case Press(key) =>
          OnPress(key);
        case Release(key) =>
          var stop := OnRelease(key);
          if stop {
            listening := false;
          }
      }
    }

    /** One pass of the read loop on a non-empty line; the clock reading
        `timestamp` is an input. */
    method HandleLine(decodedData: string, timestamp: string)
      requires Valid()
      modifies this`index, this`rows
      ensures Valid()
      ensures |Split(decodedData)| >= 8 ==>
        rows == old(rows) + [Row(old(index), HexLogger.FirstEightDecimals(Split(decodedData), 1000.0), timestamp, eyesClosed)] &&
        index == old(index) + 1
      ensures |Split(decodedData)| < 8 ==> rows == old(rows) && index == old(index)
    {
      var hexValues := Split(decodedData);
      if |hexValues| >= 8 {
        var decimalValues := HexLogger.FirstEightDecimals(hexValues, 1000.0);
        var formattedData := Row(index, decimalValues, timestamp, eyesClosed);
        rows := rows + [formattedData];
        index := index + 1;
      }
    }
  }
}
