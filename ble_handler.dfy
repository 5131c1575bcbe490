/** The PC-side reassembly of BLE notifications into EEG packets
    (`BLEWorker.handle_notification` and `BLEWorker.process_ble_data`).
    A packet is 36 bytes: a little-endian unsigned 32-bit timestamp followed
    by eight little-endian signed 32-bit channel samples (`'<I 8i'`). */
module BleHandler {
  import opened Wrappers
  import opened LittleEndian

  const PacketSize: nat := 36
  const ChannelCount: nat := 8

  datatype BlePacket = BlePacket(timestamp: nat, channelData: seq<int>)

  /** A message sent on `status_update_signal`. The text of a caught
      exception is not modelled. */
  datatype StatusMessage = UnexpectedLength(length: nat) | ProcessingError

  predicate WellFormed(p: BlePacket) {
    p.timestamp < TwoTo32 && |p.channelData| == ChannelCount &&
    forall i :: 0 <= i < |p.channelData| ==> InInt32(p.channelData[i])
  }

  /** Consecutive signed 32-bit little-endian words. */
  function DecodeWords(b: seq<byte>): (ws: seq<int>)
    requires |b| % 4 == 0
    ensures |ws| == |b| / 4
    ensures forall i :: 0 <= i < |ws| ==> InInt32(ws[i])
  {
    if b == [] then [] else [SignedLe32(b[..4])] + DecodeWords(b[4..])
  }

  function EncodeWords(ws: seq<int>): (b: seq<byte>)
    ensures |b| == 4 * |ws|
  {
    if ws == [] then [] else Int32Bytes(ws[0]) + EncodeWords(ws[1..])
  }

  lemma {:induction false} DecodeEncodeWords(ws: seq<int>)
    requires forall i :: 0 <= i < |ws| ==> InInt32(ws[i])
    ensures DecodeWords(EncodeWords(ws)) == ws
  {
    if ws != [] {
      var b := EncodeWords(ws);
      assert b[..4] == Int32Bytes(ws[0]);
      assert b[4..] == EncodeWords(ws[1..]);
      Int32RoundTrip(ws[0]);
      DecodeEncodeWords(ws[1..]);
    }
  }

  lemma {:induction false} EncodeDecodeWords(b: seq<byte>)
    requires |b| % 4 == 0
    ensures EncodeWords(DecodeWords(b)) == b
  {
    if b != [] {
      var ws := DecodeWords(b);
      assert ws[0] == SignedLe32(b[..4]);
      assert ws[1..] == DecodeWords(b[4..]);
      BytesRoundTrip(b[..4]);
      EncodeDecodeWords(b[4..]);
      assert b == b[..4] + b[4..];
    }
  }

  /** `struct.unpack('<I 8i', raw)` of exactly 36 bytes. */
  function Unpack(raw: seq<byte>): (p: BlePacket)
    requires |raw| == PacketSize
    ensures WellFormed(p)
  {
    assert Pow256(4) == TwoTo32;
    BlePacket(LeValue(raw[..4]), DecodeWords(raw[4..]))
  }

  /** The bytes the sender puts on the air for one packet. */
  function Encode(p: BlePacket): (raw: seq<byte>)
    requires WellFormed(p)
    ensures |raw| == PacketSize
  {
    LeBytes(p.timestamp, 4) + EncodeWords(p.channelData)
  }

  /** `process_ble_data` on a bytes-like argument: fewer than 36 bytes is
      reported and dropped; more than 36 makes `struct.unpack` raise, which is
      caught and dropped too. `handle_notification` passes it a list instead;
      that case is `ProcessListData`. */
  function ProcessBleData(raw: seq<byte>): (r: Option<BlePacket>)
    ensures r.Some? <==> |raw| == PacketSize
    ensures r.Some? ==> WellFormed(r.value) && Encode(r.value) == raw
  {
    if |raw| >= PacketSize then
      if |raw| == PacketSize then
        UnpackEncodes(raw);
        Some(Unpack(raw))
      else
        None  // struct.error: unpack requires a buffer of 36 bytes
    else
      None
  }

  lemma UnpackEncodes(raw: seq<byte>)
    requires |raw| == PacketSize
    ensures Encode(Unpack(raw)) == raw
  {
    assert Pow256(4) == TwoTo32;
    LeBytesOfValue(raw[..4]);
    EncodeDecodeWords(raw[4..]);
    assert raw == raw[..4] + raw[4..];
  }

  /** Every well-formed packet survives encoding and `process_ble_data`. */
  lemma ProcessEncoded(p: BlePacket)
    requires WellFormed(p)
    ensures ProcessBleData(Encode(p)) == Some(p)
  {
    var raw := Encode(p);
    assert raw[..4] == LeBytes(p.timestamp, 4);
    assert raw[4..] == EncodeWords(p.channelData);
    assert Pow256(4) == TwoTo32;
    LeValueOfBytes(p.timestamp, 4);
    DecodeEncodeWords(p.channelData);
  }

  /** The packets the reassembly loop emits for buffered bytes `buf`:
      one per complete 36-byte chunk, in order. */
  function Packets(buf: seq<byte>): (ps: seq<BlePacket>)
    ensures |ps| == |buf| / PacketSize
  {
    if |buf| < PacketSize then [] else [Unpack(buf[..PacketSize])] + Packets(buf[PacketSize..])
  }

  /** The bytes left in `data_buffer` once no complete chunk remains. */
  function Leftover(buf: seq<byte>): (rest: seq<byte>)
    ensures |rest| < PacketSize
  {
    if |buf| < PacketSize then buf else Leftover(buf[PacketSize..])
  }

  function EncodeAll(ps: seq<BlePacket>): seq<byte>
    requires forall i :: 0 <= i < |ps| ==> WellFormed(ps[i])
  {
    if ps == [] then [] else Encode(ps[0]) + EncodeAll(ps[1..])
  }

  /** No byte is lost or reordered: the emitted packets re-encode to the
      consumed bytes, and what is left is the tail of the input. */
  lemma {:induction false} PacketsConserveBytes(buf: seq<byte>)
    ensures forall i :: 0 <= i < |Packets(buf)| ==> WellFormed(Packets(buf)[i])
    ensures EncodeAll(Packets(buf)) + Leftover(buf) == buf
  {
    if |buf| >= PacketSize {
      PacketsConserveBytes(buf[PacketSize..]);
      UnpackEncodes(buf[..PacketSize]);
      var ps := Packets(buf);
      assert ps[1..] == Packets(buf[PacketSize..]);
      assert buf == buf[..PacketSize] + buf[PacketSize..];
    }
  }

  /** Splitting the byte stream anywhere gives the same packets and leftover. */
  lemma {:induction false} PacketsAppend(s: seq<byte>, t: seq<byte>)
    ensures Packets(s + t) == Packets(s) + Packets(Leftover(s) + t)
    ensures Leftover(s + t) == Leftover(Leftover(s) + t)
  {
    if |s| >= PacketSize {
      assert (s + t)[..PacketSize] == s[..PacketSize];
      assert (s + t)[PacketSize..] == s[PacketSize..] + t;
      PacketsAppend(s[PacketSize..], t);
    }
  }

  /** The packets emitted do not depend on how the bytes were split into
      notifications: two notifications act like one carrying both. */
  lemma NotificationSplit(buf: seq<byte>, d1: seq<byte>, d2: seq<byte>)
    ensures Packets(buf + d1) + Packets(Leftover(buf + d1) + d2) == Packets(buf + d1 + d2)
    ensures Leftover(Leftover(buf + d1) + d2) == Leftover(buf + d1 + d2)
  {
    PacketsAppend(buf + d1, d2);
  }

  /** `process_ble_data` on the Python list that `handle_notification` passes
      it: `data_buffer` is a list, and `struct.unpack` accepts only a bytes-like
      object, so it raises TypeError, which is caught. No call yields a packet;
      a chunk that passes the length test is reported as a processing error. */
  function ProcessListData(raw: seq<byte>): (r: (Option<BlePacket>, StatusMessage))
    ensures r.0 == None
    ensures r.1 == ProcessingError <==> |raw| >= PacketSize
  {
    if |raw| >= PacketSize then (None, ProcessingError) else (None, UnexpectedLength(|raw|))
  }

  /** The status messages the reassembly loop sends when every complete chunk
      fails to unpack: one error per chunk. */
  function ChunkErrors(buf: seq<byte>): (ms: seq<StatusMessage>)
    ensures |ms| == |buf| / PacketSize
    ensures forall i :: 0 <= i < |ms| ==> ms[i] == ProcessingError
  {
    if |buf| < PacketSize then [] else [ProcessingError] + ChunkErrors(buf[PacketSize..])
  }

  class BleWorker {
    var dataBuffer: seq<byte>
    /** The `(timestamp, channel_data)` pairs emitted on `data_received`, in order. */
    var received: seq<BlePacket>
    /** The messages sent on `status_update_signal`, in order. */
    var statuses: seq<StatusMessage>

    constructor ()
      ensures dataBuffer == [] && received == [] && statuses == []
    {
      dataBuffer := [];
      received := [];
      statuses := [];
    }

    /** `handle_notification` with a bytes buffer (`bytearray()`), as the
        later GUI has it: append, then cut off 36-byte packets while at least
        36 bytes are buffered. Every chunk unpacks, so no status is sent. */
    method HandleNotification(data: seq<byte>)
      modifies this
      ensures dataBuffer == Leftover(old(dataBuffer) + data)
      ensures received == old(received) + Packets(old(dataBuffer) + data)
      ensures statuses == old(statuses)
    {
      dataBuffer := dataBuffer + data;
      ghost var total := dataBuffer;
      while |dataBuffer| >= PacketSize
        invariant Leftover(dataBuffer) == Leftover(total)
        invariant received + Packets(dataBuffer) == old(received) + Packets(total)
        invariant statuses == old(statuses)
        decreases |dataBuffer|
      {
        var fullPacket := dataBuffer[..PacketSize];
        ghost var before := dataBuffer;
        dataBuffer := dataBuffer[PacketSize..];
        var result := ProcessBleData(fullPacket);
        if result.Some? {
          received := received + [result.value];
        }
        assert Packets(before) == [result.value] + Packets(dataBuffer);
      }
    }

    /** `handle_notification` as written, with the list buffer of
        `self.data_buffer = []`: the chunks are cut off and the buffer ends as
        with bytes, but every chunk fails to unpack, so nothing is emitted on
        `data_received` and one error status is sent per chunk. */
    method HandleNotificationAsWritten(data: seq<byte>)
      modifies this
      ensures dataBuffer == Leftover(old(dataBuffer) + data)
      ensures received == old(received)
      ensures statuses == old(statuses) + ChunkErrors(old(dataBuffer) + data)
    {
      dataBuffer := dataBuffer + data;
      ghost var total := dataBuffer;
      while |dataBuffer| >= PacketSize
        invariant Leftover(dataBuffer) == Leftover(total)
        invariant received == old(received)
        invariant statuses + ChunkErrors(dataBuffer) == old(statuses) + ChunkErrors(total)
        decreases |dataBuffer|
      {
        var fullPacket := dataBuffer[..PacketSize];
        ghost var before := dataBuffer;
        dataBuffer := dataBuffer[PacketSize..];
        var (result, status) := ProcessListData(fullPacket);
        statuses := statuses + [status];
        // `if result:` is never taken: the list never unpacks.
        assert result == None;
        assert ChunkErrors(before) == [status] + ChunkErrors(dataBuffer);
      }
    }
  }

  /** One notification of 36 bytes on a fresh worker: as written nothing is
      emitted and one error is reported; with a bytes buffer the packet is
      emitted and nothing is reported. */
  method OneChunkNotification() returns (asWritten: seq<BlePacket>, asWrittenStatuses: seq<StatusMessage>,
                                         corrected: seq<BlePacket>, correctedStatuses: seq<StatusMessage>)
    ensures asWritten == [] && asWrittenStatuses == [ProcessingError]
    ensures |corrected| == 1 && correctedStatuses == []
  {
    var data := seq(PacketSize, i => 0 as byte);
    var listWorker := new BleWorker();
    listWorker.HandleNotificationAsWritten(data);
    var bytesWorker := new BleWorker();
    bytesWorker.HandleNotification(data);
    asWritten, asWrittenStatuses := listWorker.received, listWorker.statuses;
    corrected, correctedStatuses := bytesWorker.received, bytesWorker.statuses;
  }
}
