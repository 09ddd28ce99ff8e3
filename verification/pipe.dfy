/** The pipe between the output stream `write` fills and the load statement
    that reads it: a `PipedOutputStream` connected to a `PipedInputStream`
    with a buffer of `BUFFER_SIZE` bytes. A write into a full buffer waits
    until a reader takes bytes out; a read from an empty one waits for a
    writer. */
module Pipe {
  import opened Framing

  /** `BUFFER_SIZE`: 512 KiB. */
  const BufferSize: nat := 524288

  /** The schedule of the code as written: the whole payload is written into
      the pipe, on the calling thread, before the load statement (the only
      reader) starts. Once the buffer is full the next write waits for a
      reader that cannot start, so the thread blocks for good; `blocked`
      reports that the payload did not fit. */
  method ProduceBeforeLoad(wire: seq<byte>, capacity: nat) returns (buffered: seq<byte>, blocked: bool)
    ensures blocked <==> |wire| > capacity
    ensures buffered == wire[..if blocked then capacity else |wire|]
  {
    buffered := [];
    blocked := false;
    var i := 0;
    while i < |wire|
      invariant 0 <= i <= |wire| && i <= capacity
      invariant buffered == wire[..i]
    {
      if |buffered| == capacity {
        blocked := true;
        return;
      }
      buffered := buffered + [wire[i]];
      i := i + 1;
    }
  }

  lemma {:induction false} FramedSizeOfEqualValues(values: seq<seq<byte>>, width: nat)
    requires forall k :: 0 <= k < |values| ==> |values[k]| == width
    ensures FramedSize(values) == |values| * (width + 1)
  {
    if values != [] {
      FramedSizeOfEqualValues(values[1..], width);
    }
  }

  /** A batch of 10,000 uncompressed records of 200 bytes each makes a
      2,010,000-byte payload, more than the pipe holds: written before the
      load starts, it blocks. */
  lemma LargeBatchOverflowsPipe(values: seq<seq<byte>>)
    requires |values| == 10000
    requires forall k :: 0 <= k < |values| ==> |values[k]| == 200
    ensures |Frame(values)| == 2010000
    ensures |Frame(values)| > BufferSize
  {
    FrameLength(values);
    FramedSizeOfEqualValues(values, 200);
  }

  /** The intended schedule: the load statement reads the pipe on its own
      thread while the payload is written. `producerFirst` is an arbitrary
      scheduler: at each step it says which side runs when both could.
      Whatever it does, the buffer never holds more than its capacity and
      every byte reaches the reader once, in order. */
  method StreamConcurrently(wire: seq<byte>, capacity: nat, producerFirst: nat -> bool) returns (received: seq<byte>)
    requires capacity > 0
    ensures received == wire
  {
    var produced := 0;
    var buffer: seq<byte> := [];
    received := [];
    var step := 0;
    while |received| < |wire|
      invariant 0 <= produced <= |wire|
      invariant |buffer| <= capacity
      invariant received + buffer == wire[..produced]
      decreases 2 * |wire| - produced - |received|
    {
      var canProduce := produced < |wire| && |buffer| < capacity;
      if canProduce && (producerFirst(step) || buffer == []) {
        buffer := buffer + [wire[produced]];
        produced := produced + 1;
      } else {
        received := received + [buffer[0]];
        buffer := buffer[1..];
      }
      step := step + 1;
    }
    assert |received| == |wire| == produced;
  }
}
