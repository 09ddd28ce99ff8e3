/** How the batch becomes the bytes of the load file: every record value is
    encoded as UTF-8 (`getBytes(StandardCharsets.UTF_8)`) and followed by one
    newline byte. `Unframe` is the reading side: how the server's
    `LOAD DATA` splits the file into lines. */
module Framing {
  import opened Text

  newtype byte = x: int | 0 <= x < 256

  const Newline: byte := 10

  /** UTF-8 encoding of one Unicode scalar value. */
  function Utf8Char(c: char): (bs: seq<byte>)
    ensures 1 <= |bs| <= 4
    ensures Newline in bs <==> c == '\n'
  {
    var n := c as int;
    if n < 0x80 then
      [n as byte]
    else if n < 0x800 then
      [(0xC0 + n / 0x40) as byte, (0x80 + n % 0x40) as byte]
    else if n < 0x1_0000 then
      [(0xE0 + n / 0x1000) as byte, (0x80 + (n / 0x40) % 0x40) as byte, (0x80 + n % 0x40) as byte]
    else
      [(0xF0 + n / 0x4_0000) as byte, (0x80 + (n / 0x1000) % 0x40) as byte,
       (0x80 + (n / 0x40) % 0x40) as byte, (0x80 + n % 0x40) as byte]
  }

  function Utf8Encode(s: string): (bs: seq<byte>)
    ensures |s| <= |bs| <= 4 * |s|
  {
    if s == [] then [] else Utf8Char(s[0]) + Utf8Encode(s[1..])
  }

  /** The encoded bytes hold a newline byte exactly when the text holds a
      newline character: no multi-byte sequence contains byte 10. */
  lemma {:induction false} Utf8NewlineIff(s: string)
    ensures Newline in Utf8Encode(s) <==> '\n' in s
  {
    if s != [] {
      Utf8NewlineIff(s[1..]);
      assert s == [s[0]] + s[1..];
    }
  }

  /** The payload: each value followed by one newline, in batch order. */
  function Frame(values: seq<seq<byte>>): (payload: seq<byte>)
    ensures |payload| >= |values|
    ensures values != [] ==> payload[|payload| - 1] == Newline
  {
    if values == [] then [] else values[0] + [Newline] + Frame(values[1..])
  }

  /** The size of a payload computed independently: one extra byte per value. */
  function FramedSize(values: seq<seq<byte>>): nat {
    if values == [] then 0 else |values[0]| + 1 + FramedSize(values[1..])
  }

  lemma {:induction false} FrameLength(values: seq<seq<byte>>)
    ensures |Frame(values)| == FramedSize(values)
  {
    if values != [] {
      FrameLength(values[1..]);
    }
  }

  /** Writing one more value extends the payload by that value and a newline. */
  lemma {:induction false} FrameAppend(values: seq<seq<byte>>, v: seq<byte>)
    ensures Frame(values + [v]) == Frame(values) + v + [Newline]
  {
    if values != [] {
      assert (values + [v])[1..] == values[1..] + [v];
      FrameAppend(values[1..], v);
    }
  }

  /** The lines of a file: split at each newline byte; a last line without a
      terminating newline is still a line. */
  function Unframe(payload: seq<byte>): (lines: seq<seq<byte>>)
    decreases |payload|
  {
    if payload == [] then []
    else
      var i := IndexOf(payload, Newline);
      if i == |payload| then [payload]
      else [payload[..i]] + Unframe(payload[i + 1..])
  }

  /** Splitting the payload gives back the values, in order, as long as no
      value holds a newline byte of its own. */
  lemma {:induction false} UnframeFrame(values: seq<seq<byte>>)
    requires forall k :: 0 <= k < |values| ==> Newline !in values[k]
    ensures Unframe(Frame(values)) == values
  {
    if values != [] {
      var v := values[0];
      var rest := Frame(values[1..]);
      IndexOfPrefix(v, Newline, rest);
      assert Frame(values) == v + [Newline] + rest;
      assert Frame(values)[..|v|] == v;
      assert Frame(values)[|v| + 1..] == rest;
      UnframeFrame(values[1..]);
    }
  }

  /** A value that holds a newline is split into more than one line. */
  lemma NewlineInValueSplits(v: seq<byte>)
    requires Newline in v
    ensures |Unframe(Frame([v]))| >= 2
  {
    var payload := Frame([v]);
    assert payload == v + [Newline];
    var k :| 0 <= k < |v| && v[k] == Newline;
    assert payload[k] == Newline;
    var i := IndexOf(payload, Newline);
    assert i <= k;
    var tail := payload[i + 1..];
    assert tail != [] && tail[|tail| - 1] == Newline;
  }
}
