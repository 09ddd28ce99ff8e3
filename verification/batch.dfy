/** A batch of sink records and the identity `write` derives from its first
    record: `topic-partition-offset`, the key of the batch's metadata marker. */
module Batch {
  import opened Common
  import opened Text

  /** One upstream record. The partition is a boxed Integer that may be null;
      the value is whatever the record carries, rendered by a collaborator. */
  datatype Record<V> = Record(topic: string, partition: Option<int>, offset: int, value: V)

  /** What `%s` prints for the partition: "null" for a missing one. */
  function PartitionText(p: Option<int>): string {
    match p
    case None => "null"
    case Some(n) => IntToString(n)
  }

  /** `String.format("%s-%s-%s", topic, partition, offset)` of the first record. */
  function BatchId<V>(first: Record<V>): (id: string)
    ensures first.topic + "-" <= id
    ensures |id| > |IntToString(first.offset)| && id[|id| - |IntToString(first.offset)|..] == IntToString(first.offset)
  {
    var head := first.topic + "-" + PartitionText(first.partition) + "-";
    var offset := IntToString(first.offset);
    assert (head + offset)[|head|..] == offset;
    head + offset
  }

  /** The identity of the record at partition 0, offset 100 of topic "t". */
  lemma BatchIdExample<V>(v: V)
    ensures BatchId(Record("t", Some(0), 100, v)) == "t-0-100"
  {
  }

  /** Kafka's legal topic characters: ASCII letters, digits, '.', '_' and '-'. */
  predicate LegalTopicName(topic: string) {
    forall i :: 0 <= i < |topic| ==>
      'a' <= topic[i] <= 'z' || 'A' <= topic[i] <= 'Z' || IsDigit(topic[i]) || topic[i] in {'.', '_', '-'}
  }

  /** A legal topic can stand inside a quoted SQL string and a backtick-quoted
      identifier without ending either early. */
  lemma LegalTopicHasNoQuotes(topic: string)
    requires LegalTopicName(topic)
    ensures '\'' !in topic && '`' !in topic
  {
  }

  /** Upstream coordinates as the log hands them out: offsets and partitions
      are never negative. */
  predicate LogCoordinates<V>(r: Record<V>) {
    r.offset >= 0 && (r.partition.Some? ==> r.partition.value >= 0)
  }

  /** Reads an identity back into topic, partition text and offset text by
      splitting at its last two dashes. */
  function SplitBatchId(id: string): Option<(string, string, string)> {
    var j := LastIndexOf(id, '-');
    if j < 0 then None
    else
      var head := id[..j];
      var i := LastIndexOf(head, '-');
      if i < 0 then None else Some((head[..i], head[i + 1..], id[j + 1..]))
  }

  lemma DigitsHaveNoDash(s: string)
    requires AllDigits(s)
    ensures '-' !in s
  {
  }

  lemma PartitionTextNoDash(p: Option<int>)
    requires p.Some? ==> p.value >= 0
    ensures '-' !in PartitionText(p)
  {
    if p.Some? {
      DigitsHaveNoDash(NatToString(p.value));
    }
  }

  lemma PartitionTextInjective(p: Option<int>, q: Option<int>)
    requires p.Some? ==> p.value >= 0
    requires q.Some? ==> q.value >= 0
    ensures PartitionText(p) == PartitionText(q) <==> p == q
  {
    if p.Some? && q.Some? {
      NatToStringInjective(p.value, q.value);
    } else if p.Some? && q.None? {
      assert !IsDigit(PartitionText(q)[0]);
    } else if p.None? && q.Some? {
      assert !IsDigit(PartitionText(p)[0]);
    }
  }

  /** For log coordinates the identity can be read back uniquely from the right. */
  lemma SplitBatchIdOf<V>(r: Record<V>)
    requires LogCoordinates(r)
    ensures SplitBatchId(BatchId(r)) == Some((r.topic, PartitionText(r.partition), IntToString(r.offset)))
  {
    var t, p, o := r.topic, PartitionText(r.partition), IntToString(r.offset);
    PartitionTextNoDash(r.partition);
    DigitsHaveNoDash(o);
    var id := BatchId(r);
    assert id == (t + "-" + p) + ['-'] + o;
    LastIndexOfSuffix(t + "-" + p, '-', o);
    var head := id[..|t| + 1 + |p|];
    assert head == t + ['-'] + p;
    LastIndexOfSuffix(t, '-', p);
    assert head[..|t|] == t && head[|t| + 1..] == p;
    assert id[|t| + 1 + |p| + 1..] == o;
  }

  /** Two records with log coordinates have the same identity exactly when
      they have the same topic, partition and offset: the identity is a
      faithful idempotency key. */
  lemma BatchIdInjective<V>(a: Record<V>, b: Record<V>)
    requires LogCoordinates(a) && LogCoordinates(b)
    ensures BatchId(a) == BatchId(b) <==>
              a.topic == b.topic && a.partition == b.partition && a.offset == b.offset
  {
    if BatchId(a) == BatchId(b) {
      SplitBatchIdOf(a);
      SplitBatchIdOf(b);
      PartitionTextInjective(a.partition, b.partition);
      NatToStringInjective(a.offset, b.offset);
    }
  }

  /** Without the log's sign guarantee the identity is ambiguous: topic "a-"
      at partition 1 and topic "a" at partition -1 share "a--1-3". */
  lemma BatchIdNeedsLogCoordinates<V>(v: V)
    ensures BatchId(Record("a-", Some(1), 3, v)) == BatchId(Record("a", Some(-1), 3, v))
  {
    assert NatToString(1) == "1" && NatToString(3) == "3";
  }

  lemma IntToStringQuoteFree(i: int)
    ensures '\'' !in IntToString(i)
  {
    var d := NatToString(if i < 0 then -i else i);
    assert forall k :: 0 <= k < |d| ==> IsDigit(d[k]);
  }

  /** A topic without a quote gives an identity without a quote, so the id
      stays one SQL string literal in the marker statement. */
  lemma BatchIdQuoteFree<V>(r: Record<V>)
    requires '\'' !in r.topic
    ensures '\'' !in BatchId(r)
  {
    IntToStringQuoteFree(r.offset);
    if r.partition.Some? {
      IntToStringQuoteFree(r.partition.value);
    }
  }
}
