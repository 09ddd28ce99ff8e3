/** What `write` promises, stated over `WriteSpec`, the committed-state view
    of one call that `Writer.Store.Write` is proved to implement. */
module WriterProperties {
  import opened Common
  import Text
  import opened Framing
  import opened Batch
  import Compression
  import Statements
  import opened Writer

  /** An empty batch fails on its first record before anything else happens. */
  lemma EmptyBatchRejected<V>(db: Db, compressionName: string, env: Collaborators<V>)
    ensures WriteSpec(db, [], compressionName, env) == Run(db, Failed(EmptyBatch), [])
  {
  }

  /** A committed write added exactly one marker, keyed by the first record's
      identity and holding the record count, and appended the loaded lines
      to the first record's topic table; no other table changed. */
  lemma WriteCommitted<V>(db: Db, records: seq<Record<V>>, compressionName: string, env: Collaborators<V>)
    requires WriteSpec(db, records, compressionName, env).outcome == Committed
    ensures |records| > 0 && Compression.ParseCompression(compressionName).Success?
    ensures var run := WriteSpec(db, records, compressionName, env);
            var table := records[0].topic;
            && BatchId(records[0]) !in db.markers
            && run.db.markers == db.markers[BatchId(records[0]) := |records|]
            && run.db.tables.Keys == db.tables.Keys + {table}
            && run.db.tables[table] ==
                 (if table in db.tables then db.tables[table] else []) + Unframe(Frame(EncodedValues(records, env.render)))
            && forall t :: t in db.tables && t != table ==> run.db.tables[t] == db.tables[t]
  {
    var table := records[0].topic;
    var db1 := EnsureTable(db, table);
    var c := Compression.ParseCompression(compressionName).value;
    var session := SessionSpec(db1, records, compressionName, env);
    assert session == WriteSpec(db, records, compressionName, env);
    assert BatchId(records[0]) !in db1.markers;
    var load := LoadSpec(db1, records, c, env);
    assert session.db == load.db;
    var commit := CommitSpec(db1, records, c, env);
    assert load.db == commit.db == Committing(db1, records, env);
  }

  /** When no rendered value holds a newline, a committed write appends one
      row per record, in batch order, each the UTF-8 bytes of its value. */
  lemma CommittedRowsInOrder<V>(db: Db, records: seq<Record<V>>, compressionName: string, env: Collaborators<V>)
    requires WriteSpec(db, records, compressionName, env).outcome == Committed
    requires forall k :: 0 <= k < |records| ==> '\n' !in env.render(records[k])
    ensures |records| > 0
    ensures var run := WriteSpec(db, records, compressionName, env);
            var table := records[0].topic;
            var old_rows := if table in db.tables then db.tables[table] else [];
            && run.db.tables[table][..|old_rows|] == old_rows
            && |run.db.tables[table]| == |old_rows| + |records|
            && forall k :: 0 <= k < |records| ==>
                 run.db.tables[table][|old_rows| + k] == Utf8Encode(env.render(records[k]))
  {
    WriteCommitted(db, records, compressionName, env);
    UnframeFrame(EncodedValues(records, env.render));
  }

  /** A write into an empty database with nothing failing, a valid
      compression name and newline-free values commits: the only marker is
      the batch's, and the only table is the topic's, holding the encoded
      values in batch order. */
  lemma FirstWriteCommits<V>(records: seq<Record<V>>, compressionName: string, env: Collaborators<V>)
    requires |records| > 0
    requires env.faults == Faults(false, false, false, false, false, false)
    requires Compression.ParseCompression(compressionName).Success?
    requires forall k :: 0 <= k < |records| ==> '\n' !in env.render(records[k])
    ensures var run := WriteSpec(Db(map[], map[]), records, compressionName, env);
            && run.outcome == Committed
            && run.db.markers == map[BatchId(records[0]) := |records|]
            && run.db.tables == map[records[0].topic := EncodedValues(records, env.render)]
  {
    var db := Db(map[], map[]);
    var run := WriteSpec(db, records, compressionName, env);
    var values := EncodedValues(records, env.render);
    UnframeFrame(values);
    WriteCommitted(db, records, compressionName, env);
    assert run.db.tables.Keys == {records[0].topic};
    assert run.db.tables[records[0].topic] == [] + values;
    assert [] + values == values;
    assert run.db.tables == map[records[0].topic := values];
  }

  /** Two records at offsets 100 and 101 of partition 0 of topic "t",
      written uncompressed into an empty database with nothing failing:
      the batch commits under the identity "t-0-100" with count 2, and the
      new table "t" holds the two values in order. */
  lemma TwoRecordScenario<V>(v1: V, v2: V, env: Collaborators<V>)
    requires env.faults == Faults(false, false, false, false, false, false)
    requires '\n' !in env.render(Record("t", Some(0), 100, v1)) && '\n' !in env.render(Record("t", Some(0), 101, v2))
    ensures var run := WriteSpec(Db(map[], map[]), [Record("t", Some(0), 100, v1), Record("t", Some(0), 101, v2)], "skip", env);
            && run.outcome == Committed
            && run.db.markers == map["t-0-100" := 2]
            && run.db.tables == map["t" := [Utf8Encode(env.render(Record("t", Some(0), 100, v1))),
                                            Utf8Encode(env.render(Record("t", Some(0), 101, v2)))]]
  {
    var records := [Record("t", Some(0), 100, v1), Record("t", Some(0), 101, v2)];
    Compression.ParseName(Compression.Skip);
    BatchIdExample(v1);
    FirstWriteCommits(records, "skip", env);
    var values := EncodedValues(records, env.render);
    assert values == [Utf8Encode(env.render(records[0])), Utf8Encode(env.render(records[1]))];
  }

  /** A write that did not commit leaves no trace of the batch: no marker,
      no row; at most the target table was created, empty. */
  lemma WriteAtomic<V>(db: Db, records: seq<Record<V>>, compressionName: string, env: Collaborators<V>)
    requires WriteSpec(db, records, compressionName, env).outcome != Committed
    ensures var run := WriteSpec(db, records, compressionName, env);
            && run.db.markers == db.markers
            && (forall t :: t in db.tables ==> t in run.db.tables && run.db.tables[t] == db.tables[t])
            && (forall t :: t in run.db.tables && t !in db.tables ==> run.db.tables[t] == [])
  {
  }

  /** Redelivery: once a batch has committed (or was found already
      committed), writing a batch with the same first record again changes
      nothing, and is skipped whenever it gets as far as the marker insert. */
  lemma RedeliverySkipped<V>(db: Db, records: seq<Record<V>>, compressionName: string, env: Collaborators<V>,
                             again: seq<Record<V>>, compressionName2: string, env2: Collaborators<V>)
    requires WriteSpec(db, records, compressionName, env).outcome in {Committed, Skipped}
    requires |records| > 0 && |again| > 0
    requires again[0].topic == records[0].topic && again[0].partition == records[0].partition
    requires again[0].offset == records[0].offset
    ensures var first := WriteSpec(db, records, compressionName, env);
            var second := WriteSpec(first.db, again, compressionName2, env2);
            && second.db == first.db
            && second.outcome != Committed
            && (!env2.faults.tableSetup && !env2.faults.connect ==> second.outcome == Skipped)
  {
    var first := WriteSpec(db, records, compressionName, env);
    assert BatchId(again[0]) == BatchId(records[0]);
    if first.outcome == Committed {
      WriteCommitted(db, records, compressionName, env);
    }
    assert records[0].topic in first.db.tables;
    assert EnsureTable(first.db, again[0].topic) == first.db;
  }

  /** Writing the same batch twice has the effect of writing it once. */
  lemma WriteTwiceIsWriteOnce<V>(db: Db, records: seq<Record<V>>, compressionName: string, env: Collaborators<V>)
    requires WriteSpec(db, records, compressionName, env).outcome == Committed
    ensures var once := WriteSpec(db, records, compressionName, env);
            WriteSpec(once.db, records, compressionName, env) == Run(once.db, Skipped, Claim(records, env) + [CloseSession])
  {
    RedeliverySkipped(db, records, compressionName, env, records, compressionName, env);
  }

  /** The order of a session: auto-commit goes off before the marker insert,
      the output is closed before the load runs, and a commit is issued only
      after the load statement, as the last step before the session closes. */
  lemma SessionOrder<V>(db: Db, records: seq<Record<V>>, compressionName: string, env: Collaborators<V>)
    ensures var run := WriteSpec(db, records, compressionName, env);
            && (run.outcome == Committed ==> Commit in run.events)
            && (run.outcome == Skipped ==> run.events == Claim(records, env) + [CloseSession])
            && (Commit in run.events ==>
                  |records| > 0 && Compression.ParseCompression(compressionName).Success?
                  && run.events == Claim(records, env) +
                       [CloseOutput, Execute(DataQuery(records, Compression.ParseCompression(compressionName).value, env)),
                        Commit, CloseSession])
  {
  }

  /** A batch whose marker is already committed is skipped whatever the
      compression name, even an invalid one: the name is looked at only
      after the marker insert. */
  lemma DuplicateSkippedBeforeCompression<V>(db: Db, records: seq<Record<V>>, compressionName: string, env: Collaborators<V>)
    requires |records| > 0 && !env.faults.tableSetup && !env.faults.connect
    requires BatchId(records[0]) in db.markers
    ensures WriteSpec(db, records, compressionName, env) ==
              Run(EnsureTable(db, records[0].topic), Skipped, Claim(records, env) + [CloseSession])
  {
  }

  /** An invalid compression name fails a new batch after its marker insert
      and before any commit, so the marker is rolled back with the session. */
  lemma InvalidCompressionLeavesNoMarker<V>(db: Db, records: seq<Record<V>>, compressionName: string, env: Collaborators<V>)
    requires |records| > 0 && !env.faults.tableSetup && !env.faults.connect && !env.faults.markerInsert
    requires BatchId(records[0]) !in db.markers
    requires Text.ToLower(compressionName) !in {"gzip", "lz4", "skip"}
    ensures var run := WriteSpec(db, records, compressionName, env);
            && run.outcome == Failed(BadCompression(Compression.InvalidMessage(compressionName)))
            && run.db.markers == db.markers
            && Commit !in run.events
  {
  }

  /** The marker statement names the batch identity and the number of records
      in the batch, for any topic without a quote character. */
  lemma MarkerStatementContents<V>(records: seq<Record<V>>, env: Collaborators<V>)
    requires |records| > 0 && '\'' !in records[0].topic
    ensures Claim(records, env)[2].Execute?
    ensures Statements.ParseMarkerQuery(env.metadataTable, Claim(records, env)[2].sql) ==
              Some((BatchId(records[0]), |records|))
  {
    BatchIdQuoteFree(records[0]);
    Statements.MarkerQueryRoundTrip(env.metadataTable, BatchId(records[0]), |records|);
  }

  /** The load statement names the selected compression's extension, the
      first record's topic as table and the collaborator's column list, for
      any topic without a backtick. */
  lemma LoadStatementContents<V>(records: seq<Record<V>>, c: Compression.Compression, env: Collaborators<V>)
    requires |records| > 0 && '`' !in records[0].topic
    ensures Statements.ParseLoadQuery(DataQuery(records, c, env)) ==
              Some((Compression.Ext(c), records[0].topic, env.columns(records[0])))
  {
    Statements.LoadQueryRoundTrip(Compression.Ext(c), records[0].topic, env.columns(records[0]));
  }
}
