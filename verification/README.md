# memsql-kafka-connector: the batch writer and the sink configuration

This project models, in Dafny, the core of the MemSQL Kafka sink connector. It covers:

- `MemSQLDbWriter.write`, which writes one batch of sink records to MemSQL as a single transaction;
- `getDataCompression`, which chooses how the payload is compressed;
- the settings that `MemSQLSinkConfig` declares, with their defaults and ranges, and the values its constructor derives (`getSqlParams`, `getPasswordValue`).

A batch is written like this:

1. The batch gets an identity from its first record: `topic-partition-offset`.
2. The target table is created if needed. This DDL runs outside the transaction.
3. A session is opened on the DDL endpoint (for reference tables) or on a DML endpoint.
4. Auto-commit is turned off.
5. A marker row `(identity, record count)` is inserted into the metadata table. The identity is that table's key, so a batch that was already committed hits an integrity violation there and is skipped.
6. Each record is rendered, encoded as UTF-8 and written, followed by a newline, into a compressed stream over a pipe.
7. `LOAD DATA LOCAL INFILE` reads the pipe into the topic's table.
8. The transaction commits.

Either both the marker and the rows are committed, or neither is. A redelivered batch is therefore skipped. It is recognised by its first record alone: a batch whose first record matches a committed batch is skipped whole, extra records included, because the record count stored in the marker is never compared.

## Modules

- **`Common`** (common.dfy): `Option` and `Result`.
- **`Text`** (text.dfy):
  - decimal formatting and parsing of integers;
  - ASCII lower-casing;
  - searching sequences;
  - the small prefix, split and suffix readers that the statement parsers are built from.
- **`Compression`** (compression.dfy): `getDataCompression`.
  - The name, compared case-insensitively, selects gzip (`gz`), LZ4 (`lz4`) or none (`tsv`).
  - Any other name fails with the source's message.
- **`Framing`** (framing.dfy):
  - UTF-8 encoding;
  - the newline framing of the payload;
  - `Unframe`, the way the load statement splits the stream into lines.
- **`Batch`** (batch.dfy): the record, the batch identity, and a reader that splits an identity at its last two dashes. This reader is the partner used to prove the identity injective.
- **`Statements`** (statements.dfy): the text of the marker insert and of the load statement, each with a reader and a round-trip lemma.
- **`Pipe`** (pipe.dfy): the 512 KiB pipe between the stream that `write` fills and the load statement that reads it. See "Findings".
- **`Writer`** (writer.dfy):
  - `Store`: the database as the connector sees it. It holds the committed markers and tables, the open session with its pending work, and a trace of the JDBC calls.
  - `Envelope`: the compressed output stream.
  - `Store.Write`: proved against the pure specification `WriteSpec`. `WriteSpec` is layered as `SessionSpec`, `LoadSpec` and `CommitSpec`, following the nesting of the `try` blocks.
- **`WriterProperties`** (properties.dfy): what a call of `write` promises, stated over `WriteSpec`. This covers:
  - atomicity;
  - idempotent redelivery;
  - the order of the session's steps;
  - the rows appended, in batch order;
  - the contents of both statements.
- **`SinkConfig`** (config.dfy):
  - the declared settings;
  - resolving a setting against the supplied properties;
  - `getPasswordValue`;
  - `getSqlParams`, as a loop proved against the map it builds;
  - the constructor.

Compression is kept symbolic. The envelope keeps the uncompressed bytes and the format that encodes them. The load succeeds only when the file extension named in the statement selects that same format.

## Model

| member | source | states |
|---|---|---|
| Compression.ParseCompression | src/main/java/com/memsql/kafka/sink/MemSQLDbWriter.java:87-98 | succeeds exactly when the lower-cased name is gzip, lz4 or skip, and then the selected compression's name is that lower-cased text; otherwise fails with "Invalid data compression type. Type <name> doesn't exist" naming the original text |
| Compression.ParseName | src/main/java/com/memsql/kafka/sink/MemSQLDbWriter.java:89-95 | each compression is selected by its own name |
| Compression.ParseIgnoresCase | src/main/java/com/memsql/kafka/sink/MemSQLDbWriter.java:89 | a name and its lower-cased form select the same compression |
| Compression.Ext | src/main/java/com/memsql/kafka/sink/MemSQLDbWriter.java:91-95 | the file extension is one of gz, lz4, tsv |
| Compression.FromExt | src/main/java/com/memsql/kafka/sink/MemSQLDbWriter.java:91-95 | the decoder chosen by a file extension is one whose extension it is |
| Compression.ExtRoundTrip | src/main/java/com/memsql/kafka/sink/MemSQLDbWriter.java:62 | the extension written into the load statement selects the compression that encoded the stream |
| Text.ToLower | src/main/java/com/memsql/kafka/sink/MemSQLDbWriter.java:89 | same length; every upper-case ASCII letter becomes its lower-case letter (code plus 32); every other character is unchanged; no upper-case letter is left |
| Text.ToLowerIdempotent | src/main/java/com/memsql/kafka/sink/MemSQLDbWriter.java:89 | lower-casing twice is lower-casing once |
| Text.NatToString | src/main/java/com/memsql/kafka/sink/MemSQLDbWriter.java:36-37 | the decimal text of a count or offset is non-empty, all digits, and has no leading zero: it starts with '0' only for zero, and then is just "0" |
| Text.ParseNat | src/main/java/com/memsql/kafka/sink/MemSQLDbWriter.java:51 | reading decimal text succeeds exactly on non-empty all-digit text |
| Text.ParseNatToString | src/main/java/com/memsql/kafka/sink/MemSQLDbWriter.java:51 | reading back the decimal text of n gives n |
| Text.NatToStringInjective | src/main/java/com/memsql/kafka/sink/MemSQLDbWriter.java:36 | distinct numbers have distinct decimal text |
| Text.LastIndexOfSuffix | src/main/java/com/memsql/kafka/sink/MemSQLDbWriter.java:36 | the last occurrence of a separator followed by separator-free text is found where it was placed |
| Batch.SplitBatchIdOf | src/main/java/com/memsql/kafka/sink/MemSQLDbWriter.java:36 | with log coordinates, the identity splits back into topic, partition text and offset text |
| Batch.BatchIdInjective | src/main/java/com/memsql/kafka/sink/MemSQLDbWriter.java:36 | two records with log coordinates have the same identity if and only if they have the same topic, partition and offset |
| Batch.BatchIdNeedsLogCoordinates | src/main/java/com/memsql/kafka/sink/MemSQLDbWriter.java:36 | without non-negative coordinates two different records share an identity ("a-",1,3 and "a",-1,3) |
| Batch.PartitionTextInjective | src/main/java/com/memsql/kafka/sink/MemSQLDbWriter.java:36 | a missing partition ("null") and every non-negative partition print differently |
| Batch.BatchIdQuoteFree | src/main/java/com/memsql/kafka/sink/MemSQLDbWriter.java:36 | a topic without a quote gives an identity without a quote |
| Batch.BatchId | src/main/java/com/memsql/kafka/sink/MemSQLDbWriter.java:36 | the identity starts with the topic and a dash and ends with the decimal text of the offset |
| Batch.BatchIdExample | src/main/java/com/memsql/kafka/sink/MemSQLDbWriter.java:36 | the record at partition 0, offset 100 of topic "t" has the identity "t-0-100" |
| Batch.LegalTopicHasNoQuotes | src/main/java/com/memsql/kafka/sink/MemSQLDbWriter.java:51-63 | a topic made only of Kafka's legal topic characters holds neither a quote nor a backtick, so it cannot end the quoted identity or table name early |
| Statements.MarkerQueryRoundTrip | src/main/java/com/memsql/kafka/sink/MemSQLDbWriter.java:51 | the marker insert names the metadata table and carries exactly the batch identity and the record count |
| Statements.LoadQueryRoundTrip | src/main/java/com/memsql/kafka/sink/MemSQLDbWriter.java:62-64 | the load statement carries exactly the file extension, the target table and the column list |
| Statements.MarkerQuery | src/main/java/com/memsql/kafka/sink/MemSQLDbWriter.java:51 | the marker insert starts with INSERT INTO `<metadata table>` VALUES (' and is longer than that head plus the identity, ending with ')' |
| Statements.LoadQuery | src/main/java/com/memsql/kafka/sink/MemSQLDbWriter.java:62-64 | the load statement starts with LOAD DATA LOCAL INFILE '###. and is longer than that head plus the extension, ending with ')' |
| Framing.Utf8Char | src/main/java/com/memsql/kafka/sink/MemSQLDbWriter.java:67 | a character encodes to one to four bytes, containing the newline byte exactly when it is the newline |
| Framing.Utf8Encode | src/main/java/com/memsql/kafka/sink/MemSQLDbWriter.java:67 | the encoding is at least as long as the text and at most four times as long |
| Framing.Utf8NewlineIff | src/main/java/com/memsql/kafka/sink/MemSQLDbWriter.java:67 | the encoded value contains a newline byte if and only if the text contains a newline |
| Framing.Frame | src/main/java/com/memsql/kafka/sink/MemSQLDbWriter.java:69-76 | the payload has at least one byte per value and, unless there are no values, ends with a newline |
| Framing.FrameLength | src/main/java/com/memsql/kafka/sink/MemSQLDbWriter.java:69-76 | the payload is as long as all values plus one newline each |
| Framing.FrameAppend | src/main/java/com/memsql/kafka/sink/MemSQLDbWriter.java:69-76 | writing one more value appends that value and a newline |
| Framing.UnframeFrame | src/main/java/com/memsql/kafka/sink/MemSQLDbWriter.java:69-78 | splitting the payload into lines gives back the values in order when no value holds a newline |
| Framing.NewlineInValueSplits | src/main/java/com/memsql/kafka/sink/MemSQLDbWriter.java:69-78 | a value that holds a newline comes back as more than one line |
| Writer.EnsureTable | src/main/java/com/memsql/kafka/sink/MemSQLDbWriter.java:39 | the topic's table exists afterwards, no marker and no existing table changes, and any new table is empty |
| Writer.Route | src/main/java/com/memsql/kafka/sink/MemSQLDbWriter.java:43-45 | the session goes to the DDL endpoint exactly for a reference table |
| Writer.EncodedValues | src/main/java/com/memsql/kafka/sink/MemSQLDbWriter.java:66-68 | one value per record, in batch order: value k is the UTF-8 encoding of record k's rendering, and so holds a newline byte exactly when that rendering holds a newline |
| Writer.WriteSpec | src/main/java/com/memsql/kafka/sink/MemSQLDbWriter.java:32-85 | a write commits exactly when the batch is non-empty, no call fails, its identity is not yet a committed marker and the compression name is valid; it is skipped exactly when the batch is non-empty, table setup and connection succeed, and its identity is already a committed marker; once table setup succeeds the topic's table exists; a write that does not commit leaves the markers unchanged |
| Writer.CommitSpec | src/main/java/com/memsql/kafka/sink/MemSQLDbWriter.java:78-79 | commits exactly when neither the load nor the commit fails, and then applies marker and rows; otherwise nothing changes; a commit is issued only after the load statement succeeded |
| Writer.LoadSpec | src/main/java/com/memsql/kafka/sink/MemSQLDbWriter.java:60-80 | commits exactly when neither the stream write, the load nor the commit fails; a write that does not commit changes nothing; a commit comes after closing the output and running the load, right before the session closes |
| Writer.SessionSpec | src/main/java/com/memsql/kafka/sink/MemSQLDbWriter.java:43-81 | commits exactly when the identity is new, the marker insert succeeds, the compression name is valid and the stream write, the load and the commit succeed; skipped exactly when the identity is already a committed marker, and then the session closes right after the marker insert; a session that does not commit changes nothing; a commit comes only after the claim, closing the output and the load, right before the session closes |
| Writer.Proceed | src/main/java/com/memsql/kafka/sink/MemSQLDbWriter.java:59-80 | an invalid compression name fails with the source's message, closing the session and changing nothing; a valid one continues exactly as LoadSpec with the selected compression; never a skip |
| Writer.Committing | src/main/java/com/memsql/kafka/sink/MemSQLDbWriter.java:51-79 | the committed state gains the batch marker (identity, record count) and the topic's table is its old rows (none if new) followed by the lines of the payload; every other table is unchanged |
| Writer.ApplyPending | src/main/java/com/memsql/kafka/sink/MemSQLDbWriter.java:79 | committing a session records its pending marker, if any, and appends its pending rows, if any, to their table; nothing else changes |
| Writer.Envelope.constructor | src/main/java/com/memsql/kafka/sink/MemSQLDbWriter.java:59-60 | a new compressed stream of the selected format, empty and open |
| Writer.Envelope.Write | src/main/java/com/memsql/kafka/sink/MemSQLDbWriter.java:71-72 | bytes are appended unless the pipe is broken or the stream closed |
| Writer.Envelope.WriteAll | src/main/java/com/memsql/kafka/sink/MemSQLDbWriter.java:69-76 | succeeds unless the pipe is broken and there is something to write, and then the stream holds every value followed by a newline, in order |
| Writer.Envelope.Close | src/main/java/com/memsql/kafka/sink/MemSQLDbWriter.java:77 | the stream is closed with its contents unchanged |
| Writer.Store.constructor | src/main/java/com/memsql/kafka/sink/MemSQLDbWriter.java:32 | the store starts from a given committed state, with no session open |
| Writer.Store.CreateTableIfNeeded | src/main/java/com/memsql/kafka/sink/MemSQLDbWriter.java:39 | the committed state becomes EnsureTable of the old one |
| Writer.Store.OpenSession | src/main/java/com/memsql/kafka/sink/MemSQLDbWriter.java:43-46 | a session on the chosen endpoint, in auto-commit mode, with nothing pending |
| Writer.Store.SetAutoCommitOff | src/main/java/com/memsql/kafka/sink/MemSQLDbWriter.java:49 | the session leaves auto-commit mode |
| Writer.Store.InsertMarker | src/main/java/com/memsql/kafka/sink/MemSQLDbWriter.java:51-57 | an identity already committed is a duplicate; otherwise a failing insert is an error that changes nothing; otherwise the marker is pending, or committed at once in auto-commit mode; the statement is recorded in every case |
| Writer.Store.ExecuteLoad | src/main/java/com/memsql/kafka/sink/MemSQLDbWriter.java:78 | succeeds exactly when the statement does not fail, the stream is closed and the extension selects its format; a failed load changes nothing; on success the rows are the lines of the payload read through the pipe, pending in the session or appended at once in auto-commit mode |
| Writer.Store.CommitSession | src/main/java/com/memsql/kafka/sink/MemSQLDbWriter.java:79 | a successful commit applies the pending marker and rows; a failed one changes nothing |
| Writer.Store.CloseConnection | src/main/java/com/memsql/kafka/sink/MemSQLDbWriter.java:43-81 | closing the session leaves the committed state as it is |
| Writer.Store.LoadAndCommit | src/main/java/com/memsql/kafka/sink/MemSQLDbWriter.java:78-79 | implements CommitSpec |
| Writer.Store.StreamAndLoad | src/main/java/com/memsql/kafka/sink/MemSQLDbWriter.java:59-80 | implements LoadSpec for a chosen compression: the state, outcome and events are those LoadSpec gives |
| Writer.Store.StreamPayload | src/main/java/com/memsql/kafka/sink/MemSQLDbWriter.java:59-77 | a fresh, closed stream of the chosen format; the write succeeds exactly when the pipe is not broken, and then the stream holds every encoded value followed by a newline, in order |
| Writer.Store.ChooseAndLoad | src/main/java/com/memsql/kafka/sink/MemSQLDbWriter.java:59-80 | implements Proceed: the state, outcome and events are those Proceed gives |
| Writer.Store.ClaimBatch | src/main/java/com/memsql/kafka/sink/MemSQLDbWriter.java:43-53 | opens the session, turns auto-commit off, inserts the marker: a duplicate when the identity is already committed, an error when the insert fails, and otherwise the marker is pending in the session |
| Writer.Store.RunSession | src/main/java/com/memsql/kafka/sink/MemSQLDbWriter.java:43-81 | implements SessionSpec |
| Writer.Store.Write | src/main/java/com/memsql/kafka/sink/MemSQLDbWriter.java:32-85 | implements WriteSpec: the new committed state, the outcome and the calls issued are those WriteSpec gives |
| WriterProperties.EmptyBatchRejected | src/main/java/com/memsql/kafka/sink/MemSQLDbWriter.java:33 | an empty batch fails before anything is issued or changed |
| WriterProperties.WriteCommitted | src/main/java/com/memsql/kafka/sink/MemSQLDbWriter.java:32-85 | a committed write had a new identity and a valid compression, added exactly the marker (identity, record count), and appended the loaded lines to the topic's table only |
| WriterProperties.CommittedRowsInOrder | src/main/java/com/memsql/kafka/sink/MemSQLDbWriter.java:66-79 | with newline-free values, the table keeps its old rows and gains one row per record, in batch order, each the UTF-8 bytes of its rendering |
| WriterProperties.FirstWriteCommits | src/main/java/com/memsql/kafka/sink/MemSQLDbWriter.java:32-85 | a write of newline-free values into an empty database, with a valid compression name and no call failing, commits; the only marker is the batch's with its record count, and the only table is the topic's, holding the encoded values in batch order |
| WriterProperties.TwoRecordScenario | src/main/java/com/memsql/kafka/sink/MemSQLDbWriter.java:32-85 | records at offsets 100 and 101 of partition 0 of topic "t", written with "skip" into an empty database, commit under the marker "t-0-100" with count 2, and table "t" holds the two encoded values in order |
| WriterProperties.WriteAtomic | src/main/java/com/memsql/kafka/sink/MemSQLDbWriter.java:49-79 | a write that did not commit leaves markers and existing tables unchanged; at most an empty table was created |
| WriterProperties.RedeliverySkipped | src/main/java/com/memsql/kafka/sink/MemSQLDbWriter.java:51-57 | after a committed or skipped batch, a batch with the same first record changes nothing, never commits, and is skipped once it reaches the marker insert |
| WriterProperties.WriteTwiceIsWriteOnce | src/main/java/com/memsql/kafka/sink/MemSQLDbWriter.java:51-57 | writing a committed batch again is skipped and leaves the state as one write left it |
| WriterProperties.SessionOrder | src/main/java/com/memsql/kafka/sink/MemSQLDbWriter.java:43-81 | a commit happens only in the exact sequence open, auto-commit off, marker insert, close output, load, commit, close; a skip closes the session right after the marker insert |
| WriterProperties.DuplicateSkippedBeforeCompression | src/main/java/com/memsql/kafka/sink/MemSQLDbWriter.java:52-59 | a duplicate batch is skipped whatever the compression name, even an invalid one |
| WriterProperties.InvalidCompressionLeavesNoMarker | src/main/java/com/memsql/kafka/sink/MemSQLDbWriter.java:59 | an invalid compression name fails a new batch with the source's message, without a commit and without a marker |
| WriterProperties.MarkerStatementContents | src/main/java/com/memsql/kafka/sink/MemSQLDbWriter.java:51-53 | the third call of a session is the marker insert carrying the batch identity and the record count |
| WriterProperties.LoadStatementContents | src/main/java/com/memsql/kafka/sink/MemSQLDbWriter.java:61-64 | the load statement names the compression's extension, the topic as table and the column list |
| Pipe.ProduceBeforeLoad | src/main/java/com/memsql/kafka/sink/MemSQLDbWriter.java:69-78 | writing the whole payload before the reader starts blocks exactly when the payload exceeds the pipe's capacity, with the buffer holding the first capacity bytes |
| Pipe.LargeBatchOverflowsPipe | src/main/java/com/memsql/kafka/sink/MemSQLDbWriter.java:26 | 10,000 records of 200 bytes make a 2,010,000-byte payload, more than the 524,288-byte pipe |
| Pipe.StreamConcurrently | src/main/java/com/memsql/kafka/sink/MemSQLDbWriter.java:40-41 | with the reader running alongside, under any scheduling, every byte reaches the reader exactly once and in order |
| SinkConfig.Resolve | src/main/java/com/memsql/kafka/sink/MemSQLSinkConfig.java:54-140 | a supplied value is used unless it is below the setting's minimum; a missing one takes the default, null, or fails when there is none |
| SinkConfig.DefaultsWithinRange | src/main/java/com/memsql/kafka/sink/MemSQLSinkConfig.java:54-140 | what Kafka's ConfigDef checks while CONFIG_DEF is built: no setting is defined twice, and every integer default satisfies its own atLeast(0) validator |
| SinkConfig.GetInt | src/main/java/com/memsql/kafka/sink/MemSQLSinkConfig.java:159-160 | a supplied setting is read exactly when it is a number at least the minimum, and then the result is that number; a missing one gives the default |
| SinkConfig.GetString | src/main/java/com/memsql/kafka/sink/MemSQLSinkConfig.java:153-156 | a supplied setting is read exactly when it is text, and then the result is that text; a missing required setting fails; a missing optional one is null |
| SinkConfig.GetList | src/main/java/com/memsql/kafka/sink/MemSQLSinkConfig.java:154 | a supplied setting is read exactly when it is a list, and then the result is that list; a missing optional one is null |
| SinkConfig.GetPassword | src/main/java/com/memsql/kafka/sink/MemSQLSinkConfig.java:172-176 | a supplied setting is read exactly when it is a password, and then the result is that password; a missing optional one is null |
| SinkConfig.PasswordValue | src/main/java/com/memsql/kafka/sink/MemSQLSinkConfig.java:172-178 | null for a missing password, otherwise the password's text |
| SinkConfig.GetSqlParams | src/main/java/com/memsql/kafka/sink/MemSQLSinkConfig.java:163-170 | the loop builds exactly SqlParams of the property keys |
| SinkConfig.SqlParamsKeys | src/main/java/com/memsql/kafka/sink/MemSQLSinkConfig.java:164-168 | a name is a key of the result if and only if "params." followed by it is a property key |
| SinkConfig.SqlParamsValues | src/main/java/com/memsql/kafka/sink/MemSQLSinkConfig.java:168 | each entry holds the value read under its full original key |
| SinkConfig.NonParamKeyIgnored | src/main/java/com/memsql/kafka/sink/MemSQLSinkConfig.java:167 | a key not starting with "params." adds nothing |
| SinkConfig.SqlParamsInsert | src/main/java/com/memsql/kafka/sink/MemSQLSinkConfig.java:166-168 | taking one more key into account adds its stripped entry exactly when it is a "params." key |
| SinkConfig.StripPrefixInjective | src/main/java/com/memsql/kafka/sink/MemSQLSinkConfig.java:168 | different "params." keys strip to different names |
| SinkConfig.SqlParamsSize | src/main/java/com/memsql/kafka/sink/MemSQLSinkConfig.java:163-170 | the map has one entry per "params." property key: no entry overwrites another |
| SinkConfig.SqlParams | src/main/java/com/memsql/kafka/sink/MemSQLSinkConfig.java:164-168 | every entry comes from a property key "params." followed by the entry's name and holds the value read under that key |
| SinkConfig.StripPrefixRestores | src/main/java/com/memsql/kafka/sink/MemSQLSinkConfig.java:168 | putting "params." back in front of a stripped key gives the original key |
| SinkConfig.NewConfig | src/main/java/com/memsql/kafka/sink/MemSQLSinkConfig.java:151-161 | succeeds exactly when ddlEndpoint and database are supplied as text, every other supplied setting has its declared type, and the retry settings are not negative; a missing ddlEndpoint fails as missing; ddlEndpoint, database, dmlEndpoints, user and password are the supplied values, or null when absent; maxRetries and retryBackoffMs are the supplied numbers, 10 and 3000 by default; sqlParams is SqlParams of the property keys; the success condition takes the lookup of a "params." key never to fail |

## Left out

- JDBC, the network and the server are not executed. The outcomes of the calls that can fail become the `Faults` parameter of `Writer.Collaborators`: table setup, connecting, the marker insert, writing to the stream, the load statement and the commit. `Writer.Store` stands for the server's committed state and the session.
- These calls of `write` can also throw, but the model takes them to succeed:
  - `createStatement`, `setAllowLoadLocalInfile` and `setLocalInfileInputStream` (lines 46-48);
  - `setAutoCommit(false)` (line 49);
  - `getSchemaTables` (line 61);
  - `getRecordValue` (lines 66-67), whose parameter `render` is total;
  - closing the output stream (lines 77 and 83);
  - the GZIP and LZ4 stream constructors (lines 91 and 93) and their `IOException` (line 100).
- `Writer.Store.InsertMarker` and `Writer.Store.ExecuteLoad` act on the identity, table and extension they are given, not on the statement text. A topic holding a quote or a backtick would make the real statement malformed, yet commits in the model. Kafka's legal topic characters exclude both (`Batch.LegalTopicHasNoQuotes`).
- Java strings may hold unpaired surrogates, which `getBytes(UTF_8)` replaces with '?'. A Dafny `char` is a Unicode scalar value and cannot hold one, so that replacement is not modelled.
- Writer.Store.CommitSession: a `connection.commit()` that throws (MemSQLDbWriter.java:79) is modelled as having applied nothing. With JDBC a commit whose acknowledgement is lost may already have been applied; that in-doubt outcome is not modelled.
- Writer.CommitSpec: the try-with-resources closes of `stmt` and `connection` after a successful commit (MemSQLDbWriter.java:81) are taken to succeed. If one throws, `write` throws with the marker and rows committed, where the model reports `Committed`.
- WriterProperties.WriteAtomic: holds under the two assumptions above. A write reported as failed may in the real program have committed when the commit's acknowledgement is lost.
- Closing a session that was not committed is modelled as discarding its pending work. This is what MemSQL does with an open transaction, but it is not visible in the source.
- `getRecordValue`, `getSchemaTables` and `isReferenceTable` (JdbcHelper and MemSQLDialect) are not part of this model. They are the function parameters `render`, `columns` and `isReferenceTable`. The value of `KAFKA_METADATA_TABLE` is the parameter `metadataTable`.
- `config.dataCompression`, which `write` reads, is not declared in `MemSQLSinkConfig.java`. The compression name is a parameter of `Writer.Store.Write`.
- GZIP and LZ4 byte formats are not modelled. A compressed stream keeps its uncompressed bytes and its format, and decoding is taken to invert encoding.
- `Text.ToLower`: folds ASCII letters only. Java's locale-dependent `toLowerCase` over all of Unicode is not modelled.
- LOAD DATA's escape handling and its splitting of a line into columns are not modelled. A loaded row is the raw bytes of one line.
- Kafka's parsing of property text into typed values, its type checks and `ConfigDef`'s documentation fields are not modelled. Properties arrive already typed.
- SinkConfig.NewConfig: reports the first failing setting in declaration order. Kafka's actual choice of error when several settings are bad is not modelled.
- SinkConfig.NewConfig: its success condition assumes that reading a "params." key never fails, because `lookup` is a total function. Kafka's `AbstractConfig.get` throws a `ConfigException` for a key that `CONFIG_DEF` does not declare, so the real constructor fails, through `getSqlParams` (MemSQLSinkConfig.java:163-170), on any property whose key starts with "params." other than the declared key "params.<value>" itself (MemSQLSinkConfig.java:40, 111).
- SinkConfig.GetSqlParams: the value of a "params." key is read through the `lookup` parameter. Kafka's `getString` on a key that `CONFIG_DEF` does not declare is not modelled.
- The JDK's `HashMap` iteration order is not modelled: `GetSqlParams` takes keys in an arbitrary order and is proved to give the same map for every order.
- Logging and the `main` method that prints the documentation are not modelled.
- Writer.Store.ExecuteLoad: reads the pipe through `Pipe.StreamConcurrently`, that is, with the corrected schedule described under "Findings", and not the blocking one.

## Findings

| source | as written | input that shows it | evidently intended | confidence | as-written member | corrected member |
|---|---|---|---|---|---|---|
| src/main/java/com/memsql/kafka/sink/MemSQLDbWriter.java:26,40-41,69-78 | the payload is written into a `PipedOutputStream` whose `PipedInputStream` buffers 524,288 bytes, all on the calling thread, before `executeUpdate` (the only reader) starts; once the buffer is full the next write waits forever for a reader | a batch of 10,000 records of 200 bytes each with compression "skip": a 2,010,000-byte payload | the load reads the pipe while the payload is written, so every byte arrives, in order, whatever the payload size | not executed | Pipe.ProduceBeforeLoad, Pipe.LargeBatchOverflowsPipe | Pipe.StreamConcurrently |
