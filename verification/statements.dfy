/** The two SQL statements `write` issues: the metadata marker insert and the
    bulk load. Each builder has a reader beside it that recovers what was put
    in, which pins down the shape of the text. */
module Statements {
  import opened Common
  import opened Text

  function MarkerHead(metadataTable: string): string {
    "INSERT INTO `" + metadataTable + "` VALUES ('"
  }

  /** INSERT INTO `<metadata table>` VALUES ('<batch id>', <record count>) */
  function MarkerQuery(metadataTable: string, id: string, count: nat): (q: string)
    ensures |q| > |MarkerHead(metadataTable)| + |id| && q[..|MarkerHead(metadataTable)|] == MarkerHead(metadataTable)
    ensures q[|q| - 1] == ')'
  {
    MarkerHead(metadataTable) + id + "', " + NatToString(count) + ")"
  }

  /** Reads the batch id and record count out of a marker insert. */
  function ParseMarkerQuery(metadataTable: string, q: string): Option<(string, nat)> {
    match DropPrefix(MarkerHead(metadataTable), q)
    case None => None
    case Some(rest) =>
      var (id, afterId) := SplitAt(rest, '\'');
      match DropPrefix(", ", afterId)
      case None => None
      case Some(countText) =>
        match DropSuffix(countText, ')')
        case None => None
        case Some(digits) =>
          match ParseNat(digits)
          case None => None
          case Some(n) => Some((id, n))
  }

  /** The marker statement carries exactly the batch id and the record count,
      provided the id does not end the quoted literal early. */
  lemma MarkerQueryRoundTrip(metadataTable: string, id: string, count: nat)
    requires '\'' !in id
    ensures ParseMarkerQuery(metadataTable, MarkerQuery(metadataTable, id, count)) == Some((id, count))
  {
    var digits := NatToString(count);
    var countText := digits + [')'];
    var afterId := ", " + countText;
    var rest := id + ['\''] + afterId;
    assert MarkerQuery(metadataTable, id, count) == MarkerHead(metadataTable) + rest;
    DropPrefixOf(MarkerHead(metadataTable), rest);
    SplitAtOf(id, '\'', afterId);
    DropPrefixOf(", ", countText);
    DropSuffixOf(digits, ')');
    ParseNatToString(count);
  }

  function LoadHead(): string {
    "LOAD DATA LOCAL INFILE '###."
  }

  /** `String.join(" ", prefix, ending)` with
      prefix = LOAD DATA LOCAL INFILE '###.<ext>' and
      ending = INTO TABLE `<table>` (<columns>). */
  function LoadQuery(ext: string, table: string, columns: string): (q: string)
    ensures |q| > |LoadHead()| + |ext| && q[..|LoadHead()|] == LoadHead()
    ensures q[|q| - 1] == ')'
  {
    var prefix := LoadHead() + ext + "'";
    var ending := "INTO TABLE `" + table + "` (" + columns + ")";
    prefix + " " + ending
  }

  /** Reads the file extension, the target table and the column list out of
      a load statement. */
  function ParseLoadQuery(q: string): Option<(string, string, string)> {
    match DropPrefix(LoadHead(), q)
    case None => None
    case Some(rest) =>
      var (ext, afterExt) := SplitAt(rest, '\'');
      match DropPrefix(" INTO TABLE `", afterExt)
      case None => None
      case Some(target) =>
        var (table, afterTable) := SplitAt(target, '`');
        match DropPrefix(" (", afterTable)
        case None => None
        case Some(columnsText) =>
          match DropSuffix(columnsText, ')')
          case None => None
          case Some(columns) => Some((ext, table, columns))
  }

  /** The load statement names exactly the given extension, table and
      columns, provided the extension has no quote and the table no backtick. */
  lemma LoadQueryRoundTrip(ext: string, table: string, columns: string)
    requires '\'' !in ext && '`' !in table
    ensures ParseLoadQuery(LoadQuery(ext, table, columns)) == Some((ext, table, columns))
  {
    var columnsText := columns + [')'];
    var afterTable := " (" + columnsText;
    var target := table + ['`'] + afterTable;
    var afterExt := " INTO TABLE `" + target;
    var rest := ext + ['\''] + afterExt;
    var ending := "INTO TABLE `" + table + "` (" + columns + ")";
    assert "` (" + columns + ")" == ['`'] + afterTable;
    assert ending == "INTO TABLE `" + target;
    assert " " + ending == afterExt;
    assert LoadQuery(ext, table, columns) == (LoadHead() + ext + "'") + " " + ending;
    assert LoadQuery(ext, table, columns) == LoadHead() + rest;
    DropPrefixOf(LoadHead(), rest);
    SplitAtOf(ext, '\'', afterExt);
    DropPrefixOf(" INTO TABLE `", target);
    SplitAtOf(table, '`', afterTable);
    DropPrefixOf(" (", columnsText);
    DropSuffixOf(columns, ')');
  }
}
