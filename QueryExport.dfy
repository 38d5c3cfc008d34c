/**
 * The two exports of the order-query page (src/pages/QueryOrder.jsx,
 * `handleExportStats` and `handleExportDetails`): a byte-order mark, then the
 * header and one line per record, cells joined by `,` and lines by `\n`, with
 * no quoting and no trailing newline. `ReadCsv` is the reading a spreadsheet
 * does of such text; the lemmas say when the export reads back as written.
 */
module QueryExport {
  import opened Wrappers
  import opened Text
  import opened Numbers
  import opened QueryOrder

  /** `'\uFEFF'`, written first so that spreadsheets read the text as UTF-8. */
  const Bom: char := '\U{FEFF}'

  const StatsHeader: seq<string> := ["製令編號", "總生產時間", "總產量"]

  const DetailHeader: seq<string> := ["ID", "製令編號", "開工時間", "完工時間", "數量"]

  /** `e.join(',')` for every line of the table. */
  function Lines(table: seq<seq<string>>): (ls: seq<string>)
    ensures |ls| == |table|
  {
    seq(|table|, i requires 0 <= i < |table| => Join(',', table[i]))
  }

  /** `'\uFEFF' + [header, ...rows].map(e => e.join(',')).join('\n')`. */
  function Csv(table: seq<seq<string>>): (text: string)
    ensures |text| > 0 && text[0] == Bom
  {
    [Bom] + Join('\n', Lines(table))
  }

  /** A cell neither ends a line nor a cell. */
  predicate PlainCell(cell: string) {
    ',' !in cell && '\n' !in cell
  }

  /** No cell of the table holds a line break. */
  predicate NoLineBreaks(table: seq<seq<string>>) {
    forall i, j :: 0 <= i < |table| && 0 <= j < |table[i]| ==> '\n' !in table[i][j]
  }

  /** A table the export writes unambiguously: non-empty rows of plain cells. */
  predicate PlainTable(table: seq<seq<string>>) {
    NoLineBreaks(table) && forall i :: 0 <= i < |table| ==> |table[i]| > 0 && SeparatorFree(',', table[i])
  }

  /** Each line split into its cells. */
  function CellsOf(lines: seq<string>): (t: seq<seq<string>>)
    ensures |t| == |lines|
  {
    seq(|lines|, i requires 0 <= i < |lines| => Split(',', lines[i]))
  }

  /** Reading the text back: drop the mark, split into lines, split each line into cells. */
  function ReadCsv(text: string): Option<seq<seq<string>>> {
    if text != [] && text[0] == Bom then Some(CellsOf(Split('\n', text[1..]))) else None
  }

  /** Without line breaks in the cells, the text splits back into the lines written. */
  lemma ReadsLines(table: seq<seq<string>>)
    requires |table| > 0 && NoLineBreaks(table)
    ensures ReadCsv(Csv(table)) == Some(CellsOf(Lines(table)))
  {
    var ls := Lines(table);
    forall i | 0 <= i < |ls| ensures '\n' !in ls[i] {
      JoinAvoids(',', table[i], '\n');
    }
    SplitJoin('\n', ls);
    assert Csv(table)[1..] == Join('\n', ls);
  }

  /** Lines of plain cells split back into those cells. */
  lemma CellsOfLines(table: seq<seq<string>>)
    requires PlainTable(table)
    ensures CellsOf(Lines(table)) == table
  {
    var t := CellsOf(Lines(table));
    forall i | 0 <= i < |table| ensures t[i] == table[i] {
      SplitJoin(',', table[i]);
    }
  }

  /** A table of plain cells with at least one line reads back exactly as it was written. */
  lemma CsvRoundTrip(table: seq<seq<string>>)
    requires |table| > 0 && PlainTable(table)
    ensures ReadCsv(Csv(table)) == Some(table)
  {
    ReadsLines(table);
    CellsOfLines(table);
  }

  // ---------------------------------------------------------------------
  // The statistics export
  // ---------------------------------------------------------------------

  /** `[s.orderId, formatDuration(s.totalTimeMs), s.totalQty]`, the number written by `String`. */
  function StatsFields(e: OrderStats): seq<string> {
    [e.orderId, FormatDuration(e.totalTimeMs), IntToString(e.totalQty)]
  }

  function StatsRecords(stats: seq<OrderStats>): (records: seq<seq<string>>)
    ensures |records| == |stats|
  {
    seq(|stats|, i requires 0 <= i < |stats| => StatsFields(stats[i]))
  }

  /** The content of `stats.csv`. */
  function StatsCsv(stats: seq<OrderStats>): string {
    Csv([StatsHeader] + StatsRecords(stats))
  }

  /** The text of a number has no separator in it. */
  lemma NumberTextIsPlain(n: int)
    ensures PlainCell(IntToString(n))
  {
    var t := IntToString(n);
    forall i | 0 <= i < |t| ensures t[i] != ',' && t[i] != '\n' {
    }
  }

  /** No header cell holds a separator. */
  lemma HeadersArePlain()
    ensures forall c :: c in StatsHeader ==> PlainCell(c)
    ensures forall c :: c in DetailHeader ==> PlainCell(c)
  {
  }

  /** A header line followed by records whose cells are all plain makes a plain table. */
  lemma PlainTableOf(header: seq<string>, records: seq<seq<string>>)
    requires |header| > 0 && forall c :: c in header ==> PlainCell(c)
    requires forall i :: 0 <= i < |records| ==> |records[i]| > 0
    requires forall i, c :: 0 <= i < |records| && c in records[i] ==> PlainCell(c)
    ensures PlainTable([header] + records)
  {
    var table := [header] + records;
    forall i, j | 0 <= i < |table| && 0 <= j < |table[i]| ensures PlainCell(table[i][j]) {
      assert table[i][j] in table[i];
    }
  }

  /** The quantity cell of an entry reads back, through `parseInt`, as its total. */
  lemma QuantityReadsBack(e: OrderStats)
    ensures ParseInt(StatsFields(e)[2]) == Some(e.totalQty)
  {
    assert StatsFields(e)[2] + [] == IntToString(e.totalQty);
    ParseIntReadsWritten(e.totalQty, []);
  }

  /**
   * When no order id holds a comma or a line break, `stats.csv` reads back as
   * the header and one line per entry, in the order of the table.
   */
  lemma StatsCsvRoundTrip(stats: seq<OrderStats>)
    requires forall e :: e in stats ==> PlainCell(e.orderId)
    ensures ReadCsv(StatsCsv(stats)) == Some([StatsHeader] + StatsRecords(stats))
  {
    var records := StatsRecords(stats);
    HeadersArePlain();
    forall i, c | 0 <= i < |records| && c in records[i] ensures PlainCell(c) {
      assert stats[i] in stats;
      NumberTextIsPlain(stats[i].totalQty);
    }
    PlainTableOf(StatsHeader, records);
    CsvRoundTrip([StatsHeader] + records);
  }

  /**
   * Each line of the statistics export names its entry's order id, its total
   * time as `formatDuration` wrote it, and a quantity `parseInt` reads as the total.
   */
  lemma StatsRecordsShowEntries(stats: seq<OrderStats>)
    ensures forall i :: 0 <= i < |stats| ==>
              var fields := StatsRecords(stats)[i];
              |fields| == 3 && fields[0] == stats[i].orderId
              && fields[1] == FormatDuration(stats[i].totalTimeMs)
              && ParseInt(fields[2]) == Some(stats[i].totalQty)
  {
    forall i | 0 <= i < |stats| ensures ParseInt(StatsRecords(stats)[i][2]) == Some(stats[i].totalQty) {
      QuantityReadsBack(stats[i]);
    }
  }

  /** An order id holding one comma makes its line four cells. */
  lemma CommaLine(a: string, b: string, dur: string, qty: string)
    requires PlainCell(a) && PlainCell(b) && PlainCell(dur) && PlainCell(qty)
    ensures Split(',', Join(',', [a + "," + b, dur, qty])) == [a, b, dur, qty]
  {
    var tail := Join(',', [dur, qty]);
    assert Join(',', [a + "," + b, dur, qty]) == (a + "," + b) + [','] + tail;
    assert Join(',', [b, dur, qty]) == b + [','] + tail;
    assert (a + "," + b) + [','] + tail == a + [','] + Join(',', [b, dur, qty]);
    SplitAfterPart(',', a, Join(',', [b, dur, qty]));
    SplitJoin(',', [b, dur, qty]);
  }

  /**
   * The export has no quoting: an order id holding a comma comes back as two
   * cells, so the line has four cells and the time lands in the third column.
   */
  lemma CommaInOrderIdSplitsCell(a: string, b: string, e: OrderStats)
    requires PlainCell(a) && PlainCell(b) && e.orderId == a + "," + b
    ensures ReadCsv(StatsCsv([e])).Some?
    ensures var t := ReadCsv(StatsCsv([e])).value;
      && |t| == 2 && t[1] == [a, b, FormatDuration(e.totalTimeMs), IntToString(e.totalQty)]
  {
    var table := [StatsHeader] + StatsRecords([e]);
    HeadersArePlain();
    NumberTextIsPlain(e.totalQty);
    assert table[1] == [a + "," + b, FormatDuration(e.totalTimeMs), IntToString(e.totalQty)];
    assert NoLineBreaks(table) by {
      forall i, j | 0 <= i < |table| && 0 <= j < |table[i]| ensures '\n' !in table[i][j] {
        if i == 0 {
          assert table[i][j] in StatsHeader;
        } else if j == 0 {
          assert '\n' !in a + "," + b;
        }
      }
    }
    ReadsLines(table);
    CommaLine(a, b, FormatDuration(e.totalTimeMs), IntToString(e.totalQty));
  }

  // ---------------------------------------------------------------------
  // The detail export
  // ---------------------------------------------------------------------

  /** `[d.id, d.orderId, formatDate(d.startTime), formatDate(d.finishTime), d.quantity]`. */
  function DetailFields(display: string -> string, d: Row): seq<string> {
    [d.id, d.orderId, FormatDate(display, d.startTime), FormatDate(display, d.finishTime), d.quantity]
  }

  function DetailRecords(display: string -> string, data: seq<Row>): (records: seq<seq<string>>)
    ensures |records| == |data|
  {
    seq(|data|, i requires 0 <= i < |data| => DetailFields(display, data[i]))
  }

  /** The content of `details.csv`. */
  function DetailsCsv(display: string -> string, data: seq<Row>): string {
    Csv([DetailHeader] + DetailRecords(display, data))
  }

  /** The rows' cells are plain when every field the export writes is. */
  lemma DetailRecordsArePlain(display: string -> string, data: seq<Row>)
    requires forall d :: d in data ==> forall c :: c in DetailFields(display, d) ==> PlainCell(c)
    ensures PlainTable([DetailHeader] + DetailRecords(display, data))
  {
    var records := DetailRecords(display, data);
    HeadersArePlain();
    forall i, c | 0 <= i < |records| && c in records[i] ensures PlainCell(c) {
      assert data[i] in data;
    }
    PlainTableOf(DetailHeader, records);
  }

  /**
   * When no cell of the detail list holds a comma or a line break, `details.csv`
   * reads back as the header and one line of five cells per row, in order.
   */
  lemma DetailsCsvRoundTrip(display: string -> string, data: seq<Row>)
    requires forall d :: d in data ==> forall c :: c in DetailFields(display, d) ==> PlainCell(c)
    ensures ReadCsv(DetailsCsv(display, data)) == Some([DetailHeader] + DetailRecords(display, data))
  {
    DetailRecordsArePlain(display, data);
    CsvRoundTrip([DetailHeader] + DetailRecords(display, data));
  }
}
