/**
 * The order-query page (src/pages/QueryOrder.jsx): it fetches every order
 * event, keeps the rows the three filter boxes match, sorts them by order
 * id, and sums each order's finished runs into one statistics entry.
 *
 * Rows are records of strings; `""` stands for an absent field. Timestamp
 * parsing (`new Date(s).getTime()`) is the parameter `parse`, whose `None`
 * stands for NaN; the locale display of a timestamp is the parameter
 * `display`.
 */
module QueryOrder {
  import opened Wrappers
  import opened Text
  import opened Numbers
  import opened Ordering
  import opened Backend

  /** One order event as the backend lists it. */
  datatype Row = Row(id: string, orderId: string, startTime: string, finishTime: string, quantity: string)

  /** The three filter boxes. */
  datatype Filters = Filters(orderId: string, startTime: string, finishTime: string)

  /** The boxes as the page opens: all empty. */
  const NoFilters := Filters("", "", "")

  /** One statistics entry: finished runs of an order and their totals. */
  datatype OrderStats = OrderStats(orderId: string, count: int, totalTimeMs: int, totalQty: int)

  /** The message shown when a query fails, whatever the cause. */
  const QueryFailedMessage := "查詢失敗，請檢查網路或設定。"

  function RowKey(r: Row): string { r.orderId }

  function StatsKey(e: OrderStats): string { e.orderId }

  function CountOf(e: OrderStats): int { e.count }

  // ---------------------------------------------------------------------
  // Filter
  // ---------------------------------------------------------------------

  /** An empty box matches every order id; otherwise the id must contain the text. */
  predicate MatchId(f: Filters, r: Row) {
    f.orderId == "" || Contains(r.orderId, f.orderId)
  }

  /** An empty box demands a start time; otherwise the start time must contain the text. */
  predicate MatchStart(f: Filters, r: Row) {
    if f.startTime == "" then r.startTime != "" else Contains(r.startTime, f.startTime)
  }

  /** An empty box matches every row, finished or not; otherwise the finish time must contain the text. */
  predicate MatchFinish(f: Filters, r: Row) {
    f.finishTime == "" || Contains(r.finishTime, f.finishTime)
  }

  /** The filter callback: a row is kept when all three boxes match it. */
  predicate Keep(f: Filters, r: Row) {
    MatchId(f, r) && MatchStart(f, r) && MatchFinish(f, r)
  }

  /** `resultData.filter(...)`: the rows kept, in their original order. */
  function Filter(rows: seq<Row>, f: Filters): (kept: seq<Row>)
    ensures |kept| <= |rows|
  {
    if rows == [] then []
    else (if Keep(f, rows[0]) then [rows[0]] else []) + Filter(rows[1..], f)
  }

  /** The filter keeps a row exactly when the row was fetched and all three boxes match it. */
  lemma {:induction false} FilterMembers(rows: seq<Row>, f: Filters)
    ensures forall r :: r in Filter(rows, f) <==> r in rows && Keep(f, r)
    decreases |rows|
  {
    if rows != [] {
      FilterMembers(rows[1..], f);
      assert rows == [rows[0]] + rows[1..];
    }
  }

  /** Filtering keeps the order of the rows: filtering a concatenation concatenates. */
  lemma {:induction false} FilterAppend(a: seq<Row>, b: seq<Row>, f: Filters)
    ensures Filter(a + b, f) == Filter(a, f) + Filter(b, f)
    decreases |a|
  {
    if a != [] {
      FilterAppend(a[1..], b, f);
      assert (a + b)[0] == a[0];
      assert (a + b)[1..] == a[1..] + b;
    } else {
      assert a + b == b;
    }
  }

  /**
   * With all boxes empty the page keeps exactly the started rows, finished or
   * not: the asymmetry between the start and finish boxes.
   */
  lemma NoFiltersKeepStarted(r: Row)
    ensures Keep(NoFilters, r) <==> r.startTime != ""
  {
  }

  /** A non-empty order-id box is a case-sensitive substring test on the order id. */
  lemma IdBoxIsSubstringTest(f: Filters, r: Row)
    requires f.orderId != ""
    ensures MatchId(f, r) <==> exists i :: OccursAt(r.orderId, f.orderId, i)
  {
    ContainsIff(r.orderId, f.orderId);
  }

  /** A non-empty start box is a case-sensitive substring test on the start time. */
  lemma StartBoxIsSubstringTest(f: Filters, r: Row)
    requires f.startTime != ""
    ensures MatchStart(f, r) <==> exists i :: OccursAt(r.startTime, f.startTime, i)
  {
    ContainsIff(r.startTime, f.startTime);
  }

  /** A non-empty finish box is a case-sensitive substring test on the finish time. */
  lemma FinishBoxIsSubstringTest(f: Filters, r: Row)
    requires f.finishTime != ""
    ensures MatchFinish(f, r) <==> exists i :: OccursAt(r.finishTime, f.finishTime, i)
  {
    ContainsIff(r.finishTime, f.finishTime);
  }

  // ---------------------------------------------------------------------
  // Sort: the detail list
  // ---------------------------------------------------------------------

  /** `filtered.sort(...)` by order id: the detail list the page shows. */
  function Detail(rows: seq<Row>, f: Filters): seq<Row> {
    SortBy(Filter(rows, f), RowKey)
  }

  /**
   * The detail list holds exactly the rows the filter keeps, each as often as
   * the fetched list does, ascending by order id, and rows sharing an order id
   * keep the relative order they had in the fetched list.
   */
  lemma DetailIsSortedSelection(rows: seq<Row>, f: Filters)
    ensures multiset(Detail(rows, f)) == multiset(Filter(rows, f))
    ensures forall r :: r in Detail(rows, f) <==> r in rows && Keep(f, r)
    ensures SortedBy(Detail(rows, f), RowKey)
    ensures forall k :: KeyFilter(Detail(rows, f), RowKey, k) == KeyFilter(Filter(rows, f), RowKey, k)
  {
    SortByIsStableSort(Filter(rows, f), RowKey);
    SortByPermutes(Filter(rows, f), RowKey);
    SortByMembers(Filter(rows, f), RowKey);
    FilterMembers(rows, f);
  }

  // ---------------------------------------------------------------------
  // Durations
  // ---------------------------------------------------------------------

  /** `new Date(s).getTime()` is truthy: the text is present and parses to a non-zero time. */
  predicate Dated(parse: string -> Option<int>, s: string) {
    s != "" && parse(s).Some? && parse(s).value != 0
  }

  /**
   * `calculateDuration`: the milliseconds from `start` to `end`, not clamped,
   * or 0 when either is absent or does not give a usable time.
   */
  function CalculateDuration(parse: string -> Option<int>, start: string, end: string): (d: int)
    ensures Dated(parse, start) && Dated(parse, end) ==> d == parse(end).value - parse(start).value
    ensures !(Dated(parse, start) && Dated(parse, end)) ==> d == 0
  {
    if start == "" || end == "" then 0
    else
      var s := parse(start);
      var e := parse(end);
      if s.Some? && s.value != 0 && e.Some? && e.value != 0 then e.value - s.value else 0
  }

  /** Swapping the two times negates the duration; an end before the start counts negative. */
  lemma DurationAntisymmetric(parse: string -> Option<int>, a: string, b: string)
    ensures CalculateDuration(parse, a, b) == -CalculateDuration(parse, b, a)
  {
  }

  /** JavaScript's `%`: the remainder takes the sign of the dividend. */
  function TruncRem(a: int, d: int): (r: int)
    requires d > 0
    ensures a >= 0 ==> 0 <= r < d && r == a % d
    ensures a < 0 ==> -d < r <= 0
    ensures (a - r) % d == 0
  {
    RemainderDivides(if a >= 0 then a else -a, d);
    if a >= 0 then a % d else -((-a) % d)
  }

  /** Taking the remainder off, or adding it to the negation, leaves a multiple of `d`. */
  lemma RemainderDivides(n: int, d: int)
    requires n >= 0 && d > 0
    ensures (n - n % d) % d == 0 && (-n + n % d) % d == 0
  {
    var q := n / d;
    assert n == q * d + n % d;
    DivModUnique(n - n % d, d, q, 0);
    assert -n + n % d == (-q) * d;
    DivModUnique(-n + n % d, d, -q, 0);
  }

  /**
   * `formatDuration`: `"-"` for 0, otherwise `"{h}h {m}m {s}s"` computed with
   * floor division and JavaScript's `%`, so a negative total shows negative parts.
   */
  function FormatDuration(ms: int): (r: string)
    ensures ms == 0 <==> r == "-"
    ensures ',' !in r && '\n' !in r
  {
    if ms == 0 then "-"
    else
      var seconds := ms / 1000;
      var h := seconds / 3600;
      var m := TruncRem(seconds, 3600) / 60;
      var s := TruncRem(seconds, 60);
      var r := IntToString(h) + "h " + IntToString(m) + "m " + IntToString(s) + "s";
      assert r[|IntToString(h)|] == 'h';
      r
  }

  /** A positive multiple of a positive number is at least that number. */
  lemma {:induction false} MulAtLeast(k: int, d: int)
    requires k >= 1 && d > 0
    ensures k * d >= d
    decreases k
  {
    if k > 1 {
      MulAtLeast(k - 1, d);
      assert k * d == (k - 1) * d + d;
    }
  }

  /** Division with a positive divisor has one quotient and one remainder. */
  lemma DivModUnique(a: int, d: int, q: int, r: int)
    requires d > 0 && 0 <= r < d && a == q * d + r
    ensures a / d == q && a % d == r
  {
    var q0, r0 := a / d, a % d;
    assert a == q0 * d + r0;
    if q0 > q {
      assert (q0 - q) * d == q0 * d - q * d;
      MulAtLeast(q0 - q, d);
    } else if q0 < q {
      assert (q - q0) * d == q * d - q0 * d;
      MulAtLeast(q - q0, d);
    }
  }

  /**
   * A positive duration is written as its whole seconds split into hours,
   * minutes below 60 and seconds below 60: any such split names the text.
   */
  lemma FormatDurationPositive(ms: int, h: int, m: int, s: int)
    requires ms > 0
    requires 0 <= m < 60 && 0 <= s < 60 && h * 3600 + m * 60 + s == ms / 1000
    ensures FormatDuration(ms) == IntToString(h) + "h " + IntToString(m) + "m " + IntToString(s) + "s"
  {
    var seconds := ms / 1000;
    assert seconds >= 0;
    DivModUnique(seconds, 3600, h, m * 60 + s);
    DivModUnique(m * 60 + s, 60, m, s);
    DivModUnique(seconds, 60, h * 60 + m, s);
  }

  /** A negative duration is written with a leading minus sign (on the hours). */
  lemma FormatDurationNegative(ms: int)
    requires ms < 0
    ensures FormatDuration(ms)[0] == '-' && FormatDuration(ms) != "-"
  {
    var seconds := ms / 1000;
    assert seconds < 0;
    assert seconds / 3600 < 0;
  }

  /** `formatDate` on the query page: `""` for an absent timestamp, else its locale display. */
  function FormatDate(display: string -> string, s: string): (r: string)
    ensures s == "" ==> r == ""
    ensures s != "" ==> r == display(s)
  {
    if s == "" then "" else display(s)
  }

  // ---------------------------------------------------------------------
  // Statistics
  // ---------------------------------------------------------------------

  /** `item.finishTime && item.startTime`: only such rows enter the totals. */
  predicate Finished(r: Row) {
    r.finishTime != "" && r.startTime != ""
  }

  /** `parseInt(item.quantity) || 0`. */
  function Output(r: Row): int {
    ParseInt(r.quantity).GetOr(0)
  }

  /** The finished rows of `rows`, in order. */
  function FinishedRows(rows: seq<Row>): seq<Row> {
    if rows == [] then []
    else FinishedRows(rows[..|rows| - 1]) + (if Finished(rows[|rows| - 1]) then [rows[|rows| - 1]] else [])
  }

  /** The finished rows of order `id`, in order. */
  function FinishedOf(rows: seq<Row>, id: string): seq<Row> {
    if rows == [] then []
    else
      var last := rows[|rows| - 1];
      FinishedOf(rows[..|rows| - 1], id) + (if last.orderId == id && Finished(last) then [last] else [])
  }

  function SumTime(parse: string -> Option<int>, rows: seq<Row>): int {
    if rows == [] then 0
    else
      var last := rows[|rows| - 1];
      SumTime(parse, rows[..|rows| - 1]) + CalculateDuration(parse, last.startTime, last.finishTime)
  }

  function SumOutput(rows: seq<Row>): int {
    if rows == [] then 0 else SumOutput(rows[..|rows| - 1]) + Output(rows[|rows| - 1])
  }

  /** What the statistics promise for order `id`: its finished runs, their time and their output. */
  function EntryFor(parse: string -> Option<int>, rows: seq<Row>, id: string): OrderStats {
    var fin := FinishedOf(rows, id);
    OrderStats(id, |fin|, SumTime(parse, fin), SumOutput(fin))
  }

  /** The order ids of `rows`, each once, in order of first appearance. */
  function OrderIds(rows: seq<Row>): (ids: seq<string>)
    ensures forall i, j :: 0 <= i < j < |ids| ==> ids[i] != ids[j]
  {
    if rows == [] then []
    else
      var ids := OrderIds(rows[..|rows| - 1]);
      var last := rows[|rows| - 1];
      if last.orderId in ids then ids else ids + [last.orderId]
  }

  /** The ids listed are exactly the order ids the rows carry. */
  lemma {:induction false} OrderIdsMembers(rows: seq<Row>)
    ensures forall id :: id in OrderIds(rows) <==> exists r :: r in rows && r.orderId == id
  {
    if rows != [] {
      var init := rows[..|rows| - 1];
      OrderIdsMembers(init);
      assert forall r :: r in rows <==> r in init || r == rows[|rows| - 1];
    }
  }

  /** One entry per id of `ids`, in that order. */
  function EntriesOf(parse: string -> Option<int>, rows: seq<Row>, ids: seq<string>): (es: seq<OrderStats>)
    ensures |es| == |ids|
    ensures forall i :: 0 <= i < |ids| ==> es[i] == EntryFor(parse, rows, ids[i])
  {
    if ids == [] then []
    else EntriesOf(parse, rows, ids[..|ids| - 1]) + [EntryFor(parse, rows, ids[|ids| - 1])]
  }

  /** The statistics table: one entry per order id, sorted by order id. */
  function Stats(parse: string -> Option<int>, rows: seq<Row>): seq<OrderStats> {
    SortBy(EntriesOf(parse, rows, OrderIds(rows)), StatsKey)
  }

  /** Appending a finished row adds one run, its time and its output to its own order's entry. */
  lemma EntryForAppendOwn(parse: string -> Option<int>, rows: seq<Row>, r: Row)
    ensures EntryFor(parse, rows + [r], r.orderId) ==
              if Finished(r) then Tallied(parse, EntryFor(parse, rows, r.orderId), r)
              else EntryFor(parse, rows, r.orderId)
  {
    var rows' := rows + [r];
    assert rows'[..|rows'| - 1] == rows;
    assert rows'[|rows'| - 1] == r;
    var fin := FinishedOf(rows, r.orderId);
    if Finished(r) {
      assert FinishedOf(rows', r.orderId) == fin + [r];
      assert (fin + [r])[..|fin|] == fin;
    } else {
      assert FinishedOf(rows', r.orderId) == fin + [];
      assert fin + [] == fin;
    }
  }

  /** Appending a row leaves the entries of the other orders alone. */
  lemma EntryForAppendOther(parse: string -> Option<int>, rows: seq<Row>, r: Row, id: string)
    requires id != r.orderId
    ensures EntryFor(parse, rows + [r], id) == EntryFor(parse, rows, id)
  {
    var rows' := rows + [r];
    assert rows'[..|rows'| - 1] == rows;
    assert FinishedOf(rows', id) == FinishedOf(rows, id) + [];
    assert FinishedOf(rows, id) + [] == FinishedOf(rows, id);
  }

  /** The distinct order ids after appending a row. */
  lemma OrderIdsAppend(rows: seq<Row>, r: Row)
    ensures OrderIds(rows + [r]) ==
              if r.orderId in OrderIds(rows) then OrderIds(rows) else OrderIds(rows) + [r.orderId]
  {
    var rows' := rows + [r];
    assert rows'[..|rows'| - 1] == rows;
  }

  /** An order that has no row has no finished run. */
  lemma {:induction false} FinishedOfAbsent(rows: seq<Row>, id: string)
    requires forall r :: r in rows ==> r.orderId != id
    ensures FinishedOf(rows, id) == []
  {
    if rows != [] {
      FinishedOfAbsent(rows[..|rows| - 1], id);
    }
  }

  /** Entries of `ids` over `rows + [r]`: only the entry of `r`'s order can gain a run. */
  lemma {:induction false} CountsAppendRow(parse: string -> Option<int>, rows: seq<Row>, r: Row, ids: seq<string>)
    requires forall i, j :: 0 <= i < j < |ids| ==> ids[i] != ids[j]
    ensures SumBy(EntriesOf(parse, rows + [r], ids), CountOf)
         == SumBy(EntriesOf(parse, rows, ids), CountOf) + (if Finished(r) && r.orderId in ids then 1 else 0)
    decreases |ids|
  {
    if ids != [] {
      var init := ids[..|ids| - 1];
      var id := ids[|ids| - 1];
      CountsAppendRow(parse, rows, r, init);
      if id == r.orderId {
        EntryForAppendOwn(parse, rows, r);
      } else {
        EntryForAppendOther(parse, rows, r, id);
      }
      SumByAppend(EntriesOf(parse, rows + [r], init), EntryFor(parse, rows + [r], id), CountOf);
      SumByAppend(EntriesOf(parse, rows, init), EntryFor(parse, rows, id), CountOf);
      assert r.orderId in ids <==> r.orderId in init || r.orderId == id;
      assert id !in init;
    }
  }

  /** The sum of `f` over `s + [x]`. */
  lemma {:induction false} SumByAppend<T>(s: seq<T>, x: T, f: T -> int)
    ensures SumBy(s + [x], f) == SumBy(s, f) + f(x)
    decreases |s|
  {
    if s != [] {
      SumByAppend(s[1..], x, f);
      assert (s + [x])[1..] == s[1..] + [x];
    }
  }

  /** Over the ids of the rows, the entries' counts add up to the finished rows. */
  lemma {:induction false} EntryCountsCoverFinished(parse: string -> Option<int>, rows: seq<Row>)
    ensures SumBy(EntriesOf(parse, rows, OrderIds(rows)), CountOf) == |FinishedRows(rows)|
    decreases |rows|
  {
    if rows != [] {
      var init := rows[..|rows| - 1];
      var r := rows[|rows| - 1];
      var ids := OrderIds(init);
      assert rows == init + [r];
      EntryCountsCoverFinished(parse, init);
      CountsAppendRow(parse, init, r, ids);
      if r.orderId !in ids {
        OrderIdsMembers(init);
        FinishedOfAbsent(init, r.orderId);
        EntryForAppendOwn(parse, init, r);
        SumByAppend(EntriesOf(parse, rows, ids), EntryFor(parse, rows, r.orderId), CountOf);
        assert EntriesOf(parse, rows, ids + [r.orderId])[..|ids|] == EntriesOf(parse, rows, ids);
      }
    }
  }

  /** The entries of distinct ids: distinct keys, the promised totals, and exactly those ids. */
  lemma EntriesOfShape(parse: string -> Option<int>, rows: seq<Row>, ids: seq<string>)
    requires forall i, j :: 0 <= i < j < |ids| ==> ids[i] != ids[j]
    ensures DistinctKeys(EntriesOf(parse, rows, ids), StatsKey)
    ensures forall e :: e in EntriesOf(parse, rows, ids) ==> e == EntryFor(parse, rows, e.orderId)
    ensures (set e | e in EntriesOf(parse, rows, ids) :: e.orderId) == (set id | id in ids)
  {
    var es := EntriesOf(parse, rows, ids);
    forall e | e in es ensures e == EntryFor(parse, rows, e.orderId) && e.orderId in ids {
      var i :| 0 <= i < |es| && es[i] == e;
    }
    forall id | id in ids ensures id in (set e | e in es :: e.orderId) {
      var i :| 0 <= i < |ids| && ids[i] == id;
      assert es[i] in es;
    }
  }

  /** The statistics table is ascending by order id. */
  lemma StatsSorted(parse: string -> Option<int>, rows: seq<Row>)
    ensures SortedBy(Stats(parse, rows), StatsKey)
  {
    SortByIsStableSort(EntriesOf(parse, rows, OrderIds(rows)), StatsKey);
  }

  /** No two entries of the statistics table share an order id. */
  lemma StatsDistinct(parse: string -> Option<int>, rows: seq<Row>)
    ensures DistinctKeys(Stats(parse, rows), StatsKey)
  {
    var ids := OrderIds(rows);
    EntriesOfShape(parse, rows, ids);
    SortByDistinct(EntriesOf(parse, rows, ids), StatsKey);
  }

  /** Each entry of the statistics table holds its order's totals over finished rows. */
  lemma StatsEntryTotals(parse: string -> Option<int>, rows: seq<Row>)
    ensures forall e :: e in Stats(parse, rows) ==> e == EntryFor(parse, rows, e.orderId)
  {
    var ids := OrderIds(rows);
    EntriesOfShape(parse, rows, ids);
    SortByMembers(EntriesOf(parse, rows, ids), StatsKey);
  }

  /** The order ids listed are exactly the order ids of the rows. */
  lemma OrderIdsSet(rows: seq<Row>)
    ensures (set id | id in OrderIds(rows)) == (set r | r in rows :: r.orderId)
  {
    OrderIdsMembers(rows);
    var right := set r | r in rows :: r.orderId;
    forall id | id in right ensures id in OrderIds(rows) {
      var r :| r in rows && r.orderId == id;
    }
  }

  /** The order ids of some entries. */
  function IdSet(es: seq<OrderStats>): set<string> {
    set e | e in es :: e.orderId
  }

  /** Entries with the same elements have the same order ids. */
  lemma IdSetOfSameElements(a: seq<OrderStats>, b: seq<OrderStats>)
    requires forall e :: e in a <==> e in b
    ensures IdSet(a) == IdSet(b)
  {
  }

  /** The statistics table has an entry for exactly the order ids of the rows. */
  lemma StatsIds(parse: string -> Option<int>, rows: seq<Row>)
    ensures (set e | e in Stats(parse, rows) :: e.orderId) == (set r | r in rows :: r.orderId)
  {
    var ids := OrderIds(rows);
    var es := EntriesOf(parse, rows, ids);
    var st := Stats(parse, rows);
    EntriesOfShape(parse, rows, ids);
    SortByMembers(es, StatsKey);
    IdSetOfSameElements(st, es);
    OrderIdsSet(rows);
    assert IdSet(st) == IdSet(es) == (set id | id in ids);
  }

  /** The counts of the statistics table add up to the number of finished rows. */
  lemma StatsCountTotal(parse: string -> Option<int>, rows: seq<Row>)
    ensures SumBy(Stats(parse, rows), CountOf) == |FinishedRows(rows)|
  {
    SortBySum(EntriesOf(parse, rows, OrderIds(rows)), StatsKey, CountOf);
    EntryCountsCoverFinished(parse, rows);
  }

  /**
   * The statistics table holds exactly one entry per distinct order id of the
   * rows, strictly ascending by order id; each entry's count, total time and
   * total output are those of its order's finished rows (an order with no
   * finished row gets zeros), and the counts add up to the finished rows.
   */
  lemma StatsCharacterised(parse: string -> Option<int>, rows: seq<Row>)
    ensures var st := Stats(parse, rows);
      && SortedBy(st, StatsKey)
      && DistinctKeys(st, StatsKey)
      && (set e | e in st :: e.orderId) == (set r | r in rows :: r.orderId)
      && (forall e :: e in st ==> e == EntryFor(parse, rows, e.orderId))
      && SumBy(st, CountOf) == |FinishedRows(rows)|
  {
    StatsSorted(parse, rows);
    StatsDistinct(parse, rows);
    StatsEntryTotals(parse, rows);
    StatsIds(parse, rows);
    StatsCountTotal(parse, rows);
  }

  /** `agg[id]` after `if (!agg[id]) agg[id] = {orderId: id, count: 0, totalTimeMs: 0, totalQty: 0}`. */
  function Opened(agg: map<string, OrderStats>, id: string): OrderStats {
    if id in agg then agg[id] else OrderStats(id, 0, 0, 0)
  }

  /** `count++`, `totalTimeMs += calculateDuration(...)`, `totalQty += parseInt(quantity) || 0`. */
  function Tallied(parse: string -> Option<int>, e: OrderStats, r: Row): OrderStats {
    e.(count := e.count + 1,
       totalTimeMs := e.totalTimeMs + CalculateDuration(parse, r.startTime, r.finishTime),
       totalQty := e.totalQty + Output(r))
  }

  /** The entry of `r`'s order after the callback has seen `r`: tallied only when `r` is finished. */
  function Counted(parse: string -> Option<int>, e: OrderStats, r: Row): OrderStats {
    if Finished(r) then Tallied(parse, e, r) else e
  }

  /** The table `agg` as the `forEach` callback leaves it after `rows`, one row at a time. */
  function Aggregate(parse: string -> Option<int>, rows: seq<Row>): map<string, OrderStats> {
    if rows == [] then map[]
    else
      var agg := Aggregate(parse, rows[..|rows| - 1]);
      var r := rows[|rows| - 1];
      agg[r.orderId := Counted(parse, Opened(agg, r.orderId), r)]
  }

  /** The pass leaves one entry per order id of the rows, and no other. */
  lemma {:induction false} AggregateKeys(parse: string -> Option<int>, rows: seq<Row>)
    ensures forall id :: id in Aggregate(parse, rows) <==> id in OrderIds(rows)
    decreases |rows|
  {
    if rows != [] {
      var init := rows[..|rows| - 1];
      var r := rows[|rows| - 1];
      assert rows == init + [r];
      AggregateKeys(parse, init);
      OrderIdsAppend(init, r);
    }
  }

  /** Each entry the pass leaves is the promised one: the order's finished runs, time and output. */
  lemma {:induction false} AggregateEntries(parse: string -> Option<int>, rows: seq<Row>)
    ensures forall id :: id in Aggregate(parse, rows) ==> Aggregate(parse, rows)[id] == EntryFor(parse, rows, id)
    decreases |rows|
  {
    if rows != [] {
      var init := rows[..|rows| - 1];
      var r := rows[|rows| - 1];
      assert rows == init + [r];
      AggregateEntries(parse, init);
      AggregateKeys(parse, init);
      EntryForAppendOwn(parse, init, r);
      if r.orderId !in OrderIds(init) {
        OrderIdsMembers(init);
        FinishedOfAbsent(init, r.orderId);
      }
      var agg := Aggregate(parse, rows);
      forall id | id in agg && id != r.orderId ensures agg[id] == EntryFor(parse, rows, id) {
        EntryForAppendOther(parse, init, r, id);
      }
    }
  }

  /** The fold after one more row: that row's entry is opened if need be and counted. */
  lemma AggregateAppend(parse: string -> Option<int>, rows: seq<Row>, r: Row)
    ensures var agg := Aggregate(parse, rows);
      Aggregate(parse, rows + [r]) == agg[r.orderId := Counted(parse, Opened(agg, r.orderId), r)]
  {
    assert (rows + [r])[..|rows|] == rows;
  }

  /** The table of the own-key rows has no entry, and no listed id, that is an inherited member name. */
  lemma OwnKeysNotInherited(parse: string -> Option<int>, rows: seq<Row>, id: string)
    requires id in InheritedKeys
    ensures id !in Aggregate(parse, RowsWithOwnKeys(rows)) && id !in OrderIds(RowsWithOwnKeys(rows))
  {
    var own := RowsWithOwnKeys(rows);
    RowsWithOwnKeysMembers(rows);
    AggregateKeys(parse, own);
    OrderIdsMembers(own);
  }

  /** The own-key rows of one more row of the input. */
  lemma OwnKeysStep(rows: seq<Row>, i: int)
    requires 0 <= i < |rows|
    ensures RowsWithOwnKeys(rows[..i + 1]) ==
              RowsWithOwnKeys(rows[..i]) + (if rows[i].orderId in InheritedKeys then [] else [rows[i]])
  {
    PrefixStep(rows, i);
    RowsWithOwnKeysAppend(rows[..i], rows[i]);
  }

  /** A second write to a key replaces the first. */
  lemma UpdateTwice<K, V>(m: map<K, V>, k: K, a: V, b: V)
    ensures m[k := a][k := b] == m[k := b]
  {
  }

  /** Writing back a key's own value changes nothing. */
  lemma UpdateSame<K, V>(m: map<K, V>, k: K)
    requires k in m
    ensures m[k := m[k]] == m
  {
  }

  /** Extending a prefix by one element. */
  lemma PrefixStep<T>(s: seq<T>, i: int)
    requires 0 <= i < |s|
    ensures s[..i + 1] == s[..i] + [s[i]]
  {
  }

  /**
   * The `forEach` pass of `handleQuery`. `!agg[id]` is false when the table
   * already holds an entry for `id` and also when `id` names a member every
   * plain object inherits, so only the first row of an order whose id is not
   * such a name creates an entry; each finished row then adds its run, time and
   * output to that entry. The pass therefore builds the table of the rows with
   * own-property ids. `ids` lists the table's keys in insertion order.
   */
  method Aggregation(parse: string -> Option<int>, rows: seq<Row>) returns (ids: seq<string>, agg: map<string, OrderStats>)
    ensures ids == OrderIds(RowsWithOwnKeys(rows))
    ensures agg == Aggregate(parse, RowsWithOwnKeys(rows))
  {
    agg := map[];
    ids := [];
    ghost var own: seq<Row> := [];
    var i := 0;
    while i < |rows|
      invariant 0 <= i <= |rows|
      invariant own == RowsWithOwnKeys(rows[..i])
      invariant ids == OrderIds(own) && agg == Aggregate(parse, own)
    {
      var item := rows[i];
      OwnKeysStep(rows, i);
      if item.orderId in InheritedKeys {
        OwnKeysNotInherited(parse, rows[..i], item.orderId);
      } else {
        OrderIdsAppend(own, item);
        AggregateAppend(parse, own, item);
        AggregateKeys(parse, own);
        own := own + [item];
      }
      ghost var before := agg;
      // `agg[id]` is truthy for an entry of the table and for an inherited member
      if item.orderId !in agg && item.orderId !in InheritedKeys {
        agg := agg[item.orderId := OrderStats(item.orderId, 0, 0, 0)];
        ids := ids + [item.orderId];
      }
      // on an inherited member the increments change that member, not the table
      if Finished(item) && item.orderId in agg {
        UpdateTwice(before, item.orderId, agg[item.orderId], Tallied(parse, agg[item.orderId], item));
        agg := agg[item.orderId := Tallied(parse, agg[item.orderId], item)];
      } else if item.orderId in before {
        UpdateSame(before, item.orderId);
      }
      i := i + 1;
    }
    assert rows[..i] == rows;
  }

  /** `Object.values(agg)`: the entries in the order of `keys`. */
  method Values(keys: seq<string>, agg: map<string, OrderStats>) returns (values: seq<OrderStats>)
    requires forall k :: k in keys ==> k in agg
    ensures |values| == |keys|
    ensures forall j :: 0 <= j < |keys| ==> values[j] == agg[keys[j]]
  {
    values := [];
    var j := 0;
    while j < |keys|
      invariant 0 <= j <= |keys|
      invariant |values| == j
      invariant forall m :: 0 <= m < j ==> values[m] == agg[keys[m]]
    {
      values := values + [agg[keys[j]]];
      j := j + 1;
    }
  }

  /**
   * `handleQuery`'s statistics: the aggregation pass, the table's entries,
   * then those entries sorted by order id. Rows whose order id is an inherited
   * member name have no entry.
   */
  method BuildStats(parse: string -> Option<int>, rows: seq<Row>) returns (stats: seq<OrderStats>)
    ensures stats == StatsAsWritten(parse, rows)
  {
    var ids, agg := Aggregation(parse, rows);
    var own := RowsWithOwnKeys(rows);
    AggregateKeys(parse, own);
    AggregateEntries(parse, own);
    var values := Values(ids, agg);
    assert values == EntriesOf(parse, own, ids);
    stats := SortBy(values, StatsKey);
  }

  // ---------------------------------------------------------------------
  // Known deviation: the aggregation table is a plain object
  // ---------------------------------------------------------------------

  /** Property names every plain object inherits from `Object.prototype`; all of them are truthy. */
  const InheritedKeys: set<string> := {
    "constructor", "__proto__", "__defineGetter__", "__defineSetter__", "__lookupGetter__",
    "__lookupSetter__", "hasOwnProperty", "isPrototypeOf", "propertyIsEnumerable",
    "toString", "toLocaleString", "valueOf"
  }

  /**
   * The statistics as the page computes them: the table of the rows whose
   * order id is not an inherited member name, sorted by order id.
   */
  function StatsAsWritten(parse: string -> Option<int>, rows: seq<Row>): seq<OrderStats> {
    Stats(parse, RowsWithOwnKeys(rows))
  }

  /** The rows whose order id is not an inherited member name, in their order. */
  function RowsWithOwnKeys(rows: seq<Row>): seq<Row> {
    if rows == [] then []
    else
      var last := rows[|rows| - 1];
      RowsWithOwnKeys(rows[..|rows| - 1]) + (if last.orderId in InheritedKeys then [] else [last])
  }

  /** A row is kept exactly when it is one of the rows and its order id is not inherited. */
  lemma {:induction false} RowsWithOwnKeysMembers(rows: seq<Row>)
    ensures forall r :: r in RowsWithOwnKeys(rows) <==> r in rows && r.orderId !in InheritedKeys
  {
    if rows != [] {
      var init := rows[..|rows| - 1];
      assert rows == init + [rows[|rows| - 1]];
      RowsWithOwnKeysMembers(init);
    }
  }

  /** Appending a row extends the own-key rows by that row exactly when its id is not inherited. */
  lemma RowsWithOwnKeysAppend(rows: seq<Row>, r: Row)
    ensures RowsWithOwnKeys(rows + [r]) ==
              RowsWithOwnKeys(rows) + (if r.orderId in InheritedKeys then [] else [r])
  {
    assert (rows + [r])[..|rows|] == rows;
  }

  /** When no order id is an inherited member name, every row is kept. */
  lemma {:induction false} RowsWithOwnKeysAll(rows: seq<Row>)
    requires forall r :: r in rows ==> r.orderId !in InheritedKeys
    ensures RowsWithOwnKeys(rows) == rows
  {
    if rows != [] {
      var init := rows[..|rows| - 1];
      assert rows == init + [rows[|rows| - 1]];
      RowsWithOwnKeysAll(init);
    }
  }

  /** When no order id is an inherited member name, the page's statistics are the intended table. */
  lemma StatsAsWrittenAgrees(parse: string -> Option<int>, rows: seq<Row>)
    requires forall r :: r in rows ==> r.orderId !in InheritedKeys
    ensures StatsAsWritten(parse, rows) == Stats(parse, rows)
  {
    RowsWithOwnKeysAll(rows);
  }

  /** The one started row of order "constructor" that the finding below is about. */
  const ConstructorRows := [Row("1", "constructor", "2024-01-01T08:00", "", "")]

  lemma ConstructorRowIsListed()
    ensures Detail(ConstructorRows, NoFilters) == ConstructorRows
  {
    var rows := ConstructorRows;
    NoFiltersKeepStarted(rows[0]);
    assert rows[1..] == [];
    assert Filter(rows, NoFilters) == [rows[0]] + Filter([], NoFilters);
  }

  lemma ConstructorRowHasNoOwnEntry(parse: string -> Option<int>)
    ensures StatsAsWritten(parse, ConstructorRows) == []
  {
    assert RowsWithOwnKeys(ConstructorRows) == [];
    assert OrderIds([]) == [];
  }

  lemma ConstructorRowHasEntry(parse: string -> Option<int>)
    ensures Stats(parse, ConstructorRows) == [OrderStats("constructor", 0, 0, 0)]
  {
    var rows := ConstructorRows;
    var e := OrderStats("constructor", 0, 0, 0);
    assert rows[..0] == [];
    assert OrderIds(rows) == ["constructor"];
    assert FinishedOf(rows, "constructor") == [];
    assert EntryFor(parse, rows, "constructor") == e;
    assert EntriesOf(parse, rows, ["constructor"]) == [e];
    assert [e][1..] == [];
    assert SortBy([e], StatsKey) == Insert(e, [], StatsKey) == [e];
  }

  /**
   * A started row of order "constructor" is shown in the detail list but has no
   * statistics entry as the page computes them, while the intended table has one.
   */
  lemma InheritedOrderIdLosesEntry(parse: string -> Option<int>)
    ensures Detail(ConstructorRows, NoFilters) == ConstructorRows
    ensures StatsAsWritten(parse, ConstructorRows) == []
    ensures Stats(parse, ConstructorRows) == [OrderStats("constructor", 0, 0, 0)]
  {
    ConstructorRowIsListed();
    ConstructorRowHasNoOwnEntry(parse);
    ConstructorRowHasEntry(parse);
  }

  // ---------------------------------------------------------------------
  // The page state
  // ---------------------------------------------------------------------

  /** The query page's state: filter boxes, the two result tables, and the UI flags. */
  class QueryOrderView {
    var filters: Filters
    var data: seq<Row>
    var stats: seq<OrderStats>
    var loading: bool
    var showScanner: bool
    var status: Status

    constructor ()
      ensures filters == NoFilters && data == [] && stats == []
      ensures !loading && !showScanner && status == Cleared
    {
      filters := NoFilters;
      data := [];
      stats := [];
      loading := false;
      showScanner := false;
      status := Cleared;
    }

    /**
     * `handleQuery`, given what `api.queryOrders()` produced. On a success
     * envelope whose data is a list, both tables are replaced: the detail list
     * by the filtered, sorted rows and the statistics by the totals over that
     * list, which leave out orders whose id is an inherited member name and
     * are the intended table when there is none. Any other outcome leaves both tables as they were and shows the
     * generic failure message. The loading flag ends false either way.
     */
    method HandleQuery(parse: string -> Option<int>, reply: Reply<Option<seq<Row>>>)
      modifies this
      ensures filters == old(filters) && showScanner == old(showScanner) && !loading
      ensures reply.Succeeded() && reply.data.Some? ==>
                data == Detail(reply.data.value, old(filters))
                && stats == StatsAsWritten(parse, data)
                && status == Cleared
      ensures reply.Succeeded() && reply.data.Some? && (forall r :: r in data ==> r.orderId !in InheritedKeys) ==>
                stats == Stats(parse, data)
      ensures !(reply.Succeeded() && reply.data.Some?) ==>
                data == old(data) && stats == old(stats)
                && status == Status(ErrorStatus, QueryFailedMessage)
    {
      loading := true;
      status := Cleared;
      if reply.Succeeded() && reply.data.Some? {
        var filtered := Filter(reply.data.value, filters);
        filtered := SortBy(filtered, RowKey);
        data := filtered;
        stats := BuildStats(parse, filtered);
        if forall r :: r in data ==> r.orderId !in InheritedKeys {
          StatsAsWrittenAgrees(parse, data);
        }
      } else {
        status := Status(ErrorStatus, QueryFailedMessage);
      }
      loading := false;
    }

    /** A scanned code replaces the order-id box and closes the scanner. */
    method HandleScan(decodedText: string)
      modifies this
      ensures filters == old(filters).(orderId := decodedText) && !showScanner
      ensures data == old(data) && stats == old(stats) && loading == old(loading) && status == old(status)
    {
      filters := filters.(orderId := decodedText);
      showScanner := false;
    }
  }
}
