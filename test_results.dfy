/** Results of HTTP tests as the notifier reports them: the per-test record, the order in which
    cached results are listed, and the layout of the Markdown table built from them. */
module TestResults {
  import opened Wrappers
  import opened Sequences

  /** The exception an HTTP test raised, with the message of its inner exception if any. */
  datatype HttpError = HttpError(message: string, innerMessage: Option<string>)

  /** An HTTP status code with its enumeration name, as in "503:ServiceUnavailable". */
  datatype StatusCode = StatusCode(code: int, name: string)

  /** One HTTP test. `testDateTime` is the test time in ticks; `timeText` and `workingSetText`
      stand for the culture-formatted time of day and the working set in megabytes. */
  datatype TestInfo = TestInfo(
    testDateTime: int,
    timeText: string,
    httpException: Option<HttpError>,
    httpStatusCode: Option<StatusCode>,
    testTimeInMs: int,
    failureNumber: int,
    maxFailureCount: int,
    workingSetText: string,
    handleCount: int,
    threadCount: int,
    tcpConnections: Option<int>)

  /** Later tests first: each test is not earlier than the one after it. */
  predicate Descending(s: seq<TestInfo>) {
    forall i :: 0 < i < |s| ==> s[i - 1].testDateTime >= s[i].testDateTime
  }

  /** Insert `x` before the first element that is not later than it, so that among tests of
      equal time `x` keeps its place in front. */
  function Insert(x: TestInfo, s: seq<TestInfo>): (r: seq<TestInfo>)
    ensures multiset(r) == multiset(s) + multiset{x}
    ensures |r| == |s| + 1 && (r[0] == x || (|s| > 0 && r[0] == s[0]))
    decreases |s|
  {
    if s == [] then [x]
    else if s[0].testDateTime <= x.testDateTime then [x] + s
    else
      assert s == [s[0]] + s[1..];
      [s[0]] + Insert(x, s[1..])
  }

  /** Inserting into a descending sequence keeps it descending. */
  lemma {:induction false} InsertKeepsDescending(x: TestInfo, s: seq<TestInfo>)
    requires Descending(s)
    ensures Descending(Insert(x, s))
    decreases |s|
  {
    if s != [] && s[0].testDateTime > x.testDateTime {
      var t := Insert(x, s[1..]);
      InsertKeepsDescending(x, s[1..]);
      assert Insert(x, s) == [s[0]] + t;
      assert |s| > 1 ==> s[0].testDateTime >= s[1].testDateTime;
      assert s[0].testDateTime >= t[0].testDateTime;
    }
  }

  /** The tests ordered by descending test time; tests of equal time keep their order. */
  function OrderByDescending(s: seq<TestInfo>): (r: seq<TestInfo>)
    ensures Descending(r) && multiset(r) == multiset(s)
    decreases |s|
  {
    if s == [] then []
    else
      assert s == [s[0]] + s[1..];
      InsertKeepsDescending(s[0], OrderByDescending(s[1..]));
      Insert(s[0], OrderByDescending(s[1..]))
  }

  /** The tests of `s` taken at time `time`, in order. */
  function TakenAt(s: seq<TestInfo>, time: int): (r: seq<TestInfo>)
    decreases |s|
  {
    if s == [] then []
    else (if s[0].testDateTime == time then [s[0]] else []) + TakenAt(s[1..], time)
  }

  lemma TakenAtCons(x: TestInfo, s: seq<TestInfo>, time: int)
    ensures TakenAt([x] + s, time) == (if x.testDateTime == time then [x] else []) + TakenAt(s, time)
  {
    assert ([x] + s)[0] == x;
    assert ([x] + s)[1..] == s;
  }

  lemma {:induction false} InsertTakenAt(x: TestInfo, s: seq<TestInfo>, time: int)
    ensures TakenAt(Insert(x, s), time)
      == (if x.testDateTime == time then [x] else []) + TakenAt(s, time)
    decreases |s|
  {
    if s == [] {
      TakenAtCons(x, [], time);
    } else if s[0].testDateTime <= x.testDateTime {
      TakenAtCons(x, s, time);
    } else {
      var mine: seq<TestInfo> := if x.testDateTime == time then [x] else [];
      var head: seq<TestInfo> := if s[0].testDateTime == time then [s[0]] else [];
      var rest := TakenAt(s[1..], time);
      assert Insert(x, s) == [s[0]] + Insert(x, s[1..]);
      TakenAtCons(s[0], Insert(x, s[1..]), time);
      InsertTakenAt(x, s[1..], time);
      assert s == [s[0]] + s[1..];
      TakenAtCons(s[0], s[1..], time);
      // TakenAt(Insert(x, s)) == head + (mine + rest), TakenAt(s) == head + rest
      if head == [] {
        EmptyAppend(mine + rest);
        EmptyAppend(rest);
      } else {
        assert mine == [];
        EmptyAppend(rest);
        EmptyAppend(head + rest);
      }
    }
  }

  /** The ordering is stable: tests of any one time appear in the order they were cached. */
  lemma {:induction false} OrderIsStable(s: seq<TestInfo>, time: int)
    ensures TakenAt(OrderByDescending(s), time) == TakenAt(s, time)
    decreases |s|
  {
    if s != [] {
      OrderIsStable(s[1..], time);
      InsertTakenAt(s[0], OrderByDescending(s[1..]), time);
    }
  }

  /** The entries of the cache that are not null, in order. */
  function Present(cache: seq<Option<TestInfo>>): (r: seq<TestInfo>)
    ensures |r| <= |cache|
    decreases |cache|
  {
    if cache == [] then []
    else
      assert cache == [cache[0]] + cache[1..];
      (if cache[0].Some? then [cache[0].value] else []) + Present(cache[1..])
  }

  /** A test is present exactly when the cache holds it as a non-null entry. */
  lemma {:induction false} PresentEntries(cache: seq<Option<TestInfo>>)
    ensures forall y :: y in Present(cache) <==> Some(y) in cache
    decreases |cache|
  {
    if cache != [] {
      PresentEntries(cache[1..]);
      var head: seq<TestInfo> := if cache[0].Some? then [cache[0].value] else [];
      assert Present(cache) == head + Present(cache[1..]);
      assert cache == [cache[0]] + cache[1..];
    }
  }

  /** The cached tests listed in the table: non-null entries, later tests first. */
  function OrderedCache(cache: seq<Option<TestInfo>>): (r: seq<TestInfo>) {
    OrderByDescending(Present(cache))
  }

  /** The cached tests in the order the source enumerates them. The ordering key dereferences
      each entry before the loop's own null check is reached, so a null entry makes the
      enumeration throw. */
  function OrderedCacheAsWritten(cache: seq<Option<TestInfo>>): (r: Result<seq<TestInfo>>) {
    if None in cache then Failure("NullReferenceException")
    else Success(OrderByDescending(Present(cache)))
  }

  /** The table lists every non-null cached test exactly once, later tests first, and skips
      the null entries; where the source's enumeration does not throw it yields the same rows. */
  lemma OrderedCacheRows(cache: seq<Option<TestInfo>>)
    ensures Descending(OrderedCache(cache))
    ensures multiset(OrderedCache(cache)) == multiset(Present(cache))
    ensures forall y :: y in OrderedCache(cache) <==> Some(y) in cache
    ensures OrderedCacheAsWritten(cache).Success? <==> None !in cache
    ensures OrderedCacheAsWritten(cache).Success? ==>
      OrderedCacheAsWritten(cache).value == OrderedCache(cache)
  {
    var r := OrderedCache(cache);
    PresentEntries(cache);
    forall y
      ensures y in r <==> Some(y) in cache
    {
      calc {
        y in r;
        multiset(r)[y] > 0;
        multiset(Present(cache))[y] > 0;
        y in Present(cache);
      }
    }
  }

  /** A cache holding a null entry: the source throws where the evident intent is to skip it. */
  lemma NullEntryThrows(info: TestInfo)
    ensures OrderedCacheAsWritten([Some(info), None]).Failure?
    ensures OrderedCache([Some(info), None]) == [info]
  {
    assert Present([Some(info), None]) == [info] by {
      assert [Some(info), None][1..] == [None];
      assert Present([None]) == [] + Present([None][1..]);
    }
    assert OrderByDescending([info]) == Insert(info, OrderByDescending([info][1..]));
  }

  // ---- text ----------------------------------------------------------------------------

  /** The host runs on Windows, where a line ends with a carriage return and a line feed. */
  const NewLine: string := "\r\n"

  function Line(s: string): (r: string) {
    s + NewLine
  }

  function Digit(d: nat): (r: char)
    requires d < 10
  {
    "0123456789"[d]
  }

  function NatToString(n: nat): (r: string)
    decreases n
  {
    if n < 10 then [Digit(n)] else NatToString(n / 10) + [Digit(n % 10)]
  }

  function IntToString(i: int): (r: string) {
    if i < 0 then "-" + NatToString(-i) else NatToString(i)
  }

  /** The first line: the prefix, or the default title when there is none. */
  function HeaderLine(prefix: string): (r: string) {
    Line(if prefix == "" then "HTTP Test Results:" else prefix)
  }

  const SpoilerOpen: string := Line("```spoiler")

  const SpoilerClose: string := Line("```")

  /** A line of the Markdown table inside a quote: "> ", the cells, the closing bar. */
  function TableLine(cells: string): (r: string) {
    Line("> " + cells + "|")
  }

  const ColumnHeader: string :=
    TableLine("| Time | HTTP| ms| Fail| Mem (MB)| Handles| Threads| #Conn")

  const ColumnRule: string :=
    TableLine("|---|---|---|---|---|---|---|---")

  /** The HTTP cell: the (inner) exception message, else the status code, else empty. */
  function HttpCell(info: TestInfo): (r: string) {
    if info.httpException.Some? then
      var e := info.httpException.value;
      "|" + (if e.innerMessage.Some? then e.innerMessage.value else e.message) + " "
    else if info.httpStatusCode.Some? then
      "| " + IntToString(info.httpStatusCode.value.code) + ":" + info.httpStatusCode.value.name + " "
    else "| "
  }

  /** The cells of one test's row, each opened by a bar. */
  function RowCells(info: TestInfo): (r: string) {
    "| " + info.timeText + " "
    + HttpCell(info)
    + "| " + IntToString(info.testTimeInMs) + " "
    + "| " + IntToString(info.failureNumber) + "/" + IntToString(info.maxFailureCount) + " "
    + "| " + info.workingSetText + " "
    + "| " + IntToString(info.handleCount) + " "
    + "| " + IntToString(info.threadCount) + " "
    + (if info.tcpConnections.None? then "| " else "| " + IntToString(info.tcpConnections.value))
  }

  /** One table row for one test. */
  function Row(info: TestInfo): (r: string) {
    TableLine(RowCells(info))
  }

  /** The rows of `infos`, in order. */
  function Rows(infos: seq<TestInfo>): (r: string)
    decreases |infos|
  {
    if infos == [] then "" else Rows(infos[..|infos| - 1]) + Row(infos[|infos| - 1])
  }

  /** Extending a prefix of the tests by one appends that test's row. */
  lemma RowsOfLongerPrefix(infos: seq<TestInfo>, i: nat)
    requires i < |infos|
    ensures Rows(infos[..i + 1]) == Rows(infos[..i]) + Row(infos[i])
  {
    assert infos[..i + 1][..i] == infos[..i];
  }

  /** The Markdown table: column header, rule, the current test's row if any, then the rows
      of `rows`. */
  function Table(info: Option<TestInfo>, rows: seq<TestInfo>): (r: string) {
    ColumnHeader + ColumnRule + (if info.Some? then Row(info.value) else "") + Rows(rows)
  }

  /** The table inside a spoiler block when `fenced`. */
  function Fenced(fenced: bool, table: string): (r: string) {
    if fenced then SpoilerOpen + table + SpoilerClose else table
  }

  /** The message for the current test `info` and the cached tests: the header line, then the
      table, wrapped in a spoiler block when tests are cached; the table has the current test's
      row followed by one row per cached test. */
  function TableText(prefix: string, info: Option<TestInfo>, cache: seq<Option<TestInfo>>): (r: string) {
    HeaderLine(prefix) + Fenced(|cache| > 0, Table(info, OrderedCache(cache)))
  }

  /** True when `s` ends with `suffix`. */
  predicate EndsWith(s: string, suffix: string) {
    |suffix| <= |s| && s[|s| - |suffix|..] == suffix
  }

  /** Every table line starts with the quote mark and ends in "|" and a line break. */
  lemma TableLineShape(cells: string)
    ensures |TableLine(cells)| > 0 && TableLine(cells)[0] == '>'
    ensures EndsWith(TableLine(cells), Bar)
  {
    assert TableLine(cells) == ("> " + cells) + Bar;
  }

  /** Every row ends in "|" and a line break. */
  lemma RowEndsWithBar(info: TestInfo)
    ensures EndsWith(Row(info), Bar)
  {
    TableLineShape(RowCells(info));
  }

  lemma EndsWithConcat(a: string, b: string, suffix: string)
    requires EndsWith(b, suffix)
    ensures EndsWith(a + b, suffix)
  {
    assert (a + b)[|a + b| - |suffix|..] == b[|b| - |suffix|..];
  }

  const Bar: string := "|" + NewLine

  /** A non-empty list of rows ends with a table line. */
  lemma RowsEndWithBar(rows: seq<TestInfo>)
    requires rows != []
    ensures EndsWith(Rows(rows), Bar)
  {
    RowEndsWithBar(rows[|rows| - 1]);
    EndsWithConcat(Rows(rows[..|rows| - 1]), Row(rows[|rows| - 1]), Bar);
  }

  /** Appending rows to text that ends with a table line gives text that ends with one. */
  lemma RowsKeepBarEnding(head: string, rows: seq<TestInfo>)
    requires EndsWith(head, Bar)
    ensures EndsWith(head + Rows(rows), Bar)
  {
    if rows == [] {
      assert head + Rows(rows) == head;
    } else {
      RowsEndWithBar(rows);
      EndsWithConcat(head, Rows(rows), Bar);
    }
  }

  /** The table ends with a table line. */
  lemma TableEndsWithBar(info: Option<TestInfo>, rows: seq<TestInfo>)
    ensures EndsWith(Table(info, rows), Bar)
  {
    var columns := ColumnHeader + ColumnRule;
    TableLineShape("|---|---|---|---|---|---|---|---");
    EndsWithConcat(ColumnHeader, ColumnRule, Bar);
    var head := columns + (if info.Some? then Row(info.value) else "");
    if info.Some? {
      RowEndsWithBar(info.value);
      EndsWithConcat(columns, Row(info.value), Bar);
    } else {
      assert head == columns;
    }
    RowsKeepBarEnding(head, rows);
  }

  /** True when `s` starts with `p`. */
  predicate StartsWith(s: string, p: string) {
    |p| <= |s| && s[..|p|] == p
  }

  lemma StartsWithConcat(a: string, b: string)
    ensures StartsWith(a + b, a)
  {
    assert (a + b)[..|a|] == a;
  }

  lemma TableStartsWithQuote(info: Option<TestInfo>, rows: seq<TestInfo>)
    ensures |Table(info, rows)| > 0 && Table(info, rows)[0] == '>'
  {
    var columns := ColumnHeader + ColumnRule;
    var head := columns + (if info.Some? then Row(info.value) else "");
    TableLineShape("| Time | HTTP| ms| Fail| Mem (MB)| Handles| Threads| #Conn");
    FirstOfConcat(ColumnHeader, ColumnRule);
    FirstOfConcat(columns, if info.Some? then Row(info.value) else "");
    FirstOfConcat(head, Rows(rows));
  }

  /** Text that continues with `c` right after `header` does not start with `header + p` when
      `p` begins with another character. */
  lemma NotStartsWith(header: string, rest: string, p: string)
    requires |rest| > 0 && |p| > 0 && rest[0] != p[0]
    ensures !StartsWith(header + rest, header + p)
  {
    var text := header + rest;
    if |header + p| <= |text| {
      assert text[..|header + p|][|header|] == rest[0];
      assert (header + p)[|header|] == p[0];
    }
  }

  /** The header line, then the spoiler fence exactly when `fenced`. */
  lemma FenceOpening(header: string, fenced: bool, table: string)
    requires |table| > 0 && table[0] == '>'
    ensures StartsWith(header + Fenced(fenced, table), header)
    ensures StartsWith(header + Fenced(fenced, table), header + SpoilerOpen) <==> fenced
  {
    StartsWithConcat(header, Fenced(fenced, table));
    if fenced {
      assert header + Fenced(fenced, table) == (header + SpoilerOpen) + (table + SpoilerClose);
      StartsWithConcat(header + SpoilerOpen, table + SpoilerClose);
    } else {
      assert SpoilerOpen[0] == '`';
      NotStartsWith(header, table, SpoilerOpen);
    }
  }

  /** Text that ends with a table line does not end with the closing fence. */
  lemma BarIsNotFence(text: string)
    requires EndsWith(text, Bar)
    ensures !EndsWith(text, SpoilerClose)
  {
    assert text[|text| - 3] == '|';
    assert SpoilerClose[|SpoilerClose| - 3] == '`';
  }

  /** The closing fence ends the text exactly when `fenced`. */
  lemma FenceClosing(prefix: string, fenced: bool, info: Option<TestInfo>, rows: seq<TestInfo>)
    ensures EndsWith(HeaderLine(prefix) + Fenced(fenced, Table(info, rows)), SpoilerClose) <==> fenced
  {
    var header := HeaderLine(prefix);
    var table := Table(info, rows);
    var text := header + Fenced(fenced, table);
    if fenced {
      AppendAssoc(SpoilerOpen, table, SpoilerClose);
      AppendAssoc(header, SpoilerOpen + table, SpoilerClose);
      AppendAssoc(header, SpoilerOpen, table);
      EndsWithConcat(header + SpoilerOpen + table, SpoilerClose, SpoilerClose);
    } else {
      assert text == header + table;
      TableEndsWithBar(info, rows);
      EndsWithConcat(header, table, Bar);
      BarIsNotFence(text);
    }
  }

  /** With no prefix the text starts with the default title. The spoiler fence opens right after
      the header line, and closes the text, exactly when tests are cached. */
  lemma SpoilerWrapsTableIffCached(prefix: string, info: Option<TestInfo>, cache: seq<Option<TestInfo>>)
    ensures StartsWith(TableText(prefix, info, cache), HeaderLine(prefix))
    ensures prefix == "" ==> StartsWith(TableText(prefix, info, cache), Line("HTTP Test Results:"))
    ensures StartsWith(TableText(prefix, info, cache), HeaderLine(prefix) + SpoilerOpen) <==> |cache| > 0
    ensures EndsWith(TableText(prefix, info, cache), SpoilerClose) <==> |cache| > 0
  {
    TableStartsWithQuote(info, OrderedCache(cache));
    FenceOpening(HeaderLine(prefix), |cache| > 0, Table(info, OrderedCache(cache)));
    FenceClosing(prefix, |cache| > 0, info, OrderedCache(cache));
  }
}
