/** CSV reading and writing: `toRecords` and `splitLine` of
    apps/api/src/domain/imports/csv-parse.ts, `cell` and `transactionsToCsv` of
    apps/api/src/domain/exports/transactions-csv.ts, `csvEscape` and the row join of
    apps/api/src/domain/statement-import/analyze.ts. */
module Csv {

  const QUOTE: char := '"'
  const CR: char := '\r'
  const LF: char := '\n'

  type Grid = seq<seq<string>>

  // ---------------------------------------------------------------- the two passes

  predicate IsBreak(c: char) {
    c == LF || c == CR
  }

  /** A doubled quote inside quotes. */
  predicate Escaped(t: string, quoted: bool) {
    quoted && |t| > 1 && t[0] == QUOTE && t[1] == QUOTE
  }

  /** The records of `t`, `current` having been read of the first one. */
  function RecordsFrom(t: string, current: string, quoted: bool): seq<string>
    decreases |t|
  {
    if t == [] then (if current == [] then [] else [current])
    else if Escaped(t, quoted) then RecordsFrom(t[2..], current + [QUOTE, QUOTE], quoted)
    else if t[0] == QUOTE then RecordsFrom(t[1..], current + [t[0]], !quoted)
    else if IsBreak(t[0]) && !quoted then
      [current] + RecordsFrom(AfterBreak(t), [], quoted)
    else RecordsFrom(t[1..], current + [t[0]], quoted)
  }

  /** What follows a record break: LF, CR or CR LF. */
  function AfterBreak(t: string): (r: string)
    requires t != []
    ensures |r| < |t|
  {
    if t[0] == CR && |t| > 1 && t[1] == LF then t[2..] else t[1..]
  }

  /** The fields of `t`, `fields` being complete and `current` begun. */
  function FieldsFrom(t: string, delimiter: char, fields: seq<string>, current: string, quoted: bool): seq<string>
    decreases |t|
  {
    if t == [] then fields + [current]
    else if Escaped(t, quoted) then FieldsFrom(t[2..], delimiter, fields, current + [QUOTE], quoted)
    else if t[0] == QUOTE then FieldsFrom(t[1..], delimiter, fields, current, !quoted)
    else if t[0] == delimiter && !quoted then FieldsFrom(t[1..], delimiter, fields + [current], [], quoted)
    else FieldsFrom(t[1..], delimiter, fields, current + [t[0]], quoted)
  }

  function Records(text: string): seq<string> {
    RecordsFrom(text, [], false)
  }

  function Fields(line: string, delimiter: char): seq<string> {
    FieldsFrom(line, delimiter, [], [], false)
  }

  function FieldsOfAll(records: seq<string>, delimiter: char): Grid {
    if records == [] then [] else [Fields(records[0], delimiter)] + FieldsOfAll(records[1..], delimiter)
  }

  method ToRecords(text: string) returns (records: seq<string>)
    ensures records == Records(text)
  {
    records := [];
    var current: string, inQuotes := [], false;
    var i := 0;
    while i < |text|
      invariant i <= |text|
      invariant Records(text) == records + RecordsFrom(text[i..], current, inQuotes)
    {
      ghost var rest := text[i..];
      var c := text[i];
      if c == QUOTE {
        if inQuotes && i + 1 < |text| && text[i + 1] == QUOTE {
          current := current + [QUOTE, QUOTE];
          i := i + 2;
          assert text[i..] == rest[2..];
          continue;
        }
        inQuotes := !inQuotes;
        current := current + [c];
        i := i + 1;
        assert text[i..] == rest[1..];
        continue;
      }
      if (c == LF || c == CR) && !inQuotes {
        if c == CR && i + 1 < |text| && text[i + 1] == LF { i := i + 1; }
        i := i + 1;
        assert text[i..] == AfterBreak(rest);
        records := records + [current];
        current := [];
        continue;
      }
      current := current + [c];
      i := i + 1;
      assert text[i..] == rest[1..];
    }
    assert text[i..] == [];
    if |current| > 0 { records := records + [current]; }
  }

  method SplitLine(line: string, delimiter: char) returns (fields: seq<string>)
    ensures fields == Fields(line, delimiter)
  {
    fields := [];
    var current: string, inQuotes := [], false;
    var i := 0;
    while i < |line|
      invariant i <= |line|
      invariant Fields(line, delimiter) == FieldsFrom(line[i..], delimiter, fields, current, inQuotes)
    {
      ghost var rest := line[i..];
      var c := line[i];
      if c == QUOTE {
        if inQuotes && i + 1 < |line| && line[i + 1] == QUOTE {
          current := current + [QUOTE];
          i := i + 2;
          assert line[i..] == rest[2..];
        } else {
          inQuotes := !inQuotes;
          i := i + 1;
          assert line[i..] == rest[1..];
        }
        continue;
      }
      i := i + 1;
      assert line[i..] == rest[1..];
      if c == delimiter && !inQuotes {
        fields := fields + [current];
        current := [];
        continue;
      }
      current := current + [c];
    }
    assert line[i..] == [];
    fields := fields + [current];
  }

  // ---------------------------------------------------------------- the single pass

  /** One quote automaton over the whole text.  `row` and `current` are what has been read of
      the record; `started` says that the record has at least one character. */
  function GridFrom(t: string, delimiter: char, row: seq<string>, current: string, quoted: bool, started: bool): Grid
    decreases |t|
  {
    if t == [] then (if started then [row + [current]] else [])
    else if Escaped(t, quoted) then GridFrom(t[2..], delimiter, row, current + [QUOTE], quoted, true)
    else if t[0] == QUOTE then GridFrom(t[1..], delimiter, row, current, !quoted, true)
    else if IsBreak(t[0]) && !quoted then
      [row + [current]] + GridFrom(AfterBreak(t), delimiter, [], [], quoted, false)
    else if t[0] == delimiter && !quoted then GridFrom(t[1..], delimiter, row + [current], [], quoted, true)
    else GridFrom(t[1..], delimiter, row, current + [t[0]], quoted, true)
  }

  function ReadGrid(text: string, delimiter: char): Grid {
    GridFrom(text, delimiter, [], [], false, false)
  }

  /** The first record of `t`, exactly as it stands there, and what follows its break. */
  datatype Head = Head(record: string, rest: string, broken: bool)

  function Extend(prefix: string, h: Head): Head {
    Head(prefix + h.record, h.rest, h.broken)
  }

  function FirstRecord(t: string, quoted: bool): (h: Head)
    ensures |h.rest| <= |t| && (h.broken ==> |h.rest| < |t|) && (!h.broken ==> h.rest == [])
    decreases |t|
  {
    if t == [] then Head([], [], false)
    else if Escaped(t, quoted) then Extend(t[..2], FirstRecord(t[2..], quoted))
    else if t[0] == QUOTE then Extend(t[..1], FirstRecord(t[1..], !quoted))
    else if IsBreak(t[0]) && !quoted then Head([], AfterBreak(t), true)
    else Extend(t[..1], FirstRecord(t[1..], quoted))
  }

  predicate Turned(c: char, quoted: bool) {
    (c == QUOTE) != quoted
  }

  /** Whether a quoted field is open behind `s`: every quote, doubled or not, turns that around. */
  predicate QuotedAfter(s: string, quoted: bool) {
    if s == [] then quoted else QuotedAfter(s[1..], Turned(s[0], quoted))
  }

  /** Every line break in `s` stands inside quotes. */
  predicate Unbroken(s: string, quoted: bool) {
    s == [] || (!(IsBreak(s[0]) && !quoted) && Unbroken(s[1..], Turned(s[0], quoted)))
  }

  /** `t` starts with this record, and then breaks outside quotes or ends. */
  ghost predicate StartsWith(t: string, record: string, quoted: bool) {
    && record <= t && Unbroken(record, quoted)
    && (|record| < |t| ==> IsBreak(t[|record|]) && !QuotedAfter(record, quoted))
  }

  /** What follows the record and its break. */
  function Behind(t: string, record: string): string {
    if |record| < |t| then AfterBreak(t[|record|..]) else []
  }

  lemma StartsFurther(t: string, record: string, quoted: bool)
    requires t != [] && !(IsBreak(t[0]) && !quoted) && StartsWith(t[1..], record, Turned(t[0], quoted))
    ensures StartsWith(t, [t[0]] + record, quoted) && Behind(t, [t[0]] + record) == Behind(t[1..], record)
  {
    var whole := [t[0]] + record;
    assert [t[0]] + t[1..] == t && whole[1..] == record;
    assert |record| < |t[1..]| ==> t[1..][|record|..] == t[|whole|..];
  }

  lemma {:induction false} RecordIsPrefix(t: string, quoted: bool)
    ensures var h := FirstRecord(t, quoted);
            StartsWith(t, h.record, quoted) && (h.broken <==> |h.record| < |t|) && h.rest == Behind(t, h.record)
    decreases |t|
  {
    if t == [] || (IsBreak(t[0]) && !quoted) {
    } else if Escaped(t, quoted) {
      RecordIsPrefix(t[2..], quoted);
      var r := FirstRecord(t[2..], quoted).record;
      assert t[1..][1..] == t[2..] && t[..2] + r == [QUOTE] + ([QUOTE] + r);
      StartsFurther(t[1..], r, !quoted);
      StartsFurther(t, [QUOTE] + r, quoted);
    } else {
      var q := Turned(t[0], quoted);
      RecordIsPrefix(t[1..], q);
      assert t[..1] == [t[0]];
      StartsFurther(t, FirstRecord(t[1..], q).record, quoted);
    }
  }

  /** Only one record can come first. */
  lemma {:induction false} OneStart(t: string, a: string, b: string, quoted: bool)
    requires StartsWith(t, a, quoted) && StartsWith(t, b, quoted)
    ensures a == b
  {
    if a == [] || b == [] {
    } else {
      assert a[0] == t[0] == b[0];
      assert a[1..] <= t[1..] && b[1..] <= t[1..];
      assert |a| < |t| ==> t[1..][|a| - 1] == t[|a|];
      assert |b| < |t| ==> t[1..][|b| - 1] == t[|b|];
      OneStart(t[1..], a[1..], b[1..], Turned(t[0], quoted));
    }
  }

  /** `records` cut `text` at every line break outside quotes and nowhere else. */
  ghost predicate Cuts(text: string, records: seq<string>)
    decreases |text|
  {
    if text == [] then records == []
    else
      && records != [] && StartsWith(text, records[0], false)
      && |Behind(text, records[0])| < |text| && Cuts(Behind(text, records[0]), records[1..])
  }

  lemma FirstOfRecords(text: string)
    requires text != []
    ensures var h := FirstRecord(text, false);
            Records(text) == [h.record] + Records(h.rest) && |h.rest| < |text|
  {
    RecordIsPrefix(text, false);
    RecordsOneByOne(text, [], false);
    assert [] + FirstRecord(text, false).record == FirstRecord(text, false).record;
  }

  lemma CutsFirst(text: string, records: seq<string>)
    requires text != [] && records != []
    ensures var h := FirstRecord(text, false);
            Cuts(text, records) <==> records[0] == h.record && Cuts(h.rest, records[1..])
  {
    RecordIsPrefix(text, false);
    if StartsWith(text, records[0], false) { OneStart(text, records[0], FirstRecord(text, false).record, false); }
  }

  /** The records are the one way to cut the text. */
  lemma {:induction false} CutExactly(text: string, records: seq<string>)
    ensures Cuts(text, records) <==> records == Records(text)
    decreases |text|
  {
    if text != [] {
      FirstOfRecords(text);
      if records != [] {
        CutsFirst(text, records);
        CutExactly(FirstRecord(text, false).rest, records[1..]);
        assert records == [records[0]] + records[1..];
      }
    }
  }

  lemma {:induction false} RecordsOneByOne(t: string, current: string, quoted: bool)
    ensures var h := FirstRecord(t, quoted);
            RecordsFrom(t, current, quoted) ==
            if h.broken then [current + h.record] + Records(h.rest)
            else if current + h.record == [] then [] else [current + h.record]
    decreases |t|
  {
    if t == [] {
      assert current + [] == current;
    } else if Escaped(t, quoted) {
      RecordsOneByOne(t[2..], current + [QUOTE, QUOTE], quoted);
      var r := FirstRecord(t[2..], quoted).record;
      assert t[..2] == [QUOTE, QUOTE];
      Reassociate(current, t[..2], r);
    } else if IsBreak(t[0]) && !quoted {
      assert current + [] == current;
    } else {
      var q := if t[0] == QUOTE then !quoted else quoted;
      RecordsOneByOne(t[1..], current + [t[0]], q);
      assert t[..1] == [t[0]];
      Reassociate(current, t[..1], FirstRecord(t[1..], q).record);
    }
  }

  lemma Reassociate(a: string, b: string, c: string)
    ensures a + (b + c) == (a + b) + c
  {}

  /** On the first record the single pass and `splitLine` stay in the same quote state. */
  lemma {:induction false} GridOneByOne(t: string, d: char, row: seq<string>, current: string, quoted: bool,
                                        started: bool)
    ensures var h := FirstRecord(t, quoted);
            GridFrom(t, d, row, current, quoted, started) ==
            if h.broken then [FieldsFrom(h.record, d, row, current, quoted)] + ReadGrid(h.rest, d)
            else if started || h.record != [] then [FieldsFrom(h.record, d, row, current, quoted)]
            else []
    decreases |t|
  {
    if t == [] {
    } else if Escaped(t, quoted) {
      GridOneByOne(t[2..], d, row, current + [QUOTE], quoted, true);
      var r := FirstRecord(t[2..], quoted).record;
      assert (t[..2] + r)[2..] == r;
    } else if t[0] == QUOTE {
      GridOneByOne(t[1..], d, row, current, !quoted, true);
      RecordIsPrefix(t[1..], !quoted);
      var r := FirstRecord(t[1..], !quoted).record;
      assert (t[..1] + r)[1..] == r;
    } else if IsBreak(t[0]) && !quoted {
    } else {
      var r := FirstRecord(t[1..], quoted).record;
      assert (t[..1] + r)[1..] == r;
      if t[0] == d && !quoted { GridOneByOne(t[1..], d, row + [current], [], quoted, true); }
      else { GridOneByOne(t[1..], d, row, current + [t[0]], quoted, true); }
    }
  }

  /** Records first and fields second give the grid of the single pass. */
  lemma {:induction false} TwoPassesAgree(text: string, d: char)
    ensures FieldsOfAll(Records(text), d) == ReadGrid(text, d)
    decreases |text|
  {
    var h := FirstRecord(text, false);
    RecordsOneByOne(text, [], false);
    GridOneByOne(text, d, [], [], false, false);
    assert [] + h.record == h.record;
    if h.broken {
      TwoPassesAgree(h.rest, d);
      assert ([h.record] + Records(h.rest))[1..] == Records(h.rest);
    }
  }

  // ---------------------------------------------------------------- writing

  function Doubled(s: string): string {
    if s == [] then []
    else (if s[0] == QUOTE then [QUOTE, QUOTE] else [s[0]]) + Doubled(s[1..])
  }

  function Quoted(s: string): string {
    [QUOTE] + Doubled(s) + [QUOTE]
  }

  function Joined(cells: seq<string>): string {
    if cells == [] then []
    else if |cells| == 1 then cells[0]
    else cells[0] + [','] + Joined(cells[1..])
  }

  /** A cell of the export: a string, the rendering of a number or boolean, or nothing. */
  datatype Value = Text(text: string) | Rendered(text: string) | Missing

  predicate Formula(s: string) {
    s != [] && (s[0] == '=' || s[0] == '+' || s[0] == '-' || s[0] == '@')
  }

  /** What a cell says: strings that look like formulas get an apostrophe in front. */
  function CellText(v: Value): string {
    match v
    case Missing => []
    case Rendered(s) => s
    case Text(s) => if Formula(s) then ['\''] + s else s
  }

  function Cells(row: seq<Value>): seq<string> {
    if row == [] then [] else [CellText(row[0])] + Cells(row[1..])
  }

  function QuotedAll(cells: seq<string>): seq<string> {
    if cells == [] then [] else [Quoted(cells[0])] + QuotedAll(cells[1..])
  }

  function Export(rows: seq<seq<Value>>): string {
    if rows == [] then [] else Joined(QuotedAll(Cells(rows[0]))) + [CR, LF] + Export(rows[1..])
  }

  datatype Transaction = Transaction(
    id: string, accountId: string, providerTxnId: string, postedAt: string,
    amount: string, currency: string, merchant: Value, merchantOverride: Value, note: Value,
    excludedFromAnalytics: bool, rawDescriptor: string, categorySlug: string, categorySource: string,
    categoryConfidence: string, isRecurring: bool, duplicateReported: bool, pending: bool, tags: Value)

  function Bool(b: bool): Value {
    Rendered(if b then "true" else "false")
  }

  const HEADER: seq<Value> := [
    Text("id"), Text("account_id"), Text("provider_transaction_id"), Text("posted_at"),
    Text("amount_minor"), Text("currency"), Text("merchant"), Text("merchant_override"), Text("note"),
    Text("excluded_from_analytics"), Text("descriptor"), Text("category"), Text("category_source"),
    Text("category_confidence"), Text("recurring"), Text("duplicate_reported"), Text("pending"), Text("tags")]

  /** The numbers of a transaction come as their renderings. */
  function Columns(t: Transaction): (row: seq<Value>)
    ensures |row| == |HEADER|
  {
    [Text(t.id), Text(t.accountId), Text(t.providerTxnId), Text(t.postedAt),
     Rendered(t.amount), Text(t.currency), t.merchant, t.merchantOverride, t.note,
     Bool(t.excludedFromAnalytics), Text(t.rawDescriptor), Text(t.categorySlug), Text(t.categorySource),
     Rendered(t.categoryConfidence), Bool(t.isRecurring), Bool(t.duplicateReported), Bool(t.pending), t.tags]
  }

  function AllColumns(ts: seq<Transaction>): seq<seq<Value>> {
    if ts == [] then [] else [Columns(ts[0])] + AllColumns(ts[1..])
  }

  function LedgerRows(ts: seq<Transaction>): seq<seq<Value>> {
    [HEADER] + AllColumns(ts)
  }

  function TransactionsToCsv(ts: seq<Transaction>): string {
    Export(LedgerRows(ts))
  }

  // ---------------------------------------------------------------- reading back

  /** The single pass between two cells of a comma-separated text. */
  function Read(t: string, row: seq<string>, current: string, started: bool): Grid {
    GridFrom(t, ',', row, current, false, started)
  }

  lemma ReadComma(tail: string, row: seq<string>, current: string, started: bool)
    ensures Read([','] + tail, row, current, started) == Read(tail, row + [current], [], true)
  {
    assert ([','] + tail)[1..] == tail;
  }

  lemma ReadBreak(tail: string, row: seq<string>, current: string, started: bool)
    ensures Read([CR, LF] + tail, row, current, started) == [row + [current]] + Read(tail, [], [], false)
    ensures Read([LF] + tail, row, current, started) == [row + [current]] + Read(tail, [], [], false)
  {
    assert AfterBreak([CR, LF] + tail) == tail;
    assert AfterBreak([LF] + tail) == tail;
  }

  /** Inside quotes, up to the closing one. */
  lemma {:induction false} ReadDoubled(x: string, rest: string, row: seq<string>, current: string)
    requires rest == [] || rest[0] != QUOTE
    ensures GridFrom(Doubled(x) + [QUOTE] + rest, ',', row, current, true, true)
         == GridFrom(rest, ',', row, current + x, false, true)
    decreases |x|
  {
    var t := Doubled(x) + [QUOTE] + rest;
    if x == [] {
      assert t == [QUOTE] + rest && t[1..] == rest;
      assert current + [] == current;
    } else {
      ReadDoubled(x[1..], rest, row, current + [x[0]]);
      var tail := Doubled(x[1..]) + [QUOTE] + rest;
      assert current + x == current + [x[0]] + x[1..];
      if x[0] == QUOTE {
        assert t == [QUOTE, QUOTE] + tail && t[2..] == tail;
      } else {
        assert t == [x[0]] + tail && t[1..] == tail;
      }
    }
  }

  lemma ReadQuoted(x: string, rest: string, row: seq<string>, started: bool)
    requires rest == [] || rest[0] != QUOTE
    ensures Read(Quoted(x) + rest, row, [], started) == Read(rest, row, x, true)
  {
    var t := Quoted(x) + rest;
    assert t[1..] == Doubled(x) + [QUOTE] + rest;
    ReadDoubled(x, rest, row, []);
    assert [] + x == x;
  }

  lemma JoinedNext(cell: string, cells: seq<string>, rest: string)
    ensures Joined([cell] + cells) + rest ==
            cell + (if cells == [] then rest else [','] + (Joined(cells) + rest))
  {
    assert ([cell] + cells)[1..] == cells;
  }

  lemma {:induction false} ReadQuotedRow(cells: seq<string>, rest: string, row: seq<string>, started: bool)
    requires cells != [] && (rest == [] || rest[0] == CR)
    ensures Read(Joined(QuotedAll(cells)) + rest, row, [], started)
         == Read(rest, row + cells[..|cells| - 1], cells[|cells| - 1], true)
    decreases |cells|
  {
    var x, more := cells[0], cells[1..];
    JoinedNext(Quoted(x), QuotedAll(more), rest);
    if more == [] {
      ReadQuoted(x, rest, row, started);
      assert row + cells[..0] == row;
    } else {
      var tail := Joined(QuotedAll(more)) + rest;
      ReadQuoted(x, [','] + tail, row, started);
      ReadComma(tail, row, x, true);
      ReadQuotedRow(more, rest, row + [x], true);
      assert row + [x] + more[..|more| - 1] == row + cells[..|cells| - 1];
    }
  }

  function GridOf(rows: seq<seq<Value>>): Grid {
    if rows == [] then [] else [Cells(rows[0])] + GridOf(rows[1..])
  }

  lemma ExportFirst(cells: seq<string>, more: string)
    requires cells != []
    ensures ReadGrid(Joined(QuotedAll(cells)) + ([CR, LF] + more), ',') == [cells] + ReadGrid(more, ',')
  {
    var init, last := cells[..|cells| - 1], cells[|cells| - 1];
    ReadQuotedRow(cells, [CR, LF] + more, [], false);
    ReadBreak(more, [] + init, last, true);
    assert [] + init + [last] == cells;
  }

  lemma {:induction false} ExportNext(rows: seq<seq<Value>>)
    requires rows != [] && rows[0] != []
    ensures ReadGrid(Export(rows), ',') == [Cells(rows[0])] + ReadGrid(Export(rows[1..]), ',')
  {
    var cells, more := Cells(rows[0]), Export(rows[1..]);
    Reassociate(Joined(QuotedAll(cells)), [CR, LF], more);
    ExportFirst(cells, more);
  }

  /** Reading back an export recovers what every cell says. */
  lemma {:induction false} ExportRoundTrip(rows: seq<seq<Value>>)
    requires forall r :: r in rows ==> r != []
    ensures ReadGrid(Export(rows), ',') == GridOf(rows)
  {
    if rows != [] {
      assert rows[0] in rows && forall r :: r in rows[1..] ==> r in rows;
      ExportNext(rows);
      ExportRoundTrip(rows[1..]);
    }
  }

  /** The two passes, one after the other. */
  function ReadBack(text: string): Grid {
    FieldsOfAll(Records(text), ',')
  }

  /** The two passes over an exported ledger give the header and one row per transaction. */
  lemma {:induction false} LedgerRoundTrip(ts: seq<Transaction>)
    ensures ReadBack(TransactionsToCsv(ts)) == GridOf(LedgerRows(ts))
  {
    var rows := LedgerRows(ts);
    LedgerRowsNonEmpty(ts);
    ExportRoundTrip(rows);
    TwoPassesAgree(Export(rows), ',');
  }

  lemma {:induction false} AllColumnsNonEmpty(ts: seq<Transaction>)
    ensures forall r :: r in AllColumns(ts) ==> r != []
  {
    if ts != [] { AllColumnsNonEmpty(ts[1..]); }
  }

  lemma LedgerRowsNonEmpty(ts: seq<Transaction>)
    ensures forall r :: r in LedgerRows(ts) ==> r != []
  {
    AllColumnsNonEmpty(ts);
    assert |HEADER| == 18;
  }

  /** How a cell is printed: a string that would open a formula behind an apostrophe. */
  ghost predicate Prints(text: string, v: Value) {
    match v
    case Missing => text == ""
    case Rendered(s) => text == s
    case Text(s) => text == if s != [] && s[0] in {'=', '+', '-', '@'} then ['\''] + s else s
  }

  /** Every cell is printed that way, so that no string of an export opens a formula. */
  lemma NoStringOpensAFormula(v: Value)
    ensures Prints(CellText(v), v)
    ensures v.Text? && CellText(v) != [] ==> CellText(v)[0] !in {'=', '+', '-', '@'}
  {}

  /** Column `c` has this name, and the row this value in it. */
  ghost predicate Holds(head: seq<Value>, row: seq<Value>, c: nat, name: string, v: Value) {
    c < |head| == |row| && head[c] == Text(name) && row[c] == v
  }

  lemma IdentityColumns(head: seq<Value>, row: seq<Value>, t: Transaction)
    requires head == HEADER && row == Columns(t)
    ensures Holds(head, row, 0, "id", Text(t.id))
    ensures Holds(head, row, 1, "account_id", Text(t.accountId))
    ensures Holds(head, row, 2, "provider_transaction_id", Text(t.providerTxnId))
  {}

  lemma MoneyColumns(head: seq<Value>, row: seq<Value>, t: Transaction)
    requires head == HEADER && row == Columns(t)
    ensures Holds(head, row, 3, "posted_at", Text(t.postedAt))
    ensures Holds(head, row, 4, "amount_minor", Rendered(t.amount))
    ensures Holds(head, row, 5, "currency", Text(t.currency))
  {}

  lemma WordingColumns(head: seq<Value>, row: seq<Value>, t: Transaction)
    requires head == HEADER && row == Columns(t)
    ensures Holds(head, row, 6, "merchant", t.merchant)
    ensures Holds(head, row, 7, "merchant_override", t.merchantOverride)
    ensures Holds(head, row, 8, "note", t.note)
    ensures Holds(head, row, 9, "excluded_from_analytics",
                  Rendered(if t.excludedFromAnalytics then "true" else "false"))
  {}

  lemma CategoryColumns(head: seq<Value>, row: seq<Value>, t: Transaction)
    requires head == HEADER && row == Columns(t)
    ensures Holds(head, row, 10, "descriptor", Text(t.rawDescriptor))
    ensures Holds(head, row, 11, "category", Text(t.categorySlug))
    ensures Holds(head, row, 12, "category_source", Text(t.categorySource))
    ensures Holds(head, row, 13, "category_confidence", Rendered(t.categoryConfidence))
  {}

  lemma MarkColumns(head: seq<Value>, row: seq<Value>, t: Transaction)
    requires head == HEADER && row == Columns(t)
    ensures Holds(head, row, 14, "recurring", Rendered(if t.isRecurring then "true" else "false"))
    ensures Holds(head, row, 15, "duplicate_reported", Rendered(if t.duplicateReported then "true" else "false"))
    ensures Holds(head, row, 16, "pending", Rendered(if t.pending then "true" else "false"))
    ensures Holds(head, row, 17, "tags", t.tags)
  {}

  /** The row of a transaction has every field in the column of its name. */
  ghost predicate HoldsFields(head: seq<Value>, row: seq<Value>, t: Transaction) {
    && Holds(head, row, 0, "id", Text(t.id))
    && Holds(head, row, 1, "account_id", Text(t.accountId))
    && Holds(head, row, 2, "provider_transaction_id", Text(t.providerTxnId))
    && Holds(head, row, 3, "posted_at", Text(t.postedAt))
    && Holds(head, row, 4, "amount_minor", Rendered(t.amount))
    && Holds(head, row, 5, "currency", Text(t.currency))
    && Holds(head, row, 6, "merchant", t.merchant)
    && Holds(head, row, 7, "merchant_override", t.merchantOverride)
    && Holds(head, row, 8, "note", t.note)
    && Holds(head, row, 9, "excluded_from_analytics", Rendered(if t.excludedFromAnalytics then "true" else "false"))
    && Holds(head, row, 10, "descriptor", Text(t.rawDescriptor))
    && Holds(head, row, 11, "category", Text(t.categorySlug))
    && Holds(head, row, 12, "category_source", Text(t.categorySource))
    && Holds(head, row, 13, "category_confidence", Rendered(t.categoryConfidence))
    && Holds(head, row, 14, "recurring", Rendered(if t.isRecurring then "true" else "false"))
    && Holds(head, row, 15, "duplicate_reported", Rendered(if t.duplicateReported then "true" else "false"))
    && Holds(head, row, 16, "pending", Rendered(if t.pending then "true" else "false"))
    && Holds(head, row, 17, "tags", t.tags)
  }

  lemma ColumnsByName(head: seq<Value>, row: seq<Value>, t: Transaction)
    requires head == HEADER && row == Columns(t)
    ensures HoldsFields(head, row, t)
  {
    IdentityColumns(head, row, t);
    MoneyColumns(head, row, t);
    WordingColumns(head, row, t);
    CategoryColumns(head, row, t);
    MarkColumns(head, row, t);
  }

  lemma {:induction false} CellAt(row: seq<Value>, c: nat)
    requires c < |row|
    ensures |Cells(row)| == |row| && Cells(row)[c] == CellText(row[c])
  {
    if |row| > 1 { CellAt(row[1..], if c == 0 then 0 else c - 1); }
  }

  lemma {:induction false} AllColumnsAt(ts: seq<Transaction>, i: nat)
    requires i < |ts|
    ensures |AllColumns(ts)| == |ts| && AllColumns(ts)[i] == Columns(ts[i])
  {
    if |ts| > 1 { AllColumnsAt(ts[1..], if i == 0 then 0 else i - 1); }
  }

  lemma {:induction false} GridRow(rows: seq<seq<Value>>, i: nat)
    requires i < |rows|
    ensures |GridOf(rows)| == |rows| && GridOf(rows)[i] == Cells(rows[i])
  {
    if |rows| > 1 { GridRow(rows[1..], if i == 0 then 0 else i - 1); }
  }

  lemma LedgerRow(ts: seq<Transaction>, head: seq<Value>, i: nat)
    requires i < |ts| && head == HEADER
    ensures var g := ReadBack(TransactionsToCsv(ts));
            |g| == |ts| + 1 && g[0] == Cells(head) && g[i + 1] == Cells(Columns(ts[i]))
  {
    LedgerRoundTrip(ts);
    AllColumnsAt(ts, i);
    GridRow(LedgerRows(ts), 0);
    GridRow(LedgerRows(ts), i + 1);
  }

  /** Reading an exported ledger back gives one row per transaction below the column names; what
      a transaction has in a column is printed there, below the name of the column. */
  lemma LedgerByName(ts: seq<Transaction>, i: nat, c: nat, name: string, v: Value)
    requires i < |ts| && Holds(HEADER, Columns(ts[i]), c, name, v)
    ensures var g := ReadBack(TransactionsToCsv(ts));
            && |g| == |ts| + 1 && c < |g[0]| == |g[i + 1]|
            && Prints(g[0][c], Text(name)) && Prints(g[i + 1][c], v)
  {
    var head, row := HEADER, Columns(ts[i]);
    LedgerRow(ts, head, i);
    CellAt(head, c);
    CellAt(row, c);
    NoStringOpensAFormula(head[c]);
    NoStringOpensAFormula(row[c]);
  }

  /** The apostrophe cannot always be told from the text: two strings print alike exactly when
      they are equal or one is a formula and the other the same with an apostrophe. */
  lemma CellTextCollisions(a: string, b: string)
    ensures CellText(Text(a)) == CellText(Text(b)) <==>
            a == b || (Formula(a) && b == ['\''] + a) || (Formula(b) && a == ['\''] + b)
  {
    var p := ['\''];
    if p + a == p + b { assert a == (p + a)[1..] == (p + b)[1..] == b; }
  }

  // ---------------------------------------------------------------- worksheets

  predicate NeedsQuotes(s: string) {
    QUOTE in s || ',' in s || LF in s
  }

  function CsvEscape(s: string): string {
    if NeedsQuotes(s) then Quoted(s) else s
  }

  function EscapedAll(cells: seq<string>): seq<string> {
    if cells == [] then [] else [CsvEscape(cells[0])] + EscapedAll(cells[1..])
  }

  /** The row join at the end of `xlsxToCsv`. */
  function Worksheet(rows: Grid): string {
    if rows == [] then []
    else if |rows| == 1 then Joined(EscapedAll(rows[0]))
    else Joined(EscapedAll(rows[0])) + [LF] + Worksheet(rows[1..])
  }

  /** A bare carriage return is not quoted by `csvEscape`, and ends a record when read. */
  predicate CellSafe(s: string) {
    CR !in s || NeedsQuotes(s)
  }

  predicate RowSafe(row: seq<string>) {
    row != [] && forall c :: c in row ==> CellSafe(c)
  }

  /** When a worksheet survives: no row is empty, no unquoted cell holds a carriage return, and
      the last row is not a single empty cell. */
  predicate Readable(rows: Grid) {
    (forall r :: r in rows ==> RowSafe(r)) && (rows != [] ==> rows[|rows| - 1] != [""])
  }

  lemma {:induction false} ReadPlain(x: string, rest: string, row: seq<string>, current: string, started: bool)
    requires !NeedsQuotes(x) && CR !in x
    ensures GridFrom(x + rest, ',', row, current, false, started)
         == GridFrom(rest, ',', row, current + x, false, started || x != [])
    decreases |x|
  {
    if x == [] {
      assert x + rest == rest && current + x == current;
    } else {
      ReadPlain(x[1..], rest, row, current + [x[0]], true);
      assert (x + rest)[1..] == x[1..] + rest && x[0] in x;
      assert current + x == current + [x[0]] + x[1..];
    }
  }

  lemma ReadEscaped(x: string, rest: string, row: seq<string>, started: bool)
    requires CellSafe(x) && (rest == [] || rest[0] != QUOTE)
    ensures Read(CsvEscape(x) + rest, row, [], started) == Read(rest, row, x, started || x != [])
  {
    if NeedsQuotes(x) { ReadQuoted(x, rest, row, started); }
    else { ReadPlain(x, rest, row, [], started); assert [] + x == x; }
  }

  /** A text up to its first carriage return. */
  function BeforeCR(x: string): (r: string)
    ensures CR in x ==> |r| < |x|
  {
    if x == [] || x[0] == CR then [] else [x[0]] + BeforeCR(x[1..])
  }

  /** The row up to there in its first unsafe cell. */
  function CutRow(cells: seq<string>): (r: seq<string>)
    ensures (exists c :: c in cells && !CellSafe(c)) ==> r != cells
  {
    if cells == [] then []
    else if !CellSafe(cells[0]) then [BeforeCR(cells[0])]
    else
      assert cells == [cells[0]] + cells[1..];
      [cells[0]] + CutRow(cells[1..])
  }

  /** A carriage return in an unquoted cell cuts the row short. */
  lemma {:induction false} ReadUnsafe(x: string, rest: string, row: seq<string>, current: string, started: bool)
    requires !NeedsQuotes(x) && CR in x
    ensures var g := GridFrom(x + rest, ',', row, current, false, started);
            g != [] && g[0] == row + [current + BeforeCR(x)]
    decreases |x|
  {
    assert (x + rest)[1..] == x[1..] + rest && x[0] in x;
    if x[0] == CR {
      assert current + [] == current;
    } else {
      ReadUnsafe(x[1..], rest, row, current + [x[0]], true);
      Reassociate(current, [x[0]], BeforeCR(x[1..]));
    }
  }

  lemma {:induction false} ReadRow(cells: seq<string>, rest: string, row: seq<string>, started: bool)
    requires RowSafe(cells) && (rest == [] || rest[0] == LF)
    ensures Read(Joined(EscapedAll(cells)) + rest, row, [], started)
         == Read(rest, row + cells[..|cells| - 1], cells[|cells| - 1], started || cells != [""])
    decreases |cells|
  {
    var x, more := cells[0], cells[1..];
    JoinedNext(CsvEscape(x), EscapedAll(more), rest);
    if more == [] {
      ReadEscaped(x, rest, row, started);
      assert row + cells[..0] == row && cells == [x];
    } else {
      var tail := Joined(EscapedAll(more)) + rest;
      ReadEscaped(x, [','] + tail, row, started);
      ReadComma(tail, row, x, started || x != []);
      ReadRow(more, rest, row + [x], true);
      assert row + [x] + more[..|more| - 1] == row + cells[..|cells| - 1];
    }
  }

  /** What is read first of a row of cells and what follows it. */
  ghost predicate StartsWithRow(g: Grid, row: seq<string>) {
    g != [] && g[0] == row
  }

  lemma ReadUnsafeCell(x: string, rest: string, row: seq<string>, started: bool)
    requires !CellSafe(x)
    ensures StartsWithRow(Read(CsvEscape(x) + rest, row, [], started), row + [BeforeCR(x)])
  {
    ReadUnsafe(x, rest, row, [], started);
    assert [] + BeforeCR(x) == BeforeCR(x);
  }

  /** An unsafe row is read back only up to the first carriage return that is not in quotes. */
  lemma {:induction false} ReadUnsafeRow(cells: seq<string>, rest: string, row: seq<string>, started: bool)
    requires cells != [] && !RowSafe(cells) && (rest == [] || rest[0] == LF)
    ensures StartsWithRow(Read(Joined(EscapedAll(cells)) + rest, row, [], started), row + CutRow(cells))
    ensures CutRow(cells) != cells
    decreases |cells|
  {
    var x, more := cells[0], cells[1..];
    JoinedNext(CsvEscape(x), EscapedAll(more), rest);
    var tail := Joined(EscapedAll(more)) + rest;
    if !CellSafe(x) {
      ReadUnsafeCell(x, if more == [] then rest else [','] + tail, row, started);
    } else {
      ReadEscaped(x, [','] + tail, row, started);
      ReadComma(tail, row, x, started || x != []);
      ReadUnsafeRow(more, rest, row + [x], true);
      assert (row + [x]) + CutRow(more) == row + ([x] + CutRow(more));
    }
  }

  /** Rows read are never empty. */
  lemma {:induction false} RowsNonEmpty(t: string, d: char, row: seq<string>, current: string, quoted: bool,
                                        started: bool)
    ensures forall r :: r in GridFrom(t, d, row, current, quoted, started) ==> r != []
    decreases |t|
  {
    if t == [] {
    } else if Escaped(t, quoted) { RowsNonEmpty(t[2..], d, row, current + [QUOTE], quoted, true); }
    else if t[0] == QUOTE { RowsNonEmpty(t[1..], d, row, current, !quoted, true); }
    else if IsBreak(t[0]) && !quoted { RowsNonEmpty(AfterBreak(t), d, [], [], quoted, false); }
    else if t[0] == d && !quoted { RowsNonEmpty(t[1..], d, row + [current], [], quoted, true); }
    else { RowsNonEmpty(t[1..], d, row, current + [t[0]], quoted, true); }
  }

  /** What follows the first row of a worksheet. */
  function Remainder(more: Grid): string {
    if more == [] then [] else [LF] + Worksheet(more)
  }

  lemma {:induction false} WorksheetCons(r: seq<string>, more: Grid)
    ensures Worksheet([r] + more) == Joined(EscapedAll(r)) + Remainder(more)
  {
    assert ([r] + more)[1..] == more;
    if more != [] { Reassociate(Joined(EscapedAll(r)), [LF], Worksheet(more)); }
  }

  lemma {:induction false} WorksheetFirst(r: seq<string>, more: Grid)
    requires RowSafe(r)
    ensures ReadGrid(Worksheet([r] + more), ',') ==
            if more != [] then [r] + ReadGrid(Worksheet(more), ',')
            else if r == [""] then [] else [r]
  {
    WorksheetCons(r, more);
    var init, last := r[..|r| - 1], r[|r| - 1];
    ReadRow(r, Remainder(more), [], false);
    assert [] + init == init && init + [last] == r;
    if more != [] { ReadBreak(Worksheet(more), init, last, r != [""]); }
  }

  lemma WorksheetFirstUnsafe(r: seq<string>, more: Grid)
    requires !RowSafe(r)
    ensures ReadGrid(Worksheet([r] + more), ',') != [r] + more
  {
    var rest := Remainder(more);
    WorksheetCons(r, more);
    if r == [] {
      RowsNonEmpty(Worksheet([r] + more), ',', [], [], false, false);
      assert ([r] + more)[0] == [];
    } else {
      ReadUnsafeRow(r, rest, [], false);
      assert [] + CutRow(r) == CutRow(r) && ([r] + more)[0] == r;
    }
  }

  /** A worksheet is recovered if and only if it is `Readable`. */
  lemma {:induction false} WorksheetRoundTrip(rows: Grid)
    ensures ReadGrid(Worksheet(rows), ',') == rows <==> Readable(rows)
  {
    if rows != [] {
      var r, more := rows[0], rows[1..];
      assert rows == [r] + more && r in rows;
      if !RowSafe(r) {
        WorksheetFirstUnsafe(r, more);
      } else {
        WorksheetFirst(r, more);
        WorksheetRoundTrip(more);
        ReadableNext(r, more);
        if more != [] && ReadGrid(Worksheet(rows), ',') == rows {
          assert ([r] + ReadGrid(Worksheet(more), ','))[1..] == ReadGrid(Worksheet(more), ',');
        }
      }
    }
  }

  lemma ReadableNext(r: seq<string>, more: Grid)
    requires RowSafe(r)
    ensures Readable([r] + more) <==> if more == [] then r != [""] else Readable(more)
  {
    if Readable([r] + more) {
      forall q | q in more ensures RowSafe(q) { assert q in [r] + more; }
    }
  }
}
