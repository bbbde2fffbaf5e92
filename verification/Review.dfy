/** Import review: apps/api/src/domain/imports/review.ts. Scores are exact rationals, dates are day
    numbers. The date, amount and descriptor parsers are parameters. */
module Review {
  import opened Common
  import opened Sorting

  // ---------------------------------------------------------------- scoring

  function Split(text: string): (r: seq<string>)
    ensures r != []
  {
    if text == "" then [""]
    else
      var rest := Split(text[1..]);
      if text[0] == ' ' then [""] + rest else [[text[0]] + rest[0]] + rest[1..]
  }

  function Tokens(text: string): set<string> {
    set t | t in Split(text) && |t| > 1
  }

  /** Words with a space between each and the next. */
  function Spaced(words: seq<string>): string
    requires words != []
  {
    if |words| == 1 then words[0] else words[0] + [' '] + Spaced(words[1..])
  }

  ghost predicate NoSpaces(words: seq<string>) {
    forall w :: w in words ==> ' ' !in w
  }

  lemma {:induction false} SplitWord(w: string, rest: string)
    requires ' ' !in w && (rest == "" || rest[0] == ' ')
    ensures Split(w + rest) == if rest == "" then [w] else [w] + Split(rest[1..])
  {
    if w == "" {
      assert w + rest == rest;
    } else {
      assert (w + rest)[1..] == w[1..] + rest && w[0] in w;
      SplitWord(w[1..], rest);
      assert [w[0]] + w[1..] == w;
    }
  }

  function Resplit(words: seq<string>): seq<string>
    requires words != []
  {
    Split(Spaced(words))
  }

  lemma ResplitFirst(words: seq<string>)
    requires words != [] && ' ' !in words[0]
    ensures Resplit(words) == [words[0]] + if |words| == 1 then [] else Resplit(words[1..])
  {
    if |words| == 1 {
      SplitWord(words[0], "");
      assert words[0] + "" == words[0];
    } else {
      var rest := [' '] + Spaced(words[1..]);
      SplitWord(words[0], rest);
      assert words[0] + [' '] + Spaced(words[1..]) == words[0] + rest && rest[1..] == Spaced(words[1..]);
    }
  }

  /** `split(' ')` undoes the spacing of words without spaces. */
  lemma {:induction false} SplitSpaced(words: seq<string>)
    requires words != [] && NoSpaces(words)
    ensures Resplit(words) == words
  {
    assert words[0] in words;
    ResplitFirst(words);
    if |words| > 1 { SplitSpaced(words[1..]); }
  }

  /** The tokens of a text are its words of two letters or more. */
  lemma TokensAreWords(words: seq<string>, t: string)
    requires words != [] && NoSpaces(words)
    ensures t in Tokens(Spaced(words)) <==> t in words && |t| >= 2
  {
    SplitSpaced(words);
  }

  function Larger(a: nat, b: nat): nat {
    if a >= b then a else b
  }

  /** Token overlap. */
  function Similarity(a: string, b: string): real {
    if a == b then 1.0
    else if Tokens(a) == {} || Tokens(b) == {} then 0.0
    else |Tokens(a) * Tokens(b)| as real / Larger(|Tokens(a)|, |Tokens(b)|) as real
  }

  lemma QuotientTimes(x: real, y: real)
    requires y > 0.0
    ensures x / y * y == x
  {}

  lemma ProductOrder(q: real, y: real)
    requires y > 0.0
    ensures q < 0.0 ==> q * y < 0.0
    ensures q > 1.0 ==> q * y > y
    ensures q == 1.0 ==> q * y == y
  {}

  lemma RatioBounds(shared: nat, most: nat)
    requires shared <= most && most > 0
    ensures 0.0 <= shared as real / most as real <= 1.0
    ensures shared as real / most as real == 1.0 <==> shared == most
  {
    var x, y := shared as real, most as real;
    QuotientTimes(x, y);
    ProductOrder(x / y, y);
    if shared == most { assert x == y; }
  }

  lemma SubsetSize(a: set<string>, b: set<string>)
    requires a <= b
    ensures |a| <= |b| && (|a| == |b| <==> a == b)
  {
    assert b == a + (b - a);
    assert |b| == |a| + |b - a|;
  }

  /** Between 0 and 1, the same both ways, and 1 exactly for equal texts or equal sets of words. */
  lemma SimilarityLaws(a: string, b: string)
    ensures 0.0 <= Similarity(a, b) <= 1.0 && Similarity(a, b) == Similarity(b, a)
    ensures Similarity(a, b) == 1.0 <==> a == b || (Tokens(a) == Tokens(b) != {})
  {
    var ta, tb := Tokens(a), Tokens(b);
    assert ta * tb == tb * ta;
    if a != b && ta != {} && tb != {} {
      SubsetSize(ta * tb, ta);
      SubsetSize(ta * tb, tb);
      assert |ta| > 0;
      RatioBounds(|ta * tb|, Larger(|ta|, |tb|));
    }
  }

  /** What a duplicate search sees of a transaction. */
  datatype Held = Held(id: string, postedAt: int, amount: int, normalizedDescriptor: string)

  datatype Candidate = Candidate(postedAt: int, amount: int, normalizedDescriptor: string)

  datatype DuplicateMatch = DuplicateMatch(confidence: real, transactionId: string)

  const DUPLICATE_CONFIDENCE_THRESHOLD := 0.8
  const DATE_WINDOW_DAYS := 3

  function DaysApart(a: int, b: int): nat {
    if a >= b then a - b else b - a
  }

  predicate Comparable(c: Candidate, t: Held) {
    t.amount == c.amount && DaysApart(t.postedAt, c.postedAt) <= DATE_WINDOW_DAYS
  }

  function Confidence(c: Candidate, t: Held): real {
    var gap := DaysApart(t.postedAt, c.postedAt);
    var dateScore := if gap == 0 then 1.0 else 1.0 - gap as real / (DATE_WINDOW_DAYS + 1) as real;
    0.6 * dateScore + 0.4 * Similarity(t.normalizedDescriptor, c.normalizedDescriptor)
  }

  /** The best match among the first rows of `existing`; the earliest of equals. */
  function Best(c: Candidate, existing: seq<Held>): Option<DuplicateMatch> {
    if existing == [] then None
    else
      var t := existing[|existing| - 1];
      var best := Best(c, existing[..|existing| - 1]);
      if Comparable(c, t) && (best.None? || Confidence(c, t) > best.value.confidence)
      then Some(DuplicateMatch(Confidence(c, t), t.id))
      else best
  }

  function Duplicate(c: Candidate, existing: seq<Held>): Option<DuplicateMatch> {
    var best := Best(c, existing);
    if best.Some? && best.value.confidence >= DUPLICATE_CONFIDENCE_THRESHOLD then best else None
  }

  method FindDuplicate(c: Candidate, existing: seq<Held>) returns (r: Option<DuplicateMatch>)
    ensures r == Duplicate(c, existing)
  {
    var best: Option<DuplicateMatch> := None;
    for i := 0 to |existing|
      invariant best == Best(c, existing[..i])
    {
      assert existing[..i + 1][..i] == existing[..i];
      var t := existing[i];
      if t.amount != c.amount { continue; }
      var dayGap := DaysApart(t.postedAt, c.postedAt);
      if dayGap > DATE_WINDOW_DAYS { continue; }
      var confidence := Confidence(c, t);
      if best.None? || confidence > best.value.confidence { best := Some(DuplicateMatch(confidence, t.id)); }
    }
    assert existing[..|existing|] == existing;
    r := if best.Some? && best.value.confidence >= DUPLICATE_CONFIDENCE_THRESHOLD then best else None;
  }

  lemma {:induction false} BestLaws(c: Candidate, existing: seq<Held>)
    ensures Best(c, existing).Some? ==>
              exists i :: 0 <= i < |existing| && Comparable(c, existing[i])
                && Best(c, existing).value == DuplicateMatch(Confidence(c, existing[i]), existing[i].id)
    ensures forall i :: 0 <= i < |existing| && Comparable(c, existing[i]) ==>
              Best(c, existing).Some? && Confidence(c, existing[i]) <= Best(c, existing).value.confidence
  {
    if existing != [] {
      var init := existing[..|existing| - 1];
      BestLaws(c, init);
      assert forall i :: 0 <= i < |init| ==> init[i] == existing[i];
    }
  }

  /** Whether `t` on its own would make `c` a duplicate. */
  predicate Matches(c: Candidate, t: Held) {
    Comparable(c, t) && Confidence(c, t) >= DUPLICATE_CONFIDENCE_THRESHOLD
  }

  /** A duplicate is found exactly when some held transaction matches, and then the best of them. */
  lemma DuplicateLaws(c: Candidate, existing: seq<Held>)
    ensures Duplicate(c, existing).Some? <==> exists t :: t in existing && Matches(c, t)
    ensures Duplicate(c, existing).Some? ==>
              && (exists t :: t in existing && Matches(c, t)
                    && Duplicate(c, existing).value == DuplicateMatch(Confidence(c, t), t.id))
              && (forall t :: t in existing && Matches(c, t) ==>
                    Confidence(c, t) <= Duplicate(c, existing).value.confidence)
  {
    BestLaws(c, existing);
    var best := Best(c, existing);
    if best.Some? {
      var i :| 0 <= i < |existing| && Comparable(c, existing[i])
        && best.value == DuplicateMatch(Confidence(c, existing[i]), existing[i].id);
      assert existing[i] in existing;
    }
    forall t | t in existing && Matches(c, t) ensures best.Some? && Confidence(c, t) <= best.value.confidence {
      var i :| 0 <= i < |existing| && existing[i] == t;
    }
  }

  /** The window of three days is wider than the threshold lets through: a match is on the same day
      with half of the words in common, or on a neighbouring day with seven eighths of them. */
  lemma MatchesExactly(c: Candidate, t: Held)
    ensures var gap := DaysApart(t.postedAt, c.postedAt);
            var likeness := Similarity(t.normalizedDescriptor, c.normalizedDescriptor);
            Matches(c, t) <==> (t.amount == c.amount
                                && ((gap == 0 && likeness >= 0.5) || (gap == 1 && likeness >= 0.875)))
  {
    var gap, likeness := DaysApart(t.postedAt, c.postedAt), Similarity(t.normalizedDescriptor, c.normalizedDescriptor);
    SimilarityLaws(t.normalizedDescriptor, c.normalizedDescriptor);
    if gap == 1 {
      assert Confidence(c, t) == 0.45 + 0.4 * likeness;
    } else if gap == 2 {
      assert Confidence(c, t) == 0.3 + 0.4 * likeness;
    } else if gap == 3 {
      assert Confidence(c, t) == 0.15 + 0.4 * likeness;
    }
  }

  /** Same day, same amount, same text: as sure as can be. */
  lemma IdenticalMatches(c: Candidate, t: Held)
    requires t.postedAt == c.postedAt && t.amount == c.amount && t.normalizedDescriptor == c.normalizedDescriptor
    ensures Matches(c, t) && Confidence(c, t) == 1.0
  {}

  // ---------------------------------------------------------------- reading a row

  datatype Convention = Signed | DebitCreditColumns | PositiveWithDirection

  /** Column numbers, -1 for a column the mapping does not name or the header does not have. */
  datatype Columns = Columns(date: int, description: int, amount: int, debit: int, credit: int, direction: int)

  /** The text functions this file calls but does not define. */
  datatype Parsers = Parsers(
    parseDate: string -> Option<int>, parseAmount: string -> Option<int>, trim: string -> string,
    normalizeDescriptor: string -> string, isOutflow: string -> bool, isInflow: string -> bool)

  datatype Fault = Ragged | UnreadableDate | UnreadableAmount | ZeroAmount | NoDescription

  datatype Reading = Valid(candidate: Candidate, descriptor: string) | Invalid(fault: Fault)

  /** The header names of the columns; a source can lack some of them. */
  datatype Mapping = Mapping(
    convention: Convention, date: string, description: string, amount: Option<string>, debit: Option<string>,
    credit: Option<string>, direction: Option<string>)

  /** The first column with this name, or -1: `indexOf`. */
  function FirstIndex(headers: seq<string>, name: string): (c: int)
    ensures -1 <= c < |headers| && (c == -1 <==> name !in headers)
    ensures c >= 0 ==> headers[c] == name && forall k :: 0 <= k < c ==> headers[k] != name
    decreases headers
  {
    if headers == [] then -1
    else if headers[0] == name then 0
    else
      var c := FirstIndex(headers[1..], name);
      if c >= 0 then c + 1 else -1
  }

  function ColumnOf(headers: seq<string>, name: Option<string>): (c: int)
    ensures -1 <= c < |headers| && (c == -1 <==> name.None? || name.value !in headers)
    ensures c >= 0 ==> name == Some(headers[c]) && forall k :: 0 <= k < c ==> headers[k] != headers[c]
  {
    if name.None? then -1 else FirstIndex(headers, name.value)
  }

  function ColumnsOf(headers: seq<string>, m: Mapping): Columns {
    Columns(ColumnOf(headers, Some(m.date)), ColumnOf(headers, Some(m.description)), ColumnOf(headers, m.amount),
            ColumnOf(headers, m.debit), ColumnOf(headers, m.credit), ColumnOf(headers, m.direction))
  }

  function Cell(raw: seq<string>, column: int): string {
    if 0 <= column < |raw| then raw[column] else ""
  }

  function ReadAmount(p: Parsers, convention: Convention, cols: Columns, raw: seq<string>): Option<int> {
    match convention
    case DebitCreditColumns =>
      var debit, credit := p.parseAmount(Cell(raw, cols.debit)), p.parseAmount(Cell(raw, cols.credit));
      var hasDebit, hasCredit := debit.Some? && debit.value != 0, credit.Some? && credit.value != 0;
      if hasDebit && hasCredit then None
      else if hasDebit then Some(-Abs(debit.value))
      else if hasCredit then Some(Abs(credit.value))
      else None
    case PositiveWithDirection =>
      var amount := p.parseAmount(Cell(raw, cols.amount));
      var direction := Cell(raw, cols.direction);
      if amount.None? || (!p.isOutflow(direction) && !p.isInflow(direction)) then None
      else if p.isOutflow(direction) then Some(-Abs(amount.value))
      else Some(Abs(amount.value))
    case Signed => p.parseAmount(Cell(raw, cols.amount))
  }

  datatype Input = Input(parsers: Parsers, headers: seq<string>, mapping: Mapping, ragged: set<nat>)

  /** What one row says, before any duplicate search. */
  function Read(input: Input, raw: seq<string>, line: nat): Reading {
    var p, columns := input.parsers, ColumnsOf(input.headers, input.mapping);
    if line in input.ragged then Invalid(Ragged)
    else
      var postedAt := p.parseDate(Cell(raw, columns.date));
      if postedAt.None? then Invalid(UnreadableDate)
      else
        var amount := ReadAmount(p, input.mapping.convention, columns, raw);
        if amount.None? then Invalid(UnreadableAmount)
        else if amount.value == 0 then Invalid(ZeroAmount)
        else
          var descriptor := p.trim(Cell(raw, columns.description));
          if descriptor == "" then Invalid(NoDescription)
          else Valid(Candidate(postedAt.value, amount.value, p.normalizeDescriptor(descriptor)), descriptor)
  }

  // ---------------------------------------------------------------- what a row is read as

  /** The text of a row in the column with this header: empty when the mapping has no name, no header has
      it, or the row is too short. */
  function TextUnder(input: Input, raw: seq<string>, name: Option<string>): string {
    Cell(raw, ColumnOf(input.headers, name))
  }

  lemma TextUnderIs(input: Input, raw: seq<string>, name: Option<string>, c: nat)
    requires name.Some? && c < |input.headers| && input.headers[c] == name.value
    requires forall k :: 0 <= k < c ==> input.headers[k] != name.value
    ensures TextUnder(input, raw, name) == if c < |raw| then raw[c] else ""
  {
    var found := ColumnOf(input.headers, name);
    assert input.headers[c] in input.headers;
  }

  lemma NoTextUnder(input: Input, raw: seq<string>, name: Option<string>)
    requires name.None? || name.value !in input.headers
    ensures TextUnder(input, raw, name) == ""
  {}

  function ParsedUnder(input: Input, raw: seq<string>, name: Option<string>): Option<int> {
    input.parsers.parseAmount(TextUnder(input, raw, name))
  }

  function DateUnder(input: Input, raw: seq<string>): Option<int> {
    input.parsers.parseDate(TextUnder(input, raw, Some(input.mapping.date)))
  }

  function WordsUnder(input: Input, raw: seq<string>): string {
    input.parsers.trim(TextUnder(input, raw, Some(input.mapping.description)))
  }

  predicate NonZero(n: Option<int>) {
    n.Some? && n.value != 0
  }

  /** A whole row that says when and what. */
  ghost predicate SaysWhenAndWhat(input: Input, raw: seq<string>, line: nat) {
    line !in input.ragged && DateUnder(input, raw).Some? && WordsUnder(input, raw) != ""
  }

  /** Read as valid, it carries the date and the description of its columns, and this amount. */
  ghost predicate ReadsAs(input: Input, raw: seq<string>, reading: Reading, amount: int) {
    && reading.Valid? && DateUnder(input, raw) == Some(reading.candidate.postedAt)
    && reading.candidate.amount == amount && reading.descriptor == WordsUnder(input, raw)
    && reading.candidate.normalizedDescriptor == input.parsers.normalizeDescriptor(reading.descriptor)
  }

  /** A debit is money out and a credit money in, whatever the sign in the column; a row must have one of
      the two. */
  lemma ReadsDebitOrCredit(input: Input, raw: seq<string>, line: nat)
    requires input.mapping.convention == DebitCreditColumns && SaysWhenAndWhat(input, raw, line)
    ensures var debit := ParsedUnder(input, raw, input.mapping.debit);
            var credit := ParsedUnder(input, raw, input.mapping.credit);
            var reading := Read(input, raw, line);
            && (NonZero(debit) && !NonZero(credit) ==>
                  ReadsAs(input, raw, reading, if debit.value > 0 then -debit.value else debit.value))
            && (NonZero(credit) && !NonZero(debit) ==>
                  ReadsAs(input, raw, reading, if credit.value > 0 then credit.value else -credit.value))
            && (NonZero(debit) == NonZero(credit) ==> reading == Invalid(UnreadableAmount))
  {}

  /** With a direction column the amount is money out under an outflow word, and money in under an inflow
      word that is not an outflow word too. */
  lemma ReadsDirection(input: Input, raw: seq<string>, line: nat)
    requires input.mapping.convention == PositiveWithDirection && SaysWhenAndWhat(input, raw, line)
    ensures var amount := ParsedUnder(input, raw, input.mapping.amount);
            var word, reading := TextUnder(input, raw, input.mapping.direction), Read(input, raw, line);
            var out, inflow := input.parsers.isOutflow(word), input.parsers.isInflow(word);
            && (NonZero(amount) && out ==>
                  ReadsAs(input, raw, reading, if amount.value > 0 then -amount.value else amount.value))
            && (NonZero(amount) && inflow && !out ==>
                  ReadsAs(input, raw, reading, if amount.value > 0 then amount.value else -amount.value))
            && (amount.None? || (!inflow && !out) ==> reading == Invalid(UnreadableAmount))
            && (amount == Some(0) && (inflow || out) ==> reading == Invalid(ZeroAmount))
  {}

  lemma ReadsSigned(input: Input, raw: seq<string>, line: nat)
    requires input.mapping.convention == Signed && SaysWhenAndWhat(input, raw, line)
    ensures var amount, reading := ParsedUnder(input, raw, input.mapping.amount), Read(input, raw, line);
            && (NonZero(amount) ==> ReadsAs(input, raw, reading, amount.value))
            && (amount.None? ==> reading == Invalid(UnreadableAmount))
            && (amount == Some(0) ==> reading == Invalid(ZeroAmount))
  {}

  /** A row that says how much: by debit or credit, by amount and direction, or by amount alone. */
  ghost predicate SaysHowMuch(input: Input, raw: seq<string>) {
    match input.mapping.convention
    case DebitCreditColumns =>
      NonZero(ParsedUnder(input, raw, input.mapping.debit)) != NonZero(ParsedUnder(input, raw, input.mapping.credit))
    case PositiveWithDirection =>
      var word := TextUnder(input, raw, input.mapping.direction);
      NonZero(ParsedUnder(input, raw, input.mapping.amount))
      && (input.parsers.isOutflow(word) || input.parsers.isInflow(word))
    case Signed => NonZero(ParsedUnder(input, raw, input.mapping.amount))
  }

  lemma AmountSaysHowMuch(input: Input, raw: seq<string>)
    ensures NonZero(ReadAmount(input.parsers, input.mapping.convention, ColumnsOf(input.headers, input.mapping), raw))
         == SaysHowMuch(input, raw)
  {}

  /** The first fault is reported: the columns, the date, the amount, the description. */
  lemma FaultsInOrder(input: Input, raw: seq<string>, line: nat)
    ensures var reading, whole, date := Read(input, raw, line), line !in input.ragged, DateUnder(input, raw);
            && (reading == Invalid(Ragged) <==> !whole)
            && (reading == Invalid(UnreadableDate) <==> whole && date.None?)
            && (reading in {Invalid(UnreadableAmount), Invalid(ZeroAmount)} <==>
                  whole && date.Some? && !SaysHowMuch(input, raw))
            && (reading == Invalid(NoDescription) <==>
                  whole && date.Some? && SaysHowMuch(input, raw) && WordsUnder(input, raw) == "")
  {
    AmountSaysHowMuch(input, raw);
  }

  /** So a row is valid exactly when it says when, what and how much. */
  lemma ValidExactly(input: Input, raw: seq<string>, line: nat)
    ensures Read(input, raw, line).Valid? <==> SaysWhenAndWhat(input, raw, line) && SaysHowMuch(input, raw)
  {
    FaultsInOrder(input, raw, line);
  }

  // ---------------------------------------------------------------- classifying the rows

  datatype Decision = Import | DuplicateOf(found: DuplicateMatch) | Rejected(fault: Fault)

  datatype ReviewedRow = ReviewedRow(line: nat, reading: Reading, decision: Decision)

  /** Line numbers start below the header line. */
  function ReadAll(input: Input, rows: seq<seq<string>>): (r: seq<Reading>)
    ensures |r| == |rows|
  {
    seq(|rows|, i requires 0 <= i < |rows| => Read(input, rows[i], i + 2))
  }

  function Decide(reading: Reading, existing: seq<Held>, accepted: seq<Held>): Decision {
    match reading
    case Invalid(fault) => Rejected(fault)
    case Valid(c, _) =>
      var found := if Duplicate(c, existing).Some? then Duplicate(c, existing) else Duplicate(c, accepted);
      if found.Some? then DuplicateOf(found.value) else Import
  }

  /** The ledger entry a candidate becomes. */
  function Entry(id: string, c: Candidate): Held {
    Held(id, c.postedAt, c.amount, c.normalizedDescriptor)
  }

  function PendingId(line: nat): string {
    "pending-" + Decimal(line)
  }

  function Decimal(n: nat): string {
    if n < 10 then [('0' as int + n) as char] else Decimal(n / 10) + [('0' as int + n % 10) as char]
  }

  /** The rows of this file accepted among the first `n`. */
  function Accepted(readings: seq<Reading>, existing: seq<Held>, n: nat): seq<Held>
    requires n <= |readings|
  {
    if n == 0 then []
    else
      var before := Accepted(readings, existing, n - 1);
      if Decide(readings[n - 1], existing, before) == Import
      then before + [Entry(PendingId(n + 1), readings[n - 1].candidate)] else before
  }

  function DecisionAt(readings: seq<Reading>, existing: seq<Held>, i: nat): Decision
    requires i < |readings|
  {
    Decide(readings[i], existing, Accepted(readings, existing, i))
  }

  function Reviewed(readings: seq<Reading>, existing: seq<Held>): (r: seq<ReviewedRow>)
    ensures |r| == |readings|
  {
    seq(|readings|, i requires 0 <= i < |readings| =>
      ReviewedRow(i + 2, readings[i], DecisionAt(readings, existing, i)))
  }

  datatype Summary = Summary(
    total: nat, importable: nat, duplicates: nat, invalid: nat, netAmount: int, dateRange: Option<(int, int)>)

  function Importable(rows: seq<ReviewedRow>): seq<Candidate>
  {
    if rows == [] then []
    else (if rows[0].decision.Import? && rows[0].reading.Valid? then [rows[0].reading.candidate] else [])
         + Importable(rows[1..])
  }

  function Sum(cs: seq<Candidate>): int {
    if cs == [] then 0 else cs[0].amount + Sum(cs[1..])
  }

  function DatesOf(cs: seq<Candidate>): seq<int> {
    seq(|cs|, i requires 0 <= i < |cs| => cs[i].postedAt)
  }

  function Ends(dates: seq<int>): Option<(int, int)> {
    var sorted := SortBy((a: int, b: int) => a <= b, dates);
    if sorted == [] then None else Some((sorted[0], sorted[|sorted| - 1]))
  }

  function CountDuplicates(rows: seq<ReviewedRow>): nat {
    if rows == [] then 0 else (if rows[0].decision.DuplicateOf? then 1 else 0) + CountDuplicates(rows[1..])
  }

  function CountInvalid(rows: seq<ReviewedRow>): nat {
    if rows == [] then 0 else (if rows[0].decision.Rejected? then 1 else 0) + CountInvalid(rows[1..])
  }

  function Summarise(rows: seq<ReviewedRow>): Summary {
    var importable := Importable(rows);
    Summary(|rows|, |importable|, CountDuplicates(rows), CountInvalid(rows), Sum(importable), Ends(DatesOf(importable)))
  }

  /** The first `n` reviewed rows. */
  function ReviewedUpto(readings: seq<Reading>, existing: seq<Held>, n: nat): seq<ReviewedRow>
    requires n <= |readings|
  {
    Reviewed(readings, existing)[..n]
  }

  lemma ReviewNext(readings: seq<Reading>, existing: seq<Held>, n: nat, accepted: seq<Held>)
    requires n < |readings| && accepted == Accepted(readings, existing, n)
    ensures var decision := Decide(readings[n], existing, accepted);
            && ReviewedUpto(readings, existing, n + 1)
               == ReviewedUpto(readings, existing, n) + [ReviewedRow(n + 2, readings[n], decision)]
            && Accepted(readings, existing, n + 1)
               == accepted + (if decision == Import then [Entry(PendingId(n + 2), readings[n].candidate)] else [])
  {}

  method ReviewImport(input: Input, rows: seq<seq<string>>, existing: seq<Held>)
    returns (reviewed: seq<ReviewedRow>, summary: Summary)
    ensures reviewed == Reviewed(ReadAll(input, rows), existing)
    ensures summary == Summarise(reviewed)
  {
    ghost var readings := ReadAll(input, rows);
    var acceptedInThisFile: seq<Held> := [];
    reviewed := [];
    for index := 0 to |rows|
      invariant reviewed == ReviewedUpto(readings, existing, index)
      invariant acceptedInThisFile == Accepted(readings, existing, index)
    {
      ReviewNext(readings, existing, index, acceptedInThisFile);
      var line := index + 2;
      var reading := Read(input, rows[index], line);
      var decision: Decision;
      if reading.Invalid? {
        decision := Rejected(reading.fault);
      } else {
        var found := FindDuplicate(reading.candidate, existing);
        if found.None? { found := FindDuplicate(reading.candidate, acceptedInThisFile); }
        if found.Some? {
          decision := DuplicateOf(found.value);
        } else {
          decision := Import;
          acceptedInThisFile := acceptedInThisFile + [Entry(PendingId(line), reading.candidate)];
        }
      }
      reviewed := reviewed + [ReviewedRow(line, reading, decision)];
    }
    assert reviewed == Reviewed(readings, existing);
    summary := Summarise(reviewed);
  }

  // ---------------------------------------------------------------- laws

  /** Nothing is dropped: a row is imported, a duplicate, or invalid. */
  lemma {:induction false} SummaryPartitions(rows: seq<ReviewedRow>)
    requires forall i :: 0 <= i < |rows| ==> (rows[i].decision.Import? ==> rows[i].reading.Valid?)
    ensures var s := Summarise(rows); s.total == s.importable + s.duplicates + s.invalid
  {
    if rows != [] { SummaryPartitions(rows[1..]); }
  }

  lemma {:induction false} ImportableAppend(rows: seq<ReviewedRow>, row: ReviewedRow)
    ensures Importable(rows + [row])
         == Importable(rows) + (if row.decision.Import? && row.reading.Valid? then [row.reading.candidate] else [])
  {
    if rows == [] {
      assert rows + [row] == [row];
    } else {
      assert (rows + [row])[1..] == rows[1..] + [row];
      ImportableAppend(rows[1..], row);
    }
  }

  lemma {:induction false} DuplicatesAppend(rows: seq<ReviewedRow>, row: ReviewedRow)
    ensures CountDuplicates(rows + [row]) == CountDuplicates(rows) + if row.decision.DuplicateOf? then 1 else 0
  {
    if rows == [] {
      assert rows + [row] == [row];
    } else {
      assert (rows + [row])[1..] == rows[1..] + [row];
      DuplicatesAppend(rows[1..], row);
    }
  }

  lemma {:induction false} InvalidAppend(rows: seq<ReviewedRow>, row: ReviewedRow)
    ensures CountInvalid(rows + [row]) == CountInvalid(rows) + if row.decision.Rejected? then 1 else 0
  {
    if rows == [] {
      assert rows + [row] == [row];
    } else {
      assert (rows + [row])[1..] == rows[1..] + [row];
      InvalidAppend(rows[1..], row);
    }
  }

  lemma {:induction false} SumAppend(cs: seq<Candidate>, c: Candidate)
    ensures Sum(cs + [c]) == Sum(cs) + c.amount
  {
    if cs == [] {
      assert cs + [c] == [c];
    } else {
      assert (cs + [c])[1..] == cs[1..] + [c];
      SumAppend(cs[1..], c);
    }
  }

  /** What one more row adds to the summary: one to the count of its decision, and its amount if it is
      imported. */
  lemma SummaryAdds(rows: seq<ReviewedRow>, row: ReviewedRow)
    requires row.decision.Import? ==> row.reading.Valid?
    ensures Summarise([]) == Summary(0, 0, 0, 0, 0, None)
    ensures var s, t := Summarise(rows), Summarise(rows + [row]);
      && t.total == s.total + 1
      && t.importable == s.importable + (if row.decision.Import? then 1 else 0)
      && t.duplicates == s.duplicates + (if row.decision.DuplicateOf? then 1 else 0)
      && t.invalid == s.invalid + (if row.decision.Rejected? then 1 else 0)
      && t.netAmount == s.netAmount + (if row.decision.Import? then row.reading.candidate.amount else 0)
  {
    ImportableAppend(rows, row);
    DuplicatesAppend(rows, row);
    InvalidAppend(rows, row);
    if row.decision.Import? {
      SumAppend(Importable(rows), row.reading.candidate);
    } else {
      assert Importable(rows) + [] == Importable(rows);
    }
    EndsSpan([]);
    assert DatesOf([]) == [];
  }

  /** The number that decimal digits spell. */
  function Spelled(digits: string): int {
    if digits == "" then 0
    else 10 * Spelled(digits[..|digits| - 1]) + (digits[|digits| - 1] as int - '0' as int)
  }

  lemma {:induction false} DecimalSpells(n: nat)
    ensures Spelled(Decimal(n)) == n && forall c :: c in Decimal(n) ==> '0' <= c <= '9'
  {
    if n >= 10 {
      DecimalSpells(n / 10);
      assert Decimal(n)[..|Decimal(n)| - 1] == Decimal(n / 10);
    }
  }

  /** Rows accepted from one file have different ids. */
  lemma PendingIdsDiffer(a: nat, b: nat)
    ensures PendingId(a) == PendingId(b) <==> a == b
  {
    DecimalSpells(a);
    DecimalSpells(b);
    if PendingId(a) == PendingId(b) {
      assert PendingId(a)[|"pending-"|..] == Decimal(a) && PendingId(b)[|"pending-"|..] == Decimal(b);
    }
  }

  ghost predicate Spans(range: Option<(int, int)>, dates: seq<int>) {
    if dates == [] then range.None?
    else range.Some? && range.value.0 in dates && range.value.1 in dates
         && forall d :: d in dates ==> range.value.0 <= d <= range.value.1
  }

  /** The date range is the smallest and the largest importable date. */
  lemma EndsSpan(dates: seq<int>)
    ensures Spans(Ends(dates), dates)
  {
    var le := (a: int, b: int) => a <= b;
    var sorted := SortBy(le, dates);
    SortElements(le, dates);
    SameElements(sorted, dates);
    SortSorted(le, dates);
    forall d | d in dates && sorted != [] ensures sorted[0] <= d <= sorted[|sorted| - 1] {
      var i :| 0 <= i < |sorted| && sorted[i] == d;
      if i > 0 { assert le(sorted[0], sorted[i]); }
      if i < |sorted| - 1 { assert le(sorted[i], sorted[|sorted| - 1]); }
    }
  }

  lemma {:induction false} AcceptedAreImported(readings: seq<Reading>, existing: seq<Held>, n: nat, t: Held)
    requires n <= |readings| && t in Accepted(readings, existing, n)
    ensures exists i :: 0 <= i < n && DecisionAt(readings, existing, i) == Import
              && readings[i].Valid? && t == Entry(PendingId(i + 2), readings[i].candidate)
  {
    var before := Accepted(readings, existing, n - 1);
    if t in before {
      AcceptedAreImported(readings, existing, n - 1, t);
    } else {
      assert DecisionAt(readings, existing, n - 1) == Import;
    }
  }

  lemma {:induction false} ImportedAreAccepted(readings: seq<Reading>, existing: seq<Held>, n: nat, i: nat)
    requires i < n <= |readings| && DecisionAt(readings, existing, i) == Import
    ensures readings[i].Valid? && Entry(PendingId(i + 2), readings[i].candidate) in Accepted(readings, existing, n)
  {
    if i < n - 1 { ImportedAreAccepted(readings, existing, n - 1, i); }
  }

  /** A row is imported exactly when it is valid and matches neither the ledger nor a row of the
      same file imported before it. */
  lemma ImportedExactly(readings: seq<Reading>, existing: seq<Held>, i: nat)
    requires i < |readings|
    ensures DecisionAt(readings, existing, i) == Import <==>
              && readings[i].Valid?
              && (forall t :: t in existing ==> !Matches(readings[i].candidate, t))
              && (forall j :: 0 <= j < i && DecisionAt(readings, existing, j) == Import ==>
                    !Matches(readings[i].candidate, Entry(PendingId(j + 2), readings[j].candidate)))
  {
    var accepted := Accepted(readings, existing, i);
    if readings[i].Valid? {
      var c := readings[i].candidate;
      DuplicateLaws(c, existing);
      DuplicateLaws(c, accepted);
      forall j | 0 <= j < i && DecisionAt(readings, existing, j) == Import
        ensures Entry(PendingId(j + 2), readings[j].candidate) in accepted
      {
        ImportedAreAccepted(readings, existing, i, j);
      }
      forall t | t in accepted
        ensures exists j :: 0 <= j < i && DecisionAt(readings, existing, j) == Import
                  && readings[j].Valid? && t == Entry(PendingId(j + 2), readings[j].candidate)
      {
        AcceptedAreImported(readings, existing, i, t);
      }
    }
  }

  /** `ledger` holds the old rows and, under any id, every row the review let through. */
  ghost predicate Joined(ledger: seq<Held>, readings: seq<Reading>, existing: seq<Held>) {
    && (forall t :: t in existing ==> t in ledger)
    && (forall i :: 0 <= i < |readings| && DecisionAt(readings, existing, i) == Import ==>
          exists id :: Entry(id, readings[i].candidate) in ledger)
  }

  lemma MatchIgnoresId(c: Candidate, d: Candidate, a: string, b: string)
    ensures Matches(c, Entry(a, d)) == Matches(c, Entry(b, d))
  {}

  /** Some row of the joined ledger matches every valid row of the file. */
  lemma ValidRowMatches(readings: seq<Reading>, existing: seq<Held>, ledger: seq<Held>, i: nat)
    requires i < |readings| && readings[i].Valid? && Joined(ledger, readings, existing)
    ensures exists t :: t in ledger && Matches(readings[i].candidate, t)
  {
    var c := readings[i].candidate;
    ImportedExactly(readings, existing, i);
    if DecisionAt(readings, existing, i) == Import {
      var id :| Entry(id, c) in ledger;
      IdenticalMatches(c, Entry(id, c));
    } else if j :| 0 <= j < i && DecisionAt(readings, existing, j) == Import
                   && Matches(c, Entry(PendingId(j + 2), readings[j].candidate)) {
      var id :| Entry(id, readings[j].candidate) in ledger;
      MatchIgnoresId(c, readings[j].candidate, id, PendingId(j + 2));
    }
  }

  /** Reviewing a file again after its importable rows joined the ledger: valid rows are
      duplicates, invalid rows stay invalid for the same reason. */
  lemma SecondReview(readings: seq<Reading>, existing: seq<Held>, ledger: seq<Held>, i: nat)
    requires i < |readings| && Joined(ledger, readings, existing)
    ensures if readings[i].Valid? then DecisionAt(readings, ledger, i).DuplicateOf?
            else DecisionAt(readings, ledger, i) == DecisionAt(readings, existing, i) == Rejected(readings[i].fault)
  {
    if readings[i].Valid? {
      ValidRowMatches(readings, existing, ledger, i);
      DuplicateLaws(readings[i].candidate, ledger);
    }
  }

  lemma {:induction false} NothingImportable(rows: seq<ReviewedRow>)
    requires forall i :: 0 <= i < |rows| ==> !rows[i].decision.Import?
    ensures Importable(rows) == []
  {
    if rows != [] { NothingImportable(rows[1..]); }
  }

  /** So the second review imports nothing and moves no money. */
  lemma SecondReviewImportsNothing(input: Input, rows: seq<seq<string>>, existing: seq<Held>, ledger: seq<Held>)
    requires Joined(ledger, ReadAll(input, rows), existing)
    ensures var s := Summarise(Reviewed(ReadAll(input, rows), ledger));
            s.importable == 0 && s.netAmount == 0 && s.dateRange.None? && s.total == s.duplicates + s.invalid
  {
    var readings := ReadAll(input, rows);
    var again := Reviewed(readings, ledger);
    forall i | 0 <= i < |again| ensures !again[i].decision.Import? { SecondReview(readings, existing, ledger, i); }
    NothingImportable(again);
    SummaryPartitions(again);
    EndsSpan(DatesOf(Importable(again)));
  }
}
