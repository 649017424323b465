/**
 The table of runtime errors: an upsert keyed by trimmed message and file, clearing by
 instance, clean-up by age, and the summary.  SHA-256 is taken as injective, so a row's
 hash is its key.  A statement may fail; then it changes nothing.
 */
module ErrorTable {
  import opened Options
  import opened Sequences
  import opened StableSorting
  import opened Tallies
  import opened Text

  /** A detected error; an absent source file is "". */
  datatype ParsedError = ParsedError(
    category: string, severity: string, message: string, sourceFile: string, line: Option<nat>, rawOutput: string)

  datatype Row = Row(
    instance: string, key: string, category: string, severity: string, message: string,
    sourceFile: string, line: Option<nat>, first: int, last: int, count: nat, created: int)

  function Key(e: ParsedError): string {
    Trim(e.message) + "|" + e.sourceFile
  }

  /** The row of a first occurrence; a line number 0 is stored as null. */
  function NewRow(instance: string, e: ParsedError, now: int): Row {
    Row(instance, Key(e), e.category, e.severity, e.message, e.sourceFile,
        if e.line == Some(0) then None else e.line, now, now, 1, now)
  }

  predicate Has(rows: seq<Row>, key: string) {
    exists i :: 0 <= i < |rows| && rows[i].key == key
  }

  /** The place of the row with a key, or the length of the table. */
  function Find(rows: seq<Row>, key: string): (i: nat)
    ensures i <= |rows|
    ensures i < |rows| ==> rows[i].key == key
    ensures i == |rows| ==> !Has(rows, key)
  {
    if rows == [] then 0
    else if rows[|rows| - 1].key == key then |rows| - 1
    else
      var t := rows[..|rows| - 1];
      var i := Find(t, key);
      if i == |t| then
        assert forall j :: 0 <= j < |t| ==> t[j].key == rows[j].key != key;
        |rows|
      else i
  }

  /** One more occurrence of a stored error, at time `now`. */
  function Touch(row: Row, now: int): Row {
    row.(last := now, count := row.count + 1)
  }

  /** INSERT ... ON CONFLICT(error_hash) DO UPDATE, over the whole table. */
  function Upsert(rows: seq<Row>, row: Row): seq<Row> {
    var i := Find(rows, row.key);
    if i < |rows| then rows[i := Touch(rows[i], row.last)] else rows + [row]
  }

  ghost predicate UniqueKeys(rows: seq<Row>) {
    forall i, j :: 0 <= i < j < |rows| ==> rows[i].key != rows[j].key
  }

  ghost predicate Positive(rows: seq<Row>) {
    forall i :: 0 <= i < |rows| ==> rows[i].count > 0
  }

  function CountOf(r: Row): nat { r.count }
  function CategoryOf(r: Row): string { r.category }
  function SeverityOf(r: Row): string { r.severity }
  function One(r: Row): nat { 1 }
  function RepeatsOf(r: Row): nat { if r.count > 0 then r.count - 1 else 0 }

  /** All occurrences recorded in the rows. */
  function Occurrences(rows: seq<Row>): nat {
    TotalWeight(rows, CountOf)
  }

  /** The occurrence count of a key, 0 when it has no row. */
  function CountAt(rows: seq<Row>, key: string): nat {
    if Find(rows, key) < |rows| then rows[Find(rows, key)].count else 0
  }

  lemma {:induction false} OccurrencesUpdate(rows: seq<Row>, i: nat, now: int)
    requires i < |rows|
    ensures Occurrences(rows[i := Touch(rows[i], now)]) == Occurrences(rows) + 1
  {
    var n := |rows| - 1;
    if i < n {
      OccurrencesUpdate(rows[..n], i, now);
      assert rows[i := Touch(rows[i], now)][..n] == rows[..n][i := Touch(rows[i], now)];
    } else {
      assert rows[i := Touch(rows[i], now)][..n] == rows[..n];
    }
  }

  /** An upsert adds one occurrence to its key and leaves every other key alone. */
  lemma UpsertCounts(rows: seq<Row>, row: Row, key: string)
    requires UniqueKeys(rows) && Positive(rows) && row.count == 1
    ensures UniqueKeys(Upsert(rows, row)) && Positive(Upsert(rows, row))
    ensures Occurrences(Upsert(rows, row)) == Occurrences(rows) + 1
    ensures CountAt(Upsert(rows, row), key) == CountAt(rows, key) + if key == row.key then 1 else 0
  {
    var i, t := Find(rows, row.key), Upsert(rows, row);
    if i < |rows| {
      OccurrencesUpdate(rows, i, row.last);
    } else {
      assert (rows + [row])[..|rows|] == rows;
    }
    assert UniqueKeys(t);
    FindUnique(rows, key);
    FindUnique(t, key);
    var j := Find(rows, key);
    if j < |rows| {
      assert t[j].key == key;
    } else if key == row.key {
      assert t[|rows|].key == key;
    } else {
      assert forall i :: 0 <= i < |t| ==> t[i].key != key;
    }
  }

  /** With unique keys, the place of a key is the only one. */
  lemma FindUnique(rows: seq<Row>, key: string)
    requires UniqueKeys(rows)
    ensures forall i :: 0 <= i < |rows| && rows[i].key == key ==> Find(rows, key) == i
  {}

  // ---- Deleting ----

  predicate OlderThan(r: Row, cutoff: int) { r.created < cutoff }

  function Without(rows: seq<Row>, instance: string): seq<Row> {
    Filter(rows, (r: Row) => r.instance != instance)
  }

  function Since(rows: seq<Row>, cutoff: int): seq<Row> {
    Filter(rows, (r: Row) => !OlderThan(r, cutoff))
  }

  /** Deleting by any condition keeps the rows that remain as they are. */
  lemma DeleteKeeps(rows: seq<Row>, p: Row -> bool, key: string)
    requires UniqueKeys(rows) && Positive(rows)
    ensures UniqueKeys(Filter(rows, p)) && Positive(Filter(rows, p))
    ensures Has(Filter(rows, p), key) ==> Has(rows, key) && CountAt(Filter(rows, p), key) == CountAt(rows, key)
  {
    var t := Filter(rows, p);
    var at := FilterPlaces(rows, p);
    assert UniqueKeys(t);
    FindUnique(rows, key);
    FindUnique(t, key);
  }

  // ---- All runs, over all instances ----

  datatype Event =
    | Store(instance: string, error: ParsedError, now: int, ok: bool)
    | Clear(instance: string, ok: bool)
    | CleanUp(cutoff: int, ok: bool)

  function Step(rows: seq<Row>, e: Event): seq<Row> {
    match e
    case Store(instance, error, now, ok) => if ok then Upsert(rows, NewRow(instance, error, now)) else rows
    case Clear(instance, ok) => if ok then Without(rows, instance) else rows
    case CleanUp(cutoff, ok) => if ok then Since(rows, cutoff) else rows
  }

  function Table(es: seq<Event>): seq<Row> {
    if es == [] then [] else Step(Table(es[..|es| - 1]), es[|es| - 1])
  }

  predicate Stores(e: Event) {
    e.Store? && e.ok
  }

  /** The successful stores of a key since its row was created; 0 while it has no row. */
  function StoresSinceCreation(es: seq<Event>, key: string): nat {
    if es == [] then 0
    else
      var e, before := es[|es| - 1], StoresSinceCreation(es[..|es| - 1], key);
      if Stores(e) && Key(e.error) == key then before + 1
      else if Has(Table(es), key) then before
      else 0
  }

  function AllStores(es: seq<Event>): nat {
    if es == [] then 0 else AllStores(es[..|es| - 1]) + if Stores(es[|es| - 1]) then 1 else 0
  }

  /** The occurrences that went with deleted rows. */
  function DeletedOccurrences(es: seq<Event>): nat {
    if es == [] then 0
    else DeletedOccurrences(es[..|es| - 1]) + Discarded(Table(es[..|es| - 1]), es[|es| - 1])
  }

  function Discarded(rows: seq<Row>, e: Event): nat {
    match e
    case Clear(instance, true) => Occurrences(Filter(rows, (r: Row) => r.instance == instance))
    case CleanUp(cutoff, true) => Occurrences(Filter(rows, (r: Row) => OlderThan(r, cutoff)))
    case _ => 0
  }

  lemma OccurrencesAppend(rows: seq<Row>, l: Row)
    ensures Occurrences(rows + [l]) == Occurrences(rows) + l.count && rows + [] == rows
  {
    assert (rows + [l])[..|rows|] == rows;
  }

  lemma {:induction false} OccurrencesSplit(rows: seq<Row>, p: Row -> bool, q: Row -> bool)
    requires forall r :: p(r) <==> !q(r)
    ensures Occurrences(rows) == Occurrences(Filter(rows, p)) + Occurrences(Filter(rows, q))
  {
    if rows != [] {
      var t, l := rows[..|rows| - 1], rows[|rows| - 1];
      OccurrencesSplit(t, p, q);
      OccurrencesAppend(Filter(t, p), l);
      OccurrencesAppend(Filter(t, q), l);
    }
  }

  lemma StepCounts(rows: seq<Row>, e: Event, key: string)
    requires UniqueKeys(rows) && Positive(rows)
    ensures UniqueKeys(Step(rows, e)) && Positive(Step(rows, e))
    ensures Stores(e) && Key(e.error) == key ==> CountAt(Step(rows, e), key) == CountAt(rows, key) + 1
    ensures !(Stores(e) && Key(e.error) == key) && Has(Step(rows, e), key) ==>
              CountAt(Step(rows, e), key) == CountAt(rows, key)
    ensures Occurrences(Step(rows, e)) + Discarded(rows, e) == Occurrences(rows) + if Stores(e) then 1 else 0
  {
    match e
    case Store(instance, error, now, ok) =>
      if ok {
        UpsertCounts(rows, NewRow(instance, error, now), key);
      }
    case Clear(instance, ok) =>
      DeleteKeeps(rows, (r: Row) => r.instance != instance, key);
      OccurrencesSplit(rows, (r: Row) => r.instance != instance, (r: Row) => r.instance == instance);
    case CleanUp(cutoff, ok) =>
      DeleteKeeps(rows, (r: Row) => !OlderThan(r, cutoff), key);
      OccurrencesSplit(rows, (r: Row) => !OlderThan(r, cutoff), (r: Row) => OlderThan(r, cutoff));
  }

  /** Over every run there is at most one row per key, and its count is the number of
      successful stores of that key since the row was created. */
  lemma {:induction false} CountsAreStores(es: seq<Event>, key: string)
    ensures UniqueKeys(Table(es)) && Positive(Table(es))
    ensures CountAt(Table(es), key) == StoresSinceCreation(es, key)
  {
    if es != [] {
      CountsAreStores(es[..|es| - 1], key);
      StepCounts(Table(es[..|es| - 1]), es[|es| - 1], key);
    }
  }

  /** Live occurrences and occurrences deleted with their rows are together all successful stores. */
  lemma {:induction false} OccurrencesConserved(es: seq<Event>)
    ensures Occurrences(Table(es)) + DeletedOccurrences(es) == AllStores(es)
  {
    if es != [] {
      OccurrencesConserved(es[..|es| - 1]);
      CountsAreStores(es[..|es| - 1], "");
      StepCounts(Table(es[..|es| - 1]), es[|es| - 1], "");
    }
  }

  /** What a deletion leaves: every row of the other instances, every row created at the cutoff or later. */
  lemma DeletedAre(rows: seq<Row>, instance: string, cutoff: int, r: Row)
    ensures r in Step(rows, Clear(instance, true)) <==> r in rows && r.instance != instance
    ensures r in Step(rows, CleanUp(cutoff, true)) <==> r in rows && r.created >= cutoff
    ensures Step(rows, Clear(instance, false)) == rows && Step(rows, CleanUp(cutoff, false)) == rows
  {
    FilterMember(rows, (x: Row) => x.instance != instance);
    FilterMember(rows, (x: Row) => !OlderThan(x, cutoff));
  }

  function RowAt(rows: seq<Row>, key: string): Option<Row> {
    if Find(rows, key) < |rows| then Some(rows[Find(rows, key)]) else None
  }

  lemma RowAtUpsert(rows: seq<Row>, row: Row, key: string)
    requires UniqueKeys(rows) && Positive(rows) && row.count == 1
    ensures RowAt(Upsert(rows, row), key) ==
              if key != row.key then RowAt(rows, key)
              else if Has(rows, key) then
                var r := RowAt(rows, key).value; Some(r.(last := row.last, count := r.count + 1))
              else Some(row)
  {
    UpsertCounts(rows, row, key);
    var t := Upsert(rows, row);
    FindUnique(rows, key);
    FindUnique(t, key);
    var j := Find(rows, key);
    if j < |rows| {
      assert t[j].key == key;
    } else if key == row.key {
      assert t[|rows|] == row;
    }
  }

  lemma RowAtFilter(rows: seq<Row>, p: Row -> bool, key: string)
    requires UniqueKeys(rows) && Positive(rows)
    ensures RowAt(Filter(rows, p), key).None? || RowAt(Filter(rows, p), key) == RowAt(rows, key)
  {
    DeleteKeeps(rows, p, key);
    var at := FilterPlaces(rows, p);
    FindUnique(rows, key);
  }

  /** The store that created the present row of a key. */
  function Creator(es: seq<Event>, key: string): Option<Event> {
    if es == [] || !Has(Table(es), key) then None
    else if Has(Table(es[..|es| - 1]), key) then Creator(es[..|es| - 1], key)
    else Some(es[|es| - 1])
  }

  /** The time of the last successful store of a key. */
  function LastStored(es: seq<Event>, key: string): Option<int> {
    if es == [] then None
    else if Stores(es[|es| - 1]) && Key(es[|es| - 1].error) == key then Some(es[|es| - 1].now)
    else LastStored(es[..|es| - 1], key)
  }

  /** Over every run, the row of a key has the instance, fields and first time of the store that created it,
      and the time of the last successful store of the key. */
  lemma {:induction false} RowsRemember(es: seq<Event>, key: string)
    ensures var r := RowAt(Table(es), key);
            r.Some? ==>
              var c := Creator(es, key);
              && c.Some? && c.value.Store?
              && r.value.key == key == Trim(c.value.error.message) + "|" + c.value.error.sourceFile
              && r.value.instance == c.value.instance && r.value.category == c.value.error.category
              && r.value.severity == c.value.error.severity && r.value.message == c.value.error.message
              && r.value.sourceFile == c.value.error.sourceFile
              && r.value.line == (if c.value.error.line == Some(0) then None else c.value.error.line)
              && r.value.first == r.value.created == c.value.now && Some(r.value.last) == LastStored(es, key)
  {
    if es != [] {
      var before, e := es[..|es| - 1], es[|es| - 1];
      var rows := Table(before);
      RowsRemember(before, key);
      CountsAreStores(before, key);
      match e
      case Store(instance, error, now, ok) =>
        if ok {
          RowAtUpsert(rows, NewRow(instance, error, now), key);
        }
      case Clear(instance, ok) => RowAtFilter(rows, (r: Row) => r.instance != instance, key);
      case CleanUp(cutoff, ok) => RowAtFilter(rows, (r: Row) => !OlderThan(r, cutoff), key);
    }
  }

  // ---- Reading ----

  function Mine(rows: seq<Row>, instance: string): seq<Row> {
    Filter(rows, (r: Row) => r.instance == instance)
  }

  /** SELECT * ... WHERE instance_id = ? ORDER BY last_occurrence DESC. */
  function Select(rows: seq<Row>, instance: string): seq<Row> {
    StableSort(Mine(rows, instance), (r: Row) => -r.last)
  }

  /** Exactly the rows of the instance are selected, each as often as it is stored, most recent first. */
  lemma SelectedAre(rows: seq<Row>, instance: string)
    ensures forall r :: r in Select(rows, instance) <==> r in rows && r.instance == instance
    ensures |Select(rows, instance)| == Count(rows, (r: Row) => r.instance == instance)
    ensures var s := Select(rows, instance); forall i, j :: 0 <= i < j < |s| ==> s[i].last >= s[j].last
  {
    var byAge := (r: Row) => -r.last;
    FilterMember(rows, (r: Row) => r.instance == instance);
    SortSorts(Mine(rows, instance), byAge);
    SortMembers(Mine(rows, instance), byAge);
    var s := Select(rows, instance);
    forall i, j | 0 <= i < j < |s| ensures s[i].last >= s[j].last {
      assert byAge(s[i]) <= byAge(s[j]);
    }
  }

  datatype Summary = Summary(
    totalErrors: nat, uniqueErrors: nat, repeatedErrors: int,
    byCategory: map<string, nat>, bySeverity: map<string, nat>,
    latestError: Option<int>, oldestError: Option<int>)

  /** What a summary promises about the selected rows. */
  ghost predicate Summarizes(m: Summary, selected: seq<Row>) {
    && m.totalErrors == Occurrences(selected) && m.uniqueErrors == |selected|
    && m.repeatedErrors == m.totalErrors - |selected|
    && m.byCategory == Tally(selected, CategoryOf, One) && m.bySeverity == Tally(selected, SeverityOf, One)
    && m.latestError == (if selected == [] then None else Some(selected[0].last))
    && m.oldestError == (if selected == [] then None else Some(selected[|selected| - 1].first))
  }

  lemma {:induction false} OnesCount(rows: seq<Row>)
    ensures TotalWeight(rows, One) == |rows|
  {
    if rows != [] {
      OnesCount(rows[..|rows| - 1]);
    }
  }

  /** The number of rows with `k` in one column, by scanning. */
  function CountWhere(rows: seq<Row>, key: Row -> string, k: string): nat {
    Count(rows, (r: Row) => key(r) == k)
  }

  lemma {:induction false} OnesAt(rows: seq<Row>, key: Row -> string, k: string)
    ensures WeightAt(rows, key, One, k) == CountWhere(rows, key, k)
  {
    if rows != [] {
      OnesAt(rows[..|rows| - 1], key, k);
    }
  }

  /** Every occurrence is the first of its row or a repeat. */
  lemma {:induction false} FirstsAndRepeats(rows: seq<Row>)
    requires Positive(rows)
    ensures Occurrences(rows) == |rows| + TotalWeight(rows, RepeatsOf)
  {
    if rows != [] {
      FirstsAndRepeats(rows[..|rows| - 1]);
    }
  }

  lemma SelectedRows(rows: seq<Row>, instance: string)
    requires UniqueKeys(rows) && Positive(rows)
    ensures |Select(rows, instance)| == |Mine(rows, instance)| && Positive(Select(rows, instance))
  {
    var mine, selected := Mine(rows, instance), Select(rows, instance);
    DeleteKeeps(rows, (r: Row) => r.instance == instance, "");
    SortSorts(mine, (r: Row) => -r.last);
    SortMembers(mine, (r: Row) => -r.last);
    forall i | 0 <= i < |selected| ensures selected[i].count > 0 {
      assert selected[i] in mine;
    }
  }

  lemma SelectedIsStored(rows: seq<Row>, instance: string, r: Row)
    requires UniqueKeys(rows) && r in Select(rows, instance)
    ensures CountAt(rows, r.key) == r.count
  {
    SortMembers(Mine(rows, instance), (x: Row) => -x.last);
    FilterMember(rows, (x: Row) => x.instance == instance);
    var i :| 0 <= i < |rows| && rows[i] == r;
    FindUnique(rows, r.key);
  }

  /** For any table a run can reach, the summary's parts fit together and agree with a scan of the
      instance's rows: the repeats are the occurrences after the first of every row, and each row's
      occurrences are the successful stores of its key since it was created. */
  lemma SummaryAddsUp(es: seq<Event>, instance: string, m: Summary, category: string, severity: string)
    requires Summarizes(m, Select(Table(es), instance))
    ensures m.totalErrors == m.uniqueErrors + m.repeatedErrors
    ensures m.repeatedErrors == TotalWeight(Select(Table(es), instance), RepeatsOf)
    ensures forall r :: r in Select(Table(es), instance) ==> r.count == StoresSinceCreation(es, r.key)
    ensures m.uniqueErrors == |Mine(Table(es), instance)|
    ensures Total(m.byCategory) == m.uniqueErrors && Total(m.bySeverity) == m.uniqueErrors
    ensures (if category in m.byCategory then m.byCategory[category] else 0)
            == CountWhere(Select(Table(es), instance), CategoryOf, category)
    ensures (if severity in m.bySeverity then m.bySeverity[severity] else 0)
            == CountWhere(Select(Table(es), instance), SeverityOf, severity)
  {
    var selected := Select(Table(es), instance);
    CountsAreStores(es, "");
    SelectedRows(Table(es), instance);
    forall r | r in selected ensures r.count == StoresSinceCreation(es, r.key) {
      CountsAreStores(es, r.key);
      SelectedIsStored(Table(es), instance, r);
    }
    FirstsAndRepeats(selected);
    OnesCount(selected);
    TallyTotals(selected, CategoryOf, One);
    TallyTotals(selected, SeverityOf, One);
    TallyIsScan(selected, CategoryOf, One, category);
    OnesAt(selected, CategoryOf, category);
    TallyIsScan(selected, SeverityOf, One, severity);
    OnesAt(selected, SeverityOf, severity);
  }

  /** The latest error of a summary is the most recent row of the instance. */
  lemma LatestIsMostRecent(rows: seq<Row>, instance: string, m: Summary, r: Row)
    requires Summarizes(m, Select(rows, instance)) && r in Mine(rows, instance)
    ensures m.latestError.Some? && r.last <= m.latestError.value
    ensures exists newest :: newest in Mine(rows, instance) && m.latestError == Some(newest.last)
  {
    var mine, selected, byAge := Mine(rows, instance), Select(rows, instance), (r: Row) => -r.last;
    SortSorts(mine, byAge);
    SortMembers(mine, byAge);
    assert r in selected && selected[0] in mine;
    var i :| 0 <= i < |selected| && selected[i] == r;
    assert byAge(selected[0]) <= byAge(selected[i]);
  }

  /** The oldest error of a summary is the first occurrence of a row that was seen least recently. */
  lemma OldestIsLeastRecent(rows: seq<Row>, instance: string, m: Summary)
    requires Summarizes(m, Select(rows, instance)) && Mine(rows, instance) != []
    ensures exists r :: r in Mine(rows, instance) && m.oldestError == Some(r.first)
                        && forall q :: q in Mine(rows, instance) ==> r.last <= q.last
  {
    var mine, selected, byAge := Mine(rows, instance), Select(rows, instance), (r: Row) => -r.last;
    SortSorts(mine, byAge);
    SortMembers(mine, byAge);
    assert mine[0] in mine;
    var r := selected[|selected| - 1];
    assert r in selected;
    forall q | q in mine ensures r.last <= q.last {
      var i :| 0 <= i < |selected| && selected[i] == q;
      assert i < |selected| - 1 ==> byAge(selected[i]) <= byAge(r);
    }
  }

  /** So it need not be the earliest first occurrence: an error that was seen early and again lately hides it. */
  lemma OldestIsNotEarliest(instance: string, m: Summary, r: Row, q: Row)
    requires r.instance == instance && q.instance == instance && r.first < q.first && q.last < r.last
    requires Summarizes(m, Select([r, q], instance))
    ensures m.oldestError == Some(q.first)
  {
    var rows := [r, q];
    assert forall x :: x in rows <==> x == r || x == q;
    FilterMember(rows, (x: Row) => x.instance == instance);
    var mine := Mine(rows, instance);
    assert q in mine;
    OldestIsLeastRecent(rows, instance, m);
    var w :| w in mine && m.oldestError == Some(w.first) && forall x :: x in mine ==> w.last <= x.last;
    assert w.last <= q.last;
  }

  // ---- The class ----

  /** The outcome of calling an operation that may throw. */
  datatype Attempt<+T> = Returned(result: T) | Threw(busy: bool)

  class ErrorStorage {
    var rows: seq<Row>

    constructor ()
      ensures rows == []
    {
      rows := [];
    }

    /** Catches a failing statement, so it returns a Result and never throws. */
    method StoreError(instance: string, error: ParsedError, now: int, ok: bool) returns (r: Attempt<Result<bool>>)
      modifies this
      ensures r == Returned(if ok then Success(true) else Failure)
      ensures rows == Step(old(rows), Store(instance, error, now, ok))
    {
      if !ok {
        return Returned(Failure);
      }
      rows := Upsert(rows, NewRow(instance, error, now));
      r := Returned(Success(true));
    }

    /** Counts, then deletes; either statement may fail. */
    method ClearErrors(instance: string, countOk: bool, deleteOk: bool) returns (r: Result<nat>)
      modifies this
      ensures rows == Step(old(rows), Clear(instance, countOk && deleteOk))
      ensures r.Success? <==> countOk && deleteOk
      ensures r.Success? ==> r.data + |rows| == |old(rows)|
    {
      FilterPartition(rows, (x: Row) => x.instance == instance, (x: Row) => x.instance != instance);
      if !countOk {
        return Failure;
      }
      var clearedCount := |Mine(rows, instance)|;
      if !deleteOk {
        return Failure;
      }
      rows := Without(rows, instance);
      r := Success(clearedCount);
    }

    method CleanupOldErrors(cutoff: int, ok: bool) returns (r: Result<nat>)
      modifies this
      ensures rows == Step(old(rows), CleanUp(cutoff, ok))
      ensures r.Success? <==> ok
      ensures r.Success? ==> r.data + |rows| == |old(rows)|
    {
      if !ok {
        return Failure;
      }
      FilterMember(rows, (x: Row) => !OlderThan(x, cutoff));
      var before := |rows|;
      rows := Since(rows, cutoff);
      r := Success(before - |rows|);
    }

    method GetErrorSummary(instance: string, ok: bool) returns (r: Result<Summary>)
      ensures r.Success? <==> ok
      ensures r.Success? ==> Summarizes(r.data, Select(rows, instance))
    {
      if !ok {
        return Failure;
      }
      var errors := Select(rows, instance);
      if |errors| == 0 {
        return Success(Summary(0, 0, 0, map[], map[], None, None));
      }
      var categoryCount: map<string, nat>, severityCount: map<string, nat>, totalOccurrences: nat := map[], map[], 0;
      var i := 0;
      while i < |errors|
        invariant 0 <= i <= |errors|
        invariant categoryCount == Tally(errors[..i], CategoryOf, One)
        invariant severityCount == Tally(errors[..i], SeverityOf, One)
        invariant totalOccurrences == Occurrences(errors[..i])
      {
        TallySnoc(errors, i, CategoryOf, One);
        TallySnoc(errors, i, SeverityOf, One);
        TallySnoc(errors, i, CategoryOf, CountOf);
        categoryCount := Bump(categoryCount, errors[i].category, 1);
        severityCount := Bump(severityCount, errors[i].severity, 1);
        totalOccurrences := totalOccurrences + errors[i].count;
        i := i + 1;
      }
      assert errors[..i] == errors;
      r := Success(Summary(totalOccurrences, |errors|, totalOccurrences - |errors|, categoryCount, severityCount,
                           Some(errors[0].last), Some(errors[|errors| - 1].first)));
    }
  }

  /** One call of a store under retryOperation: whether its statement works, and whether the call
      comes back or throws afterwards, because the database is busy or for another reason. */
  datatype Try = Try(ok: bool, throws: Option<bool>)

  predicate Busy(t: Try) {
    t.throws == Some(true)
  }

  /** How many of at most three calls are made. */
  function CallsMade(tries: seq<Try>): nat
    requires |tries| == 3
  {
    if !Busy(tries[0]) then 1 else if !Busy(tries[1]) then 2 else 3
  }

  /** A further call is made exactly after a busy throw. */
  lemma RetriedIff(tries: seq<Try>)
    requires |tries| == 3
    ensures CallsMade(tries) > 1 <==> tries[0].throws == Some(true)
    ensures CallsMade(tries) > 2 <==> tries[0].throws == Some(true) && tries[1].throws == Some(true)
    ensures 1 <= CallsMade(tries) <= 3
  {}

  /** The table after some calls. */
  function AfterCalls(rows: seq<Row>, instance: string, error: ParsedError, now: int, tries: seq<Try>): seq<Row> {
    if tries == [] then rows
    else Step(AfterCalls(rows, instance, error, now, tries[..|tries| - 1]),
              Store(instance, error, now, tries[|tries| - 1].ok))
  }

  function OutcomeOf(t: Try): Attempt<Result<bool>> {
    match t.throws
    case None => Returned(if t.ok then Success(true) else Failure)
    case Some(busy) => Threw(busy)
  }

  lemma CallsSnoc(rows: seq<Row>, instance: string, error: ParsedError, now: int, tries: seq<Try>, k: nat)
    requires k < |tries|
    ensures AfterCalls(rows, instance, error, now, tries[..k + 1]) ==
            Step(AfterCalls(rows, instance, error, now, tries[..k]), Store(instance, error, now, tries[k].ok))
  {
    assert tries[..k + 1][..k] == tries[..k];
  }

  function StoresOf(tries: seq<Try>): nat {
    if tries == [] then 0 else StoresOf(tries[..|tries| - 1]) + if tries[|tries| - 1].ok then 1 else 0
  }

  /** Every call whose statement works is counted, however the call ends. */
  lemma {:induction false} CallsAreCounted(rows: seq<Row>, instance: string, error: ParsedError,
                                           now: int, tries: seq<Try>)
    requires UniqueKeys(rows) && Positive(rows)
    ensures var t := AfterCalls(rows, instance, error, now, tries);
            UniqueKeys(t) && Positive(t) && CountAt(t, Key(error)) == CountAt(rows, Key(error)) + StoresOf(tries)
  {
    if tries != [] {
      var before := tries[..|tries| - 1];
      CallsAreCounted(rows, instance, error, now, before);
      StepCounts(AfterCalls(rows, instance, error, now, before),
                 Store(instance, error, now, tries[|tries| - 1].ok), Key(error));
    }
  }

  lemma StoresSnoc(tries: seq<Try>, t: Try)
    ensures StoresOf(tries + [t]) == StoresOf(tries) + if t.ok then 1 else 0
  {
    assert (tries + [t])[..|tries + [t]| - 1] == tries;
  }

  /** This is what storeError's catch is for: a store that threw "busy" after its insert would be
      counted again by every further call. */
  lemma BusyAfterInsertIsCountedAgain(rows: seq<Row>, instance: string, error: ParsedError, now: int)
    returns (tries: seq<Try>)
    requires UniqueKeys(rows) && Positive(rows)
    ensures |tries| == 3 && CallsMade(tries) == 3
    ensures CountAt(AfterCalls(rows, instance, error, now, tries), Key(error)) == CountAt(rows, Key(error)) + 3
  {
    var again := Try(true, Some(true));
    tries := [] + [again] + [again] + [again];
    StoresSnoc([], again);
    StoresSnoc([] + [again], again);
    StoresSnoc([] + [again] + [again], again);
    CallsAreCounted(rows, instance, error, now, tries);
  }

  /** A call that comes back is the only one, and only its own statement matters. */
  lemma ReturningCallIsTheOnlyOne(rows: seq<Row>, instance: string, error: ParsedError, now: int, tries: seq<Try>)
    requires |tries| == 3 && tries[0].throws.None?
    ensures CallsMade(tries) == 1
    ensures AfterCalls(rows, instance, error, now, tries[..1]) == Step(rows, Store(instance, error, now, tries[0].ok))
  {
    assert tries[..1][..0] == [];
  }

  class StorageManager {
    const errorStorage: ErrorStorage

    constructor ()
      ensures fresh(errorStorage) && errorStorage.rows == []
    {
      errorStorage := new ErrorStorage();
    }

    /** retryOperation around a store: only a busy database is tried again. */
    method RetryOperation(instance: string, error: ParsedError, now: int, tries: seq<Try>)
      returns (r: Attempt<Result<bool>>, calls: nat)
      requires |tries| == 3
      modifies errorStorage
      ensures 1 <= calls <= 3 && calls == CallsMade(tries)
      ensures errorStorage.rows == AfterCalls(old(errorStorage.rows), instance, error, now, tries[..calls])
      ensures forall k :: 0 <= k < calls - 1 ==> Busy(tries[k])
      ensures r == OutcomeOf(tries[calls - 1])
    {
      ghost var start := errorStorage.rows;
      calls := 0;
      r := Threw(true);
      while calls < 3 && r == Threw(true)
        invariant 0 <= calls <= 3
        invariant errorStorage.rows == AfterCalls(start, instance, error, now, tries[..calls])
        invariant forall k :: 0 <= k < calls - 1 ==> Busy(tries[k])
        invariant r == if calls == 0 then Threw(true) else OutcomeOf(tries[calls - 1])
        decreases 3 - calls
      {
        CallsSnoc(start, instance, error, now, tries, calls);
        r := errorStorage.StoreError(instance, error, now, tries[calls].ok);
        if tries[calls].throws.Some? {
          r := Threw(tries[calls].throws.value);
        }
        calls := calls + 1;
      }
    }

    /** storeError catches a failing statement, so none of its calls throws: the first call is the only
        one, and whatever the statements of further calls would do does not matter. */
    method StoreError(instance: string, error: ParsedError, now: int, oks: seq<bool>) returns (r: Result<bool>)
      requires |oks| == 3
      modifies errorStorage
      ensures r == if oks[0] then Success(true) else Failure
      ensures errorStorage.rows == Step(old(errorStorage.rows), Store(instance, error, now, oks[0]))
    {
      var tries := [Try(oks[0], None), Try(oks[1], None), Try(oks[2], None)];
      var outcome, calls := RetryOperation(instance, error, now, tries);
      ReturningCallIsTheOnlyOne(old(errorStorage.rows), instance, error, now, tries);
      r := match outcome case Returned(result) => result case Threw(_) => Failure;
    }
  }
}
