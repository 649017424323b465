/**
 Duplicate suppression in `ProcessMonitor` over the error table: what the checks made before
 every store keep true of the stored rows over whole runs.  Lower-casing, the split into
 words and the signature patterns are arbitrary functions.
 */
module ErrorSuppression {
  import opened ErrorTable
  import opened Options
  import opened Sequences
  import opened StableSorting
  import opened Text
  import opened Truncation

  datatype Environment = Environment(
    lower: string -> string,
    words: string -> set<string>,           // the lower-cased words of a message
    signature: string -> Option<string>,
    returned: Row -> Row)                  // what getErrors hands back for a stored row

  /** A row comes back with its category, severity and message; nothing is said of the other fields. */
  ghost predicate KeepsFields(env: Environment) {
    forall r: Row :: var q := env.returned(r);
                     q.category == r.category && q.severity == r.severity && q.message == r.message
  }

  /** Rows come back as the declared type says. */
  ghost predicate Typed(env: Environment) {
    forall r: Row :: env.returned(r) == r
  }

  /** Rows come back under their column names, so the file, the line and the time are undefined. */
  ghost predicate Untyped(env: Environment) {
    forall r: Row :: env.returned(r) == r.(sourceFile := "", line := None)
  }

  const DUPLICATE_WINDOW_MS: int := 5000

  /** calculateMessageSimilarity(a, b) > percent / 100: Jaccard similarity of the word sets. */
  predicate Similar(env: Environment, a: string, b: string, percent: nat) {
    if a == b then 100 > percent
    else 100 * |env.words(a) * env.words(b)| > percent * |env.words(a) + env.words(b)|
  }

  /** areErrorsRelated, on the three fields it reads. */
  predicate Related(env: Environment, category: string, severity: string, message: string,
                    category': string, severity': string, message': string)
  {
    category == category' && severity == severity' &&
    var a, b := env.lower(message), env.lower(message');
    (env.signature(a).Some? && env.signature(a) == env.signature(b)) || Similar(env, a, b, 85)
  }

  predicate RelatedRows(env: Environment, r: Row, q: Row) {
    Related(env, r.category, r.severity, r.message, q.category, q.severity, q.message)
  }

  predicate SimilarlyWorded(env: Environment, r: Row, e: ParsedError) {
    Similar(env, Trim(r.message), Trim(e.message), 80)
  }

  /** One existing row makes a new error a duplicate. A missing line number never matches. */
  predicate Duplicates(env: Environment, r: Row, e: ParsedError, now: int) {
    || (Trim(r.message) == Trim(e.message) && r.sourceFile == e.sourceFile)
    || (now - r.last < DUPLICATE_WINDOW_MS && r.sourceFile == e.sourceFile && r.line.Some? && r.line == e.line
        && SimilarlyWorded(env, r, e))
    || Related(env, r.category, r.severity, r.message, e.category, e.severity, e.message)
  }

  predicate Matches(env: Environment, r: Row, e: ParsedError, now: int) {
    Duplicates(env, env.returned(r), e, now)
  }

  /** checkForDuplicateError over what getErrors returned; false when the read failed. */
  predicate IsDuplicate(env: Environment, rows: seq<Row>, instance: string, e: ParsedError, now: int, readOk: bool) {
    readOk && exists i :: 0 <= i < |rows| && rows[i].instance == instance && Matches(env, rows[i], e, now)
  }

  function Truncated(e: ParsedError): ParsedError {
    e.(message := TruncateMessage(e.message), rawOutput := TruncateRaw(e.rawOutput))
  }

  predicate Wellformed(e: ParsedError) {
    e.message != "" && e.category != "" && e.severity != ""
  }

  /** The error is stored, announced and logged. */
  predicate Accepts(env: Environment, rows: seq<Row>, instance: string, e: ParsedError,
                    now: int, readOk: bool, storeOk: bool)
  {
    Wellformed(e) && !IsDuplicate(env, rows, instance, Truncated(e), now, readOk) && storeOk
  }

  /** handleDetectedError, as far as it changes the table. */
  function Handle(env: Environment, rows: seq<Row>, instance: string, e: ParsedError,
                  now: int, readOk: bool, storeOk: bool): seq<Row>
  {
    if !Wellformed(e) || IsDuplicate(env, rows, instance, Truncated(e), now, readOk) then rows
    else ErrorTable.Step(rows, Store(instance, Truncated(e), now, storeOk))
  }

  datatype Event =
    | Detected(error: ParsedError, now: int, readOk: bool, storeOk: bool)  // this monitor
    | Elsewhere(event: ErrorTable.Event)                                   // anything else on the table

  function Step(env: Environment, instance: string, rows: seq<Row>, e: Event): seq<Row> {
    match e
    case Detected(error, now, readOk, storeOk) => Handle(env, rows, instance, error, now, readOk, storeOk)
    case Elsewhere(event) => ErrorTable.Step(rows, event)
  }

  function Run(env: Environment, instance: string, es: seq<Event>): seq<Row> {
    if es == [] then [] else Step(env, instance, Run(env, instance, es[..|es| - 1]), es[|es| - 1])
  }

  // ---- Separation ----

  /** No two rows of the instance are related. */
  ghost predicate Separated(env: Environment, rows: seq<Row>, instance: string) {
    forall i, j :: 0 <= i < |rows| && 0 <= j < |rows| && i != j &&
                   rows[i].instance == instance && rows[j].instance == instance
      ==> !RelatedRows(env, rows[i], rows[j])
  }

  lemma RelatedIsSymmetric(env: Environment, r: Row, q: Row)
    ensures RelatedRows(env, r, q) <==> RelatedRows(env, q, r)
  {
    var a, b := env.lower(r.message), env.lower(q.message);
    assert env.words(a) * env.words(b) == env.words(b) * env.words(a);
    assert env.words(a) + env.words(b) == env.words(b) + env.words(a);
  }

  /** Some row of the instance is related to a new row. */
  ghost predicate HasRelated(env: Environment, rows: seq<Row>, instance: string, row: Row) {
    exists i :: 0 <= i < |rows| && rows[i].instance == instance && RelatedRows(env, rows[i], row)
  }

  /** An upsert under the instance keeps the rows separated exactly when it only counts, or its new
      row is related to none. */
  lemma StoreKeepsSeparatedIff(env: Environment, rows: seq<Row>, instance: string, row: Row)
    requires Separated(env, rows, instance) && row.instance == instance
    ensures Separated(env, Upsert(rows, row), instance) <==> Has(rows, row.key) || !HasRelated(env, rows, instance, row)
  {
    var t := Upsert(rows, row);
    forall i | 0 <= i < |rows| ensures RelatedRows(env, rows[i], row) <==> RelatedRows(env, row, rows[i]) {
      RelatedIsSymmetric(env, rows[i], row);
    }
    if !Has(rows, row.key) && HasRelated(env, rows, instance, row) {
      var i :| 0 <= i < |rows| && rows[i].instance == instance && RelatedRows(env, rows[i], row);
      assert t[i] == rows[i] && t[|rows|] == row;
    }
  }

  lemma ForeignStoreKeepsSeparated(env: Environment, rows: seq<Row>, instance: string, row: Row)
    requires Separated(env, rows, instance) && row.instance != instance
    ensures Separated(env, Upsert(rows, row), instance)
  {}

  lemma DeleteKeepsSeparated(env: Environment, rows: seq<Row>, instance: string, p: Row -> bool)
    requires Separated(env, rows, instance)
    ensures Separated(env, Filter(rows, p), instance)
  {
    var at := FilterPlaces(rows, p);
  }

  /** A detection whose read fails, whose store works, whose key is new and which is related to a row
      of the instance. */
  ghost predicate StoresRelated(env: Environment, instance: string, rows: seq<Row>, e: Event) {
    match e
    case Detected(error, now, readOk, storeOk) =>
      && Wellformed(error) && !readOk && storeOk && !Has(rows, Key(Truncated(error)))
      && HasRelated(env, rows, instance, NewRow(instance, Truncated(error), now))
    case Elsewhere(_) => false
  }

  /** Nobody else stores under this instance. */
  predicate Undisturbed(instance: string, e: Event) {
    e.Elsewhere? && e.event.Store? ==> e.event.instance != instance
  }

  /** With the rows separated, one event keeps them so exactly when it is not of that kind. */
  lemma StepKeepsSeparatedIff(env: Environment, instance: string, rows: seq<Row>, e: Event)
    requires KeepsFields(env) && Separated(env, rows, instance) && Undisturbed(instance, e)
    ensures Separated(env, Step(env, instance, rows, e), instance) <==> !StoresRelated(env, instance, rows, e)
  {
    match e
    case Detected(error, now, readOk, storeOk) =>
      if Accepts(env, rows, instance, error, now, readOk, storeOk) {
        StoreKeepsSeparatedIff(env, rows, instance, NewRow(instance, Truncated(error), now));
        if readOk {
          PassedIsUnrelated(env, rows, instance, Truncated(error), now);
        }
      }
    case Elsewhere(event) =>
      match event
      case Store(i, error, now, ok) => ForeignStoreKeepsSeparated(env, rows, instance, NewRow(i, error, now));
      case Clear(i, ok) => DeleteKeepsSeparated(env, rows, instance, (r: Row) => r.instance != i);
      case CleanUp(cutoff, ok) => DeleteKeepsSeparated(env, rows, instance, (r: Row) => !OlderThan(r, cutoff));
  }

  lemma PassedIsUnrelated(env: Environment, rows: seq<Row>, instance: string, e: ParsedError, now: int)
    requires KeepsFields(env) && !IsDuplicate(env, rows, instance, e, now, true)
    ensures !HasRelated(env, rows, instance, NewRow(instance, e, now))
  {
    forall i | 0 <= i < |rows| && rows[i].instance == instance
      ensures !RelatedRows(env, rows[i], NewRow(instance, e, now))
    {
      assert !Matches(env, rows[i], e, now);
    }
  }

  /** At every moment of the run no two rows of the instance are related. */
  ghost predicate AlwaysSeparated(env: Environment, instance: string, es: seq<Event>) {
    Separated(env, Run(env, instance, es), instance) && (es == [] || AlwaysSeparated(env, instance, es[..|es| - 1]))
  }

  ghost predicate NeverStoresRelated(env: Environment, instance: string, es: seq<Event>) {
    es == [] ||
    (NeverStoresRelated(env, instance, es[..|es| - 1]) &&
     !StoresRelated(env, instance, Run(env, instance, es[..|es| - 1]), es[|es| - 1]))
  }

  /** Over every run of one monitor, with clears, clean-ups and other instances in between: no two
      stored rows of its instance are ever related exactly when no detection with a failed read
      stores a new key that is related to a row of the instance. */
  lemma {:induction false} SeparationIff(env: Environment, instance: string, es: seq<Event>)
    requires KeepsFields(env) && forall i :: 0 <= i < |es| ==> Undisturbed(instance, es[i])
    ensures AlwaysSeparated(env, instance, es) <==> NeverStoresRelated(env, instance, es)
  {
    if es != [] {
      var before := es[..|es| - 1];
      SeparationIff(env, instance, before);
      if Separated(env, Run(env, instance, before), instance) {
        StepKeepsSeparatedIff(env, instance, Run(env, instance, before), es[|es| - 1]);
      }
    }
  }

  lemma {:induction false} ReadingIsSafe(env: Environment, instance: string, es: seq<Event>)
    requires forall i :: 0 <= i < |es| ==> es[i].Detected? ==> es[i].readOk
    ensures NeverStoresRelated(env, instance, es)
  {
    if es != [] {
      ReadingIsSafe(env, instance, es[..|es| - 1]);
    }
  }

  /** So successful reads are enough, whatever else happens. */
  lemma RowsStaySeparated(env: Environment, instance: string, es: seq<Event>)
    requires KeepsFields(env)
    requires forall i :: 0 <= i < |es| ==> Undisturbed(instance, es[i]) && (es[i].Detected? ==> es[i].readOk)
    ensures Separated(env, Run(env, instance, es), instance)
  {
    ReadingIsSafe(env, instance, es);
    SeparationIff(env, instance, es);
  }

  /** So one instance has at most one row per category, severity and signature. */
  lemma OneRowPerSignature(env: Environment, instance: string, es: seq<Event>, i: nat, j: nat)
    requires KeepsFields(env)
    requires forall k :: 0 <= k < |es| ==> Undisturbed(instance, es[k]) && (es[k].Detected? ==> es[k].readOk)
    requires var rows := Run(env, instance, es);
             && i < |rows| && j < |rows| && rows[i].instance == instance && rows[j].instance == instance
             && rows[i].category == rows[j].category && rows[i].severity == rows[j].severity
             && env.signature(env.lower(rows[i].message)).Some?
             && env.signature(env.lower(rows[i].message)) == env.signature(env.lower(rows[j].message))
    ensures i == j
  {
    RowsStaySeparated(env, instance, es);
    var rows := Run(env, instance, es);
    assert RelatedRows(env, rows[i], rows[j]);
  }

  lemma StoresNew(env: Environment, instance: string, rows: seq<Row>, e: ParsedError, readOk: bool, r: Row)
    requires r == NewRow(instance, e, 0) && Truncated(e) == e && Wellformed(e) && (rows == [] || !readOk)
    requires forall i :: 0 <= i < |rows| ==> rows[i].key != r.key
    ensures Step(env, instance, rows, Detected(e, 0, readOk, true)) == rows + [r]
  {}

  lemma RunOfTwo(env: Environment, instance: string, d: Event, e: Event)
    ensures Run(env, instance, [d, e]) == Step(env, instance, Step(env, instance, [], d), e)
  {
    assert [d, e][..1] == [d] && [d][..0] == [];
    assert Run(env, instance, [d]) == Step(env, instance, [], d);
  }

  /** Two stored detections with one key, of which the second matches nothing. */
  lemma CountedTogether(env: Environment, instance: string, e1: ParsedError, e2: ParsedError)
    requires Wellformed(e1) && Truncated(e1) == e1 && Wellformed(e2) && Truncated(e2) == e2 && Key(e1) == Key(e2)
    requires !Matches(env, NewRow(instance, e1, 0), e2, 0)
    ensures var rows := Run(env, instance, [Detected(e1, 0, true, true), Detected(e2, 0, true, true)]);
            |rows| == 1 && rows[0].count == 2
  {
    var d1, d2, r := Detected(e1, 0, true, true), Detected(e2, 0, true, true), NewRow(instance, e1, 0);
    StoresNew(env, instance, [], e1, true, r);
    assert [] + [r] == [r] && [r][..0] == [];
    assert Find([r], Key(e2)) == 0;
    RunOfTwo(env, instance, d1, d2);
    assert Run(env, instance, [d1, d2]) == [Touch(r, 0)];
  }

  /** Such a run exists in every environment: two detections, both stored, of which only the second
      could not read the table. */
  lemma FailedReadBreaksSeparation(env: Environment, instance: string)
    ensures exists es: seq<Event> ::
              && |es| == 2 && es[0].Detected? && es[1].Detected?
              && es[0].readOk && !es[1].readOk && es[0].storeOk && es[1].storeOk
              && !Separated(env, Run(env, instance, es), instance)
  {
    var e1 := ParsedError("runtime", "error", "m", "a", None, "m");
    var e2 := e1.(sourceFile := "b");
    var d1, d2 := Detected(e1, 0, true, true), Detected(e2, 0, false, true);
    var r1, r2 := NewRow(instance, e1, 0), NewRow(instance, e2, 0);
    assert r1.key[|r1.key| - 1] == 'a' && r2.key[|r2.key| - 1] == 'b';
    StoresNew(env, instance, [], e1, true, r1);
    StoresNew(env, instance, [] + [r1], e2, false, r2);
    RelatedPair(env, instance, [] + [r1] + [r2], r1, r2);
    RunOfTwo(env, instance, d1, d2);
    var es := [d1, d2];
    assert !Separated(env, Run(env, instance, es), instance);
  }

  lemma RelatedPair(env: Environment, instance: string, rows: seq<Row>, r: Row, q: Row)
    requires |rows| == 2 && rows[0] == r && rows[1] == q && r.instance == instance && q.instance == instance
    requires r.category == q.category && r.severity == q.severity && r.message == q.message
    ensures !Separated(env, rows, instance)
  {
    assert RelatedRows(env, rows[0], rows[1]);
  }

  // ---- When a repetition is counted ----

  /** Without '|' in the file names, a key tells the trimmed message and the file apart. */
  lemma KeyDetermines(m: string, f: string, m': string, f': string)
    requires m + "|" + f == m' + "|" + f' && '|' !in f && '|' !in f'
    ensures m == m' && f == f'
  {
    var k := m + "|" + f;
    assert k[|m|] == '|' && k[|m'|] == '|';
    assert forall i :: |m| < i < |k| ==> k[i] == f[i - |m| - 1] != '|';
    assert forall i :: |m'| < i < |k| ==> k[i] == f'[i - |m'| - 1] != '|';
    assert k[..|m|] == m && k[..|m'|] == m' && k[|m| + 1..] == f && k[|m'| + 1..] == f';
  }

  /** In every environment and for every file name, a detection whose key is in the table is counted,
      by exactly one, if and only if it is accepted. */
  lemma RepeatIsCountedIff(env: Environment, instance: string, rows: seq<Row>, error: ParsedError,
                           now: int, readOk: bool, storeOk: bool)
    requires UniqueKeys(rows) && Positive(rows) && Has(rows, Key(Truncated(error)))
    ensures var key := Key(Truncated(error));
            var after := Step(env, instance, rows, Detected(error, now, readOk, storeOk));
            && CountAt(rows, key) <= CountAt(after, key) <= CountAt(rows, key) + 1 && |after| == |rows|
            && (CountAt(after, key) == CountAt(rows, key) + 1 <==>
                Accepts(env, rows, instance, error, now, readOk, storeOk))
  {
    var t := Truncated(error);
    UpsertCounts(rows, NewRow(instance, t, now), Key(t));
  }

  /** For the declared row type and a row of the same message and file, that means: the store works, and
      the read fails or the row belongs to another instance and no row of this one matches. */
  lemma SameErrorIsCountedIff(env: Environment, instance: string, rows: seq<Row>, error: ParsedError,
                              now: int, readOk: bool, storeOk: bool)
    requires Typed(env) && UniqueKeys(rows) && Positive(rows)
    requires Wellformed(error) && Has(rows, Key(Truncated(error)))
    requires var r := rows[Find(rows, Key(Truncated(error)))];
             Trim(r.message) == Trim(Truncated(error).message) && r.sourceFile == error.sourceFile
    ensures var t, key := Truncated(error), Key(Truncated(error));
            var after := Step(env, instance, rows, Detected(error, now, readOk, storeOk));
            var own := rows[Find(rows, key)].instance == instance;
            CountAt(after, key) == CountAt(rows, key) + 1 <==>
              storeOk && (!readOk || (!own && !IsDuplicate(env, rows, instance, t, now, true)))
  {
    RepeatIsCountedIff(env, instance, rows, error, now, readOk, storeOk);
    var t := Truncated(error);
    var i := Find(rows, Key(t));
    if rows[i].instance == instance {
      assert Matches(env, rows[i], t, now);
    }
  }

  ghost predicate Ones(rows: seq<Row>) {
    forall i :: 0 <= i < |rows| ==> rows[i].count == 1
  }

  /** The event stores an error whose key is in the table. */
  predicate StoresAgain(env: Environment, instance: string, rows: seq<Row>, e: Event) {
    match e
    case Detected(error, now, readOk, storeOk) =>
      Accepts(env, rows, instance, error, now, readOk, storeOk) && Has(rows, Key(Truncated(error)))
    case Elsewhere(event) => event.Store? && event.ok && Has(rows, Key(event.error))
  }

  lemma UpsertKeepsOnesIff(rows: seq<Row>, row: Row)
    requires Ones(rows) && row.count == 1
    ensures Ones(Upsert(rows, row)) <==> !Has(rows, row.key)
  {
    var i := Find(rows, row.key);
    if i < |rows| {
      assert Upsert(rows, row)[i].count == 2;
    }
  }

  lemma StepKeepsOnesIff(env: Environment, instance: string, rows: seq<Row>, e: Event)
    requires Ones(rows)
    ensures Ones(Step(env, instance, rows, e)) <==> !StoresAgain(env, instance, rows, e)
  {
    match e
    case Detected(error, now, readOk, storeOk) => UpsertKeepsOnesIff(rows, NewRow(instance, Truncated(error), now));
    case Elsewhere(event) =>
      match event
      case Store(i, error, now, _) => UpsertKeepsOnesIff(rows, NewRow(i, error, now));
      case Clear(i, ok) => var at := FilterPlaces(rows, (r: Row) => r.instance != i);
      case CleanUp(cutoff, ok) => var at := FilterPlaces(rows, (r: Row) => !OlderThan(r, cutoff));
  }

  /** At every moment of the run every occurrence count is 1. */
  ghost predicate AlwaysOnes(env: Environment, instance: string, es: seq<Event>) {
    Ones(Run(env, instance, es)) && (es == [] || AlwaysOnes(env, instance, es[..|es| - 1]))
  }

  predicate NeverStoresAgain(env: Environment, instance: string, es: seq<Event>) {
    es == [] ||
    (NeverStoresAgain(env, instance, es[..|es| - 1]) &&
     !StoresAgain(env, instance, Run(env, instance, es[..|es| - 1]), es[|es| - 1]))
  }

  /** Over every run, in every environment, with any other instances: every occurrence count is 1 at
      every moment if and only if no event stores an error whose key is in the table. */
  lemma {:induction false} CountsStayOneIff(env: Environment, instance: string, es: seq<Event>)
    ensures AlwaysOnes(env, instance, es) <==> NeverStoresAgain(env, instance, es)
  {
    if es != [] {
      var before := es[..|es| - 1];
      CountsStayOneIff(env, instance, before);
      if Ones(Run(env, instance, before)) {
        StepKeepsOnesIff(env, instance, Run(env, instance, before), es[|es| - 1]);
      }
    }
  }

  // ---- The same for one monitor and the declared row type ----

  /** Only this monitor stores. */
  predicate Alone(e: Event) {
    e.Elsewhere? ==> !e.event.Store?
  }

  /** Two detections have one key only if they have the same trimmed message and the same file. */
  predicate KeyTellsApart(e: Event, f: Event) {
    e.Detected? && f.Detected? && Key(Truncated(e.error)) == Key(Truncated(f.error)) ==>
      Trim(Truncated(e.error).message) == Trim(Truncated(f.error).message) && e.error.sourceFile == f.error.sourceFile
  }

  /** No two different errors of the run have one key. */
  ghost predicate NoSharedKey(es: seq<Event>) {
    forall i, j :: 0 <= i < |es| && 0 <= j < |es| ==> KeyTellsApart(es[i], es[j])
  }

  /** A '|' in a file name is the only way to share a key. */
  lemma BarFreeSharesNoKey(es: seq<Event>)
    requires forall i :: 0 <= i < |es| && es[i].Detected? ==> '|' !in es[i].error.sourceFile
    ensures NoSharedKey(es)
  {
    forall i, j | 0 <= i < |es| && 0 <= j < |es| ensures KeyTellsApart(es[i], es[j]) {
      if es[i].Detected? && es[j].Detected? && Key(Truncated(es[i].error)) == Key(Truncated(es[j].error)) {
        KeyDetermines(Trim(Truncated(es[i].error).message), es[i].error.sourceFile,
                      Trim(Truncated(es[j].error).message), es[j].error.sourceFile);
      }
    }
  }

  /** The row was created by this error. */
  predicate MadeBy(r: Row, instance: string, e: Event) {
    && e.Detected? && r.instance == instance && r.key == Key(Truncated(e.error))
    && r.message == Truncated(e.error).message && r.sourceFile == e.error.sourceFile
  }

  ghost predicate HasOrigin(r: Row, instance: string, es: seq<Event>) {
    exists i :: 0 <= i < |es| && MadeBy(r, instance, es[i])
  }

  lemma {:induction false} RowsHaveOrigin(env: Environment, instance: string, es: seq<Event>)
    requires forall i :: 0 <= i < |es| ==> Alone(es[i])
    ensures forall r :: r in Run(env, instance, es) ==> HasOrigin(r, instance, es)
  {
    if es != [] {
      var before, e := es[..|es| - 1], es[|es| - 1];
      var rows := Run(env, instance, before);
      RowsHaveOrigin(env, instance, before);
      forall r | r in Run(env, instance, es) ensures HasOrigin(r, instance, es) {
        OriginStep(env, instance, rows, e, r);
        if q: Row :| q in rows && SameOrigin(q, r) {
          var i :| 0 <= i < |before| && MadeBy(q, instance, before[i]);
          assert MadeBy(r, instance, es[i]);
        } else {
          assert MadeBy(r, instance, es[|es| - 1]);
        }
      }
    }
  }

  predicate SameOrigin(q: Row, r: Row) {
    q.instance == r.instance && q.key == r.key && q.message == r.message && q.sourceFile == r.sourceFile
  }

  lemma OriginStep(env: Environment, instance: string, rows: seq<Row>, e: Event, r: Row)
    requires Alone(e) && r in Step(env, instance, rows, e)
    ensures (exists q :: q in rows && SameOrigin(q, r)) || MadeBy(r, instance, e)
  {
    var t := Step(env, instance, rows, e);
    if e.Detected? {
      var k :| 0 <= k < |t| && t[k] == r;
      assert k < |rows| ==> rows[k] in rows && SameOrigin(rows[k], r);
    } else {
      match e.event
      case Clear(i, ok) => FilterMember(rows, (x: Row) => x.instance != i);
      case CleanUp(cutoff, ok) => FilterMember(rows, (x: Row) => !OlderThan(x, cutoff));
      assert r in rows && SameOrigin(r, r);
    }
  }

  /** A detection of a stored key whose read fails and whose store works. */
  predicate UnreadRepeat(rows: seq<Row>, e: Event) {
    match e
    case Detected(error, now, readOk, storeOk) =>
      Wellformed(error) && !readOk && storeOk && Has(rows, Key(Truncated(error)))
    case Elsewhere(_) => false
  }

  predicate NoUnreadRepeat(env: Environment, instance: string, es: seq<Event>) {
    es == [] ||
    (NoUnreadRepeat(env, instance, es[..|es| - 1]) && !UnreadRepeat(Run(env, instance, es[..|es| - 1]), es[|es| - 1]))
  }

  lemma AgainIsUnread(env: Environment, instance: string, before: seq<Event>, e: Event)
    requires Typed(env) && NoSharedKey(before + [e]) && Alone(e)
    requires forall i :: 0 <= i < |before| ==> Alone(before[i])
    ensures var rows := Run(env, instance, before);
            StoresAgain(env, instance, rows, e) <==> UnreadRepeat(rows, e)
  {
    var rows := Run(env, instance, before);
    if e.Detected? && Has(rows, Key(Truncated(e.error))) {
      var t := Truncated(e.error);
      var r := rows[Find(rows, Key(t))];
      RowsHaveOrigin(env, instance, before);
      assert r in rows;
      var i :| 0 <= i < |before| && MadeBy(r, instance, before[i]);
      assert (before + [e])[i] == before[i] && (before + [e])[|before|] == e;
      assert KeyTellsApart(before[i], e);
      assert Matches(env, r, t, e.now);
    }
  }

  /** When only this monitor stores and no two of its errors share a key, every count is 1 at every
      moment if and only if no repetition meets a failed read: otherwise an exact repetition is
      suppressed before the upsert could count it. */
  lemma {:induction false} OwnCountsStayOneIff(env: Environment, instance: string, es: seq<Event>)
    requires Typed(env) && NoSharedKey(es) && forall i :: 0 <= i < |es| ==> Alone(es[i])
    ensures AlwaysOnes(env, instance, es) <==> NoUnreadRepeat(env, instance, es)
  {
    CountsStayOneIff(env, instance, es);
    if es != [] {
      var before := es[..|es| - 1];
      OwnCountsStayOneIff(env, instance, before);
      CountsStayOneIff(env, instance, before);
      assert es == before + [es[|es| - 1]];
      AgainIsUnread(env, instance, before, es[|es| - 1]);
    }
  }

  lemma {:induction false} ReadingCountsNothing(env: Environment, instance: string, es: seq<Event>)
    requires forall i :: 0 <= i < |es| ==> es[i].Detected? ==> es[i].readOk
    ensures NoUnreadRepeat(env, instance, es)
  {
    if es != [] {
      ReadingCountsNothing(env, instance, es[..|es| - 1]);
    }
  }

  lemma {:induction false} OnesSum(rows: seq<Row>)
    requires Ones(rows)
    ensures Occurrences(rows) == |rows|
  {
    if rows != [] {
      OnesSum(rows[..|rows| - 1]);
    }
  }

  /** With successful reads as well, a summary never reports a repeated error, however often one is
      detected. */
  lemma RepeatsAreNeverCounted(env: Environment, instance: string, es: seq<Event>)
    requires Typed(env) && NoSharedKey(es)
    requires forall i :: 0 <= i < |es| ==> Alone(es[i]) && (es[i].Detected? ==> es[i].readOk)
    ensures forall i :: 0 <= i < |Run(env, instance, es)| ==> Run(env, instance, es)[i].count == 1
    ensures Occurrences(Run(env, instance, es)) - |Run(env, instance, es)| == 0
  {
    ReadingCountsNothing(env, instance, es);
    OwnCountsStayOneIff(env, instance, es);
    OnesSum(Run(env, instance, es));
  }

  /** Two different errors that share a key, because a file name contains '|', are counted as one: the
      reads succeed, only this monitor stores, and the one row ends with count 2. */
  lemma SharedKeyIsCounted(env: Environment, instance: string)
    requires Typed(env)
    ensures exists es: seq<Event> ::
              && |es| == 2 && (forall i :: 0 <= i < 2 ==> es[i].Detected? && es[i].readOk)
              && es[0].error.message != es[1].error.message && es[0].error.sourceFile != es[1].error.sourceFile
              && |Run(env, instance, es)| == 1 && Run(env, instance, es)[0].count == 2
  {
    var e1 := ParsedError("c", "error", "a", "b|c", None, "m");
    var e2 := ParsedError("d", "error", "a|b", "c", None, "m");
    assert Trim("a") == "a" && Trim("a|b") == "a|b" && |"a"| != |"a|b"|;
    assert "a" + "|" + "b|c" == "a|b" + "|" + "c";
    CountedTogether(env, instance, e1, e2);
  }

  // ---- Without the declared row type ----

  predicate SameFields(r: Row, instance: string, e: ParsedError) {
    r.instance == instance && r.category == e.category && r.severity == e.severity && r.message == e.message
  }

  /** A row of the instance with these three fields. */
  ghost predicate HasSame(rows: seq<Row>, instance: string, e: ParsedError) {
    exists i :: 0 <= i < |rows| && SameFields(rows[i], instance, e)
  }

  /** An error with the category, severity and message of a row of the instance is a duplicate,
      whatever the file says and however the other fields come back. */
  lemma SameIsDuplicate(env: Environment, rows: seq<Row>, instance: string, e: ParsedError, now: int)
    requires KeepsFields(env) && HasSame(rows, instance, e)
    ensures IsDuplicate(env, rows, instance, e, now, true)
  {
    var i :| 0 <= i < |rows| && SameFields(rows[i], instance, e);
    assert Matches(env, rows[i], e, now);
  }

  predicate Deletes(e: Event) {
    e.Elsewhere? && !e.event.Store?
  }

  lemma StepKeepsSame(env: Environment, instance: string, rows: seq<Row>, e: Event, error: ParsedError)
    requires HasSame(rows, instance, error) && !Deletes(e)
    ensures HasSame(Step(env, instance, rows, e), instance, error)
  {
    var t := Step(env, instance, rows, e);
    var i :| 0 <= i < |rows| && SameFields(rows[i], instance, error);
    assert i < |t| && SameFields(t[i], instance, error);
  }

  predicate SameError(e: ParsedError, f: ParsedError) {
    Truncated(e).category == Truncated(f).category && Truncated(e).severity == Truncated(f).severity
    && Truncated(e).message == Truncated(f).message
  }

  /** The event stores a new row for its error. */
  predicate Creates(env: Environment, instance: string, rows: seq<Row>, e: Event) {
    && e.Detected? && Accepts(env, rows, instance, e.error, e.now, e.readOk, e.storeOk)
    && !Has(rows, Key(Truncated(e.error)))
  }

  /** Once an error has a row of this instance, no later detection of its category, severity and
      message changes the table, until something is deleted or a read fails. */
  lemma {:induction false} AcceptedOnce(env: Environment, instance: string, es: seq<Event>, i: nat, j: nat)
    requires KeepsFields(env) && i < j < |es| && es[i].Detected? && es[j].Detected? && es[j].readOk
    requires Creates(env, instance, Run(env, instance, es[..i]), es[i]) && SameError(es[i].error, es[j].error)
    requires forall k :: i < k < j ==> !Deletes(es[k])
    ensures Run(env, instance, es[..j + 1]) == Run(env, instance, es[..j])
  {
    SameStays(env, instance, es, i, j);
    SameIsDuplicate(env, Run(env, instance, es[..j]), instance, Truncated(es[j].error), es[j].now);
    PrefixStep(env, instance, es, j);
  }

  lemma PrefixStep(env: Environment, instance: string, es: seq<Event>, k: nat)
    requires k < |es|
    ensures Run(env, instance, es[..k + 1]) == Step(env, instance, Run(env, instance, es[..k]), es[k])
  {
    assert es[..k + 1][..k] == es[..k];
  }

  lemma {:induction false} SameStays(env: Environment, instance: string, es: seq<Event>, i: nat, j: nat)
    requires i < j < |es| && es[i].Detected?
    requires Creates(env, instance, Run(env, instance, es[..i]), es[i])
    requires forall k :: i < k < j ==> !Deletes(es[k])
    ensures HasSame(Run(env, instance, es[..j]), instance, Truncated(es[i].error))
    decreases j
  {
    PrefixStep(env, instance, es, j - 1);
    var rows := Run(env, instance, es[..j - 1]);
    if j == i + 1 {
      assert SameFields(Run(env, instance, es[..j])[|rows|], instance, Truncated(es[i].error));
    } else {
      SameStays(env, instance, es, i, j - 1);
      StepKeepsSame(env, instance, rows, es[j - 1], Truncated(es[i].error));
    }
  }

  /** When the file comes back undefined, an equal message and file under a second category is counted,
      although every read succeeds. */
  lemma SecondCategoryIsCounted(env: Environment, instance: string)
    requires Untyped(env)
    ensures exists es: seq<Event> ::
              && |es| == 2 && (forall i :: 0 <= i < 2 ==> es[i].Detected? && es[i].readOk)
              && es[0].error.message == es[1].error.message && es[0].error.sourceFile == es[1].error.sourceFile
              && |Run(env, instance, es)| == 1 && Run(env, instance, es)[0].count == 2
  {
    var e1 := ParsedError("runtime", "error", "m", "a", None, "m");
    CountedTogether(env, instance, e1, e1.(category := "build"));
  }

  // ---- When a detection is stored, from words and signatures ----

  /** With a working read and store, a complete error is accepted if and only if every row of its instance,
      as it comes back, differs in trimmed message or file; and differs in category or severity, or
      has no equal signature, another lower-case message and at most 85 of 100 words in common; and is
      5 seconds old, or at another file or line, or has another trimmed message and at most 80 of 100
      words in common. */
  lemma AcceptedIff(env: Environment, rows: seq<Row>, instance: string, e: ParsedError, now: int)
    ensures Accepts(env, rows, instance, e, now, true, true) <==>
              && e.message != "" && e.category != "" && e.severity != ""
              && forall i :: 0 <= i < |rows| && rows[i].instance == instance ==>
                   var q, t := env.returned(rows[i]), Truncated(e);
                   var a, b, c, d := env.lower(q.message), env.lower(t.message), Trim(q.message), Trim(t.message);
                   && (c != d || q.sourceFile != e.sourceFile)
                   && (q.category != e.category || q.severity != e.severity ||
                       ((env.signature(a).None? || env.signature(a) != env.signature(b)) && a != b &&
                        100 * |env.words(a) * env.words(b)| <= 85 * |env.words(a) + env.words(b)|))
                   && (now - q.last >= 5000 || q.sourceFile != e.sourceFile || q.line.None? || q.line != e.line ||
                       (c != d && 100 * |env.words(c) * env.words(d)| <= 80 * |env.words(c) + env.words(d)|))
  {
    var t := Truncated(e);
    forall i | 0 <= i < |rows| && rows[i].instance == instance
      ensures Matches(env, rows[i], t, now) <==>
                var q := env.returned(rows[i]);
                var a, b, c, d := env.lower(q.message), env.lower(t.message), Trim(q.message), Trim(t.message);
                !(&& (c != d || q.sourceFile != e.sourceFile)
                  && (q.category != e.category || q.severity != e.severity ||
                      ((env.signature(a).None? || env.signature(a) != env.signature(b)) && a != b &&
                       100 * |env.words(a) * env.words(b)| <= 85 * |env.words(a) + env.words(b)|))
                  && (now - q.last >= 5000 || q.sourceFile != e.sourceFile || q.line.None? || q.line != e.line ||
                      (c != d && 100 * |env.words(c) * env.words(d)| <= 80 * |env.words(c) + env.words(d)|)))
    {}
  }

  /** What is stored and announced of an error: its own fields, with a message of more than 2,000 and a raw
      output of more than 10,000 characters shortened. */
  lemma TruncatedIs(e: ParsedError)
    ensures var t := Truncated(e);
            && t.category == e.category && t.severity == e.severity && t.sourceFile == e.sourceFile && t.line == e.line
            && t.message == (if |e.message| <= 2000 then e.message else e.message[..2000] + "...[truncated]")
            && (|e.rawOutput| <= 10000 ==> t.rawOutput == e.rawOutput)
            && (|e.rawOutput| > 10000 ==>
                  |t.rawOutput| == 10014 && t.rawOutput[..7000] == e.rawOutput[..7000]
                  && t.rawOutput[7064..] == e.rawOutput[|e.rawOutput| - 2950..])
  {
    RawTruncation(e.rawOutput);
  }

  /** An accepted error with a new key becomes a row with its own fields; one that is not accepted, or
      whose store fails, changes nothing. */
  lemma AcceptedIsStored(env: Environment, rows: seq<Row>, instance: string, e: ParsedError,
                         now: int, readOk: bool, storeOk: bool)
    ensures var t, after := Truncated(e), Step(env, instance, rows, Detected(e, now, readOk, storeOk));
            var key := Trim(t.message) + "|" + e.sourceFile;
            if !Accepts(env, rows, instance, e, now, readOk, storeOk) then after == rows
            else if forall i :: 0 <= i < |rows| ==> rows[i].key != key then
              after == rows + [Row(instance, key, e.category, e.severity, t.message, e.sourceFile,
                                   if e.line == Some(0) then None else e.line, now, now, 1, now)]
            else |after| == |rows|
  {}

  /** An error that shares no word, no signature and no message with any row of its instance is stored, and
      so is one of a category of its own with a message of its own that is not at a recent error's place. */
  lemma UnrelatedIsStored(env: Environment, rows: seq<Row>, instance: string, e: ParsedError, now: int)
    requires e.message != "" && e.category != "" && e.severity != ""
    requires forall i :: 0 <= i < |rows| && rows[i].instance == instance ==>
               var q, t := env.returned(rows[i]), Truncated(e);
               var a, b, c, d := env.lower(q.message), env.lower(t.message), Trim(q.message), Trim(t.message);
               && c != d && (q.sourceFile != e.sourceFile || now - q.last >= 5000)
               && (q.category != e.category ||
                   (a != b && env.signature(b).None? && env.words(a) !! env.words(b)))
    ensures Accepts(env, rows, instance, e, now, true, true)
  {
    AcceptedIff(env, rows, instance, e, now);
    forall i | 0 <= i < |rows| && rows[i].instance == instance
      ensures var a, b := env.lower(env.returned(rows[i]).message), env.lower(Truncated(e).message);
              env.words(a) !! env.words(b) ==> |env.words(a) * env.words(b)| == 0
    {
      var a, b := env.lower(env.returned(rows[i]).message), env.lower(Truncated(e).message);
      assert env.words(a) !! env.words(b) ==> env.words(a) * env.words(b) == {};
    }
  }

  // ---- An error that another instance stored first ----

  /** The key has a row, and it belongs to another instance. */
  ghost predicate TakenElsewhere(rows: seq<Row>, instance: string, key: string) {
    Find(rows, key) < |rows| && rows[Find(rows, key)].instance != instance
  }

  /** Nothing of this instance matches an error, at any time. */
  ghost predicate NothingMatches(env: Environment, rows: seq<Row>, instance: string, e: ParsedError) {
    forall i, now :: 0 <= i < |rows| && rows[i].instance == instance ==> !Matches(env, rows[i], e, now)
  }

  lemma ForeignDetection(env: Environment, instance: string, rows: seq<Row>, e: Event)
    requires UniqueKeys(rows) && Positive(rows) && e.Detected? && Wellformed(e.error) && e.storeOk
    requires TakenElsewhere(rows, instance, Key(Truncated(e.error)))
    requires NothingMatches(env, rows, instance, Truncated(e.error))
    ensures var t, key := Step(env, instance, rows, e), Key(Truncated(e.error));
            && Accepts(env, rows, instance, e.error, e.now, e.readOk, e.storeOk)
            && UniqueKeys(t) && Positive(t) && |t| == |rows| && CountAt(t, key) == CountAt(rows, key) + 1
            && TakenElsewhere(t, instance, key) && NothingMatches(env, t, instance, Truncated(e.error))
  {
    var u := Truncated(e.error);
    var t, i := Step(env, instance, rows, e), Find(rows, Key(u));
    UpsertCounts(rows, NewRow(instance, u, e.now), Key(u));
    FindUnique(t, Key(u));
    assert t[i].key == Key(u) && t[i].instance != instance;
    forall k, now | 0 <= k < |t| && t[k].instance == instance ensures !Matches(env, t[k], u, now) {
      assert t[k] == rows[k];
    }
  }

  function RunFrom(env: Environment, instance: string, rows: seq<Row>, es: seq<Event>): seq<Row> {
    if es == [] then rows else Step(env, instance, RunFrom(env, instance, rows, es[..|es| - 1]), es[|es| - 1])
  }

  /** The key is unique over all instances, but duplicates are looked for among an instance's own rows:
      an error that another instance stored first is accepted and announced at every repetition,
      each counted on the other instance's row, and this instance never gets a row for it. */
  lemma {:induction false} ForeignErrorIsAlwaysNew(env: Environment, instance: string, rows: seq<Row>,
                                                   error: ParsedError, es: seq<Event>)
    requires UniqueKeys(rows) && Positive(rows) && Wellformed(error)
    requires TakenElsewhere(rows, instance, Key(Truncated(error)))
    requires NothingMatches(env, rows, instance, Truncated(error))
    requires forall i :: 0 <= i < |es| ==> es[i].Detected? && es[i].error == error && es[i].storeOk
    ensures var t, key := RunFrom(env, instance, rows, es), Key(Truncated(error));
            && UniqueKeys(t) && Positive(t) && TakenElsewhere(t, instance, key)
            && NothingMatches(env, t, instance, Truncated(error))
            && CountAt(t, key) == CountAt(rows, key) + |es| && |t| == |rows|
            && (forall r :: r in t && r.instance == instance ==> r.key != key)
            && (forall now, readOk :: Accepts(env, t, instance, error, now, readOk, true))
  {
    if es == [] {
      FindUnique(rows, Key(Truncated(error)));
    } else {
      var before := es[..|es| - 1];
      ForeignErrorIsAlwaysNew(env, instance, rows, error, before);
      ForeignDetection(env, instance, RunFrom(env, instance, rows, before), es[|es| - 1]);
      FindUnique(RunFrom(env, instance, rows, es), Key(Truncated(error)));
    }
  }

  // ---- The class ----

  /** The handling of a detected error, over the storage object. */
  class ErrorHandler {
    const storage: StorageManager
    const instance: string
    const env: Environment
    var emitted: seq<ParsedError>     // the error_detected events
    var logLines: seq<string>         // calls of appendLog
    var fatalErrors: seq<ParsedError> // calls of handleFatalError

    constructor (storage: StorageManager, instance: string, env: Environment)
      ensures this.storage == storage && this.instance == instance && this.env == env
      ensures emitted == [] && logLines == [] && fatalErrors == []
    {
      this.storage, this.instance, this.env := storage, instance, env;
      emitted, logLines, fatalErrors := [], [], [];
    }

    /** getErrors: the rows of the instance, most recent first, unless the read fails. */
    method GetErrors(readOk: bool) returns (r: Result<seq<Row>>)
      ensures r.Success? <==> readOk
      ensures r.Success? ==>
                forall row :: row in r.data <==> row in storage.errorStorage.rows && row.instance == instance
    {
      if !readOk {
        return Failure;
      }
      var rows := storage.errorStorage.rows;
      FilterMember(rows, (x: Row) => x.instance == instance);
      SortMembers(Mine(rows, instance), (x: Row) => -x.last);
      r := Success(Select(rows, instance));
    }

    method CheckForDuplicateError(e: ParsedError, now: int, readOk: bool) returns (found: bool)
      ensures found == IsDuplicate(env, storage.errorStorage.rows, instance, e, now, readOk)
    {
      var r := GetErrors(readOk);
      if r.Failure? {
        return false;
      }
      var i := 0;
      while i < |r.data|
        invariant 0 <= i <= |r.data|
        invariant forall k :: 0 <= k < i ==> !Matches(env, r.data[k], e, now)
      {
        if Matches(env, r.data[i], e, now) {
          assert r.data[i] in storage.errorStorage.rows;
          return true;
        }
        i := i + 1;
      }
      forall j | 0 <= j < |storage.errorStorage.rows| && storage.errorStorage.rows[j].instance == instance
        ensures !Matches(env, storage.errorStorage.rows[j], e, now)
      {
        assert storage.errorStorage.rows[j] in r.data;
      }
      return false;
    }

    /** An invalid error is skipped, a duplicate is only reported on the console; anything else is
        stored, and then logged, announced and, if it is fatal, handed to the restart logic. */
    method HandleDetectedError(e: ParsedError, now: int, readOk: bool, storeOks: seq<bool>)
      requires |storeOks| == 3
      modifies this, storage.errorStorage
      ensures var rows := old(storage.errorStorage.rows);
              var accepted := Accepts(env, rows, instance, e, now, readOk, storeOks[0]);
              && storage.errorStorage.rows == Handle(env, rows, instance, e, now, readOk, storeOks[0])
              && emitted == old(emitted) + (if accepted then [Truncated(e)] else [])
              && logLines == old(logLines) + (if accepted then ["ERROR: " + Truncated(e).message] else [])
              && fatalErrors == old(fatalErrors) + (if accepted && e.severity == "fatal" then [Truncated(e)] else [])
    {
      if e.message == "" || e.category == "" || e.severity == "" {
        return;
      }
      var truncated := e.(message := TruncateMessage(e.message), rawOutput := TruncateRaw(e.rawOutput));
      var isDuplicate := CheckForDuplicateError(truncated, now, readOk);
      if !isDuplicate {
        var stored := storage.StoreError(instance, truncated, now, storeOks);
        if stored.Success? {
          logLines := logLines + ["ERROR: " + truncated.message];
          emitted := emitted + [truncated];
          if truncated.severity == "fatal" {
            fatalErrors := fatalErrors + [truncated];
          }
        }
      }
    }
  }
}
