/**
 The table of process logs: the sequence counter and its transactional batches, pagination by
 descending sequence, and the grouped statistics.  A statement may fail; then it changes
 nothing, and a failed batch is rolled back.
 */
module LogStore {
  import opened Options
  import opened Sequences
  import opened StableSorting
  import opened Tallies

  datatype ProcessLog = ProcessLog(instance: string, level: string, message: string, stream: string)

  datatype Row = Row(log: ProcessLog, timestamp: int, sequence: int)

  datatype Store = Store(rows: seq<Row>, counter: int)

  // ---- The operations ----

  /** storeLog: the number is taken before the insert, so a failed insert still uses it up. */
  function StoreOne(s: Store, log: ProcessLog, now: int, ok: bool): Store {
    Store(if ok then s.rows + [Row(log, now, s.counter)] else s.rows, s.counter + 1)
  }

  /** How many logs of a batch the transaction gets through; `oks` says which inserts succeed. */
  function Reached(n: nat, oks: seq<bool>): (k: nat)
    requires |oks| == n
    ensures k <= n
  {
    if n == 0 then 0
    else
      var k := Reached(n - 1, oks[..n - 1]);
      if k == n - 1 && oks[n - 1] then n else k
  }

  function NewRows(logs: seq<ProcessLog>, now: int, from: int): seq<Row> {
    if logs == [] then []
    else NewRows(logs[..|logs| - 1], now, from) + [Row(logs[|logs| - 1], now, from + |logs| - 1)]
  }

  /** Which statements of a transaction work: BEGIN, the inserts, COMMIT. */
  datatype Outcome = Outcome(begins: bool, oks: seq<bool>, commits: bool)

  predicate Succeeds(n: nat, o: Outcome)
    requires |o.oks| == n
  {
    o.begins && Reached(n, o.oks) == n && o.commits
  }

  /** storeLogs: all rows with consecutive numbers, or a rollback that keeps the counter. */
  function StoreMany(s: Store, logs: seq<ProcessLog>, now: int, o: Outcome): Store
    requires |o.oks| == |logs|
  {
    var k := Reached(|logs|, o.oks);
    if Succeeds(|logs|, o) then Store(s.rows + NewRows(logs, now, s.counter), s.counter + |logs|)
    else Store(s.rows, if !o.begins then s.counter else if k < |logs| then s.counter + k + 1 else s.counter + |logs|)
  }

  /** Deleting the rows of an instance, or the old ones. */
  function DeleteWhere(s: Store, keep: Row -> bool): Store {
    s.(rows := Filter(s.rows, keep))
  }

  // ---- The invariant and all runs ----

  /** Stored numbers are below the counter and increase in insertion order. */
  ghost predicate Ordered(s: Store) {
    && (forall i :: 0 <= i < |s.rows| ==> s.rows[i].sequence < s.counter)
    && (forall i, j :: 0 <= i < j < |s.rows| ==> s.rows[i].sequence < s.rows[j].sequence)
  }

  datatype Event =
    | One(log: ProcessLog, now: int, ok: bool)
    | Batch(logs: seq<ProcessLog>, now: int, outcome: Outcome)
    | Clear(instance: string)
    | CleanUp(cutoff: int)

  function Step(s: Store, e: Event): Store {
    match e
    case One(log, now, ok) => StoreOne(s, log, now, ok)
    case Batch(logs, now, o) => if |o.oks| == |logs| then StoreMany(s, logs, now, o) else s
    case Clear(instance) => DeleteWhere(s, (r: Row) => r.log.instance != instance)
    case CleanUp(cutoff) => DeleteWhere(s, (r: Row) => r.timestamp >= cutoff)
  }

  /** The numbers that an event returns to its caller. */
  function Returned(s: Store, e: Event): seq<int> {
    match e
    case One(log, now, ok) => if ok then [s.counter] else []
    case Batch(logs, now, o) =>
      if |o.oks| == |logs| && Succeeds(|logs|, o) then Range(s.counter, |logs|) else []
    case _ => []
  }

  function Range(from: int, n: nat): seq<int> {
    seq(n, i => from + i)
  }

  function Run(s: Store, es: seq<Event>): Store {
    if es == [] then s else Step(Run(s, es[..|es| - 1]), es[|es| - 1])
  }

  /** Every number returned in a run, in order. */
  function HandedOut(s: Store, es: seq<Event>): seq<int> {
    if es == [] then []
    else HandedOut(s, es[..|es| - 1]) + Returned(Run(s, es[..|es| - 1]), es[|es| - 1])
  }

  lemma {:induction false} NewRowsAt(logs: seq<ProcessLog>, now: int, from: int)
    ensures |NewRows(logs, now, from)| == |logs|
    ensures forall i :: 0 <= i < |logs| ==> NewRows(logs, now, from)[i] == Row(logs[i], now, from + i)
  {
    if logs != [] {
      NewRowsAt(logs[..|logs| - 1], now, from);
    }
  }

  lemma DeleteKeepsOrder(s: Store, keep: Row -> bool)
    requires Ordered(s)
    ensures Ordered(DeleteWhere(s, keep))
  {
    var at := FilterPlaces(s.rows, keep);
  }

  lemma BatchKeepsOrder(s: Store, logs: seq<ProcessLog>, now: int, o: Outcome)
    requires Ordered(s)
    ensures Ordered(Step(s, Batch(logs, now, o))) && s.counter <= Step(s, Batch(logs, now, o)).counter
  {
    NewRowsAt(logs, now, s.counter);
  }

  lemma StepKeepsOrder(s: Store, e: Event)
    requires Ordered(s)
    ensures Ordered(Step(s, e)) && s.counter <= Step(s, e).counter
    ensures forall i :: 0 <= i < |Returned(s, e)| ==> s.counter <= Returned(s, e)[i] < Step(s, e).counter
    ensures forall i, j :: 0 <= i < j < |Returned(s, e)| ==> Returned(s, e)[i] < Returned(s, e)[j]
  {
    match e
    case One(log, now, ok) =>
    case Batch(logs, now, o) => BatchKeepsOrder(s, logs, now, o);
    case Clear(instance) => DeleteKeepsOrder(s, (r: Row) => r.log.instance != instance);
    case CleanUp(cutoff) => DeleteKeepsOrder(s, (r: Row) => r.timestamp >= cutoff);
  }

  /** Over every run, with failing inserts, rolled-back batches and deletions: the stored numbers
      are below the counter, distinct and increasing in insertion order, and no number is
      returned twice. */
  lemma {:induction false} NumbersAreFresh(s: Store, es: seq<Event>)
    requires Ordered(s)
    ensures Ordered(Run(s, es)) && s.counter <= Run(s, es).counter
    ensures forall i :: 0 <= i < |HandedOut(s, es)| ==> s.counter <= HandedOut(s, es)[i] < Run(s, es).counter
    ensures forall i, j :: 0 <= i < j < |HandedOut(s, es)| ==> HandedOut(s, es)[i] < HandedOut(s, es)[j]
  {
    if es != [] {
      NumbersAreFresh(s, es[..|es| - 1]);
      StepKeepsOrder(Run(s, es[..|es| - 1]), es[|es| - 1]);
    }
  }

  /** The transaction stops at the first failing insert. */
  lemma {:induction false} ReachedAll(n: nat, oks: seq<bool>)
    requires |oks| == n
    ensures Reached(n, oks) == n <==> forall i :: 0 <= i < n ==> oks[i]
    ensures Reached(n, oks) < n ==> !oks[Reached(n, oks)]
    ensures forall i :: 0 <= i < Reached(n, oks) ==> oks[i]
  {
    if n > 0 {
      ReachedAll(n - 1, oks[..n - 1]);
    }
  }

  /** A batch whose statements all work appends its logs in order under the consecutive numbers it
      returns.  Any failing insert, BEGIN or COMMIT leaves the table as it was; the numbers taken
      until then are gone, and there are some unless BEGIN failed or the batch was empty. */
  lemma BatchAllOrNothing(s: Store, logs: seq<ProcessLog>, now: int, o: Outcome)
    requires |o.oks| == |logs|
    ensures var e := Batch(logs, now, o);
            var t, n := Step(s, e), Returned(s, e);
            if o.begins && o.commits && forall i :: 0 <= i < |o.oks| ==> o.oks[i] then
              && |n| == |logs| && |t.rows| == |s.rows| + |logs| && s.rows <= t.rows && t.counter == s.counter + |logs|
              && (forall i :: 0 <= i < |logs| ==>
                    n[i] == s.counter + i && t.rows[|s.rows| + i] == Row(logs[i], now, n[i]))
            else
              && n == [] && t.rows == s.rows && s.counter <= t.counter <= s.counter + |logs|
              && (t.counter == s.counter <==> !o.begins || logs == [])
  {
    ReachedAll(|logs|, o.oks);
    NewRowsAt(logs, now, s.counter);
  }

  /** One stored log comes last, as it was given, under the number that is returned; a failing insert uses
      that number up. */
  lemma OneStored(s: Store, log: ProcessLog, now: int, ok: bool)
    ensures var t, n := Step(s, One(log, now, ok)), Returned(s, One(log, now, ok));
            && t.counter == s.counter + 1
            && (ok ==> n == [s.counter] && |t.rows| == |s.rows| + 1 && s.rows <= t.rows
                       && t.rows[|s.rows|] == Row(log, now, s.counter))
            && (!ok ==> n == [] && t.rows == s.rows)
  {}

  /** What a deletion leaves: every row of the other instances, every row stored at the cutoff or later. */
  lemma DeletedAre(s: Store, instance: string, cutoff: int, r: Row)
    ensures r in Step(s, Clear(instance)).rows <==> r in s.rows && r.log.instance != instance
    ensures r in Step(s, CleanUp(cutoff)).rows <==> r in s.rows && r.timestamp >= cutoff
    ensures Step(s, Clear(instance)).counter == Step(s, CleanUp(cutoff)).counter == s.counter
  {
    FilterMember(s.rows, (x: Row) => x.log.instance != instance);
    FilterMember(s.rows, (x: Row) => x.timestamp >= cutoff);
  }

  // ---- Pagination ----

  function Mine(rows: seq<Row>, instance: string): seq<Row> {
    Filter(rows, (r: Row) => r.log.instance == instance)
  }

  /** WHERE instance_id = ? ORDER BY sequence DESC. */
  function Newest(rows: seq<Row>, instance: string): seq<Row> {
    StableSort(Mine(rows, instance), (r: Row) => -r.sequence)
  }

  /** LIMIT and OFFSET as SQLite reads them: a negative limit is no limit, a negative offset is 0. */
  function Window<T>(s: seq<T>, limit: int, offset: int): seq<T> {
    var from := if offset < 0 then 0 else if offset > |s| then |s| else offset;
    var to := if limit < 0 || from + limit > |s| then |s| else from + limit;
    s[from..to]
  }

  datatype Page = Page(logs: seq<Row>, lastSequence: int, hasMore: bool, totalCount: nat)

  /** getLogs with its defaults: a limit of 0 means 100. */
  function PageOf(rows: seq<Row>, instance: string, limit: int, offset: int): Page {
    var logs := Window(Newest(rows, instance), if limit == 0 then 100 else limit, offset);
    var total := |Mine(rows, instance)|;
    Page(logs, if logs == [] then 0 else logs[0].sequence, offset + |logs| < total, total)
  }

  /** A caller that steps the offset by the limit until there is no more. */
  function AllPages(rows: seq<Row>, instance: string, limit: nat, offset: nat): seq<Row>
    requires limit > 0
    decreases |Mine(rows, instance)| - offset
  {
    var page := PageOf(rows, instance, limit, offset);
    if page.hasMore then page.logs + AllPages(rows, instance, limit, offset + limit) else page.logs
  }

  /** On a table whose numbers increase, the newest-first order is the reverse of the insertion order. */
  lemma NewestIsReverse(rows: seq<Row>, instance: string, counter: int)
    requires Ordered(Store(rows, counter))
    ensures Newest(rows, instance) == Reverse(Mine(rows, instance))
    ensures var all := Newest(rows, instance); forall i, j :: 0 <= i < j < |all| ==> all[i].sequence > all[j].sequence
  {
    var at := FilterPlaces(rows, (r: Row) => r.log.instance == instance);
    SortOfDescending(Mine(rows, instance), (r: Row) => -r.sequence);
  }

  lemma PageIs(rows: seq<Row>, instance: string, limit: nat, offset: nat)
    requires limit > 0 && |Newest(rows, instance)| == |Mine(rows, instance)| >= offset
    ensures var page, all := PageOf(rows, instance, limit, offset), Newest(rows, instance);
            if offset + limit < |all| then page.hasMore && page.logs == all[offset..offset + limit]
            else !page.hasMore && page.logs == all[offset..]
  {}

  lemma CutAt<T>(s: seq<T>, i: nat, j: nat)
    requires i <= j <= |s|
    ensures s[i..] == s[i..j] + s[j..]
  {}

  lemma {:induction false} PagesFrom(rows: seq<Row>, instance: string, limit: nat, offset: nat)
    requires limit > 0 && |Newest(rows, instance)| == |Mine(rows, instance)| >= offset
    ensures AllPages(rows, instance, limit, offset) == Newest(rows, instance)[offset..]
    decreases |Mine(rows, instance)| - offset
  {
    PageIs(rows, instance, limit, offset);
    if PageOf(rows, instance, limit, offset).hasMore {
      PagesFrom(rows, instance, limit, offset + limit);
      CutAt(Newest(rows, instance), offset, offset + limit);
    }
  }

  /** On any reachable table and for any positive page size, the pages concatenate to exactly the
      instance's rows, the last stored first, in strictly descending sequence. */
  lemma PagesAreTheTable(s: Store, es: seq<Event>, instance: string, limit: nat)
    requires Ordered(s) && limit > 0
    ensures var rows := Run(s, es).rows; var all := AllPages(rows, instance, limit, 0);
            && all == Reverse(Mine(rows, instance))
            && (forall i, j :: 0 <= i < j < |all| ==> all[i].sequence > all[j].sequence)
  {
    var t := Run(s, es);
    NumbersAreFresh(s, es);
    NewestIsReverse(t.rows, instance, t.counter);
    PagesFrom(t.rows, instance, limit, 0);
  }

  /** The total of a page is the number of rows of the instance; with a positive limit and an offset that is
      not negative it has as many rows as there are, up to the limit, and says whether more follow. */
  lemma PageCounts(rows: seq<Row>, instance: string, limit: nat, offset: nat)
    requires limit > 0
    ensures var page := PageOf(rows, instance, limit, offset);
            var total := Count(rows, (r: Row) => r.log.instance == instance);
            && page.totalCount == total
            && |page.logs| == (if offset >= total then 0 else if offset + limit <= total then limit else total - offset)
            && (page.hasMore <==> offset + limit < total)
            && PageOf(rows, instance, 0, offset) == PageOf(rows, instance, 100, offset)
  {
    SortElements(Mine(rows, instance), (r: Row) => -r.sequence);
  }

  /** A negative limit is no limit, and a negative offset starts at the first row. */
  lemma NegativeLimits(rows: seq<Row>, instance: string, limit: int, offset: int)
    ensures limit < 0 && 0 <= offset <= |Newest(rows, instance)| ==>
              PageOf(rows, instance, limit, offset).logs == Newest(rows, instance)[offset..]
    ensures offset < 0 ==> PageOf(rows, instance, limit, offset).logs == PageOf(rows, instance, limit, 0).logs
  {}

  /** The cursor of a page is the largest number on it. */
  lemma CursorIsMaximum(s: Store, instance: string, limit: int, offset: int)
    requires Ordered(s)
    ensures var page := PageOf(s.rows, instance, limit, offset);
            && (page.logs == [] ==> page.lastSequence == 0)
            && (page.logs != [] ==> exists r :: r in page.logs && r.sequence == page.lastSequence)
            && (forall r :: r in page.logs ==> r.sequence <= page.lastSequence)
  {
    NewestIsReverse(s.rows, instance, s.counter);
    var page := PageOf(s.rows, instance, limit, offset);
    if page.logs != [] {
      assert page.logs[0] in page.logs;
    }
  }

  // ---- Statistics ----

  datatype Group = Group(level: string, stream: string, total: nat, oldest: int, newest: int)

  predicate InGroup(g: Group, r: Row) {
    r.log.level == g.level && r.log.stream == g.stream
  }

  function Size(rows: seq<Row>, g: Group): nat {
    Count(rows, (r: Row) => InGroup(g, r))
  }

  ghost predicate DistinctGroups(groups: seq<Group>) {
    forall i, j :: 0 <= i < j < |groups| ==>
      groups[i].level != groups[j].level || groups[i].stream != groups[j].stream
  }

  /** What GROUP BY level, stream returns for the rows, in some order: one group for each pair that
      occurs, with its size and its extreme timestamps. */
  ghost predicate Groups(groups: seq<Group>, rows: seq<Row>) {
    && DistinctGroups(groups)
    && (forall r :: r in rows ==> exists i :: 0 <= i < |groups| && InGroup(groups[i], r))
    && (forall i :: 0 <= i < |groups| ==> GroupOf(groups[i], rows))
  }

  ghost predicate GroupOf(g: Group, rows: seq<Row>) {
    && g.total == Size(rows, g) && g.total > 0
    && (exists r :: r in rows && InGroup(g, r) && r.timestamp == g.oldest)
    && (exists r :: r in rows && InGroup(g, r) && r.timestamp == g.newest)
    && (forall r :: r in rows && InGroup(g, r) ==> g.oldest <= r.timestamp <= g.newest)
  }

  function LevelOf(g: Group): string { g.level }
  function StreamOf(g: Group): string { g.stream }
  function TotalOf(g: Group): nat { g.total }

  /** The rows outside a group. */
  function Outside(rows: seq<Row>, g: Group): seq<Row> {
    Filter(rows, (r: Row) => !InGroup(g, r))
  }

  lemma {:induction false} CountOutside(rows: seq<Row>, g: Group, q: Row -> bool)
    ensures (forall r :: InGroup(g, r) ==> q(r)) ==> Count(Outside(rows, g), q) + Size(rows, g) == Count(rows, q)
    ensures (forall r :: InGroup(g, r) ==> !q(r)) ==> Count(Outside(rows, g), q) == Count(rows, q)
  {
    if rows != [] {
      var t, r := rows[..|rows| - 1], rows[|rows| - 1];
      CountOutside(t, g, q);
      FilterConcat(Outside(t, g), if InGroup(g, r) then [] else [r], q);
      assert [r][..0] == [];
    }
  }

  ghost predicate Partition(groups: seq<Group>, rows: seq<Row>) {
    && DistinctGroups(groups)
    && (forall r :: r in rows ==> exists i :: 0 <= i < |groups| && InGroup(groups[i], r))
    && (forall i :: 0 <= i < |groups| ==> groups[i].total == Size(rows, groups[i]))
  }

  lemma PartitionWithout(groups: seq<Group>, rows: seq<Row>)
    requires groups != [] && Partition(groups, rows)
    ensures Partition(groups[..|groups| - 1], Outside(rows, groups[|groups| - 1]))
  {
    var g, rest := groups[|groups| - 1], groups[..|groups| - 1];
    FilterMember(rows, (r: Row) => !InGroup(g, r));
    forall i | 0 <= i < |rest| ensures rest[i].total == Size(Outside(rows, g), rest[i]) {
      CountOutside(rows, g, (r: Row) => InGroup(rest[i], r));
    }
    forall r | r in Outside(rows, g) ensures exists i :: 0 <= i < |rest| && InGroup(rest[i], r) {
      var i :| 0 <= i < |groups| && InGroup(groups[i], r);
      assert InGroup(rest[i], r);
    }
  }

  /** Adding the group totals by a column of the group counts the rows by that column. */
  lemma {:induction false} GroupWeight(groups: seq<Group>, rows: seq<Row>, key: Group -> string, k: string,
                                       q: Row -> bool)
    requires Partition(groups, rows)
    requires forall g, r :: InGroup(g, r) ==> (q(r) <==> key(g) == k)
    ensures WeightAt(groups, key, TotalOf, k) == Count(rows, q)
  {
    assert rows == [] || rows[0] in rows;
    if groups != [] {
      var g := groups[|groups| - 1];
      PartitionWithout(groups, rows);
      GroupWeight(groups[..|groups| - 1], Outside(rows, g), key, k, q);
      CountOutside(rows, g, q);
    }
  }

  lemma {:induction false} GroupTotal(groups: seq<Group>, rows: seq<Row>)
    requires Partition(groups, rows)
    ensures TotalWeight(groups, TotalOf) == |rows|
  {
    assert rows == [] || rows[0] in rows;
    if groups != [] {
      var g := groups[|groups| - 1];
      PartitionWithout(groups, rows);
      GroupTotal(groups[..|groups| - 1], Outside(rows, g));
      FilterPartition(rows, (r: Row) => InGroup(g, r), (r: Row) => !InGroup(g, r));
    }
  }

  datatype Stats = Stats(
    totalLogs: nat, byLevel: map<string, nat>, byStream: map<string, nat>, oldest: Option<int>, newest: Option<int>)

  function OldestOf(groups: seq<Group>): Option<int> {
    if groups == [] then None
    else
      var o, g := OldestOf(groups[..|groups| - 1]), groups[|groups| - 1].oldest;
      if o.None? || g < o.value then Some(g) else o
  }

  function NewestOf(groups: seq<Group>): Option<int> {
    if groups == [] then None
    else
      var n, g := NewestOf(groups[..|groups| - 1]), groups[|groups| - 1].newest;
      if n.None? || g > n.value then Some(g) else n
  }

  lemma {:induction false} GroupExtremes(groups: seq<Group>)
    ensures OldestOf(groups).None? <==> groups == []
    ensures NewestOf(groups).None? <==> groups == []
    ensures forall i :: 0 <= i < |groups| ==>
              OldestOf(groups).value <= groups[i].oldest && groups[i].newest <= NewestOf(groups).value
    ensures groups != [] ==> exists i :: 0 <= i < |groups| && groups[i].oldest == OldestOf(groups).value
    ensures groups != [] ==> exists i :: 0 <= i < |groups| && groups[i].newest == NewestOf(groups).value
  {
    if groups != [] {
      var t := groups[..|groups| - 1];
      GroupExtremes(t);
      assert forall i :: 0 <= i < |t| ==> t[i] == groups[i];
      assert groups[|groups| - 1] == groups[|t|];
    }
  }

  /** What folding the groups gives. */
  ghost predicate Folded(m: Stats, groups: seq<Group>) {
    && m.totalLogs == TotalWeight(groups, TotalOf)
    && m.byLevel == Tally(groups, LevelOf, TotalOf) && m.byStream == Tally(groups, StreamOf, TotalOf)
    && m.oldest == OldestOf(groups) && m.newest == NewestOf(groups)
  }

  lemma OneColumn(groups: seq<Group>, rows: seq<Row>, key: Group -> string, k: string, q: Row -> bool)
    requires Partition(groups, rows)
    requires forall g, r :: InGroup(g, r) ==> (q(r) <==> key(g) == k)
    ensures var m := Tally(groups, key, TotalOf);
            Total(m) == |rows| && (if k in m then m[k] else 0) == Count(rows, q)
  {
    GroupTotal(groups, rows);
    TallyTotals(groups, key, TotalOf);
    TallyIsScan(groups, key, TotalOf, k);
    GroupWeight(groups, rows, key, k, q);
  }

  function AtLevel(rows: seq<Row>, level: string): nat {
    Count(rows, (r: Row) => r.log.level == level)
  }

  function OnStream(rows: seq<Row>, stream: string): nat {
    Count(rows, (r: Row) => r.log.stream == stream)
  }

  /** The folded statistics equal a direct scan of the rows. */
  lemma StatsEqualScan(groups: seq<Group>, rows: seq<Row>, m: Stats, level: string, stream: string)
    requires Groups(groups, rows) && Folded(m, groups)
    ensures m.totalLogs == |rows| && Total(m.byLevel) == |rows| && Total(m.byStream) == |rows|
    ensures (if level in m.byLevel then m.byLevel[level] else 0) == AtLevel(rows, level)
    ensures (if stream in m.byStream then m.byStream[stream] else 0) == OnStream(rows, stream)
  {
    assert Partition(groups, rows) by {
      forall i | 0 <= i < |groups| ensures groups[i].total == Size(rows, groups[i]) {
        assert GroupOf(groups[i], rows);
      }
    }
    GroupTotal(groups, rows);
    OneColumn(groups, rows, LevelOf, level, (r: Row) => r.log.level == level);
    OneColumn(groups, rows, StreamOf, stream, (r: Row) => r.log.stream == stream);
  }

  /** Oldest and newest are the true extremes of the rows' timestamps. */
  lemma ExtremesAreTrue(groups: seq<Group>, rows: seq<Row>, m: Stats)
    requires Groups(groups, rows) && Folded(m, groups)
    ensures rows == [] <==> m.oldest.None?
    ensures rows == [] <==> m.newest.None?
    ensures forall r :: r in rows ==> m.oldest.value <= r.timestamp <= m.newest.value
    ensures rows != [] ==> exists r :: r in rows && r.timestamp == m.oldest.value
    ensures rows != [] ==> exists r :: r in rows && r.timestamp == m.newest.value
  {
    GroupExtremes(groups);
    assert |rows| == 0 || rows[0] in rows;
    if groups != [] {
      var i :| 0 <= i < |groups| && groups[i].oldest == m.oldest.value;
      assert GroupOf(groups[i], rows);
      var j :| 0 <= j < |groups| && groups[j].newest == m.newest.value;
      assert GroupOf(groups[j], rows);
    }
    forall r | r in rows ensures groups != [] && m.oldest.value <= r.timestamp <= m.newest.value {
      var i :| 0 <= i < |groups| && InGroup(groups[i], r);
      assert GroupOf(groups[i], rows);
    }
  }

  // ---- The class ----

  /** The largest number of some rows. */
  method MaxSequence(rows: seq<Row>) returns (m: int)
    requires |rows| > 0
    ensures exists i :: 0 <= i < |rows| && rows[i].sequence == m
    ensures forall i :: 0 <= i < |rows| ==> rows[i].sequence <= m
  {
    m := rows[0].sequence;
    var i := 1;
    while i < |rows|
      invariant 1 <= i <= |rows|
      invariant exists k :: 0 <= k < i && rows[k].sequence == m
      invariant forall k :: 0 <= k < i ==> rows[k].sequence <= m
    {
      if rows[i].sequence > m {
        m := rows[i].sequence;
      }
      i := i + 1;
    }
  }

  class LogStorage {
    var rows: seq<Row>
    var sequenceCounter: int

    ghost function View(): Store
      reads this
    {
      Store(rows, sequenceCounter)
    }

    /** Opens a table: the counter starts one above the largest stored number. */
    constructor (existing: seq<Row>)
      requires forall i, j :: 0 <= i < j < |existing| ==> existing[i].sequence < existing[j].sequence
      ensures rows == existing && Ordered(View())
      ensures sequenceCounter == if existing == [] then 1 else existing[|existing| - 1].sequence + 1
    {
      var maxSequence := 0;
      if |existing| > 0 {
        maxSequence := MaxSequence(existing);
      }
      rows, sequenceCounter := existing, maxSequence + 1;
    }

    method StoreLog(log: ProcessLog, now: int, ok: bool) returns (r: Result<int>)
      modifies this
      ensures View() == StoreOne(old(View()), log, now, ok)
      ensures r == if ok then Success(old(sequenceCounter)) else Failure
    {
      var sequence := sequenceCounter;
      sequenceCounter := sequenceCounter + 1;
      if !ok {
        return Failure;
      }
      rows := rows + [Row(log, now, sequence)];
      r := Success(sequence);
    }

    /** The loop inside the transaction; a failing insert throws, and that or a failing COMMIT rolls the
        table back. */
    method StoreLogs(logs: seq<ProcessLog>, now: int, o: Outcome) returns (r: Result<seq<int>>)
      requires |o.oks| == |logs|
      modifies this
      ensures View() == Step(old(View()), Batch(logs, now, o))
      ensures r.Success? <==> o.begins && o.commits && forall i :: 0 <= i < |o.oks| ==> o.oks[i]
      ensures r.Success? ==> r.data == Returned(old(View()), Batch(logs, now, o))
      ensures r.Failure? ==> rows == old(rows) && sequenceCounter >= old(sequenceCounter)
      ensures r.Failure? ==> sequenceCounter <= old(sequenceCounter) + |logs|
    {
      ReachedAll(|logs|, o.oks);
      if !o.begins {
        return Failure;
      }
      var snapshot := rows;
      var sequences: seq<int> := [];
      var i := 0;
      while i < |logs|
        invariant 0 <= i <= |logs| && i <= Reached(|logs|, o.oks)
        invariant rows == old(rows) + NewRows(logs[..i], now, old(sequenceCounter))
        invariant sequenceCounter == old(sequenceCounter) + i
        invariant sequences == Range(old(sequenceCounter), i)
      {
        var result := StoreLog(logs[i], now, o.oks[i]);
        if result.Failure? {
          rows := snapshot;
          return Failure;
        }
        assert logs[..i + 1][..i] == logs[..i];
        sequences := sequences + [result.data];
        i := i + 1;
      }
      assert logs[..i] == logs;
      if !o.commits {
        rows := snapshot;
        return Failure;
      }
      r := Success(sequences);
    }

    method GetLogs(instance: string, limit: int, offset: int, ok: bool) returns (r: Result<Page>)
      requires Ordered(View())
      ensures r.Success? <==> ok
      ensures r.Success? ==> r.data == PageOf(rows, instance, limit, offset)
    {
      if !ok {
        return Failure;
      }
      CursorIsMaximum(View(), instance, limit, offset);
      var logs := Window(Newest(rows, instance), if limit == 0 then 100 else limit, offset);
      var totalCount := |Mine(rows, instance)|;
      var lastSequence := 0;
      if |logs| > 0 {
        lastSequence := MaxSequence(logs);
        assert logs[0] in logs;
      }
      r := Success(Page(logs, lastSequence, offset + |logs| < totalCount, totalCount));
    }

    /** The fold over what GROUP BY returned. */
    method GetLogStats(groups: seq<Group>) returns (m: Stats)
      ensures Folded(m, groups)
    {
      var total: nat, byLevel: map<string, nat>, byStream: map<string, nat> := 0, map[], map[];
      var oldest: Option<int>, newest: Option<int> := None, None;
      var i := 0;
      while i < |groups|
        invariant 0 <= i <= |groups|
        invariant Folded(Stats(total, byLevel, byStream, oldest, newest), groups[..i])
      {
        var g := groups[i];
        TallySnoc(groups, i, LevelOf, TotalOf);
        TallySnoc(groups, i, StreamOf, TotalOf);
        assert groups[..i + 1][..i] == groups[..i];
        total := total + g.total;
        byLevel := Bump(byLevel, g.level, g.total);
        byStream := Bump(byStream, g.stream, g.total);
        if oldest.None? || g.oldest < oldest.value {
          oldest := Some(g.oldest);
        }
        if newest.None? || g.newest > newest.value {
          newest := Some(g.newest);
        }
        i := i + 1;
      }
      assert groups[..i] == groups;
      m := Stats(total, byLevel, byStream, oldest, newest);
    }
  }
}
