/**
 The hand-off of the raw process log from one appender to any number of concurrent
 `logs get` processes, over a shared directory: a lock file created exclusively, an
 atomic rename, a re-create, a read and an unlink.  Every event is one file-system
 operation; a run is any sequence of events.  An event that is not enabled changes
 nothing, so the theorems quantify over all event sequences, and a process that is
 killed half-way is one that takes no further event.
 */
module LogHandoff {
  import opened Options
  import opened Sequences

  type Pid = nat

  /** A line of the log file, tagged with its position among all appended lines. */
  datatype Line = Line(no: nat, text: string)

  type File = seq<Line>

  datatype Mode = Reset | ReadOnly

  datatype Phase =
    | Acquiring(attempts: nat)  // lock attempts already failed
    | GaveUp                    // all attempts failed, no file touched
    | Locked                    // lock file created
    | Renamed                   // log moved to the private temp file
    | Recreated                 // the re-create was attempted
    | TempRead(logs: File)      // the temp file was read, or the read failed with ""
    | Finishing(logs: File)     // about to unlink the lock, then print
    | FinishingError            // about to unlink the lock, then report an error
    | Done(logs: File)
    | Failed

  datatype Proc = Proc(mode: Mode, phase: Phase)

  datatype State = State(
    log: Option<File>,          // the log file, if it exists
    lock: Option<Pid>,          // the lock file, holding the id of its creator
    temps: map<Pid, File>,      // one private temp file name per process
    procs: map<Pid, Proc>,
    order: seq<Pid>,            // processes in the order they acquired the lock
    history: seq<string>)       // every line ever appended

  datatype Event =
    | Append(text: string)
    | Trim(drop: nat)
    | Spawn(pid: Pid, mode: Mode)
    | TryLock(pid: Pid, ok: bool)
    | Rename(pid: Pid, ok: bool)
    | Recreate(pid: Pid, ok: bool)
    | ReadTemp(pid: Pid, ok: bool)
    | UnlinkTemp(pid: Pid, ok: bool)
    | ReadLog(pid: Pid, ok: bool)
    | Release(pid: Pid, ok: bool)

  const MAX_ATTEMPTS: nat := 5

  const Init: State := State(None, None, map[], map[], [], [])

  function Content(f: Option<File>): File {
    if f.Some? then f.value else []
  }

  predicate At(s: State, p: Pid, phase: Phase) {
    p in s.procs && s.procs[p].phase == phase
  }

  function Move(s: State, p: Pid, phase: Phase): State
    requires p in s.procs
  {
    s.(procs := s.procs[p := s.procs[p].(phase := phase)])
  }

  /** Between lock acquire and lock release. */
  predicate Holding(phase: Phase) {
    phase.Locked? || phase.Renamed? || phase.Recreated? || phase.TempRead? ||
    phase.Finishing? || phase.FinishingError?
  }

  predicate InSection(s: State, p: Pid) {
    p in s.procs && Holding(s.procs[p].phase)
  }

  function StepLock(s: State, p: Pid, ok: bool): State {
    if p in s.procs && s.procs[p].phase.Acquiring? then
      if s.lock.None? && ok then
        Move(s, p, Locked).(lock := Some(p), order := s.order + [p])
      else if s.procs[p].phase.attempts + 1 < MAX_ATTEMPTS then
        Move(s, p, Acquiring(s.procs[p].phase.attempts + 1))
      else
        Move(s, p, GaveUp)
    else s
  }

  function StepRename(s: State, p: Pid, ok: bool): State {
    if At(s, p, Locked) && s.procs[p].mode == Reset then
      if s.log.None? then Move(s, p, Finishing([]))
      else if ok then Move(s, p, Renamed).(temps := s.temps[p := s.log.value], log := None)
      else Move(s, p, FinishingError)
    else s
  }

  function StepRecreate(s: State, p: Pid, ok: bool): State {
    if At(s, p, Renamed) then
      Move(s, p, Recreated).(log := if ok then Some([]) else s.log)
    else s
  }

  function StepReadTemp(s: State, p: Pid, ok: bool): State {
    if At(s, p, Recreated) then
      Move(s, p, TempRead(if ok && p in s.temps then s.temps[p] else []))
    else s
  }

  function StepUnlinkTemp(s: State, p: Pid, ok: bool): State {
    if p in s.procs && s.procs[p].phase.TempRead? then
      Move(s, p, Finishing(s.procs[p].phase.logs)).(temps := if ok then s.temps - {p} else s.temps)
    else s
  }

  function StepReadLog(s: State, p: Pid, ok: bool): State {
    if At(s, p, Locked) && s.procs[p].mode == ReadOnly then
      if s.log.None? then Move(s, p, Finishing([]))
      else if ok then Move(s, p, Finishing(s.log.value))
      else Move(s, p, FinishingError)
    else s
  }

  /** The unlink removes whatever lock file is there; its failure is ignored. */
  function StepRelease(s: State, p: Pid, ok: bool): State {
    if p in s.procs && s.procs[p].phase.Finishing? then
      Move(s, p, Done(s.procs[p].phase.logs)).(lock := if ok then None else s.lock)
    else if At(s, p, FinishingError) then
      Move(s, p, Failed).(lock := if ok then None else s.lock)
    else s
  }

  function Step(s: State, e: Event): State {
    match e
    case Append(text) =>
      s.(log := Some(Content(s.log) + [Line(|s.history|, text)]), history := s.history + [text])
    case Trim(drop) =>
      if s.log.Some? && drop <= |s.log.value| then s.(log := Some(s.log.value[drop..])) else s
    case Spawn(p, mode) =>
      if p in s.procs then s else s.(procs := s.procs[p := Proc(mode, Acquiring(0))])
    case TryLock(p, ok) => StepLock(s, p, ok)
    case Rename(p, ok) => StepRename(s, p, ok)
    case Recreate(p, ok) => StepRecreate(s, p, ok)
    case ReadTemp(p, ok) => StepReadTemp(s, p, ok)
    case UnlinkTemp(p, ok) => StepUnlinkTemp(s, p, ok)
    case ReadLog(p, ok) => StepReadLog(s, p, ok)
    case Release(p, ok) => StepRelease(s, p, ok)
  }

  function ExecFrom(s: State, es: seq<Event>): State {
    if es == [] then s else Step(ExecFrom(s, es[..|es| - 1]), es[|es| - 1])
  }

  function Exec(es: seq<Event>): State {
    ExecFrom(Init, es)
  }

  // ---- What the reset processes hold or have returned ----

  /** The lines a reset process carries in its temp file or has read from it. */
  function Batch(s: State, p: Pid): File {
    if p !in s.procs || s.procs[p].mode == ReadOnly then []
    else match s.procs[p].phase
      case Renamed => if p in s.temps then s.temps[p] else []
      case Recreated => if p in s.temps then s.temps[p] else []
      case TempRead(logs) => logs
      case Finishing(logs) => logs
      case Done(logs) => logs
      case _ => []
  }

  function Batches(s: State, ps: seq<Pid>): File {
    if ps == [] then [] else Batches(s, ps[..|ps| - 1]) + Batch(s, ps[|ps| - 1])
  }

  /** All batches in lock order, followed by the current file. */
  function Stream(s: State): File {
    Batches(s, s.order) + Content(s.log)
  }

  /** An in-order selection of the appended lines, each at most once. */
  ghost predicate Selection(f: File, history: seq<string>) {
    && (forall i :: 0 <= i < |f| ==> f[i].no < |history| && f[i].text == history[f[i].no])
    && (forall i, j :: 0 <= i < j < |f| ==> f[i].no < f[j].no)
  }

  function AllLines(history: seq<string>): File {
    seq(|history|, i requires 0 <= i < |history| => Line(i, history[i]))
  }

  // ---- The invariant ----

  ghost predicate LockInv(s: State) {
    && (forall p: Pid :: InSection(s, p) ==> s.lock == Some(p) && s.order != [] && s.order[|s.order| - 1] == p)
    && (forall i :: 0 <= i < |s.order| ==> s.order[i] in s.procs)
    && (forall i :: 0 <= i < |s.order| ==>
          !s.procs[s.order[i]].phase.Acquiring? && !s.procs[s.order[i]].phase.GaveUp?)
    && (forall i, j :: 0 <= i < j < |s.order| ==> s.order[i] != s.order[j])
    && (forall p: Pid :: At(s, p, Renamed) || At(s, p, Recreated) ==> p in s.temps && s.procs[p].mode == Reset)
  }

  ghost predicate Inv(s: State) {
    LockInv(s) && Selection(Stream(s), s.history)
  }

  /** The number of appended lines that an event makes unreachable. */
  function Lost(s: State, e: Event): nat {
    match e
    case Trim(drop) => if s.log.Some? && drop <= |s.log.value| then drop else 0
    case Recreate(p, ok) => if At(s, p, Renamed) && ok then |Content(s.log)| else 0
    case ReadTemp(p, ok) => if At(s, p, Recreated) && !ok then |Batch(s, p)| else 0
    case _ => 0
  }

  function TotalLost(es: seq<Event>): nat {
    if es == [] then 0
    else TotalLost(es[..|es| - 1]) + Lost(Exec(es[..|es| - 1]), es[|es| - 1])
  }

  // ---- One step ----

  lemma {:induction false} BatchesFrame(s: State, t: State, ps: seq<Pid>)
    requires forall i :: 0 <= i < |ps| ==> Batch(s, ps[i]) == Batch(t, ps[i])
    ensures Batches(s, ps) == Batches(t, ps)
  {
    if ps != [] {
      BatchesFrame(s, t, ps[..|ps| - 1]);
    }
  }

  lemma {:induction false} BatchesSplit(s: State, a: seq<Pid>, b: seq<Pid>)
    ensures Batches(s, a + b) == Batches(s, a) + Batches(s, b)
  {
    if b == [] {
      assert a + b == a;
    } else {
      var b', l := b[..|b| - 1], Batch(s, b[|b| - 1]);
      BatchesSplit(s, a, b');
      assert (a + b)[..|a + b| - 1] == a + b';
      Assoc(Batches(s, a), Batches(s, b'), l);
    }
  }

  lemma DropMiddle(a: File, b: File, c: File, history: seq<string>)
    requires Selection(a + b + c, history)
    ensures Selection(a + c, history)
  {
    var f, g := a + b + c, a + c;
    forall i | 0 <= i < |g|
      ensures g[i] == f[if i < |a| then i else i + |b|]
    {}
  }

  lemma SameTemp(s: State, t: State, p: Pid, r: Pid)
    requires t.temps - {p} == s.temps - {p} && r != p
    ensures (r in t.temps <==> r in s.temps) && (r in s.temps ==> t.temps[r] == s.temps[r])
  {
    assert r in t.temps - {p} <==> r in s.temps - {p};
    if r in s.temps {
      assert (t.temps - {p})[r] == (s.temps - {p})[r];
    }
  }

  /** A process inside the section is the only one there, so its own move disturbs nobody. */
  lemma OwnMove(s: State, t: State, p: Pid, q: Proc)
    requires LockInv(s) && InSection(s, p)
    requires t.procs == s.procs[p := q] && t.order == s.order
    requires q.mode == s.procs[p].mode && !q.phase.Acquiring? && !q.phase.GaveUp?
    requires Holding(q.phase) ==> t.lock == s.lock
    requires q.phase.Renamed? || q.phase.Recreated? ==> p in t.temps && q.mode == Reset
    requires t.temps - {p} == s.temps - {p}
    ensures LockInv(t)
    ensures forall i :: 0 <= i < |s.order| - 1 ==> Batch(t, s.order[i]) == Batch(s, s.order[i])
  {
    forall r: Pid | r != p
      ensures !InSection(t, r) && (r in t.temps <==> r in s.temps)
    {
      assert !InSection(s, r);
      assert r in t.temps - {p} <==> r in s.temps - {p};
    }
    var last := |s.order| - 1;
    forall i | 0 <= i < last
      ensures Batch(t, s.order[i]) == Batch(s, s.order[i])
    {
      assert s.order[i] != s.order[last];
      SameTemp(s, t, p, s.order[i]);
    }
  }

  lemma NotInOrder(s: State, p: Pid)
    requires LockInv(s) && (p in s.procs ==> s.procs[p].phase.Acquiring?)
    ensures p !in s.order
  {}

  lemma OthersKeep(s: State, t: State, p: Pid, ps: seq<Pid>)
    requires p !in ps && t.temps == s.temps && p in t.procs && t.procs == s.procs[p := t.procs[p]]
    ensures Batches(t, ps) == Batches(s, ps)
  {
    forall i | 0 <= i < |ps| ensures Batch(t, ps[i]) == Batch(s, ps[i]) {
      assert ps[i] != p;
    }
    BatchesFrame(s, t, ps);
  }

  lemma OutsideLock(s: State, t: State, p: Pid, q: Proc)
    requires LockInv(s) && (p in s.procs ==> s.procs[p].phase.Acquiring?)
    requires t == s.(procs := s.procs[p := q]) && (q.phase.Acquiring? || q.phase.GaveUp?)
    ensures LockInv(t) && p !in s.order
  {
    NotInOrder(s, p);
    forall r: Pid ensures InSection(t, r) == InSection(s, r) {}
  }

  /** A process outside the order may change its own entry without disturbing anything. */
  lemma OutsideMove(s: State, t: State, p: Pid, q: Proc)
    requires LockInv(s) && (p in s.procs ==> s.procs[p].phase.Acquiring?)
    requires t == s.(procs := s.procs[p := q]) && (q.phase.Acquiring? || q.phase.GaveUp?)
    ensures LockInv(t)
    ensures Batches(t, t.order) == Batches(s, s.order)
  {
    OutsideLock(s, t, p, q);
    OthersKeep(s, t, p, s.order);
  }

  lemma AcquireLock(s: State, t: State, p: Pid)
    requires LockInv(s) && p in s.procs && s.procs[p].phase.Acquiring? && s.lock.None?
    requires t == Move(s, p, Locked).(lock := Some(p), order := s.order + [p])
    ensures LockInv(t) && p !in s.order
  {
    NotInOrder(s, p);
    forall r: Pid ensures InSection(t, r) <==> r == p {
      assert !InSection(s, r);
    }
  }

  /** The exclusive create succeeds only when nobody is inside the section. */
  lemma AcquireStep(s: State, t: State, p: Pid)
    requires LockInv(s) && p in s.procs && s.procs[p].phase.Acquiring? && s.lock.None?
    requires t == Move(s, p, Locked).(lock := Some(p), order := s.order + [p])
    ensures LockInv(t)
    ensures Batches(t, t.order) == Batches(s, s.order)
  {
    AcquireLock(s, t, p);
    OthersKeep(s, t, p, s.order);
    assert t.order[..|t.order| - 1] == s.order;
    assert Batch(t, p) == [];
  }

  lemma LockStep(s: State, p: Pid, ok: bool)
    requires LockInv(s)
    ensures var t := StepLock(s, p, ok);
            && LockInv(t) && Batches(t, t.order) == Batches(s, s.order) && t.log == s.log && t.history == s.history
            && (At(t, p, Locked) && !At(s, p, Locked) ==> ok && s.lock.None? && t.lock == Some(p))
            && (t.lock == s.lock || (At(t, p, Locked) && !At(s, p, Locked)))
  {
    var t := StepLock(s, p, ok);
    if p in s.procs && s.procs[p].phase.Acquiring? {
      if s.lock.None? && ok {
        AcquireStep(s, t, p);
      } else {
        OutsideMove(s, t, p, t.procs[p]);
      }
    }
  }

  lemma SpawnStep(s: State, p: Pid, mode: Mode)
    requires LockInv(s)
    ensures LockInv(Step(s, Spawn(p, mode)))
    ensures Batches(Step(s, Spawn(p, mode)), s.order) == Batches(s, s.order)
  {
    if p !in s.procs {
      OutsideMove(s, Step(s, Spawn(p, mode)), p, Proc(mode, Acquiring(0)));
    }
  }

  /** A step of a process inside the section touches its own entry, the log, its own temp file
      and, when it leaves, the lock. */
  lemma SectionShape(s: State, e: Event)
    requires !e.Append? && !e.Trim? && !e.Spawn? && !e.TryLock?
    requires At(s, e.pid, Renamed) ==> e.pid in s.temps && s.procs[e.pid].mode == Reset
    ensures Step(s, e) == s || (
      var t, p := Step(s, e), e.pid;
      && InSection(s, p) && p in t.procs && t.procs == s.procs[p := t.procs[p]]
      && t.order == s.order && t.history == s.history
      && t.procs[p].mode == s.procs[p].mode && !t.procs[p].phase.Acquiring? && !t.procs[p].phase.GaveUp?
      && (Holding(t.procs[p].phase) ==> t.lock == s.lock)
      && (t.procs[p].phase.Renamed? || t.procs[p].phase.Recreated? ==> p in t.temps && t.procs[p].mode == Reset)
      && t.temps - {p} == s.temps - {p})
  {
    var t, p := Step(s, e), e.pid;
    if e.Rename? {
      assert t.temps - {p} == s.temps - {p};
    } else if e.UnlinkTemp? {
      assert t.temps - {p} == s.temps - {p};
    }
  }

  /** Every step of a process inside the section keeps the lock discipline and the other batches. */
  lemma SectionStep(s: State, e: Event)
    requires LockInv(s)
    requires !e.Append? && !e.Trim? && !e.Spawn? && !e.TryLock?
    ensures var t := Step(s, e);
            && LockInv(t) && t.order == s.order && t.history == s.history
            && (t == s || InSection(s, e.pid))
            && (forall i :: 0 <= i < |s.order| - 1 ==> Batch(t, s.order[i]) == Batch(s, s.order[i]))
  {
    SectionShape(s, e);
    if Step(s, e) != s {
      OwnMove(s, Step(s, e), e.pid, Step(s, e).procs[e.pid]);
    }
  }

  /** Appended = still reachable in order + lost, step by step. */
  ghost predicate Accounts(s: State, e: Event) {
    var t := Step(s, e);
    Inv(t) && |t.history| - |s.history| == |Stream(t)| - |Stream(s)| + Lost(s, e)
  }

  /** Nothing about the lock or the batches depends on the log file or the history. */
  lemma AppenderMove(s: State, log: Option<File>, history: seq<string>)
    requires LockInv(s)
    ensures var t := s.(log := log, history := history);
            LockInv(t) && Batches(t, t.order) == Batches(s, s.order)
  {
    var t := s.(log := log, history := history);
    forall r: Pid ensures InSection(t, r) == InSection(s, r) {}
    BatchesFrame(s, t, s.order);
  }

  lemma SelectionAppend(f: File, history: seq<string>, text: string)
    requires Selection(f, history)
    ensures Selection(f + [Line(|history|, text)], history + [text])
  {}

  lemma AppendStep(s: State, text: string)
    requires Inv(s)
    ensures Accounts(s, Append(text))
  {
    var t := Step(s, Append(text));
    AppenderMove(s, t.log, t.history);
    assert Stream(t) == Stream(s) + [Line(|s.history|, text)];
    SelectionAppend(Stream(s), s.history, text);
  }

  lemma TrimStep(s: State, drop: nat)
    requires Inv(s)
    ensures Accounts(s, Trim(drop))
  {
    var t, b := Step(s, Trim(drop)), Batches(s, s.order);
    if s.log.Some? && drop <= |s.log.value| {
      AppenderMove(s, t.log, t.history);
      assert Stream(s) == b + s.log.value[..drop] + s.log.value[drop..];
      DropMiddle(b, s.log.value[..drop], s.log.value[drop..], s.history);
    }
  }

  /** The three things a step inside the section can do to its own batch and the file. */
  ghost predicate TailChange(s: State, t: State, p: Pid, lost: nat) {
    || (Batch(t, p) == Batch(s, p) && Content(t.log) == [] && lost == |Content(s.log)|)
    || (Batch(t, p) == [] && t.log == s.log && lost == |Batch(s, p)|)
    || (Batch(t, p) + Content(t.log) == Batch(s, p) + Content(s.log) && lost == 0)
  }

  lemma OwnTail(s: State, e: Event)
    requires LockInv(s)
    requires !e.Append? && !e.Trim? && !e.Spawn? && !e.TryLock?
    ensures if Step(s, e) == s then Lost(s, e) == 0 else TailChange(s, Step(s, e), e.pid, Lost(s, e))
  {}

  lemma TailSelection(b: File, c: File, d: File, c': File, d': File, history: seq<string>, lost: nat)
    requires Selection(b + c + d, history)
    requires || (c' == c && d' == [] && lost == |d|) || (c' == [] && d' == d && lost == |c|)
             || (c' + d' == c + d && lost == 0)
    ensures Selection(b + c' + d', history) && |b + c + d| == |b + c' + d'| + lost
  {
    if c' == c && d' == [] && lost == |d| {
      assert b + c + d == (b + c) + d + [];
      DropMiddle(b + c, d, [], history);
    } else if c' == [] && d' == d && lost == |c| {
      DropMiddle(b, c, d, history);
      assert b + [] + d == b + d;
    } else {
      assert b + c + d == b + (c + d) && b + c' + d' == b + (c' + d');
    }
  }

  lemma StreamTail(s: State, t: State, p: Pid, lost: nat)
    requires s.order != [] && s.order[|s.order| - 1] == p && t.order == s.order && t.history == s.history
    requires forall i :: 0 <= i < |s.order| - 1 ==> Batch(t, s.order[i]) == Batch(s, s.order[i])
    requires Selection(Stream(s), s.history) && TailChange(s, t, p, lost)
    ensures Selection(Stream(t), t.history) && |Stream(s)| == |Stream(t)| + lost
  {
    var n := |s.order| - 1;
    BatchesFrame(s, t, s.order[..n]);
    TailSelection(Batches(s, s.order[..n]), Batch(s, p), Content(s.log), Batch(t, p), Content(t.log), s.history, lost);
  }

  lemma SectionAccounts(s: State, e: Event)
    requires Inv(s)
    requires !e.Append? && !e.Trim? && !e.Spawn? && !e.TryLock?
    ensures Accounts(s, e)
  {
    SectionStep(s, e);
    OwnTail(s, e);
    if Step(s, e) != s {
      StreamTail(s, Step(s, e), e.pid, Lost(s, e));
    }
  }

  lemma AccountStep(s: State, e: Event)
    requires Inv(s)
    ensures Accounts(s, e)
  {
    match e
    case Append(text) => AppendStep(s, text);
    case Trim(drop) => TrimStep(s, drop);
    case Spawn(p, mode) => SpawnStep(s, p, mode);
    case TryLock(p, ok) => LockStep(s, p, ok);
    case _ => SectionAccounts(s, e);
  }

  // ---- All runs ----

  lemma {:induction false} RunInv(es: seq<Event>)
    ensures Inv(Exec(es))
    ensures |Exec(es).history| == |Stream(Exec(es))| + TotalLost(es)
  {
    if es != [] {
      RunInv(es[..|es| - 1]);
      AccountStep(Exec(es[..|es| - 1]), es[|es| - 1]);
    }
  }

  /** At most one process is ever between lock acquire and lock release, and the lock file names it. */
  lemma MutualExclusion(es: seq<Event>, p: Pid, q: Pid)
    requires InSection(Exec(es), p) && InSection(Exec(es), q)
    ensures p == q && Exec(es).lock == Some(p)
  {
    RunInv(es);
  }

  /** In every run the batches in lock order, then the file, are an in-order selection of the
      appended lines, and they miss exactly the lines counted as lost. */
  lemma InOrderDelivery(es: seq<Event>)
    ensures Selection(Stream(Exec(es)), Exec(es).history)
    ensures |Exec(es).history| == |Stream(Exec(es))| + TotalLost(es)
  {
    RunInv(es);
  }

  lemma {:induction false} SelectionFloor(f: File, history: seq<string>, i: nat)
    requires Selection(f, history) && i < |f|
    ensures i <= f[i].no <= |history| - (|f| - i)
    decreases |f| - i
  {
    if i + 1 < |f| {
      SelectionFloor(f, history, i + 1);
    }
    SelectionStart(f, history, i);
  }

  lemma {:induction false} SelectionStart(f: File, history: seq<string>, i: nat)
    requires Selection(f, history) && i < |f|
    ensures i <= f[i].no
  {
    if i > 0 {
      SelectionStart(f, history, i - 1);
    }
  }

  /** Nothing is missing exactly when nothing was lost on the way. */
  lemma CompleteIffNothingLost(es: seq<Event>)
    ensures Stream(Exec(es)) == AllLines(Exec(es).history) <==> TotalLost(es) == 0
  {
    RunInv(es);
    var s := Exec(es);
    if TotalLost(es) == 0 {
      forall i | 0 <= i < |Stream(s)|
        ensures Stream(s)[i] == AllLines(s.history)[i]
      {
        SelectionFloor(Stream(s), s.history, i);
      }
    }
  }

  lemma BatchesSnoc(s: State, ps: seq<Pid>, i: nat)
    requires i < |ps|
    ensures Batches(s, ps[..i + 1]) == Batches(s, ps[..i]) + Batch(s, ps[i])
  {
    assert ps[..i + 1][..i] == ps[..i];
  }

  lemma BatchPlace(s: State, ps: seq<Pid>, i: nat, l: Line) returns (k: nat)
    requires i < |ps| && l in Batch(s, ps[i])
    ensures |Batches(s, ps[..i])| <= k < |Batches(s, ps[..i + 1])| <= |Batches(s, ps)|
    ensures Batches(s, ps)[k] == l
  {
    var a, b, c := Batches(s, ps[..i]), Batch(s, ps[i]), Batches(s, ps[i + 1..]);
    var m :| 0 <= m < |b| && b[m] == l;
    k := |a| + m;
    BatchesAround(s, ps, i);
    MiddleAt(a, b, c, m);
  }

  lemma BatchesAround(s: State, ps: seq<Pid>, i: nat)
    requires i < |ps|
    ensures Batches(s, ps[..i + 1]) == Batches(s, ps[..i]) + Batch(s, ps[i])
    ensures Batches(s, ps) == Batches(s, ps[..i]) + Batch(s, ps[i]) + Batches(s, ps[i + 1..])
  {
    var a, b := ps[..i + 1], ps[i + 1..];
    BatchesSnoc(s, ps, i);
    assert a + b == ps;
    BatchesSplit(s, a, b);
  }

  lemma MiddleAt(a: File, b: File, c: File, m: nat)
    requires m < |b|
    ensures (a + b + c)[|a| + m] == b[m]
  {}

  lemma BatchesMonotone(s: State, ps: seq<Pid>, i: nat, j: nat)
    requires i <= j <= |ps|
    ensures |Batches(s, ps[..i])| <= |Batches(s, ps[..j])|
  {
    BatchesSplit(s, ps[..i], ps[i..j]);
    assert ps[..i] + ps[i..j] == ps[..j];
  }

  lemma StreamPlace(s: State, i: nat, l: Line) returns (k: nat)
    requires i < |s.order| && l in Batch(s, s.order[i])
    ensures |Batches(s, s.order[..i])| <= k < |Batches(s, s.order[..i + 1])| <= |Batches(s, s.order)| <= |Stream(s)|
    ensures Stream(s)[k] == l
  {
    k := BatchPlace(s, s.order, i, l);
  }

  lemma FilePlace(s: State, m: Line) returns (k: nat)
    requires m in Content(s.log)
    ensures |Batches(s, s.order)| <= k < |Stream(s)| && Stream(s)[k] == m
  {
    var c :| 0 <= c < |Content(s.log)| && Content(s.log)[c] == m;
    k := |Batches(s, s.order)| + c;
  }

  lemma EarlierFirst(s: State, i: nat, j: nat, l: Line, m: Line)
    requires Selection(Stream(s), s.history) && i < j <= |s.order|
    requires l in Batch(s, s.order[i])
    requires m in if j < |s.order| then Batch(s, s.order[j]) else Content(s.log)
    ensures l.no < m.no
  {
    var k := StreamPlace(s, i, l);
    var k': nat;
    if j < |s.order| {
      k' := StreamPlace(s, j, m);
      BatchesMonotone(s, s.order, i + 1, j);
    } else {
      k' := FilePlace(s, m);
    }
    assert k < k' < |Stream(s)|;
  }

  /** Everything an earlier reset got was appended before anything a later reset got,
      and before anything still in the file; so no line is handed out twice. */
  lemma AtMostOnce(es: seq<Event>, i: nat, j: nat, l: Line, m: Line)
    requires i < j <= |Exec(es).order|
    requires l in Batch(Exec(es), Exec(es).order[i])
    requires m in if j < |Exec(es).order| then Batch(Exec(es), Exec(es).order[j]) else Content(Exec(es).log)
    ensures l.no < m.no
  {
    RunInv(es);
    EarlierFirst(Exec(es), i, j, l, m);
  }

  // ---- What one process returns ----

  /** The lines a process has taken out of the log file, by rename or by reading it. */
  function Taken(s: State, p: Pid): Option<File> {
    if p !in s.procs then None
    else match s.procs[p].phase
      case Renamed => if p in s.temps then Some(s.temps[p]) else None
      case Recreated => if p in s.temps then Some(s.temps[p]) else None
      case TempRead(logs) => Some(logs)
      case Finishing(logs) => Some(logs)
      case Done(logs) => Some(logs)
      case _ => None
  }

  /** They are what the file held at a moment when the process had the lock, or nothing because
      its read of the temp file failed. */
  ghost predicate Explained(es: seq<Event>, p: Pid, logs: File) {
    || (exists i :: 0 <= i <= |es| && HeldAt(es, i, p, logs))
    || (ReadTemp(p, false) in es && logs == [])
  }

  ghost predicate HeldAt(es: seq<Event>, i: nat, p: Pid, logs: File)
    requires i <= |es|
  {
    var s := Exec(es[..i]);
    At(s, p, Locked) && s.lock == Some(p) && logs == Content(s.log)
  }

  lemma TakenStep(s: State, e: Event, p: Pid)
    requires At(s, p, Renamed) || At(s, p, Recreated) ==> p in s.temps
    requires Taken(Step(s, e), p).Some?
    ensures || Taken(Step(s, e), p) == Taken(s, p)
            || (At(s, p, Locked) && Taken(Step(s, e), p) == Some(Content(s.log)))
            || (e == ReadTemp(p, false) && Taken(Step(s, e), p) == Some([]))
  {
    if e.Append? || e.Trim? || e.pid != p {
      TakenByOthers(s, e, p);
    }
  }

  lemma TakenByOthers(s: State, e: Event, p: Pid)
    requires (e.Append? || e.Trim? || e.pid != p) && Taken(Step(s, e), p).Some?
    ensures Taken(Step(s, e), p) == Taken(s, p)
  {
    if p in s.procs {
      OthersStay(s, e, p);
    }
  }

  lemma ExplainedLonger(es: seq<Event>, p: Pid, logs: File)
    requires es != [] && Explained(es[..|es| - 1], p, logs)
    ensures Explained(es, p, logs)
  {
    var before := es[..|es| - 1];
    if i :| 0 <= i <= |before| && HeldAt(before, i, p, logs) {
      assert before[..i] == es[..i];
      assert HeldAt(es, i, p, logs);
    }
  }

  /** Whatever a `logs get` returns, reset or read-only, is exactly what the file held at one moment
      while that process had the lock; the one exception is a failed read of the temp file. */
  lemma {:induction false} ReturnsASnapshot(es: seq<Event>, p: Pid)
    ensures Taken(Exec(es), p).Some? ==> Explained(es, p, Taken(Exec(es), p).value)
  {
    if es != [] {
      var before, e := es[..|es| - 1], es[|es| - 1];
      ReturnsASnapshot(before, p);
      RunInv(before);
      if Taken(Exec(es), p).Some? {
        var logs := Taken(Exec(es), p).value;
        TakenStep(Exec(before), e, p);
        assert At(Exec(before), p, Locked) ==> InSection(Exec(before), p);
        if Taken(Exec(es), p) == Taken(Exec(before), p) {
          ExplainedLonger(es, p, logs);
        } else if e != ReadTemp(p, false) {
          assert HeldAt(es, |es| - 1, p, logs);
        }
      }
    }
  }

  // ---- When nothing is lost: the condition on events ----

  ghost predicate SomeoneRenamed(s: State) {
    exists p: Pid :: At(s, p, Renamed)
  }

  /** A process is between its rename and its re-create, and an append has come in between. */
  ghost predicate AppendedInWindow(es: seq<Event>) {
    es != [] && SomeoneRenamed(Exec(es)) && (es[|es| - 1].Append? || AppendedInWindow(es[..|es| - 1]))
  }

  /** The event trims nothing away, is no failed read of a temp file that has lines, and is no
      successful re-create after an append in its window. */
  ghost predicate Harmless(before: seq<Event>, e: Event) {
    var s := Exec(before);
    match e
    case Trim(drop) => drop == 0 || s.log.None? || drop > |s.log.value|
    case ReadTemp(p, ok) => ok || !At(s, p, Recreated) || Batch(s, p) == []
    case Recreate(p, ok) => !ok || !At(s, p, Renamed) || !AppendedInWindow(before)
    case _ => true
  }

  ghost predicate Quiet(es: seq<Event>) {
    es == [] || (Quiet(es[..|es| - 1]) && Harmless(es[..|es| - 1], es[|es| - 1]))
  }

  /** Inside a window the file has lines exactly when an append came in. */
  ghost predicate WindowInv(s: State, appended: bool) {
    SomeoneRenamed(s) ==> (Content(s.log) != [] <==> appended)
  }

  lemma WindowStep(s: State, e: Event, appended: bool)
    requires LockInv(s) && WindowInv(s, appended) && (!SomeoneRenamed(s) ==> !appended)
    requires e.Trim? ==> Lost(s, e) == 0
    ensures WindowInv(Step(s, e), e.Append? || appended)
  {
    if q: Pid :| At(Step(s, e), q, Renamed) {
      if At(s, q, Renamed) {
        WindowContinues(s, e, q);
      } else {
        WindowOpens(s, e, q);
      }
    }
  }

  /** A rename opens the window on no file, and no other window is open. */
  lemma WindowOpens(s: State, e: Event, q: Pid)
    requires LockInv(s) && At(Step(s, e), q, Renamed) && !At(s, q, Renamed)
    ensures e == Rename(q, true) && Step(s, e).log.None? && !SomeoneRenamed(s)
  {
    assert forall r: Pid :: At(s, r, Renamed) ==> InSection(s, r);
    RenamedBy(s, e, q);
  }

  lemma RenamedBy(s: State, e: Event, q: Pid)
    requires At(Step(s, e), q, Renamed) && !At(s, q, Renamed)
    ensures e == Rename(q, true) && Step(s, e).log.None? && InSection(s, q)
  {
    if e.Append? || e.Trim? || e.pid != q {
      assert q in s.procs ==> Step(s, e).procs[q] == s.procs[q] by {
        if q in s.procs {
          OthersStay(s, e, q);
        }
      }
    }
  }

  /** While the window stays open, only an append puts lines into the file, and only a trim that is
      counted as a loss takes them out. */
  lemma WindowContinues(s: State, e: Event, q: Pid)
    requires LockInv(s) && At(s, q, Renamed) && At(Step(s, e), q, Renamed)
    requires e.Trim? ==> Lost(s, e) == 0
    ensures SomeoneRenamed(s)
    ensures Content(Step(s, e).log) != [] <==> e.Append? || Content(s.log) != []
  {
    assert InSection(s, q);
    if !e.Append? && !e.Trim? {
      assert InSection(s, e.pid) ==> e.pid == q;
      LogUntouched(s, e);
    }
  }

  lemma LogUntouched(s: State, e: Event)
    requires !e.Append? && !e.Trim?
    requires InSection(s, e.pid) ==> At(s, e.pid, Renamed) && At(Step(s, e), e.pid, Renamed)
    ensures Step(s, e).log == s.log
  {}

  lemma {:induction false} QuietIff(es: seq<Event>)
    ensures Quiet(es) <==> TotalLost(es) == 0
    ensures Quiet(es) ==> WindowInv(Exec(es), AppendedInWindow(es))
  {
    if es != [] {
      var before, e := es[..|es| - 1], es[|es| - 1];
      QuietIff(before);
      RunInv(before);
      if Quiet(before) {
        HarmlessIff(before, e);
        if Quiet(es) {
          WindowStep(Exec(before), e, AppendedInWindow(before));
        }
      }
    }
  }

  lemma HarmlessIff(before: seq<Event>, e: Event)
    requires WindowInv(Exec(before), AppendedInWindow(before))
    ensures Harmless(before, e) <==> Lost(Exec(before), e) == 0
  {
    if e.Recreate? && At(Exec(before), e.pid, Renamed) {
      assert SomeoneRenamed(Exec(before));
    }
  }

  /** The batches and the file are exactly all appended lines, in order, if and only if every event of
      the run was harmless. */
  lemma ExactlyOnce(es: seq<Event>)
    ensures Stream(Exec(es)) == AllLines(Exec(es).history) <==> Quiet(es)
  {
    QuietIff(es);
    CompleteIffNothingLost(es);
  }

  predicate NothingFailed(es: seq<Event>) {
    forall i :: 0 <= i < |es| ==> !es[i].Trim? && !es[i].ReadTemp? && (es[i].Recreate? ==> es[i].ok)
  }

  lemma Snoc(es: seq<Event>, e: Event)
    ensures Exec(es + [e]) == Step(Exec(es), e)
    ensures TotalLost(es + [e]) == TotalLost(es) + Lost(Exec(es), e)
  {
    assert (es + [e])[..|es + [e]| - 1] == es;
  }

  /** A reset that has just moved a one-line log away. */
  lemma RenamedRun() returns (es: seq<Event>)
    ensures es == [Append("a"), Spawn(1, Reset), TryLock(1, true), Rename(1, true)]
    ensures TotalLost(es) == 0 && At(Exec(es), 1, Renamed) && Exec(es).log.None?
  {
    assert Exec([]) == Init;
    Snoc([], Append("a"));
    Snoc([Append("a")], Spawn(1, Reset));
    Snoc([Append("a"), Spawn(1, Reset)], TryLock(1, true));
    Snoc([Append("a"), Spawn(1, Reset), TryLock(1, true)], Rename(1, true));
    assert [] + [Append("a")] == [Append("a")];
    es := [Append("a"), Spawn(1, Reset), TryLock(1, true)] + [Rename(1, true)];
  }

  /** An append between the rename and the re-create is lost, though no operation failed. */
  lemma AppendInWindowIsLost()
    ensures exists es: seq<Event> :: TotalLost(es) == 1 && !Quiet(es) && NothingFailed(es)
  {
    var r4 := RenamedRun();
    var r5 := r4 + [Append("b")];
    var r6 := r5 + [Recreate(1, true)];
    Snoc(r4, Append("b"));
    Snoc(r5, Recreate(1, true));
    assert SomeoneRenamed(Exec(r4));
    assert |Content(Exec(r5).log)| == 1;
    assert At(Exec(r5), 1, Renamed);
    QuietIff(r6);
    assert TotalLost(r6) == 1 && !Quiet(r6) && NothingFailed(r6);
  }

  // ---- Ends: every process stops, and a lock left behind stays ----

  function Rank(phase: Phase): nat {
    match phase
    case Acquiring(n) => if n < MAX_ATTEMPTS then 11 - n else 7
    case Locked => 6
    case Renamed => 5
    case Recreated => 4
    case TempRead(_) => 3
    case Finishing(_) => 2
    case FinishingError => 2
    case _ => 0
  }

  /** The number of times a run changed the entry of an already running process. */
  function MovesOf(es: seq<Event>, p: Pid): nat {
    if es == [] then 0 else
      var s, t := Exec(es[..|es| - 1]), Exec(es);
      MovesOf(es[..|es| - 1], p) + if p in s.procs && p in t.procs && s.procs[p] != t.procs[p] then 1 else 0
  }

  lemma OthersStay(s: State, e: Event, p: Pid)
    requires p in s.procs && (e.Append? || e.Trim? || e.pid != p)
    ensures p in Step(s, e).procs && Step(s, e).procs[p] == s.procs[p]
  {}

  lemma RankStep(s: State, e: Event, p: Pid)
    requires p in s.procs
    ensures p in Step(s, e).procs
    ensures var q := Step(s, e).procs[p];
            q == s.procs[p] || Rank(q.phase) < Rank(s.procs[p].phase)
  {
    if e.Append? || e.Trim? || e.pid != p {
      OthersStay(s, e, p);
    }
  }

  lemma SpawnOnly(s: State, e: Event, p: Pid)
    requires p !in s.procs && p in Step(s, e).procs
    ensures Step(s, e).procs[p].phase == Acquiring(0)
  {}

  predicate Over(phase: Phase) {
    phase.GaveUp? || phase.Done? || phase.Failed?
  }

  /** The operation a process does next; `ok` says whether it works. */
  function NextOp(q: Proc, p: Pid, ok: bool): Event
    requires !Over(q.phase)
  {
    match q.phase
    case Acquiring(_) => TryLock(p, ok)
    case Locked => if q.mode == Reset then Rename(p, ok) else ReadLog(p, ok)
    case Renamed => Recreate(p, ok)
    case Recreated => ReadTemp(p, ok)
    case TempRead(_) => UnlinkTemp(p, ok)
    case Finishing(_) => Release(p, ok)
    case FinishingError => Release(p, ok)
  }

  /** A process that is not over can always do its next operation, and whether that works or not, it
      comes closer to its end. */
  lemma NeverStuck(s: State, p: Pid, ok: bool)
    requires p in s.procs && !Over(s.procs[p].phase)
    ensures var t := Step(s, NextOp(s.procs[p], p, ok));
            p in t.procs && Rank(t.procs[p].phase) < Rank(s.procs[p].phase)
  {}

  /** A `logs get` never moves backwards and has made at most eleven operations; it is over exactly
      when its rank is 0, and until then its next operation is possible and lowers the rank. */
  lemma {:induction false} ProcessEnds(es: seq<Event>, p: Pid)
    ensures p !in Exec(es).procs ==> MovesOf(es, p) == 0
    ensures p in Exec(es).procs ==>
              var q := Exec(es).procs[p];
              && MovesOf(es, p) + Rank(q.phase) <= 11
              && (Over(q.phase) <==> Rank(q.phase) == 0)
              && (!Over(q.phase) ==> forall ok :: Rank(Step(Exec(es), NextOp(q, p, ok)).procs[p].phase) < Rank(q.phase))
  {
    if es != [] {
      var s := Exec(es[..|es| - 1]);
      ProcessEnds(es[..|es| - 1], p);
      if p in s.procs {
        RankStep(s, es[|es| - 1], p);
      } else if p in Exec(es).procs {
        SpawnOnly(s, es[|es| - 1], p);
      }
    }
    if p in Exec(es).procs && !Over(Exec(es).procs[p].phase) {
      NeverStuck(Exec(es), p, true);
      NeverStuck(Exec(es), p, false);
    }
  }

  /** Left alone, it comes to its end by its own operations, however they turn out. */
  lemma {:induction false} ProcessFinishes(s: State, p: Pid, oks: nat -> bool) returns (es: seq<Event>)
    requires p in s.procs
    ensures |es| <= Rank(s.procs[p].phase)
    ensures forall i :: 0 <= i < |es| ==> !es[i].Append? && !es[i].Trim? && es[i].pid == p
    ensures p in ExecFrom(s, es).procs && Over(ExecFrom(s, es).procs[p].phase)
    decreases Rank(s.procs[p].phase)
  {
    if Over(s.procs[p].phase) {
      es := [];
    } else {
      var e := NextOp(s.procs[p], p, oks(Rank(s.procs[p].phase)));
      NeverStuck(s, p, oks(Rank(s.procs[p].phase)));
      var rest := ProcessFinishes(Step(s, e), p, oks);
      ExecPrepend(s, e, rest);
      es := [e] + rest;
    }
  }

  lemma {:induction false} ExecPrepend(s: State, e: Event, es: seq<Event>)
    ensures ExecFrom(s, [e] + es) == ExecFrom(Step(s, e), es)
  {
    var whole := [e] + es;
    if es == [] {
      assert whole[..0] == [] && whole[0] == e;
      assert ExecFrom(s, whole[..0]) == s;
    } else {
      var before := es[..|es| - 1];
      ExecPrepend(s, e, before);
      assert whole[..|whole| - 1] == [e] + before;
      assert whole[|whole| - 1] == es[|es| - 1];
    }
  }

  /** A lock file whose creator has left the section. */
  predicate Orphaned(s: State) {
    s.lock.Some? && !InSection(s, s.lock.value)
  }

  lemma LockInvStep(s: State, e: Event)
    requires LockInv(s)
    ensures LockInv(Step(s, e))
  {
    match e
    case Append(text) => AppenderMove(s, Step(s, e).log, Step(s, e).history);
    case Trim(drop) => AppenderMove(s, Step(s, e).log, s.history);
    case Spawn(p, mode) => SpawnStep(s, p, mode);
    case TryLock(p, ok) => LockStep(s, p, ok);
    case _ => SectionStep(s, e);
  }

  /** While a lock file is there, nobody enters the section, and only one inside it can unlink it. */
  lemma StaysOut(s: State, e: Event, p: Pid)
    requires s.lock.Some? && !InSection(s, p)
    ensures !InSection(Step(s, e), p)
  {}

  lemma LockKept(s: State, e: Event)
    requires s.lock.Some? && (e.Release? ==> !InSection(s, e.pid))
    ensures Step(s, e).lock == s.lock && Step(s, e).order == s.order
  {}

  /** A failed unlink of the lock is final: from then on no process enters the section again. */
  lemma {:induction false} OrphanedForever(s: State, es: seq<Event>)
    requires LockInv(s) && Orphaned(s)
    ensures LockInv(ExecFrom(s, es)) && Orphaned(ExecFrom(s, es))
    ensures ExecFrom(s, es).lock == s.lock && ExecFrom(s, es).order == s.order
    ensures forall p: Pid :: !InSection(ExecFrom(s, es), p)
  {
    forall p: Pid ensures !InSection(s, p) {}
    if es != [] {
      OrphanedForever(s, es[..|es| - 1]);
      var u, e := ExecFrom(s, es[..|es| - 1]), es[|es| - 1];
      LockInvStep(u, e);
      LockKept(u, e);
      forall p: Pid ensures !InSection(Step(u, e), p) {
        StaysOut(u, e, p);
      }
    }
  }

  /** A process that is killed inside the section, and so takes no further event, keeps the lock for
      ever: the file names it, nobody else enters, and it stays inside. */
  lemma {:induction false} KilledInsideForever(s: State, p: Pid, es: seq<Event>)
    requires LockInv(s) && InSection(s, p)
    requires forall i :: 0 <= i < |es| ==> es[i].Append? || es[i].Trim? || es[i].pid != p
    ensures var t := ExecFrom(s, es);
            LockInv(t) && InSection(t, p) && t.lock == Some(p) && t.order == s.order && t.procs[p] == s.procs[p]
    ensures forall q: Pid :: q != p ==> !InSection(ExecFrom(s, es), q)
  {
    if es != [] {
      var before, e := es[..|es| - 1], es[|es| - 1];
      KilledInsideForever(s, p, before);
      var u := ExecFrom(s, before);
      LockInvStep(u, e);
      OthersStay(u, e, p);
      LockKept(u, e);
    }
  }

  lemma FailedReleaseOrphans(s: State, p: Pid)
    requires LockInv(s) && p in s.procs && (s.procs[p].phase.Finishing? || s.procs[p].phase.FinishingError?)
    ensures LockInv(Step(s, Release(p, false))) && Orphaned(Step(s, Release(p, false)))
  {
    assert InSection(s, p);
    SectionStep(s, Release(p, false));
  }

  // ---- How a `logs get` turns out, from its own operations ----

  /** Where a process stands: trying for the lock, refused for good, inside, with the file in hand, or
      on its way to an error. */
  datatype Fate = Trying(attempts: nat) | Refused | Inside | Fetched | Broken

  function FateOf(phase: Phase): Fate {
    match phase
    case Acquiring(n) => Trying(n)
    case GaveUp => Refused
    case Locked => Inside
    case FinishingError => Broken
    case Failed => Broken
    case _ => Fetched
  }

  /** A lock attempt that meets a lock file or fails. */
  predicate Refuses(s: State, e: Event, p: Pid) {
    e.TryLock? && e.pid == p && p in s.procs && s.procs[p].phase.Acquiring? && (s.lock.Some? || !e.ok)
  }

  /** The operation by which the lock holder takes the log: a rename to reset, otherwise a read. */
  predicate Fetches(s: State, e: Event, p: Pid) {
    At(s, p, Locked) && (if s.procs[p].mode == Reset then e.Rename? else e.ReadLog?) && e.pid == p
  }

  predicate FetchWorks(s: State, e: Event, p: Pid) {
    Fetches(s, e, p) && (s.log.None? || e.ok)
  }

  predicate FetchFails(s: State, e: Event, p: Pid) {
    Fetches(s, e, p) && s.log.Some? && !e.ok
  }

  predicate TempReadFails(s: State, e: Event, p: Pid) {
    At(s, p, Recreated) && e == ReadTemp(p, false)
  }

  function Refusals(es: seq<Event>, p: Pid): nat {
    if es == [] then 0
    else Refusals(es[..|es| - 1], p) + if Refuses(Exec(es[..|es| - 1]), es[|es| - 1], p) then 1 else 0
  }

  /** What the file held when the process took it. */
  function FileFetched(es: seq<Event>, p: Pid): Option<File> {
    if es == [] then None
    else if FetchWorks(Exec(es[..|es| - 1]), es[|es| - 1], p) then Some(Content(Exec(es[..|es| - 1]).log))
    else FileFetched(es[..|es| - 1], p)
  }

  predicate FetchFailed(es: seq<Event>, p: Pid) {
    es != [] && (FetchFails(Exec(es[..|es| - 1]), es[|es| - 1], p) || FetchFailed(es[..|es| - 1], p))
  }

  predicate TempReadFailed(es: seq<Event>, p: Pid) {
    es != [] && (TempReadFails(Exec(es[..|es| - 1]), es[|es| - 1], p) || TempReadFailed(es[..|es| - 1], p))
  }

  lemma FateByOthers(s: State, e: Event, p: Pid)
    requires p in s.procs && (e.Append? || e.Trim? || e.pid != p)
    ensures p in Step(s, e).procs && Step(s, e).procs[p] == s.procs[p] && Taken(Step(s, e), p) == Taken(s, p)
    ensures !Refuses(s, e, p) && !FetchWorks(s, e, p) && !FetchFails(s, e, p) && !TempReadFails(s, e, p)
    ensures e != TryLock(p, true)
  {
    OthersStay(s, e, p);
    TempsOfOthers(s, e, p);
  }

  lemma FateStep(s: State, e: Event, p: Pid)
    requires p in s.procs
    requires At(s, p, Renamed) || At(s, p, Recreated) ==> p in s.temps
    ensures p in Step(s, e).procs
    ensures var f, g := FateOf(s.procs[p].phase), FateOf(Step(s, e).procs[p].phase);
            g == if Refuses(s, e, p) then (if f.attempts + 1 < 5 then Trying(f.attempts + 1) else Refused)
                 else if FetchWorks(s, e, p) then Fetched
                 else if FetchFails(s, e, p) then Broken
                 else if f.Trying? && e == TryLock(p, true) then Inside
                 else f
    ensures Taken(Step(s, e), p) ==
              if FetchWorks(s, e, p) then Some(Content(s.log))
              else if TempReadFails(s, e, p) then Some([])
              else Taken(s, p)
  {
    if e.Append? || e.Trim? || e.pid != p {
      FateByOthers(s, e, p);
    }
  }

  lemma TempsOfOthers(s: State, e: Event, p: Pid)
    requires e.Append? || e.Trim? || e.pid != p
    ensures p in Step(s, e).temps <==> p in s.temps
    ensures p in s.temps ==> Step(s, e).temps[p] == s.temps[p]
  {}

  lemma NewcomerStep(s: State, e: Event, p: Pid)
    requires p !in s.procs
    ensures !Refuses(s, e, p) && !FetchWorks(s, e, p) && !FetchFails(s, e, p) && !TempReadFails(s, e, p)
    ensures p in Step(s, e).procs ==> Step(s, e).procs[p].phase == Acquiring(0)
  {}

  /** In every interleaving, what becomes of a `logs get` follows from its own operations.  It is refused
      exactly after five refused attempts; it fails exactly when its rename or its read of an existing
      file failed; and it has the file exactly when that worked, or there was none: what it returns is
      then what the file held at that moment, or nothing if its read of the temp file failed. */
  lemma {:induction false} OutcomeIff(es: seq<Event>, p: Pid)
    ensures p !in Exec(es).procs ==>
              Refusals(es, p) == 0 && FileFetched(es, p).None? && !FetchFailed(es, p) && !TempReadFailed(es, p)
    ensures p in Exec(es).procs ==>
              var fate := FateOf(Exec(es).procs[p].phase);
              && (fate.Trying? ==> fate.attempts == Refusals(es, p) < 5)
              && (fate == Refused <==> Refusals(es, p) == 5) && Refusals(es, p) <= 5
              && (fate == Broken <==> FetchFailed(es, p))
              && (fate == Fetched <==> FileFetched(es, p).Some?)
              && (TempReadFailed(es, p) ==> fate == Fetched)
              && Taken(Exec(es), p) == if TempReadFailed(es, p) then Some([]) else FileFetched(es, p)
  {
    if es != [] {
      var before, e := es[..|es| - 1], es[|es| - 1];
      var s := Exec(before);
      OutcomeIff(before, p);
      RunInv(before);
      if p in s.procs {
        FateStep(s, e, p);
      } else {
        NewcomerStep(s, e, p);
      }
    }
  }

  /** An event of the process that works, or no event of it. */
  predicate WorksFor(e: Event, p: Pid) {
    e.Append? || e.Trim? || e.Spawn? || e.pid != p || e.ok
  }

  lemma {:induction false} WorkingNeverFails(es: seq<Event>, p: Pid)
    requires forall i :: 0 <= i < |es| ==> WorksFor(es[i], p)
    ensures !FetchFailed(es, p) && !TempReadFailed(es, p)
  {
    if es != [] {
      WorkingNeverFails(es[..|es| - 1], p);
    }
  }

  /** When its own operations work and the lock was free within five attempts, a `logs get` that is over
      has returned exactly what the file held when it took it, in either mode. */
  lemma WorkingGetSucceeds(es: seq<Event>, p: Pid)
    requires p in Exec(es).procs && Over(Exec(es).procs[p].phase) && Refusals(es, p) < 5
    requires forall i :: 0 <= i < |es| ==> WorksFor(es[i], p)
    ensures FileFetched(es, p).Some? && Exec(es).procs[p].phase == Done(FileFetched(es, p).value)
  {
    OutcomeIff(es, p);
    WorkingNeverFails(es, p);
  }

  /** The mode with which a process was started. */
  function StartedAs(es: seq<Event>, p: Pid): Option<Mode> {
    if es == [] then None
    else if StartedAs(es[..|es| - 1], p).Some? then StartedAs(es[..|es| - 1], p)
    else if es[|es| - 1].Spawn? && es[|es| - 1].pid == p then Some(es[|es| - 1].mode)
    else None
  }

  lemma ModeStep(s: State, e: Event, p: Pid)
    ensures p in s.procs ==> p in Step(s, e).procs && Step(s, e).procs[p].mode == s.procs[p].mode
    ensures p !in s.procs ==> (p in Step(s, e).procs <==> e.Spawn? && e.pid == p)
    ensures p !in s.procs && e.Spawn? && e.pid == p ==> Step(s, e).procs[p].mode == e.mode
  {
    if p in s.procs && (e.Append? || e.Trim? || e.pid != p) {
      OthersStay(s, e, p);
    }
  }

  lemma {:induction false} ModeIsKept(es: seq<Event>, p: Pid)
    ensures p in Exec(es).procs <==> StartedAs(es, p).Some?
    ensures p in Exec(es).procs ==> Some(Exec(es).procs[p].mode) == StartedAs(es, p)
  {
    if es != [] {
      ModeIsKept(es[..|es| - 1], p);
      ModeStep(Exec(es[..|es| - 1]), es[|es| - 1], p);
    }
  }

  // ---- The lock file and the log file over whole runs ----

  lemma HolderStep(s: State, e: Event)
    requires LockInv(s) && (s.lock.Some? ==> InSection(s, s.lock.value)) && (e.Release? ==> e.ok)
    ensures var t := Step(s, e); t.lock.Some? ==> InSection(t, t.lock.value)
  {
    var t := Step(s, e);
    if s.lock.Some? {
      var p := s.lock.value;
      if e.Append? || e.Trim? || e.pid != p {
        OthersStay(s, e, p);
      }
    }
  }

  /** While no unlink of the lock fails, there is a lock file exactly when some process is inside. */
  lemma {:induction false} LockFileIffInside(es: seq<Event>)
    requires forall i :: 0 <= i < |es| && es[i].Release? ==> es[i].ok
    ensures Exec(es).lock.Some? <==> exists p: Pid :: InSection(Exec(es), p)
    ensures Exec(es).lock.Some? ==> InSection(Exec(es), Exec(es).lock.value)
  {
    RunInv(es);
    if es != [] {
      var before := es[..|es| - 1];
      LockFileIffInside(before);
      RunInv(before);
      HolderStep(Exec(before), es[|es| - 1]);
    }
  }

  lemma TempsStep(s: State, e: Event, p: Pid)
    requires p in s.temps ==> At(s, p, Renamed) || At(s, p, Recreated) || (p in s.procs && s.procs[p].phase.TempRead?)
    requires e.UnlinkTemp? ==> e.ok
    ensures var t := Step(s, e);
            p in t.temps ==> At(t, p, Renamed) || At(t, p, Recreated) || (p in t.procs && t.procs[p].phase.TempRead?)
  {
    if e.Append? || e.Trim? || e.pid != p {
      TempsOfOthers(s, e, p);
      if p in s.procs {
        OthersStay(s, e, p);
      }
    }
  }

  /** While no unlink of a temp file fails, the only temp files are those of resets that are still at work. */
  lemma {:induction false} NoTempStaysBehind(es: seq<Event>, p: Pid)
    requires forall i :: 0 <= i < |es| && es[i].UnlinkTemp? ==> es[i].ok
    ensures var s := Exec(es);
            p in s.temps ==> At(s, p, Renamed) || At(s, p, Recreated) || (p in s.procs && s.procs[p].phase.TempRead?)
  {
    if es != [] {
      NoTempStaysBehind(es[..|es| - 1], p);
      TempsStep(Exec(es[..|es| - 1]), es[|es| - 1], p);
    }
  }

  /** The last lines appended, in order. */
  ghost predicate UnbrokenEnd(f: File, history: seq<string>) {
    |f| <= |history| &&
    forall i :: 0 <= i < |f| ==> f[i] == Line(|history| - |f| + i, history[|history| - |f| + i])
  }

  lemma LogAfter(s: State, e: Event)
    ensures var f, g := Content(s.log), Content(Step(s, e).log);
            if e.Append? then g == f + [Line(|s.history|, e.text)]
            else g == f || g == [] || (e.Trim? && e.drop <= |f| && g == f[e.drop..])
  {}

  lemma EndStep(s: State, e: Event)
    requires UnbrokenEnd(Content(s.log), s.history)
    ensures UnbrokenEnd(Content(Step(s, e).log), Step(s, e).history)
  {
    LogAfter(s, e);
    HistoryStep(s, e);
    var f := Content(s.log);
    if e.Append? {
      EndAppend(f, s.history, e.text);
    } else if e.Trim? && e.drop <= |f| {
      EndDrop(f, s.history, e.drop);
    }
  }

  lemma EndAppend(f: File, history: seq<string>, text: string)
    requires UnbrokenEnd(f, history)
    ensures UnbrokenEnd(f + [Line(|history|, text)], history + [text])
  {}

  lemma EndDrop(f: File, history: seq<string>, drop: nat)
    requires UnbrokenEnd(f, history) && drop <= |f|
    ensures UnbrokenEnd(f[drop..], history)
  {}

  /** Over every run the file is an unbroken end of everything that was ever appended: trims, renames and
      re-creates take only from its front. */
  lemma {:induction false} FileIsUnbrokenEnd(es: seq<Event>)
    ensures UnbrokenEnd(Content(Exec(es).log), Exec(es).history)
  {
    if es != [] {
      FileIsUnbrokenEnd(es[..|es| - 1]);
      EndStep(Exec(es[..|es| - 1]), es[|es| - 1]);
    }
  }

  /** The history is what the appends said, in their order. */
  function Appends(es: seq<Event>): seq<string> {
    if es == [] then []
    else Appends(es[..|es| - 1]) + if es[|es| - 1].Append? then [es[|es| - 1].text] else []
  }

  lemma {:induction false} HistoryIsAppends(es: seq<Event>)
    ensures Exec(es).history == Appends(es)
  {
    if es != [] {
      HistoryIsAppends(es[..|es| - 1]);
      HistoryStep(Exec(es[..|es| - 1]), es[|es| - 1]);
    }
  }

  lemma HistoryStep(s: State, e: Event)
    ensures Step(s, e).history == s.history + if e.Append? then [e.text] else []
  {}
}
