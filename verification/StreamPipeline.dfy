/**
 The path of child output through `ProcessMonitor`: a bounded queue that drops its oldest
 chunk, a drain scheduled on the event loop, stderr reassembly with a flush timer, and the
 ring buffer of recent lines.  The object carries the history of what happened to it, and
 its invariant says what every field holds as a function of that history.
 */
module StreamPipeline {
  import opened LogBuffers
  import opened Options
  import opened Sequences
  import opened Text

  const MAX_QUEUE_SIZE: nat := 100
  const MAX_ERROR_BUFFER_SIZE: nat := 64 * 1024

  datatype Chunk = Chunk(data: string, stream: Stream)

  /** A text handed to error detection. */
  datatype Report = Report(text: string, stream: Stream)

  datatype Event = Arrived(chunk: Chunk) | Drained | Flushed | CleanedUp

  // ---- What a list of chunks amounts to ----

  function KeepLine(line: string, stream: Stream): seq<LogLine> {
    if Trim(line) == "" then [] else [LogLine(Trim(line), stream)]
  }

  function KeepLines(lines: seq<string>, stream: Stream): seq<LogLine> {
    if lines == [] then [] else KeepLines(lines[..|lines| - 1], stream) + KeepLine(lines[|lines| - 1], stream)
  }

  /** The non-blank lines of a chunk, trimmed, in order. */
  function ChunkLines(c: Chunk): seq<LogLine> {
    KeepLines(Split(c.data, '\n'), c.stream)
  }

  function Lines(cs: seq<Chunk>): seq<LogLine> {
    if cs == [] then [] else Lines(cs[..|cs| - 1]) + ChunkLines(cs[|cs| - 1])
  }

  /** What the chunks add to the stderr buffer. */
  function ErrorTexts(cs: seq<Chunk>): seq<string> {
    if cs == [] then []
    else ErrorTexts(cs[..|cs| - 1]) +
         var c := cs[|cs| - 1]; if c.stream == Stderr && Trim(c.data) != "" then [Trim(c.data)] else []
  }

  /** What the chunks hand to detection at once. */
  function OutputReports(cs: seq<Chunk>): seq<Report> {
    if cs == [] then []
    else OutputReports(cs[..|cs| - 1]) +
         var c := cs[|cs| - 1]; if c.stream == Stdout && Trim(c.data) != "" then [Report(Trim(c.data), Stdout)] else []
  }

  // ---- The stderr buffer ----

  function Kept(buffer: string, text: string): string {
    if |buffer| + |text| > MAX_ERROR_BUFFER_SIZE then LastN(buffer, MAX_ERROR_BUFFER_SIZE / 2) else buffer
  }

  /** One stderr text joins the buffer; an overflow first halves the buffer. */
  function PushError(buffer: string, text: string): string {
    var kept := Kept(buffer, text);
    kept + ((if kept != "" then "\n" else "") + text)
  }

  function Buffered(texts: seq<string>): string {
    if texts == [] then "" else PushError(Buffered(texts[..|texts| - 1]), texts[|texts| - 1])
  }

  predicate Suffix(s: string, t: string) {
    |s| <= |t| && t[|t| - |s|..] == s
  }

  function Max(a: nat, b: nat): nat {
    if a < b then b else a
  }

  function Longest(texts: seq<string>): nat {
    if texts == [] then 0
    else Max(Longest(texts[..|texts| - 1]), |texts[|texts| - 1]|)
  }

  lemma SuffixAppend(s: string, t: string, tail: string)
    requires Suffix(s, t)
    ensures Suffix(s + tail, t + tail)
  {}

  lemma SuffixOfLast(s: string, t: string, n: nat)
    requires Suffix(s, t)
    ensures Suffix(LastN(s, n), t)
  {}

  lemma SuffixOfTail(s: string, sep: string, text: string)
    ensures Suffix(text, s + (sep + text))
  {}

  /** One push on a non-empty buffer: still a suffix, ending with the new text. */
  lemma PushKeepsSuffix(b: string, whole: string, text: string)
    requires b != "" && Suffix(b, whole)
    ensures Suffix(PushError(b, text), whole + ("\n" + text)) && Suffix(text, PushError(b, text))
  {
    var kept := Kept(b, text);
    SuffixOfLast(b, whole, MAX_ERROR_BUFFER_SIZE / 2);
    SuffixAppend(kept, whole, "\n" + text);
    SuffixOfTail(kept, "\n", text);
  }

  lemma PushLength(b: string, text: string)
    requires b != ""
    ensures |PushError(b, text)| == |Kept(b, text)| + 1 + |text|
    ensures |PushError(b, text)| <= MAX_ERROR_BUFFER_SIZE / 2 + 1 + Max(MAX_ERROR_BUFFER_SIZE / 2, |text|)
  {}

  lemma PushFirst(text: string)
    ensures PushError("", text) == text
  {
    assert Kept("", text) == "";
  }

  lemma JoinLast(texts: seq<string>)
    requires |texts| > 1
    ensures Join(texts) == Join(texts[..|texts| - 1]) + ("\n" + texts[|texts| - 1])
  {
    Assoc(Join(texts[..|texts| - 1]), "\n", texts[|texts| - 1]);
  }

  /** The buffer is always a suffix of the newline-join of the texts since the last flush, and
      it ends with the newest one. */
  lemma {:induction false} BufferIsRecentSuffix(texts: seq<string>)
    requires forall i :: 0 <= i < |texts| ==> texts[i] != ""
    ensures Suffix(Buffered(texts), Join(texts))
    ensures texts != [] ==> Suffix(texts[|texts| - 1], Buffered(texts)) && Buffered(texts) != ""
  {
    if texts != [] {
      var before, text := texts[..|texts| - 1], texts[|texts| - 1];
      BufferIsRecentSuffix(before);
      if before == [] {
        PushFirst(text);
      } else {
        JoinLast(texts);
        PushKeepsSuffix(Buffered(before), Join(before), text);
      }
    }
  }

  /** It stays within half the limit, one separator, and the larger of half the limit and the
      longest text. */
  lemma {:induction false} BufferBound(texts: seq<string>)
    requires forall i :: 0 <= i < |texts| ==> texts[i] != ""
    ensures |Buffered(texts)| <= 32768 + 1 + Max(32768, Longest(texts))
  {
    if texts != [] {
      var before, text := texts[..|texts| - 1], texts[|texts| - 1];
      BufferIsRecentSuffix(before);
      if before == [] {
        PushFirst(text);
      } else {
        PushLength(Buffered(before), text);
      }
    }
  }

  /** No text arrived while the buffer was over half the limit and the two together were over it. */
  predicate NeverCut(texts: seq<string>) {
    texts == [] ||
    (var b, text := Buffered(texts[..|texts| - 1]), texts[|texts| - 1];
     NeverCut(texts[..|texts| - 1]) && !(|b| + |text| > 65536 && |b| > 32768))
  }

  lemma {:induction false} JoinedLength(texts: seq<string>)
    requires forall i :: 0 <= i < |texts| ==> texts[i] != ""
    ensures |Buffered(texts)| <= |Join(texts)|
    ensures |Buffered(texts)| == |Join(texts)| <==> NeverCut(texts)
  {
    if texts != [] {
      var before, text := texts[..|texts| - 1], texts[|texts| - 1];
      JoinedLength(before);
      BufferIsRecentSuffix(before);
      if before == [] {
        PushFirst(text);
      } else {
        JoinLast(texts);
        PushLength(Buffered(before), text);
      }
    }
  }

  /** A multi-line error is reassembled whole exactly when no arrival cut the buffer. */
  lemma ReassembledIffNeverCut(texts: seq<string>)
    requires forall i :: 0 <= i < |texts| ==> texts[i] != ""
    ensures Buffered(texts) == Join(texts) <==> NeverCut(texts)
  {
    JoinedLength(texts);
    BufferIsRecentSuffix(texts);
  }

  function Xs(n: nat): string {
    seq(n, _ => 'x')
  }

  /** An error of 40,000 characters is cut by a second one of 30,000. */
  lemma LongErrorIsCut()
    ensures exists texts: seq<string> ::
              (forall i :: 0 <= i < |texts| ==> texts[i] != "") && Buffered(texts) != Join(texts)
  {
    var a, b := Xs(40000), Xs(30000);
    var texts := [a, b];
    assert texts[..1] == [a] && texts[..1][..0] == [];
    PushFirst(a);
    assert Buffered(texts[..1]) == a;
    assert a[0] == 'x' && b[0] == 'x';
    assert !NeverCut(texts);
    ReassembledIffNeverCut(texts);
    assert Buffered(texts) != Join(texts);
  }

  // ---- The abstract pipeline ----

  /** What has happened so far, with no queue, timer or ring in it. */
  datatype Abstract = Abstract(
    arrived: seq<Chunk>,      // every chunk that arrived
    since: seq<Chunk>,        // those since the previous drain or clean-up
    survivors: seq<Chunk>,    // the chunks that were processed
    dropped: nat,
    texts: seq<string>,       // the stderr texts since the last flush or clean-up
    reports: seq<Report>,     // everything handed to error detection
    visible: seq<LogLine>)    // the processed lines since the last clean-up

  const Nothing: Abstract := Abstract([], [], [], 0, [], [], [])

  /** A drain processes exactly the last 100 of the chunks since the previous drain or clean-up. */
  function Next(a: Abstract, e: Event): Abstract {
    match e
    case Arrived(c) =>
      a.(arrived := a.arrived + [c], since := a.since + [c],
         dropped := if |a.since| >= MAX_QUEUE_SIZE then a.dropped + 1 else a.dropped)
    case Drained =>
      var cs := LastN(a.since, MAX_QUEUE_SIZE);
      a.(since := [], survivors := a.survivors + cs, texts := a.texts + ErrorTexts(cs),
         reports := a.reports + OutputReports(cs), visible := a.visible + Lines(cs))
    case Flushed =>
      a.(texts := [],
         reports := if a.texts == [] then a.reports else a.reports + [Report(Trim(Buffered(a.texts)), Stderr)])
    case CleanedUp =>
      a.(since := [], dropped := a.dropped + |LastN(a.since, MAX_QUEUE_SIZE)|, texts := [], visible := [])
  }

  function History(es: seq<Event>): Abstract {
    if es == [] then Nothing else Next(History(es[..|es| - 1]), es[|es| - 1])
  }

  /** Arrived = processed + dropped + queued, over every history. */
  lemma {:induction false} ChunksConserved(es: seq<Event>)
    ensures var a := History(es);
            |a.arrived| == |a.survivors| + a.dropped + |LastN(a.since, MAX_QUEUE_SIZE)|
  {
    if es != [] {
      ChunksConserved(es[..|es| - 1]);
    }
  }

  lemma {:induction false} LinesConcat(a: seq<Chunk>, b: seq<Chunk>)
    ensures Lines(a + b) == Lines(a) + Lines(b)
  {
    if b == [] {
      assert a + b == a;
    } else {
      var b', c := b[..|b| - 1], b[|b| - 1];
      LinesConcat(a, b');
      assert (a + b)[..|a + b| - 1] == a + b';
      Assoc(Lines(a), Lines(b'), ChunkLines(c));
    }
  }

  lemma VisibleStep(a: Abstract, e: Event)
    requires a.visible == Lines(a.survivors) && !e.CleanedUp?
    ensures Next(a, e).visible == Lines(Next(a, e).survivors)
  {
    LinesConcat(a.survivors, LastN(a.since, MAX_QUEUE_SIZE));
  }

  /** Without a clean-up, the visible lines are the lines of the chunks that survived the queue. */
  lemma {:induction false} VisibleAreSurvivors(es: seq<Event>)
    requires NoCleanUp(es)
    ensures History(es).visible == Lines(History(es).survivors)
  {
    if es != [] {
      VisibleAreSurvivors(es[..|es| - 1]);
      VisibleStep(History(es[..|es| - 1]), es[|es| - 1]);
    }
  }

  /** `at` picks `s` out of `t` in order, before place `limit`. */
  ghost predicate Picks<T>(s: seq<T>, t: seq<T>, at: seq<nat>, limit: int) {
    && |at| == |s| && limit <= |t|
    && (forall i :: 0 <= i < |s| ==> at[i] < limit && t[at[i]] == s[i])
    && (forall i, j :: 0 <= i < j < |at| ==> at[i] < at[j])
  }

  ghost predicate IsTail<T>(s: seq<T>, tail: seq<T>) {
    |tail| <= |s| && s[|s| - |tail|..] == tail
  }

  lemma TailSnoc<T>(s: seq<T>, tail: seq<T>, x: T)
    requires IsTail(s, tail)
    ensures IsTail(s + [x], tail + [x])
  {}

  lemma PickMore<T>(s: seq<T>, t: seq<T>, at: seq<nat>, limit: nat, x: T)
    requires Picks(s, t, at, limit)
    ensures Picks(s, t + [x], at, limit)
  {}

  lemma PickLater<T>(s: seq<T>, t: seq<T>, at: seq<nat>, limit: nat)
    requires Picks(s, t, at, limit)
    ensures Picks(s, t, at, |t|)
  {}

  lemma LastOfTail<T>(s: seq<T>, tail: seq<T>, n: nat)
    requires IsTail(s, tail)
    ensures var l := LastN(tail, n);
            |l| <= |tail| && forall i :: 0 <= i < |l| ==> l[i] == s[|s| - |l| + i]
  {
    var l := LastN(tail, n);
    forall i | 0 <= i < |l| ensures l[i] == s[|s| - |l| + i] {
      assert s[|s| - |tail|..][|tail| - |l| + i] == s[|s| - |l| + i];
    }
  }

  /** The last `n` of a tail, picked after everything picked so far. */
  lemma PickTail<T>(s: seq<T>, t: seq<T>, at: seq<nat>, tail: seq<T>, n: nat) returns (more: seq<nat>)
    requires IsTail(t, tail) && Picks(s, t, at, |t| - |tail|)
    ensures Picks(s + LastN(tail, n), t, more, |t|)
  {
    var m := |LastN(tail, n)|;
    more := at + seq(m, i requires 0 <= i < m => |t| - m + i);
    LastOfTail(t, tail, n);
    assert |more| == |s| + m;
    forall i | 0 <= i < |more|
      ensures more[i] < |t| && t[more[i]] == (s + LastN(tail, n))[i]
    {}
  }

  ghost predicate SurvivorsPicked(a: Abstract, at: seq<nat>) {
    IsTail(a.arrived, a.since) && Picks(a.survivors, a.arrived, at, |a.arrived| - |a.since|)
  }

  lemma PickStep(a: Abstract, e: Event, at: seq<nat>) returns (more: seq<nat>)
    requires SurvivorsPicked(a, at)
    ensures SurvivorsPicked(Next(a, e), more)
  {
    more := at;
    match e
    case Arrived(c) =>
      PickMore(a.survivors, a.arrived, at, |a.arrived| - |a.since|, c);
      TailSnoc(a.arrived, a.since, c);
    case Drained =>
      more := PickTail(a.survivors, a.arrived, at, a.since, MAX_QUEUE_SIZE);
    case Flushed =>
    case CleanedUp =>
      PickLater(a.survivors, a.arrived, at, |a.arrived| - |a.since|);
  }

  /** The survivors are an in-order selection of the arrivals, all before the ones still waiting. */
  lemma {:induction false} SurvivorsInOrder(es: seq<Event>) returns (at: seq<nat>)
    ensures SurvivorsPicked(History(es), at)
  {
    if es == [] {
      at := [];
    } else {
      at := SurvivorsInOrder(es[..|es| - 1]);
      at := PickStep(History(es[..|es| - 1]), es[|es| - 1], at);
    }
  }

  lemma {:induction false} KeepNothing(lines: seq<string>, stream: Stream)
    requires forall i :: 0 <= i < |lines| ==> Blank(lines[i])
    ensures KeepLines(lines, stream) == []
  {
    if lines != [] {
      KeepNothing(lines[..|lines| - 1], stream);
      TrimFacts(lines[|lines| - 1]);
    }
  }

  /** Skipping a blank chunk early skips no line. */
  lemma BlankChunkHasNoLines(c: Chunk)
    requires Trim(c.data) == ""
    ensures ChunkLines(c) == []
  {
    TrimFacts(c.data);
    SplitBlank(c.data, '\n');
    KeepNothing(Split(c.data, '\n'), c.stream);
  }

  lemma {:induction false} ErrorTextsNonEmpty(cs: seq<Chunk>)
    ensures forall i :: 0 <= i < |ErrorTexts(cs)| ==> ErrorTexts(cs)[i] != "" && !Blank(ErrorTexts(cs)[i])
  {
    if cs != [] {
      ErrorTextsNonEmpty(cs[..|cs| - 1]);
      TrimFacts(cs[|cs| - 1].data);
      TrimFacts(Trim(cs[|cs| - 1].data));
    }
  }

  lemma SuffixNonBlank(t: string, b: string)
    requires Suffix(t, b) && !Blank(t)
    ensures !Blank(b)
  {
    var i :| 0 <= i < |t| && !IsSpace(t[i]);
    assert b[|b| - |t|..][i] == b[|b| - |t| + i];
  }

  lemma BufferEndsNonBlank(texts: seq<string>)
    requires forall i :: 0 <= i < |texts| ==> texts[i] != "" && !Blank(texts[i])
    ensures Buffered(texts) != "" <==> texts != []
    ensures Buffered(texts) != "" ==> Trim(Buffered(texts)) != ""
  {
    BufferIsRecentSuffix(texts);
    TrimFacts(Buffered(texts));
    if texts != [] {
      SuffixNonBlank(texts[|texts| - 1], Buffered(texts));
    }
  }

  /** Dropping the oldest of a full queue and pushing keeps the last `n`. */
  lemma DropOldest<T>(s: seq<T>, x: T, n: nat)
    requires n > 0
    ensures var q := LastN(s, n);
            (if |q| >= n then q[1..] else q) + [x] == LastN(s + [x], n)
  {}

  predicate RealTexts(texts: seq<string>) {
    forall i :: 0 <= i < |texts| ==> texts[i] != "" && !Blank(texts[i])
  }

  /** The file lines and the recent lines. */
  datatype Sinks = Sinks(file: seq<LogLine>, recent: seq<LogLine>)

  function RecordOne(s: Sinks, line: string, stream: Stream, n: nat): Sinks {
    var kept := KeepLine(line, stream);
    if kept == [] then s else Sinks(s.file + kept, LastN(s.recent + kept, n))
  }

  function RecordAll(s: Sinks, lines: seq<string>, stream: Stream, n: nat): Sinks {
    if lines == [] then s
    else RecordOne(RecordAll(s, lines[..|lines| - 1], stream, n), lines[|lines| - 1], stream, n)
  }

  lemma RecordOneIs(file: seq<LogLine>, recent: seq<LogLine>, before: seq<LogLine>,
                    line: string, stream: Stream, n: nat)
    ensures var kept := before + KeepLine(line, stream);
            RecordOne(Sinks(file + before, LastN(recent + before, n)), line, stream, n)
            == Sinks(file + kept, LastN(recent + kept, n))
  {
    var kept := KeepLine(line, stream);
    if kept == [] {
      assert before + kept == before;
    } else {
      Assoc(file, before, kept);
      Assoc(recent, before, kept);
      LastNAbsorbs(recent + before, kept, n);
    }
  }

  lemma {:induction false} RecordAllIs(s: Sinks, lines: seq<string>, stream: Stream, n: nat)
    requires |s.recent| <= n
    ensures var kept := KeepLines(lines, stream);
            RecordAll(s, lines, stream, n) == Sinks(s.file + kept, LastN(s.recent + kept, n))
  {
    if lines == [] {
      assert s.recent + [] == s.recent && s.file + [] == s.file;
    } else {
      RecordAllIs(s, lines[..|lines| - 1], stream, n);
      RecordOneIs(s.file, s.recent, KeepLines(lines[..|lines| - 1], stream), lines[|lines| - 1], stream, n);
    }
  }

  lemma RecordAllSnoc(s: Sinks, lines: seq<string>, i: nat, stream: Stream, n: nat)
    requires i < |lines|
    ensures RecordAll(s, lines[..i + 1], stream, n) ==
            RecordOne(RecordAll(s, lines[..i], stream, n), lines[i], stream, n)
  {
    assert lines[..i + 1][..i] == lines[..i];
  }

  lemma RecordChunk(start: seq<LogLine>, cs: seq<Chunk>, c: Chunk, n: nat)
    ensures LastN(LastN(start + Lines(cs), n) + ChunkLines(c), n) == LastN(start + Lines(cs + [c]), n)
  {
    LinesSnoc(cs, c);
    LastNAbsorbs(start + Lines(cs), ChunkLines(c), n);
    Assoc(start, Lines(cs), ChunkLines(c));
  }

  /** What one more chunk adds. */
  lemma LinesSnoc(cs: seq<Chunk>, c: Chunk)
    ensures Lines(cs + [c]) == Lines(cs) + ChunkLines(c)
  {
    assert (cs + [c])[..|cs + [c]| - 1] == cs;
  }

  lemma TextsSnoc(cs: seq<Chunk>, c: Chunk)
    ensures ErrorTexts(cs + [c]) == ErrorTexts(cs) + ErrorTexts([c])
  {
    assert (cs + [c])[..|cs + [c]| - 1] == cs && [c][..0] == [];
  }

  lemma BufferedSnoc(before: seq<string>, cs: seq<Chunk>, c: Chunk)
    ensures Buffered(before + ErrorTexts(cs + [c])) ==
            if ErrorTexts([c]) == [] then Buffered(before + ErrorTexts(cs))
            else PushError(Buffered(before + ErrorTexts(cs)), ErrorTexts([c])[0])
  {
    TextsSnoc(cs, c);
    var all, t := before + ErrorTexts(cs), ErrorTexts([c]);
    assert before + ErrorTexts(cs + [c]) == all + t;
    assert [c][..0] == [];
    if t != [] {
      assert (all + t)[..|all + t| - 1] == all;
    } else {
      assert all + t == all;
    }
  }

  function ErrorAfter(buffer: string, c: Chunk): string {
    if c.stream == Stderr && Trim(c.data) != "" then PushError(buffer, Trim(c.data)) else buffer
  }

  function ReportAfter(c: Chunk): seq<Report> {
    if c.stream == Stdout && Trim(c.data) != "" then [Report(Trim(c.data), Stdout)] else []
  }

  /** The fields of the object in the middle of a drain, after the chunks `done`. */
  datatype Fields = Fields(errorBuffer: string, reports: seq<Report>, fileLines: seq<LogLine>, recent: seq<LogLine>)

  function MidDrain(a: Abstract, done: seq<Chunk>, n: nat): Fields {
    Fields(Buffered(a.texts + ErrorTexts(done)), a.reports + OutputReports(done),
           Lines(a.survivors) + Lines(done), LastN(a.visible + Lines(done), n))
  }

  function AfterChunk(f: Fields, c: Chunk, n: nat): Fields {
    Fields(ErrorAfter(f.errorBuffer, c), f.reports + ReportAfter(c), f.fileLines + ChunkLines(c),
           LastN(f.recent + ChunkLines(c), n))
  }

  lemma MidDrainStep(a: Abstract, done: seq<Chunk>, c: Chunk, n: nat)
    ensures AfterChunk(MidDrain(a, done, n), c, n) == MidDrain(a, done + [c], n)
  {
    assert (done + [c])[..|done + [c]| - 1] == done && [c][..0] == [];
    BufferedSnoc(a.texts, done, c);
    LinesSnoc(done, c);
    Assoc(Lines(a.survivors), Lines(done), ChunkLines(c));
    Assoc(a.reports, OutputReports(done), ReportAfter(c));
    RecordChunk(a.visible, done, c, n);
  }

  function AfterChunks(f: Fields, cs: seq<Chunk>, n: nat): Fields {
    if cs == [] then f else AfterChunk(AfterChunks(f, cs[..|cs| - 1], n), cs[|cs| - 1], n)
  }

  lemma AfterChunksSnoc(f: Fields, cs: seq<Chunk>, k: nat, n: nat)
    requires k < |cs|
    ensures AfterChunks(f, cs[..k + 1], n) == AfterChunk(AfterChunks(f, cs[..k], n), cs[k], n)
  {
    assert cs[..k + 1][..k] == cs[..k];
  }

  lemma SnocAgain<T>(s: seq<T>)
    requires s != []
    ensures s[..|s| - 1] + [s[|s| - 1]] == s
  {}

  lemma DropOne<T>(s: seq<T>, k: nat)
    requires k < |s|
    ensures s[k..][0] == s[k] && s[k..][1..] == s[k + 1..]
  {}

  lemma {:induction false} MidDrainRuns(a: Abstract, cs: seq<Chunk>, n: nat)
    ensures AfterChunks(MidDrain(a, [], n), cs, n) == MidDrain(a, cs, n)
  {
    if cs != [] {
      MidDrainRuns(a, cs[..|cs| - 1], n);
      MidDrainStep(a, cs[..|cs| - 1], cs[|cs| - 1], n);
      SnocAgain(cs);
    }
  }

  lemma MidDrainStarts(a: Abstract, n: nat)
    ensures MidDrain(a, [], n) == FieldsOf(a, n)
  {
    assert a.texts + [] == a.texts && a.visible + [] == a.visible;
  }

  lemma MidDrainEnds(a: Abstract, n: nat)
    requires RealTexts(a.texts)
    ensures var b := Next(a, Drained);
            && MidDrain(a, LastN(a.since, MAX_QUEUE_SIZE), n)
               == FieldsOf(b, n)
            && RealTexts(b.texts) && b.since == []
  {
    var cs := LastN(a.since, MAX_QUEUE_SIZE);
    LinesConcat(a.survivors, cs);
    ErrorTextsNonEmpty(cs);
  }

  function FieldsOf(a: Abstract, n: nat): Fields {
    Fields(Buffered(a.texts), a.reports, Lines(a.survivors), LastN(a.visible, n))
  }

  /** Processing the queued chunks one by one is the abstract drain. */
  lemma DrainRefines(a: Abstract, n: nat)
    requires RealTexts(a.texts)
    ensures AfterChunks(FieldsOf(a, n), LastN(a.since, MAX_QUEUE_SIZE), n) == FieldsOf(Next(a, Drained), n)
    ensures RealTexts(Next(a, Drained).texts)
  {
    MidDrainStarts(a, n);
    MidDrainRuns(a, LastN(a.since, MAX_QUEUE_SIZE), n);
    MidDrainEnds(a, n);
  }

  // ---- What reaches the log and error detection, on the surviving chunks ----

  predicate NonBlank(line: string) {
    Trim(line) != ""
  }

  /** The kept lines are the non-blank lines, in order, each trimmed and with its stream. */
  lemma {:induction false} KeepLinesAre(lines: seq<string>, stream: Stream)
    ensures var kept, shown := KeepLines(lines, stream), Filter(lines, NonBlank);
            |kept| == |shown| && forall k :: 0 <= k < |shown| ==> kept[k] == LogLine(Trim(shown[k]), stream)
  {
    if lines != [] {
      KeepLinesAre(lines[..|lines| - 1], stream);
    }
  }

  predicate OutputText(c: Chunk) {
    c.stream == Stdout && Trim(c.data) != ""
  }

  predicate ErrorText(c: Chunk) {
    c.stream == Stderr && Trim(c.data) != ""
  }

  predicate FromStdout(r: Report) {
    r.stream == Stdout
  }

  predicate FromStderr(r: Report) {
    r.stream == Stderr
  }

  function Trimmed(cs: seq<Chunk>): (r: seq<string>)
    ensures |r| == |cs| && forall k :: 0 <= k < |cs| ==> r[k] == Trim(cs[k].data)
  {
    seq(|cs|, k requires 0 <= k < |cs| => Trim(cs[k].data))
  }

  function Texts(rs: seq<Report>): (r: seq<string>)
    ensures |r| == |rs| && forall k :: 0 <= k < |rs| ==> r[k] == rs[k].text
  {
    seq(|rs|, k requires 0 <= k < |rs| => rs[k].text)
  }

  lemma TextsConcat(a: seq<Report>, b: seq<Report>)
    ensures Texts(a + b) == Texts(a) + Texts(b)
  {}

  lemma TrimmedConcat(a: seq<Chunk>, b: seq<Chunk>)
    ensures Trimmed(a + b) == Trimmed(a) + Trimmed(b)
  {}

  lemma ReportOfOne(r: Report)
    ensures Filter([r], FromStdout) == (if r.stream == Stdout then [r] else [])
    ensures Filter([r], FromStderr) == (if r.stream == Stderr then [r] else [])
  {
    assert [r][..0] == [];
  }

  lemma {:induction false} AllFromStdout(cs: seq<Chunk>)
    ensures forall r :: r in OutputReports(cs) ==> FromStdout(r)
  {
    if cs != [] {
      AllFromStdout(cs[..|cs| - 1]);
    }
  }

  lemma OutputReportsFrom(cs: seq<Chunk>)
    ensures Filter(OutputReports(cs), FromStdout) == OutputReports(cs) && Filter(OutputReports(cs), FromStderr) == []
  {
    AllFromStdout(cs);
    FilterAll(OutputReports(cs), FromStdout);
    FilterNone(OutputReports(cs), FromStderr);
  }

  lemma {:induction false} OutputReportsAre(cs: seq<Chunk>)
    ensures Texts(OutputReports(cs)) == Trimmed(Filter(cs, OutputText))
  {
    if cs != [] {
      var before, l := cs[..|cs| - 1], cs[|cs| - 1];
      OutputReportsAre(before);
      if OutputText(l) {
        TextsConcat(OutputReports(before), [Report(Trim(l.data), Stdout)]);
        TrimmedConcat(Filter(before, OutputText), [l]);
      }
    }
  }

  lemma {:induction false} ErrorTextsAre(cs: seq<Chunk>)
    ensures ErrorTexts(cs) == Trimmed(Filter(cs, ErrorText))
  {
    if cs != [] {
      ErrorTextsAre(cs[..|cs| - 1]);
    }
  }

  /** Over every history, clean-ups included, detection got exactly the trimmed non-blank stdout chunks
      that survived the queue, in order. */
  lemma {:induction false} OutputIsReported(es: seq<Event>)
    ensures Texts(Filter(History(es).reports, FromStdout)) == Trimmed(Filter(History(es).survivors, OutputText))
  {
    if es != [] {
      OutputIsReported(es[..|es| - 1]);
      OutputStep(History(es[..|es| - 1]), es[|es| - 1]);
    }
  }

  lemma OutputStep(a: Abstract, e: Event)
    requires Texts(Filter(a.reports, FromStdout)) == Trimmed(Filter(a.survivors, OutputText))
    ensures Texts(Filter(Next(a, e).reports, FromStdout)) == Trimmed(Filter(Next(a, e).survivors, OutputText))
  {
    match e
    case Drained =>
      var cs := LastN(a.since, MAX_QUEUE_SIZE);
      OutputReportsAre(cs);
      OutputReportsFrom(cs);
      FilterConcat(a.reports, OutputReports(cs), FromStdout);
      FilterConcat(a.survivors, cs, OutputText);
      TextsConcat(Filter(a.reports, FromStdout), OutputReports(cs));
      TrimmedConcat(Filter(a.survivors, OutputText), Filter(cs, OutputText));
    case Flushed =>
      if a.texts != [] {
        var r := Report(Trim(Buffered(a.texts)), Stderr);
        ReportOfOne(r);
        FilterConcat(a.reports, [r], FromStdout);
        assert Filter(a.reports, FromStdout) + [] == Filter(a.reports, FromStdout);
      }
    case _ =>
  }

  /** No clean-up, and no arrival ever cut the stderr buffer. */
  predicate Whole(es: seq<Event>) {
    es == [] || (Whole(es[..|es| - 1]) && !es[|es| - 1].CleanedUp? && NeverCut(History(es).texts))
  }

  function Flatten(groups: seq<seq<string>>): seq<string> {
    if groups == [] then [] else Flatten(groups[..|groups| - 1]) + groups[|groups| - 1]
  }

  /** Begins and ends with something else than white space. */
  predicate Solid(s: string) {
    s != "" && !IsSpace(s[0]) && !IsSpace(s[|s| - 1])
  }

  lemma SolidIsTrimmed(s: string)
    requires Solid(s)
    ensures Trim(s) == s
  {}

  lemma {:induction false} JoinIsSolid(texts: seq<string>)
    requires texts != [] && forall i :: 0 <= i < |texts| ==> Solid(texts[i])
    ensures Solid(Join(texts))
  {
    if |texts| > 1 {
      JoinIsSolid(texts[..|texts| - 1]);
      JoinLast(texts);
    }
  }

  ghost predicate AllSolid(texts: seq<string>) {
    forall i :: 0 <= i < |texts| ==> Solid(texts[i])
  }

  lemma TrimmedAreSolid(cs: seq<Chunk>)
    ensures AllSolid(Trimmed(Filter(cs, ErrorText)))
  {
    FilterMember(cs, ErrorText);
    var f := Filter(cs, ErrorText);
    forall i | 0 <= i < |f| ensures Solid(Trimmed(f)[i]) {
      assert f[i] in f;
      TrimFacts(f[i].data);
    }
  }

  /** The reports from stderr are the joined groups; the pending texts come after them. */
  ghost predicate Accounted(a: Abstract, groups: seq<seq<string>>) {
    && Trimmed(Filter(a.survivors, ErrorText)) == Flatten(groups) + a.texts
    && AllSolid(a.texts)
    && |groups| == |Filter(a.reports, FromStderr)|
    && (forall k :: 0 <= k < |groups| ==> groups[k] != [] && Filter(a.reports, FromStderr)[k].text == Join(groups[k]))
  }

  lemma AccountedDrain(a: Abstract, groups: seq<seq<string>>)
    requires Accounted(a, groups)
    ensures Accounted(Next(a, Drained), groups)
  {
    var cs := LastN(a.since, MAX_QUEUE_SIZE);
    OutputReportsFrom(cs);
    FilterConcat(a.reports, OutputReports(cs), FromStderr);
    assert Filter(a.reports, FromStderr) + [] == Filter(a.reports, FromStderr);
    ErrorTextsAre(cs);
    TrimmedAreSolid(cs);
    FilterConcat(a.survivors, cs, ErrorText);
    TrimmedConcat(Filter(a.survivors, ErrorText), Filter(cs, ErrorText));
    Assoc(Flatten(groups), a.texts, ErrorTexts(cs));
  }

  /** A flush hands over the join of the pending texts. */
  lemma FlushReports(a: Abstract)
    requires AllSolid(a.texts) && NeverCut(a.texts) && a.texts != []
    ensures Next(a, Flushed).reports == a.reports + [Report(Join(a.texts), Stderr)]
    ensures Filter(Next(a, Flushed).reports, FromStderr) ==
            Filter(a.reports, FromStderr) + [Report(Join(a.texts), Stderr)]
  {
    WholeBufferIsTrimmed(a.texts);
    var r := Report(Join(a.texts), Stderr);
    ReportOfOne(r);
    FilterConcat(a.reports, [r], FromStderr);
  }

  lemma WholeBufferIsTrimmed(texts: seq<string>)
    requires AllSolid(texts) && NeverCut(texts) && texts != []
    ensures Trim(Buffered(texts)) == Join(texts)
  {
    ReassembledIffNeverCut(texts);
    JoinIsSolid(texts);
    SolidIsTrimmed(Join(texts));
  }

  lemma FlattenSnoc(groups: seq<seq<string>>, g: seq<string>)
    ensures Flatten(groups + [g]) == Flatten(groups) + g
  {
    assert (groups + [g])[..|groups|] == groups;
  }

  lemma AccountedFlush(a: Abstract, groups: seq<seq<string>>) returns (more: seq<seq<string>>)
    requires Accounted(a, groups) && NeverCut(a.texts)
    ensures Accounted(Next(a, Flushed), more)
  {
    if a.texts == [] {
      more := groups;
    } else {
      more := groups + [a.texts];
      FlushReports(a);
      FlattenSnoc(groups, a.texts);
      assert Flatten(more) + [] == Flatten(more);
    }
  }

  /** Over every history without a clean-up or a cut, the reports from stderr and the pending buffer account
      for every trimmed non-blank stderr chunk that survived, exactly once and in order: the chunks fall
      into consecutive groups, each report is the newline-join of one, and the buffer is that of the
      rest. */
  lemma {:induction false} ErrorsAreReported(es: seq<Event>) returns (groups: seq<seq<string>>, pending: seq<string>)
    requires Whole(es)
    ensures var reports := Filter(History(es).reports, FromStderr);
            && Trimmed(Filter(History(es).survivors, ErrorText)) == Flatten(groups) + pending
            && |groups| == |reports|
            && (forall k :: 0 <= k < |groups| ==> groups[k] != [] && reports[k].text == Join(groups[k]))
            && Buffered(History(es).texts) == Join(pending)
    ensures pending == History(es).texts && Accounted(History(es), groups)
  {
    pending := History(es).texts;
    if es == [] {
      groups := [];
    } else {
      var before := es[..|es| - 1];
      var rest;
      groups, rest := ErrorsAreReported(before);
      match es[|es| - 1]
      case Arrived(_) =>
      case Drained => AccountedDrain(History(before), groups);
      case Flushed =>
        WholeNeverCut(before);
        groups := AccountedFlush(History(before), groups);
    }
    WholeNeverCut(es);
    ReassembledIffNeverCut(pending);
  }

  lemma WholeNeverCut(es: seq<Event>)
    requires Whole(es)
    ensures NeverCut(History(es).texts)
  {}

  /** A drain processes the last hundred chunks that wait, in order, or all of them if there are fewer. */
  lemma DrainTakesLastHundred(es: seq<Event>)
    ensures var a, b := History(es), History(es + [Drained]);
            && b.survivors == a.survivors + (if |a.since| <= 100 then a.since else a.since[|a.since| - 100..])
            && b.dropped == a.dropped
  {
    assert (es + [Drained])[..|es|] == es;
  }

  /** A flush leaves nothing pending, and a drain nothing waiting. */
  lemma NothingStaysBehind(es: seq<Event>)
    ensures History(es + [Flushed]).texts == [] && History(es + [Drained]).since == []
    ensures var a := History(es + [CleanedUp]); a.texts == [] && a.since == [] && a.visible == []
  {
    assert (es + [Flushed])[..|es|] == es && (es + [Drained])[..|es|] == es && (es + [CleanedUp])[..|es|] == es;
  }

  // ---- The object ----

  class StreamMonitor {
    var processingQueue: seq<Chunk>
    var isProcessing: bool
    var drains: nat                // setImmediate callbacks that will still run
    var errorBuffer: string
    var bufferTimeout: Option<nat> // the field, which may name a timer that already fired
    var flushes: set<nat>          // flush timers that will still fire
    var timers: nat
    var reports: seq<Report>       // calls of error detection
    var fileLines: seq<LogLine>    // calls of appendLog
    const logBuffer: LogBuffer
    ghost var past: Abstract

    ghost predicate Valid()
      reads this, logBuffer, logBuffer.buffer
    {
      && logBuffer.Valid()
      // the queue holds the last 100 chunks since the previous drain or clean-up
      && processingQueue == LastN(past.since, MAX_QUEUE_SIZE)
      // a waiting chunk always has a drain that will run
      && (processingQueue != [] ==> isProcessing) && (isProcessing ==> drains > 0)
      && errorBuffer == Buffered(past.texts) && RealTexts(past.texts)
      // a non-empty buffer has exactly one flush timer, the one the field names
      && FlushArmed()
      && reports == past.reports
      && fileLines == Lines(past.survivors)
      && logBuffer.contents == LastN(past.visible, logBuffer.maxSize)
    }

    constructor (bufferSize: nat)
      ensures Valid() && past == Nothing && logBuffer.maxSize == bufferSize
      ensures fresh(logBuffer) && fresh(logBuffer.buffer)
    {
      logBuffer := new LogBuffer(bufferSize);
      processingQueue, isProcessing, drains := [], false, 0;
      errorBuffer, bufferTimeout, flushes, timers := "", None, {}, 0;
      reports, fileLines, past := [], [], Nothing;
    }

    /** processStreamData: a full queue drops its oldest chunk. */
    method ProcessStreamData(chunk: Chunk)
      requires Valid()
      modifies this
      ensures Valid() && past == Next(old(past), Arrived(chunk))
    {
      DropOldest(past.since, chunk, MAX_QUEUE_SIZE);
      if |processingQueue| >= MAX_QUEUE_SIZE {
        processingQueue := processingQueue[1..];
      }
      processingQueue := processingQueue + [chunk];
      if !isProcessing {
        isProcessing := true;
        drains := drains + 1;
      }
      past := Next(past, Arrived(chunk));
    }

    /** bufferMultiLineErrors: the pending flush is replaced by a new one. */
    method BufferMultiLineErrors(content: string)
      requires content != ""
      requires FlushArmed()
      modifies `errorBuffer, `bufferTimeout, `flushes, `timers
      ensures errorBuffer == PushError(old(errorBuffer), content) && errorBuffer != "" && FlushArmed()
    {
      if |errorBuffer| + |content| > MAX_ERROR_BUFFER_SIZE {
        errorBuffer := LastN(errorBuffer, MAX_ERROR_BUFFER_SIZE / 2);
      }
      errorBuffer := errorBuffer + ((if errorBuffer != "" then "\n" else "") + content);
      if bufferTimeout.Some? {
        flushes := flushes - {bufferTimeout.value};
      }
      flushes := flushes + {timers};
      bufferTimeout := Some(timers);
      timers := timers + 1;
    }

    ghost predicate FlushArmed()
      reads this
    {
      && flushes == (if errorBuffer == "" || bufferTimeout.None? then {} else {bufferTimeout.value})
      && (errorBuffer != "" ==> bufferTimeout.Some?)
    }

    ghost function Current(): Fields
      reads this, logBuffer
    {
      Fields(errorBuffer, reports, fileLines, logBuffer.contents)
    }

    ghost function SinksNow(): Sinks
      reads this, logBuffer
    {
      Sinks(fileLines, logBuffer.contents)
    }

    /** A non-blank line goes to the ring buffer and to the log file. */
    method RecordLine(line: string, stream: Stream)
      requires logBuffer.Valid()
      modifies `fileLines, logBuffer, logBuffer.buffer
      ensures logBuffer.Valid()
      ensures SinksNow() == RecordOne(old(SinksNow()), line, stream, logBuffer.maxSize)
    {
      if Trim(line) == "" {
        return;
      }
      var logLine := LogLine(Trim(line), stream);
      logBuffer.Add(logLine);
      fileLines := fileLines + [logLine];
    }

    /** The per-line loop. */
    method RecordLines(lines: seq<string>, stream: Stream)
      requires logBuffer.Valid()
      modifies `fileLines, logBuffer, logBuffer.buffer
      ensures logBuffer.Valid()
      ensures logBuffer.contents == LastN(old(logBuffer.contents) + KeepLines(lines, stream), logBuffer.maxSize)
      ensures fileLines == old(fileLines) + KeepLines(lines, stream)
    {
      var i := 0;
      ghost var start := SinksNow();
      while i < |lines|
        invariant 0 <= i <= |lines| && logBuffer.Valid()
        invariant SinksNow() == RecordAll(start, lines[..i], stream, logBuffer.maxSize)
      {
        RecordAllSnoc(start, lines, i, stream, logBuffer.maxSize);
        RecordLine(lines[i], stream);
        i := i + 1;
      }
      assert lines[..|lines|] == lines;
      RecordAllIs(start, lines, stream, logBuffer.maxSize);
    }

    /** One iteration of the drain. */
    method ProcessChunk(c: Chunk)
      requires logBuffer.Valid() && FlushArmed()
      modifies `errorBuffer, `bufferTimeout, `flushes, `timers, `reports, `fileLines, logBuffer, logBuffer.buffer
      ensures logBuffer.Valid() && FlushArmed()
      ensures Current() == AfterChunk(old(Current()), c, logBuffer.maxSize)
    {
      if Trim(c.data) == "" {
        BlankChunkHasNoLines(c);
        return;
      }
      if c.stream == Stderr {
        BufferMultiLineErrors(Trim(c.data));
      } else {
        reports := reports + [Report(Trim(c.data), Stdout)];
      }
      RecordLines(Split(c.data, '\n'), c.stream);
    }

    /** The drain loop. */
    method RunQueueEmpty()
      requires logBuffer.Valid() && FlushArmed()
      modifies `processingQueue, `errorBuffer, `bufferTimeout, `flushes, `timers, `reports, `fileLines
      modifies logBuffer, logBuffer.buffer
      ensures logBuffer.Valid() && FlushArmed() && processingQueue == []
      ensures Current() == AfterChunks(old(Current()), old(processingQueue), logBuffer.maxSize)
    {
      ghost var cs, k, start := processingQueue, 0, Current();
      while |processingQueue| > 0
        invariant k <= |cs| && processingQueue == cs[k..]
        invariant logBuffer.Valid() && FlushArmed()
        invariant Current() == AfterChunks(start, cs[..k], logBuffer.maxSize)
        decreases |processingQueue|
      {
        AfterChunksSnoc(start, cs, k, logBuffer.maxSize);
        DropOne(cs, k);
        var c := processingQueue[0];
        processingQueue := processingQueue[1..];
        ProcessChunk(c);
        k := k + 1;
      }
      assert cs[..k] == cs;
    }

    /** processQueuedData: the scheduled drain runs the queue empty. */
    method ProcessQueuedData()
      requires Valid() && drains > 0
      modifies this, logBuffer, logBuffer.buffer
      ensures Valid() && past == Next(old(past), Drained) && drains == old(drains) - 1
    {
      drains := drains - 1;
      ghost var n, next := logBuffer.maxSize, Next(past, Drained);
      DrainRefines(past, n);
      assert Current() == FieldsOf(past, n);
      RunQueueEmpty();
      assert Current() == FieldsOf(next, n);
      // the source re-arms here if the queue is not empty; the loop has just emptied it
      isProcessing := false;
      past := next;
    }

    /** The flush callback. */
    method FlushErrors(timer: nat)
      requires Valid() && timer in flushes
      modifies this
      ensures Valid() && past == Next(old(past), Flushed)
    {
      BufferEndsNonBlank(past.texts);
      flushes := flushes - {timer};
      if Trim(errorBuffer) != "" {
        reports := reports + [Report(Trim(errorBuffer), Stderr)];
        errorBuffer := "";
      }
      past := Next(past, Flushed);
    }

    /** cleanup(): a drain that was scheduled stays scheduled. */
    method Cleanup()
      requires Valid()
      modifies this, logBuffer
      ensures Valid() && past == Next(old(past), CleanedUp)
    {
      if bufferTimeout.Some? {
        flushes := flushes - {bufferTimeout.value};
      }
      processingQueue := [];
      isProcessing := false;
      errorBuffer := "";
      logBuffer.Clear();
      past := Next(past, CleanedUp);
    }

    /** getRecentLogs: the last `count` lines of what survived the queue, up to the buffer's capacity. */
    method GetRecentLogs(count: Option<int>) returns (logs: seq<LogLine>)
      requires Valid()
      ensures var capacity := logBuffer.maxSize;
              logs == if count.None? then LastN(past.visible, capacity)
                      else if count.value <= 0 then []
                      else LastN(past.visible, if count.value < capacity then count.value else capacity)
    {
      logs := logBuffer.GetRecentLines(count);
      if count.Some? && count.value > 0 {
        LastNOfLastN(past.visible, count.value, logBuffer.maxSize);
      }
    }
  }

  // ---- Whole runs of the object ----

  /** A drain with nothing waiting and a flush with nothing buffered change nothing. */
  lemma IdleEvents(a: Abstract)
    ensures a.since == [] ==> Next(a, Drained) == a
    ensures a.texts == [] ==> Next(a, Flushed) == a
  {
    assert a.survivors + [] == a.survivors && a.texts + [] == a.texts;
    assert a.reports + [] == a.reports && a.visible + [] == a.visible;
  }

  lemma HistorySnoc(es: seq<Event>, i: nat)
    requires i < |es|
    ensures History(es[..i + 1]) == Next(History(es[..i]), es[i])
  {
    assert es[..i + 1][..i] == es[..i];
  }

  /** One event happens to the object; a callback that is not scheduled does nothing. */
  method Happen(m: StreamMonitor, e: Event)
    requires m.Valid()
    modifies m, m.logBuffer, m.logBuffer.buffer
    ensures m.Valid() && m.past == Next(old(m.past), e)
  {
    IdleEvents(m.past);
    match e
    case Arrived(c) => m.ProcessStreamData(c);
    case Drained =>
      if m.drains > 0 {
        m.ProcessQueuedData();
      }
    case Flushed =>
      if m.flushes != {} {
        var timer :| timer in m.flushes;
        m.FlushErrors(timer);
      } else {
        BufferEndsNonBlank(m.past.texts);
      }
    case CleanedUp => m.Cleanup();
  }

  /** Whatever happens to a new object, in whatever order, it ends in the state that its history says:
      no wake-up and no flush is ever missing. */
  method RunMonitor(bufferSize: nat, es: seq<Event>) returns (m: StreamMonitor)
    ensures m.Valid() && m.past == History(es) && m.logBuffer.maxSize == bufferSize
    ensures fresh(m) && fresh(m.logBuffer) && fresh(m.logBuffer.buffer)
  {
    m := new StreamMonitor(bufferSize);
    var i := 0;
    while i < |es|
      invariant 0 <= i <= |es|
      invariant fresh(m) && fresh(m.logBuffer) && fresh(m.logBuffer.buffer)
      invariant m.Valid() && m.past == History(es[..i]) && m.logBuffer.maxSize == bufferSize
    {
      HistorySnoc(es, i);
      Happen(m, es[i]);
      i := i + 1;
    }
    assert es[..i] == es;
  }

  predicate NoCleanUp(es: seq<Event>) {
    forall i :: 0 <= i < |es| ==> !es[i].CleanedUp?
  }

  lemma RecentAreSurvivors(es: seq<Event>, n: nat)
    ensures NoCleanUp(es) ==> LastN(History(es).visible, n) == LastN(Lines(History(es).survivors), n)
  {
    if NoCleanUp(es) {
      VisibleAreSurvivors(es);
    }
  }

  /** The whole pipeline: after any run, getRecentLogs returns the last lines of what was processed since
      the last clean-up; without a clean-up, those are the lines of the chunks that survived the queue. */
  method RecentLogsAfter(bufferSize: nat, es: seq<Event>, count: nat) returns (logs: seq<LogLine>)
    ensures logs == LastN(History(es).visible, if count < bufferSize then count else bufferSize)
    ensures NoCleanUp(es) ==>
              logs == LastN(Lines(History(es).survivors), if count < bufferSize then count else bufferSize)
  {
    ghost var n, visible := if count < bufferSize then count else bufferSize, History(es).visible;
    RecentAreSurvivors(es, n);
    var m := RunMonitor(bufferSize, es);
    assert m.past.visible == visible;
    logs := m.GetRecentLogs(Some(count));
    assert count == 0 ==> LastN(visible, 0) == [];
    assert logs == LastN(visible, n);
  }
}
