/**
 The rolling log file of one process: append, trim every hundredth append, read and reset.
 File operations succeed here; a trim is one step.
 */
module LogFile {
  import opened Options
  import opened Text

  const CHECK_INTERVAL: nat := 100
  const LINE_CHECK_SIZE: nat := 50000

  /** The length of a character in UTF-8. */
  function Utf8(c: char): nat {
    if c < '\U{80}' then 1 else if c < '\U{800}' then 2 else if c < '\U{10000}' then 3 else 4
  }

  /** The size of a text on disk. */
  function Bytes(s: string): nat {
    if s == "" then 0 else Bytes(s[..|s| - 1]) + Utf8(s[|s| - 1])
  }

  /** Math.floor(maxLines * 0.7): for a multiple of ten the floating-point product may fall just
      below the whole number. */
  predicate IsKeepLines(maxLines: nat, keep: nat) {
    keep == 7 * maxLines / 10 || (maxLines > 0 && maxLines % 10 == 0 && keep == 7 * maxLines / 10 - 1)
  }

  /** lines.slice(-keep): for 0 that is the whole array. */
  function SliceFromEnd(lines: seq<string>, keep: nat): seq<string> {
    if keep == 0 || keep >= |lines| then lines else lines[|lines| - keep..]
  }

  function TrimTo(content: string, keep: nat): string {
    Join(SliceFromEnd(Split(content, '\n'), keep))
  }

  predicate NeedsTrim(content: string, maxLines: nat, maxFileSize: nat) {
    Bytes(content) > maxFileSize ||
    (Bytes(content) > LINE_CHECK_SIZE && |Split(content, '\n')| > maxLines)
  }

  /** trimLogIfNeeded on an existing file. */
  function Checked(content: string, maxLines: nat, maxFileSize: nat, keep: nat): string {
    if NeedsTrim(content, maxLines, maxFileSize) then TrimTo(content, keep) else content
  }

  function Entry(timestamp: string, stream: string, content: string): string {
    "[" + timestamp + "] [" + stream + "] " + content + "\n"
  }

  /** `f` is an end of `whole`, beginning at the start of a line. */
  predicate LineSuffix(f: string, whole: string) {
    |f| <= |whole| && whole[|whole| - |f|..] == f && (|f| < |whole| ==> whole[|whole| - |f| - 1] == '\n')
  }

  predicate Bounded(content: string, maxLines: nat) {
    Bytes(content) <= LINE_CHECK_SIZE || |Split(content, '\n')| <= maxLines
  }

  lemma LineSuffixAppend(f: string, whole: string, tail: string)
    requires LineSuffix(f, whole)
    ensures LineSuffix(f + tail, whole + tail)
  {}

  lemma LineSuffixTrans(f: string, g: string, whole: string)
    requires LineSuffix(f, g) && LineSuffix(g, whole)
    ensures LineSuffix(f, whole)
  {
    assert |f| < |g| ==> g[|g| - |f| - 1] == whole[|whole| - |f| - 1];
  }

  lemma LineSuffixOfJoin(a: string, b: string)
    ensures LineSuffix(b, a + "\n" + b)
  {}

  /** Trimming keeps an end of the text that begins at a line start, with at most `keep` lines. */
  lemma TrimKeepsLineSuffix(content: string, keep: nat)
    ensures LineSuffix(TrimTo(content, keep), content)
    ensures keep > 0 ==> |Split(TrimTo(content, keep), '\n')| <= keep
    ensures keep > 0 && keep <= |Split(content, '\n')| ==> |Split(TrimTo(content, keep), '\n')| == keep
  {
    var lines := Split(content, '\n');
    var kept := SliceFromEnd(lines, keep);
    JoinOfSplit(content);
    SplitPieces(content, '\n');
    SplitOfJoin(kept);
    if kept != lines {
      var dropped := lines[..|lines| - keep];
      assert lines == dropped + kept;
      JoinConcat(dropped, kept);
      LineSuffixOfJoin(Join(dropped), Join(kept));
    }
  }

  lemma TrimOfLineSuffix(content: string, whole: string, keep: nat)
    requires LineSuffix(content, whole)
    ensures LineSuffix(TrimTo(content, keep), whole)
  {
    TrimKeepsLineSuffix(content, keep);
    LineSuffixTrans(TrimTo(content, keep), content, whole);
  }

  /** Splitting a join of newline-free pieces gives the pieces back. */
  lemma {:induction false} SplitOfJoin(pieces: seq<string>)
    requires pieces != [] && forall i :: 0 <= i < |pieces| ==> '\n' !in pieces[i]
    ensures Split(Join(pieces), '\n') == pieces
  {
    if |pieces| == 1 {
      SplitNone(pieces[0], '\n');
    } else {
      SplitOfJoin(pieces[1..]);
      JoinConcat([pieces[0]], pieces[1..]);
      assert pieces == [pieces[0]] + pieces[1..];
      SplitFirst(pieces[0], '\n', Join(pieces[1..]));
    }
  }

  function Newlines(n: nat): string {
    seq(n, _ => '\n')
  }

  lemma {:induction false} NewlinesAre(n: nat)
    ensures Bytes(Newlines(n)) == n && |Split(Newlines(n), '\n')| == n + 1
  {
    if n > 0 {
      NewlinesAre(n - 1);
      assert Newlines(n)[..n - 1] == Newlines(n - 1) == Newlines(n)[1..];
    }
  }

  /** Right after a check the file is at most 50,000 bytes or at most `maxLines` lines - for every
      content exactly when the limit is at least 2, since a limit below 2 keeps every line. */
  lemma CheckBoundsIff(maxLines: nat, maxFileSize: nat, keep: nat)
    requires IsKeepLines(maxLines, keep)
    ensures (forall content :: Bounded(Checked(content, maxLines, maxFileSize, keep), maxLines)) <==> maxLines >= 2
  {
    if maxLines >= 2 {
      forall content ensures Bounded(Checked(content, maxLines, maxFileSize, keep), maxLines) {
        TrimKeepsLineSuffix(content, keep);
      }
    } else {
      var n := LINE_CHECK_SIZE + 1;
      NewlinesAre(n);
      JoinOfSplit(Newlines(n));
      assert keep == 0;
      assert !Bounded(Checked(Newlines(n), maxLines, maxFileSize, keep), maxLines);
    }
  }

  class SimpleLogManager {
    const maxLines: nat
    const maxFileSize: nat
    const keepLines: nat
    var appendCount: nat
    var file: Option<string>
    ghost var appended: string  // everything appended since the last reset

    function Content(): string
      reads this
    {
      if file.Some? then file.value else ""
    }

    ghost predicate Valid()
      reads this
    {
      IsKeepLines(maxLines, keepLines) && LineSuffix(Content(), appended)
    }

    constructor (maxLines: nat, maxFileSize: nat, keepLines: nat)
      requires IsKeepLines(maxLines, keepLines)
      ensures Valid() && file.None? && appended == "" && appendCount == 0
      ensures this.maxLines == maxLines && this.maxFileSize == maxFileSize
    {
      this.maxLines, this.maxFileSize, this.keepLines := maxLines, maxFileSize, keepLines;
      appendCount, file, appended := 0, None, "";
    }

    /** appendLog: the file stays an end, cut at a line start, of what was appended since the last
        reset, and every hundredth append leaves it bounded. */
    method AppendLog(content: string, stream: string, timestamp: string)
      requires Valid()
      modifies this
      ensures Valid()
      ensures appended == old(appended) + Entry(timestamp, stream, content)
      ensures appendCount == old(appendCount) + 1
      ensures var f := old(Content()) + Entry(timestamp, stream, content);
              file == Some(if appendCount % 100 != 0 then f
                           else Checked(f, maxLines, maxFileSize, keepLines))
      ensures appendCount % 100 == 0 && maxLines >= 2 ==> Bounded(Content(), maxLines)
    {
      var logLine := Entry(timestamp, stream, content);
      LineSuffixAppend(Content(), appended, logLine);
      file := Some(Content() + logLine);
      appended := appended + logLine;
      appendCount := appendCount + 1;
      if appendCount % CHECK_INTERVAL == 0 {
        TrimLogIfNeeded();
      }
    }

    method TrimLogIfNeeded()
      requires Valid()
      modifies `file
      ensures Valid()
      ensures file == if old(file).None? then None else Some(Checked(old(file).value, maxLines, maxFileSize, keepLines))
      ensures maxLines >= 2 ==> Bounded(Content(), maxLines)
    {
      CheckBoundsIff(maxLines, maxFileSize, keepLines);
      if file.None? {
        return;
      }
      if Bytes(file.value) > maxFileSize {
        TrimLogFile();
        return;
      }
      if Bytes(file.value) > LINE_CHECK_SIZE {
        var lines := Split(file.value, '\n');
        if |lines| > maxLines {
          TrimLogFile();
        }
      }
    }

    method TrimLogFile()
      requires Valid() && file.Some?
      modifies `file
      ensures Valid() && file == Some(TrimTo(old(file).value, keepLines))
    {
      TrimOfLineSuffix(file.value, appended, keepLines);
      var lines := Split(file.value, '\n');
      file := Some(Join(SliceFromEnd(lines, keepLines)));
    }

    /** getAllLogsAndReset: returns the whole file and starts an empty one. */
    method GetAllLogsAndReset() returns (logs: string)
      requires Valid()
      modifies this
      ensures Valid() && logs == old(Content()) && Content() == "" && appended == ""
      ensures LineSuffix(logs, old(appended))
      ensures appendCount == old(appendCount)
    {
      logs := Content();
      if file.Some? {
        file := Some("");
      }
      appended := "";
    }
  }
}
