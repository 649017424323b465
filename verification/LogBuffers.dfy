/** The circular buffer of recent log lines. */
module LogBuffers {
  import opened Options
  import opened Sequences

  datatype Stream = Stdout | Stderr

  datatype LogLine = LogLine(content: string, stream: Stream)

  lemma WrapAround(x: int, m: int)
    requires 0 <= x < 2 * m
    ensures x % m == if x < m then x else x - m
  {
    if x >= m {
      assert x == m + (x - m);
    }
  }

  /** The slot of the line that is `back` lines before the next free slot. */
  function Slot(head: nat, m: nat, back: nat): (i: nat)
    requires head < m && 0 < back <= m
    ensures i < m
  {
    if back <= head then head - back else head - back + m
  }

  /** `contents` is the `size` entries before `head` in the ring `b`, oldest first. */
  ghost predicate InRing<T>(b: seq<T>, head: nat, size: nat, contents: seq<T>) {
    && size <= |b| && (|b| > 0 ==> head < |b|) && |contents| == size
    && (forall i :: 0 <= i < size ==> contents[i] == b[Slot(head, |b|, size - i)])
  }

  function NextSlot(head: nat, m: nat): nat {
    if head + 1 < m then head + 1 else 0
  }

  /** Seen from the next slot, every line is one further back, and the newest is at `head`. */
  lemma NextSlotBack(head: nat, m: nat, back: nat)
    requires head < m && 0 < back <= m
    ensures Slot(NextSlot(head, m), m, back) == if back == 1 then head else Slot(head, m, back - 1)
    ensures 1 < back ==> Slot(head, m, back - 1) != head
  {}

  lemma LastNPush<T>(s: seq<T>, x: T, m: nat, k: nat)
    requires 0 < m && |s| <= m && k < |LastN(s + [x], m)|
    ensures |LastN(s + [x], m)| == if |s| < m then |s| + 1 else m
    ensures LastN(s + [x], m)[k] ==
              if k + 1 == |LastN(s + [x], m)| then x else if |s| < m then s[k] else s[k + 1]
  {}

  /** The line at place `k` after an addition: the new one, or an old one in its old slot. */
  lemma RingAddAt<T>(b: seq<T>, head: nat, size: nat, contents: seq<T>, x: T, n: nat, k: nat)
    requires head < |b| && InRing(b, head, size, contents)
    requires n == (if size < |b| then size + 1 else size) && k < n
    ensures |LastN(contents + [x], |b|)| == n
    ensures LastN(contents + [x], |b|)[k] == b[head := x][Slot(NextSlot(head, |b|), |b|, n - k)]
  {
    NextSlotBack(head, |b|, n - k);
    LastNPush(contents, x, |b|, k);
    if k + 1 < n {
      if size < |b| {
        assert contents[k] == b[Slot(head, |b|, size - k)];
      } else {
        assert contents[k + 1] == b[Slot(head, |b|, size - (k + 1))];
      }
    }
  }

  /** Writing at `head` and moving on is appending and keeping the last |b|. */
  lemma RingAdd<T>(b: seq<T>, head: nat, size: nat, contents: seq<T>, x: T)
    requires head < |b| && InRing(b, head, size, contents)
    ensures InRing(b[head := x], NextSlot(head, |b|), if size < |b| then size + 1 else size, LastN(contents + [x], |b|))
  {
    var n := if size < |b| then size + 1 else size;
    forall k | 0 <= k < n
      ensures LastN(contents + [x], |b|)[k] == b[head := x][Slot(NextSlot(head, |b|), |b|, n - k)]
    {
      RingAddAt(b, head, size, contents, x, n, k);
    }
  }

  class LogBuffer {
    const maxSize: nat
    const buffer: array<LogLine>
    var head: nat
    var size: nat

    ghost var contents: seq<LogLine> // the buffered lines, oldest first

    ghost predicate Valid()
      reads this, buffer
      ensures Valid() ==> |contents| <= maxSize
    {
      && buffer.Length == maxSize && (maxSize == 0 ==> head == 0)
      && InRing(buffer[..], head, size, contents)
    }

    constructor (maxSize: nat)
      ensures Valid() && contents == [] && this.maxSize == maxSize && fresh(buffer)
    {
      this.maxSize := maxSize;
      buffer := new LogLine[maxSize](_ => LogLine("", Stdout));
      head, size, contents := 0, 0, [];
    }

    /** Adding keeps the last `maxSize` lines. */
    method Add(logLine: LogLine)
      requires Valid()
      modifies this, buffer
      ensures Valid() && contents == LastN(old(contents) + [logLine], maxSize)
    {
      if maxSize == 0 {
        return;
      }
      ghost var before := buffer[..];
      RingAdd(before, head, size, contents, logLine);
      contents := LastN(contents + [logLine], maxSize);
      buffer[head] := logLine;
      assert buffer[..] == before[head := logLine];
      WrapAround(head + 1, maxSize);
      head := (head + 1) % maxSize;
      if size < maxSize {
        size := size + 1;
      }
    }

    /** The last `count` buffered lines in order; all of them when no count is given. */
    method GetRecentLines(count: Option<int>) returns (result: seq<LogLine>)
      requires Valid()
      ensures result == if count.None? then contents else if count.value <= 0 then [] else LastN(contents, count.value)
    {
      var c := if count.Some? then count.value else size;
      var actualCount := if c < size then c else size;
      result := [];
      var i := 0;
      while i < actualCount
        invariant 0 <= i <= if actualCount < 0 then 0 else actualCount
        invariant |result| == i
        invariant forall k :: 0 <= k < i ==> result[k] == contents[size - actualCount + k]
      {
        assert contents[size - actualCount + i] == buffer[Slot(head, maxSize, actualCount - i)];
        WrapAround(head - actualCount + i + maxSize, maxSize);
        var index := (head - actualCount + i + maxSize) % maxSize;
        result := result + [buffer[index]];
        i := i + 1;
      }
    }

    method Clear()
      requires Valid()
      modifies this
      ensures Valid() && contents == []
    {
      head, size, contents := 0, 0, [];
    }
  }
}
