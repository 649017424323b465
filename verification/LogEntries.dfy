/**
 What the log file's functions mean for a reader of the file: one line per entry, entries that can be
 told apart, sizes in bytes, and which files a check cuts.
 */
module LogEntries {
  import opened LogFile
  import opened Text

  /** An entry is one line: a file that ends with a newline gets exactly one more piece, and the bracketed
      time and stream in front of a text without a newline can be read back. */
  lemma {:induction false} EntryIsOneLine(f: string, timestamp: string, stream: string, content: string)
    requires '\n' !in timestamp && '\n' !in stream && '\n' !in content
    requires f == "" || f[|f| - 1] == '\n'
    ensures |Split(f + Entry(timestamp, stream, content), '\n')| == |Split(f, '\n')| + 1
  {
    var e := "[" + timestamp + "] [" + stream + "] " + content;
    assert Entry(timestamp, stream, content) == e + ['\n'] + "";
    SplitFirst(e, '\n', "");
    if f == "" {
      assert f + (e + ['\n'] + "") == e + ['\n'] + "";
    } else {
      var lines := Split(f, '\n');
      SplitAppend(f, e + ['\n']);
      assert Split("", '\n') == [""];
      assert Entry(timestamp, stream, content) == e + ['\n'];
    }
  }

  /** Splitting after a newline splits the two parts. */
  lemma {:induction false} SplitAppend(f: string, g: string)
    requires f != "" && f[|f| - 1] == '\n'
    ensures |Split(f + g, '\n')| == |Split(f, '\n')| - 1 + |Split(g, '\n')|
  {
    assert (f + g)[1..] == f[1..] + g;
    if |f| == 1 {
      assert f[1..] + g == g;
    } else {
      SplitAppend(f[1..], g);
    }
  }

  /** Different entries have different lines, as long as the time and the stream contain no bracket. */
  lemma EntryTellsApart(t: string, s: string, c: string, t': string, s': string, c': string)
    requires ']' !in t && ']' !in s && ']' !in t' && ']' !in s'
    requires Entry(t, s, c) == Entry(t', s', c')
    ensures t == t' && s == s' && c == c'
  {
    EntryParts(t, s, c);
    EntryParts(t', s', c');
    HeadUpTo("[", t, RestOfEntry(s, c), t', RestOfEntry(s', c'));
    HeadUpTo(" [", s, " " + c + "\n", s', " " + c' + "\n");
    assert (" " + c + "\n")[1..|c| + 1] == c && (" " + c' + "\n")[1..|c'| + 1] == c';
  }

  function RestOfEntry(stream: string, content: string): string {
    " [" + stream + "]" + (" " + content + "\n")
  }

  lemma EntryParts(t: string, s: string, c: string)
    ensures Entry(t, s, c) == "[" + t + "]" + RestOfEntry(s, c)
  {
    var head := "[" + t + "]";
    assert Entry(t, s, c) == head + " [" + s + "] " + c + "\n";
    assert head + " [" + s + "] " + c + "\n" == head + (" [" + s + "] " + c + "\n");
    assert " [" + s + "] " + c + "\n" == RestOfEntry(s, c);
  }

  /** After an equal start, equal texts have equal parts before and after their first bracket. */
  lemma HeadUpTo(p: string, a: string, x: string, b: string, y: string)
    requires ']' !in a && ']' !in b
    requires p + a + "]" + x == p + b + "]" + y
    ensures a == b && x == y
  {
    var u, v := a + "]" + x, b + "]" + y;
    assert p + a + "]" + x == p + u && p + b + "]" + y == p + v;
    assert u == (p + u)[|p|..] && v == (p + v)[|p|..];
    assert u[|a|] == ']' && v[|b|] == ']';
    assert forall i :: 0 <= i < |a| ==> u[i] == a[i] != ']';
    assert forall i :: 0 <= i < |b| ==> v[i] == b[i] != ']';
    assert u[..|a|] == a && v[..|b|] == b && u[|a| + 1..] == x && v[|b| + 1..] == y;
  }

  /** Every character takes one to four bytes, and only an ASCII text has as many bytes as characters. */
  lemma {:induction false} BytesAre(s: string)
    ensures |s| <= Bytes(s) <= 4 * |s|
    ensures Bytes(s) == |s| <==> forall i :: 0 <= i < |s| ==> s[i] < '\U{80}'
    ensures forall c: char :: Utf8(c) == 2 <==> '\U{80}' <= c < '\U{800}'
    ensures forall c: char :: Utf8(c) == 4 <==> '\U{10000}' <= c
  {
    if s != "" {
      BytesAre(s[..|s| - 1]);
    }
  }

  /** The number of lines kept is seven tenths of the limit, rounded down, or for a multiple of ten perhaps one
      less. */
  lemma KeepIsSevenTenths(maxLines: nat, keep: nat)
    requires IsKeepLines(maxLines, keep)
    ensures 10 * keep <= 7 * maxLines < 10 * (keep + 2)
    ensures maxLines % 10 != 0 ==> 7 * maxLines < 10 * (keep + 1)
    ensures maxLines % 10 == 0 ==> 7 * maxLines == 10 * keep || 7 * maxLines == 10 * (keep + 1)
  {}

  /** When a check cuts: a file over the size limit, and one over 50,000 bytes with more lines than the
      limit, keep exactly their last lines; any other is left alone. */
  lemma CheckedIs(content: string, maxLines: nat, maxFileSize: nat, keep: nat)
    requires keep > 0
    ensures var lines := Split(content, '\n');
            var cut := Bytes(content) > maxFileSize || (Bytes(content) > 50000 && |lines| > maxLines);
            Split(Checked(content, maxLines, maxFileSize, keep), '\n') ==
              if cut && keep < |lines| then lines[|lines| - keep..] else lines
  {
    JoinOfSplit(content);
    SplitPieces(content, '\n');
    SplitOfJoin(SliceFromEnd(Split(content, '\n'), keep));
  }
}
