/** The string operations of the source: trim, split at a character, join with newlines. */
module Text {

  /** White space and line terminators, as String.prototype.trim removes them. */
  predicate IsSpace(c: char) {
    '\t' <= c <= '\r' || c == ' ' || c == '\U{A0}' || c == '\U{1680}' || '\U{2000}' <= c <= '\U{200A}' ||
    c == '\U{2028}' || c == '\U{2029}' || c == '\U{202F}' || c == '\U{205F}' || c == '\U{3000}' || c == '\U{FEFF}'
  }

  /** The characters that trim() removes, and no letter, digit or sign of ASCII. */
  lemma SpacesAre(c: char)
    ensures c in "\t\n\U{B}\U{C}\r \U{A0}\U{1680}\U{2028}\U{2029}\U{202F}\U{205F}\U{3000}\U{FEFF}" ==> IsSpace(c)
    ensures '\U{2000}' <= c <= '\U{200A}' ==> IsSpace(c)
    ensures '!' <= c <= '~' ==> !IsSpace(c)
    ensures IsSpace(c) ==> c <= ' ' || c >= '\U{A0}'
  {}

  function TrimStart(s: string): string {
    if s != "" && IsSpace(s[0]) then TrimStart(s[1..]) else s
  }

  function TrimEnd(s: string): string {
    if s != "" && IsSpace(s[|s| - 1]) then TrimEnd(s[..|s| - 1]) else s
  }

  function Trim(s: string): string {
    TrimEnd(TrimStart(s))
  }

  predicate Blank(s: string) {
    forall i :: 0 <= i < |s| ==> IsSpace(s[i])
  }

  lemma {:induction false} TrimStartBlank(s: string)
    ensures Blank(TrimStart(s)) <==> Blank(s)
    ensures TrimStart(s) == "" <==> Blank(s)
    ensures TrimStart(s) != "" ==> !IsSpace(TrimStart(s)[0])
  {
    if s != "" && IsSpace(s[0]) {
      TrimStartBlank(s[1..]);
      assert s == [s[0]] + s[1..];
    }
  }

  lemma {:induction false} TrimEndBlank(s: string)
    ensures TrimEnd(s) == "" <==> Blank(s)
    ensures TrimEnd(s) != "" ==> !IsSpace(TrimEnd(s)[|TrimEnd(s)| - 1]) && TrimEnd(s)[0] == s[0]
    ensures |TrimEnd(s)| <= |s|
  {
    if s != "" && IsSpace(s[|s| - 1]) {
      TrimEndBlank(s[..|s| - 1]);
      assert s == s[..|s| - 1] + [s[|s| - 1]];
    }
  }

  /** Trimming leaves nothing exactly of blank strings, otherwise something that begins
      and ends without white space, and trimming again changes nothing. */
  lemma TrimFacts(s: string)
    ensures Trim(s) == "" <==> Blank(s)
    ensures Trim(s) != "" ==> !IsSpace(Trim(s)[0]) && !IsSpace(Trim(s)[|Trim(s)| - 1])
    ensures Trim(Trim(s)) == Trim(s)
  {
    TrimStartBlank(s);
    TrimEndBlank(TrimStart(s));
  }

  /** split(c): the pieces between the occurrences of `c`; never empty. */
  function Split(s: string, c: char): (r: seq<string>)
    ensures |r| >= 1
  {
    if s == "" then [""]
    else
      var r := Split(s[1..], c);
      if s[0] == c then [""] + r else [[s[0]] + r[0]] + r[1..]
  }

  function Join(pieces: seq<string>): string {
    if pieces == [] then "" else if |pieces| == 1 then pieces[0]
    else Join(pieces[..|pieces| - 1]) + "\n" + pieces[|pieces| - 1]
  }

  lemma {:induction false} JoinConcat(a: seq<string>, b: seq<string>)
    requires a != [] && b != []
    ensures Join(a + b) == Join(a) + "\n" + Join(b)
  {
    var l := b[|b| - 1];
    if |b| == 1 {
      assert (a + b)[..|a + b| - 1] == a;
    } else {
      JoinConcat(a, b[..|b| - 1]);
      assert (a + b)[..|a + b| - 1] == a + b[..|b| - 1];
    }
  }

  lemma Associate(c: char, a: string, b: string)
    ensures ([c] + a) + "\n" + b == [c] + (a + "\n" + b)
  {}

  lemma JoinPrepend(c: char, r: seq<string>)
    requires r != []
    ensures Join([[c] + r[0]] + r[1..]) == [c] + Join(r)
  {
    var head, tail := [c] + r[0], r[1..];
    assert [r[0]] + tail == r;
    if tail == [] {
      assert [head] + tail == [head];
    } else {
      JoinConcat([r[0]], tail);
      JoinConcat([head], tail);
      Associate(c, r[0], Join(tail));
    }
  }

  /** Joining the lines of a text gives the text back. */
  lemma {:induction false} JoinOfSplit(s: string)
    ensures Join(Split(s, '\n')) == s
  {
    if s != "" {
      var r := Split(s[1..], '\n');
      JoinOfSplit(s[1..]);
      if s[0] == '\n' {
        JoinConcat([""], r);
        assert s == "" + "\n" + s[1..];
      } else {
        JoinPrepend(s[0], r);
        assert s == [s[0]] + s[1..];
      }
    }
  }

  /** No piece of a split contains the separator. */
  lemma {:induction false} SplitPieces(s: string, c: char)
    ensures forall i :: 0 <= i < |Split(s, c)| ==> c !in Split(s, c)[i]
  {
    if s != "" {
      SplitPieces(s[1..], c);
    }
  }

  /** Only blank pieces come from a blank text. */
  lemma {:induction false} SplitBlank(s: string, c: char)
    requires Blank(s)
    ensures forall i :: 0 <= i < |Split(s, c)| ==> Blank(Split(s, c)[i])
  {
    if s != "" {
      SplitBlank(s[1..], c);
      var r := Split(s[1..], c);
      assert Blank(r[0]) && Blank([s[0]] + r[0]);
    }
  }

  lemma {:induction false} SplitNone(s: string, c: char)
    requires c !in s
    ensures Split(s, c) == [s]
  {
    if s != "" {
      SplitNone(s[1..], c);
      assert s == [s[0]] + s[1..];
    }
  }

  /** The first piece ends before the first separator. */
  lemma {:induction false} SplitFirst(a: string, c: char, b: string)
    requires c !in a
    ensures Split(a + [c] + b, c) == [a] + Split(b, c)
  {
    if a == "" {
      assert a + [c] + b == [c] + b;
    } else {
      SplitFirst(a[1..], c, b);
      assert (a + [c] + b)[1..] == a[1..] + [c] + b;
      assert a == [a[0]] + a[1..];
    }
  }

  lemma {:induction false} TrimStartIs(s: string) returns (k: nat)
    ensures k <= |s| && TrimStart(s) == s[k..] && Blank(s[..k])
  {
    k := 0;
    if s != "" && IsSpace(s[0]) {
      var j := TrimStartIs(s[1..]);
      k := j + 1;
      assert s[k..] == s[1..][j..];
    }
  }

  lemma {:induction false} TrimEndIs(s: string) returns (k: nat)
    ensures k <= |s| && TrimEnd(s) == s[..k] && Blank(s[k..])
  {
    k := |s|;
    if s != "" && IsSpace(s[|s| - 1]) {
      k := TrimEndIs(s[..|s| - 1]);
      assert s[..k] == s[..|s| - 1][..k];
    }
  }

  /** Trimming takes away only blanks, at the two ends. */
  lemma TrimIs(s: string) returns (a: string, b: string)
    ensures s == a + Trim(s) + b && Blank(a) && Blank(b)
  {
    var j := TrimStartIs(s);
    var t := s[j..];
    var k := TrimEndIs(t);
    a, b := s[..j], t[k..];
  }
}
