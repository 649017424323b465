/** The two truncations applied to a detected error before it is stored. */
module Truncation {
  const MAX_MESSAGE: nat := 2000
  const MESSAGE_MARK := "...[truncated]"

  const MAX_RAW_OUTPUT: nat := 10000
  const TRUNCATION_THRESHOLD: nat := 8000
  const KEEP_START: nat := 7000
  const KEEP_END: nat := MAX_RAW_OUTPUT - KEEP_START - 50
  const SEPARATOR := "\n\n...[truncated for length - full output available in logs]...\n\n"

  function TruncateMessage(m: string): string {
    if |m| > MAX_MESSAGE then m[..MAX_MESSAGE] + MESSAGE_MARK else m
  }

  function TruncateRaw(s: string): string {
    if |s| <= TRUNCATION_THRESHOLD then s
    else if |s| > MAX_RAW_OUTPUT then s[..KEEP_START] + SEPARATOR + s[|s| - KEEP_END..]
    else s
  }

  /** Messages get at most 2,014 characters, a message within the limit stays, a longer one keeps
      its first 2,000 characters; truncating again changes nothing, although the result is over the limit. */
  lemma MessageTruncation(m: string)
    ensures |TruncateMessage(m)| <= MAX_MESSAGE + 14
    ensures TruncateMessage(TruncateMessage(m)) == TruncateMessage(m)
    ensures m != "" ==> TruncateMessage(m) != ""
    ensures |m| <= MAX_MESSAGE ==> TruncateMessage(m) == m
    ensures |m| > MAX_MESSAGE ==> |TruncateMessage(m)| == MAX_MESSAGE + 14 && m[..MAX_MESSAGE] <= TruncateMessage(m)
  {
    assert |MESSAGE_MARK| == 14;
    var t := TruncateMessage(m);
    if |m| > MAX_MESSAGE {
      assert t[..MAX_MESSAGE] == m[..MAX_MESSAGE];
    }
  }

  /** Raw output keeps its first 7,000 and its last 2,950 characters exactly, has at most 10,014
      characters, and truncating again changes nothing. */
  lemma RawTruncation(s: string)
    ensures |TruncateRaw(s)| <= MAX_RAW_OUTPUT + 14
    ensures TruncateRaw(TruncateRaw(s)) == TruncateRaw(s)
    ensures |s| <= MAX_RAW_OUTPUT ==> TruncateRaw(s) == s
    ensures |s| > MAX_RAW_OUTPUT ==>
              var t := TruncateRaw(s);
              && |t| == MAX_RAW_OUTPUT + 14
              && t[..KEEP_START] == s[..KEEP_START] && t[|t| - KEEP_END..] == s[|s| - KEEP_END..]
  {
    assert |SEPARATOR| == 64;
    var t := TruncateRaw(s);
    if |s| > MAX_RAW_OUTPUT {
      assert t[..KEEP_START] == s[..KEEP_START];
      assert t[|t| - KEEP_END..] == s[|s| - KEEP_END..];
    }
  }
}
