/**
 The keyword index that spares error detection most of its patterns: how it is built, which
 patterns it proposes for a text, and when its choice agrees with trying every pattern.  The
 keywords of a pattern, the words of a text and matching itself are given.
 */
module KeywordIndex {
  import opened Options
  import opened Sequences
  import opened StableSorting

  datatype Pattern = Pattern(id: string, severity: string, priority: int, keywords: seq<string>)

  const MAX_WORDS: nat := 10
  const ENOUGH_CANDIDATES: nat := 5
  const FALLBACK_PRIORITY: int := 80

  predicate NoDuplicates<T(==)>(s: seq<T>) {
    forall i, j :: 0 <= i < j < |s| ==> s[i] != s[j]
  }

  /** Highest priority first. */
  ghost predicate Descending(s: seq<Pattern>) {
    forall i, j :: 0 <= i < j < |s| ==> s[i].priority >= s[j].priority
  }

  function ByPriority(s: seq<Pattern>): seq<Pattern> {
    StableSort(s, (p: Pattern) => -p.priority)
  }

  lemma ByPriorityDescends(s: seq<Pattern>)
    ensures Descending(ByPriority(s)) && multiset(ByPriority(s)) == multiset(s)
    ensures forall p :: p in ByPriority(s) <==> p in s
  {
    var key := (p: Pattern) => -p.priority;
    SortSorts(s, key);
    SortMembers(s, key);
    var t := ByPriority(s);
    forall i, j | 0 <= i < j < |t| ensures t[i].priority >= t[j].priority {
      assert key(t[i]) <= key(t[j]);
    }
  }

  lemma DistinctOfMultiset<T>(s: seq<T>, t: seq<T>)
    requires NoDuplicates(s) && multiset(s) == multiset(t)
    ensures NoDuplicates(t)
  {
    forall i, j | 0 <= i < j < |t| ensures t[i] != t[j] {
      if t[i] == t[j] {
        assert t == t[..i] + [t[i]] + t[i + 1..j] + [t[j]] + t[j + 1..];
        assert multiset(t)[t[i]] >= 2;
        CountAtMostOne(s, t[i]);
      }
    }
  }

  lemma {:induction false} CountAtMostOne<T>(s: seq<T>, x: T)
    requires NoDuplicates(s)
    ensures multiset(s)[x] <= 1
  {
    if s != [] {
      var t, l := s[..|s| - 1], s[|s| - 1];
      CountAtMostOne(t, x);
      assert s == t + [l];
      assert l !in t;
    }
  }

  // ---- What the index holds ----

  /** The patterns with a keyword, in the order given. */
  function Bucket(patterns: seq<Pattern>, k: string): seq<Pattern> {
    Filter(patterns, (p: Pattern) => k in p.keywords)
  }

  lemma BucketMembers(patterns: seq<Pattern>, k: string)
    ensures forall p :: p in Bucket(patterns, k) <==> p in patterns && k in p.keywords
  {
    FilterMember(patterns, (p: Pattern) => k in p.keywords);
  }

  function OfSeverity(patterns: seq<Pattern>, s: string): seq<Pattern> {
    Filter(patterns, (p: Pattern) => p.severity == s)
  }

  function KeywordFree(patterns: seq<Pattern>): seq<Pattern> {
    Filter(patterns, (p: Pattern) => p.keywords == [])
  }

  /** The key `k` has exactly the patterns `b`; a key without patterns is absent. */
  predicate Holds(index: map<string, seq<Pattern>>, k: string, b: seq<Pattern>) {
    if k in index then b != [] && index[k] == b else b == []
  }

  /** Every key has its whole bucket, and there are no empty buckets. */
  ghost predicate IsIndex(index: map<string, seq<Pattern>>, patterns: seq<Pattern>) {
    forall k :: Holds(index, k, Bucket(patterns, k))
  }

  ghost predicate IsSeverityIndex(index: map<string, seq<Pattern>>, patterns: seq<Pattern>) {
    forall s :: Holds(index, s, OfSeverity(patterns, s))
  }

  lemma FilterDescends(patterns: seq<Pattern>, q: Pattern -> bool)
    requires Descending(patterns)
    ensures Descending(Filter(patterns, q))
    ensures NoDuplicates(patterns) ==> NoDuplicates(Filter(patterns, q))
  {
    var at := FilterPlaces(patterns, q);
  }

  /** has / set / get / push for one keyword. */
  function PushTo(index: map<string, seq<Pattern>>, k: string, p: Pattern): map<string, seq<Pattern>> {
    index[k := (if k in index then index[k] else []) + [p]]
  }

  /** The bucket of `k` while the pattern `p` is being entered under its first `j` keywords. */
  function PartBucket(patterns: seq<Pattern>, k: string, p: Pattern, j: nat): seq<Pattern>
    requires j <= |p.keywords|
  {
    if k in p.keywords[..j] then Bucket(patterns, k) + [p] else Bucket(patterns, k)
  }

  ghost predicate PartIndex(index: map<string, seq<Pattern>>, patterns: seq<Pattern>, p: Pattern, j: nat)
    requires j <= |p.keywords|
  {
    forall k :: Holds(index, k, PartBucket(patterns, k, p, j))
  }

  lemma PartStep(index: map<string, seq<Pattern>>, patterns: seq<Pattern>, p: Pattern, j: nat)
    requires j < |p.keywords| && NoDuplicates(p.keywords) && PartIndex(index, patterns, p, j)
    ensures PartIndex(PushTo(index, p.keywords[j], p), patterns, p, j + 1)
  {
    var k := p.keywords[j];
    assert k !in p.keywords[..j];
    assert p.keywords[..j + 1] == p.keywords[..j] + [k];
    var after, j' := PushTo(index, k, p), j + 1;
    forall l ensures Holds(after, l, PartBucket(patterns, l, p, j')) {
      assert Holds(index, l, PartBucket(patterns, l, p, j));
    }
  }

  lemma PartStart(index: map<string, seq<Pattern>>, patterns: seq<Pattern>, p: Pattern)
    requires IsIndex(index, patterns)
    ensures PartIndex(index, patterns, p, 0)
  {
    forall k ensures Holds(index, k, PartBucket(patterns, k, p, 0)) {
      assert Holds(index, k, Bucket(patterns, k));
    }
  }

  lemma PartEnd(index: map<string, seq<Pattern>>, patterns: seq<Pattern>, p: Pattern)
    requires PartIndex(index, patterns, p, |p.keywords|)
    ensures IsIndex(index, patterns + [p])
  {
    assert p.keywords[..|p.keywords|] == p.keywords;
    assert (patterns + [p])[..|patterns|] == patterns;
    forall k ensures Holds(index, k, Bucket(patterns + [p], k)) {
      assert Holds(index, k, PartBucket(patterns, k, p, |p.keywords|));
    }
  }

  lemma KeywordFreeStep(index: map<string, seq<Pattern>>, patterns: seq<Pattern>, p: Pattern)
    requires IsIndex(index, patterns) && p.keywords == []
    ensures IsIndex(index, patterns + [p])
  {
    PartStart(index, patterns, p);
    PartEnd(index, patterns, p);
  }

  lemma SeverityStep(index: map<string, seq<Pattern>>, patterns: seq<Pattern>, p: Pattern)
    requires IsSeverityIndex(index, patterns)
    ensures IsSeverityIndex(PushTo(index, p.severity, p), patterns + [p])
  {
    assert (patterns + [p])[..|patterns|] == patterns;
    forall s ensures Holds(PushTo(index, p.severity, p), s, OfSeverity(patterns + [p], s)) {
      assert Holds(index, s, OfSeverity(patterns, s));
    }
  }

  lemma Grow(patterns: seq<Pattern>, i: nat)
    requires i < |patterns|
    ensures patterns[..i + 1] == patterns[..i] + [patterns[i]]
    ensures KeywordFree(patterns[..i + 1]) ==
              if patterns[i].keywords == [] then KeywordFree(patterns[..i]) + [patterns[i]]
              else KeywordFree(patterns[..i])
  {
    assert patterns[..i + 1][..i] == patterns[..i];
  }

  // ---- Which patterns are proposed ----

  function FirstWords(words: seq<string>): seq<string> {
    if |words| <= MAX_WORDS then words else words[..MAX_WORDS]
  }

  /** One of the first ten words of the text is a keyword of the pattern. */
  predicate Hit(p: Pattern, words: seq<string>) {
    exists i :: 0 <= i < |FirstWords(words)| && FirstWords(words)[i] in p.keywords
  }

  function Hits(patterns: seq<Pattern>, words: seq<string>): seq<Pattern> {
    Filter(patterns, (p: Pattern) => Hit(p, words))
  }

  /** A pattern is proposed when a word hits it, or when it has no keyword, its priority is at
      least 80 and fewer than five patterns were hit. */
  predicate Proposed(patterns: seq<Pattern>, p: Pattern, words: seq<string>) {
    p in patterns &&
    (Hit(p, words) ||
     (p.keywords == [] && p.priority >= FALLBACK_PRIORITY && |Hits(patterns, words)| < ENOUGH_CANDIDATES))
  }

  /** Set.add over an insertion-ordered set. */
  function AddNew(s: seq<Pattern>, p: Pattern): seq<Pattern> {
    if p in s then s else s + [p]
  }

  function AddAll(s: seq<Pattern>, ps: seq<Pattern>): seq<Pattern> {
    if ps == [] then s else AddNew(AddAll(s, ps[..|ps| - 1]), ps[|ps| - 1])
  }

  lemma {:induction false} AddAllIsUnion(s: seq<Pattern>, ps: seq<Pattern>)
    requires NoDuplicates(s)
    ensures NoDuplicates(AddAll(s, ps))
    ensures forall p :: p in AddAll(s, ps) <==> p in s || p in ps
  {
    if ps != [] {
      AddAllIsUnion(s, ps[..|ps| - 1]);
      assert ps == ps[..|ps| - 1] + [ps[|ps| - 1]];
    }
  }

  /** The candidates in the order in which they are collected: bucket by bucket for the first words, then
      the high fallbacks if there are few; sorted by priority, stably. */
  function Collected(patterns: seq<Pattern>, words: seq<string>): seq<Pattern> {
    if words == [] then [] else AddAll(Collected(patterns, words[..|words| - 1]), Bucket(patterns, words[|words| - 1]))
  }

  predicate IsHigh(p: Pattern) {
    p.priority >= FALLBACK_PRIORITY
  }

  function Candidates(patterns: seq<Pattern>, words: seq<string>): seq<Pattern> {
    var c := Collected(patterns, FirstWords(words));
    ByPriority(if |c| < ENOUGH_CANDIDATES then AddAll(c, Filter(KeywordFree(patterns), IsHigh)) else c)
  }

  lemma CollectedSnoc(patterns: seq<Pattern>, words: seq<string>, i: nat)
    requires i < |words|
    ensures Collected(patterns, words[..i + 1]) == AddAll(Collected(patterns, words[..i]), Bucket(patterns, words[i]))
  {
    assert words[..i + 1][..i] == words[..i];
  }

  /** Two duplicate-free sequences with the same elements are equally long. */
  lemma {:induction false} SameElementsSameLength<T>(s: seq<T>, t: seq<T>)
    requires NoDuplicates(s) && NoDuplicates(t) && forall x :: x in s <==> x in t
    ensures |s| == |t|
  {
    SetSize(s);
    SetSize(t);
    assert (set x | x in s) == (set x | x in t);
  }

  lemma {:induction false} SetSize<T>(s: seq<T>)
    requires NoDuplicates(s)
    ensures |set x | x in s| == |s|
  {
    if s != [] {
      var t, l := s[..|s| - 1], s[|s| - 1];
      SetSize(t);
      assert s == t + [l];
      assert (set x | x in s) == (set x | x in t) + {l};
      assert l !in t;
    }
  }

  lemma {:induction false} CollectedAre(patterns: seq<Pattern>, words: seq<string>)
    ensures NoDuplicates(Collected(patterns, words))
    ensures forall p :: p in Collected(patterns, words) <==>
              p in patterns && exists k :: 0 <= k < |words| && words[k] in p.keywords
  {
    if words != [] {
      var before, word := words[..|words| - 1], words[|words| - 1];
      CollectedAre(patterns, before);
      AddAllIsUnion(Collected(patterns, before), Bucket(patterns, word));
      BucketMembers(patterns, word);
      assert forall k :: 0 <= k < |before| ==> before[k] == words[k];
    }
  }

  /** The collected candidates are exactly the proposed patterns, each once, highest priority first. */
  lemma CandidatesAreProposed(patterns: seq<Pattern>, words: seq<string>)
    requires Descending(patterns) && NoDuplicates(patterns)
    ensures IsCandidateList(Candidates(patterns, words), patterns, words)
  {
    var c, high := Collected(patterns, FirstWords(words)), Filter(KeywordFree(patterns), IsHigh);
    CollectedAre(patterns, FirstWords(words));
    FilterMember(patterns, (p: Pattern) => Hit(p, words));
    FilterDescends(patterns, (p: Pattern) => Hit(p, words));
    SameElementsSameLength(c, Hits(patterns, words));
    FilterMember(patterns, (p: Pattern) => p.keywords == []);
    FilterMember(KeywordFree(patterns), IsHigh);
    AddAllIsUnion(c, high);
    var all := if |c| < ENOUGH_CANDIDATES then AddAll(c, high) else c;
    ByPriorityDescends(all);
    DistinctOfMultiset(all, ByPriority(all));
  }

  // ---- The choice ----

  function FirstMatch(s: seq<Pattern>, matches: Pattern -> bool): Option<Pattern> {
    if s == [] then None else if matches(s[0]) then Some(s[0]) else FirstMatch(s[1..], matches)
  }

  lemma FirstMatchAt(s: seq<Pattern>, matches: Pattern -> bool, i: nat)
    requires i < |s|
    ensures FirstMatch(s[i..], matches) == if matches(s[i]) then Some(s[i]) else FirstMatch(s[i + 1..], matches)
  {
    assert s[i..][1..] == s[i + 1..];
  }

  /** In a descending sequence the first match is a match of the highest priority. */
  lemma {:induction false} FirstMatchIsTop(s: seq<Pattern>, matches: Pattern -> bool)
    requires Descending(s)
    ensures FirstMatch(s, matches).None? <==> forall p :: p in s ==> !matches(p)
    ensures var f := FirstMatch(s, matches);
            f.Some? ==> f.value in s && matches(f.value) &&
                        forall p :: p in s && matches(p) ==> p.priority <= f.value.priority
  {
    if s != [] && !matches(s[0]) {
      FirstMatchIsTop(s[1..], matches);
      assert s == [s[0]] + s[1..];
    }
  }

  /** A matching pattern of the highest priority among the matching ones. */
  ghost predicate Top(patterns: seq<Pattern>, p: Pattern, matches: Pattern -> bool) {
    p in patterns && matches(p) && forall q :: q in patterns && matches(q) ==> q.priority <= p.priority
  }

  /** The two choices are equally good. */
  predicate Agree(a: Option<Pattern>, b: Option<Pattern>) {
    (a.None? && b.None?) || (a.Some? && b.Some? && a.value.priority == b.value.priority)
  }

  ghost predicate IsCandidateList(candidates: seq<Pattern>, patterns: seq<Pattern>, words: seq<string>) {
    && NoDuplicates(candidates) && Descending(candidates)
    && (forall p :: p in candidates <==> Proposed(patterns, p, words))
  }

  /** The index finds a pattern as good as trying all of them exactly when some matching pattern of
      the highest priority is proposed: hit by one of the first ten words, or a high fallback
      while fewer than five were hit. */
  lemma FastChoiceIff(patterns: seq<Pattern>, candidates: seq<Pattern>, words: seq<string>, matches: Pattern -> bool)
    requires Descending(patterns) && IsCandidateList(candidates, patterns, words)
    ensures var fast, full := FirstMatch(candidates, matches), FirstMatch(patterns, matches);
            (fast.Some? && full.Some? && fast.value.priority == full.value.priority)
            <==> exists p :: Top(patterns, p, matches) && Proposed(patterns, p, words)
    ensures Agree(FirstMatch(candidates, matches), FirstMatch(patterns, matches))
            <==> (forall p :: p in patterns ==> !matches(p))
                 || exists p :: Top(patterns, p, matches) && Proposed(patterns, p, words)
  {
    FirstMatchIsTop(patterns, matches);
    FirstMatchIsTop(candidates, matches);
    var fast, full := FirstMatch(candidates, matches), FirstMatch(patterns, matches);
    if fast.Some? && full.Some? && fast.value.priority == full.value.priority {
      assert Top(patterns, fast.value, matches) && Proposed(patterns, fast.value, words);
    }
    if p :| Top(patterns, p, matches) && Proposed(patterns, p, words) {
      assert p in candidates;
    }
  }

  /** A keyword-free pattern below priority 80 is never chosen, whatever the text. */
  lemma LowFallbackIsDead(patterns: seq<Pattern>, candidates: seq<Pattern>, words: seq<string>,
                          matches: Pattern -> bool, p: Pattern)
    requires IsCandidateList(candidates, patterns, words) && p.keywords == [] && p.priority < FALLBACK_PRIORITY
    ensures FirstMatch(candidates, matches) != Some(p)
  {
    assert !Hit(p, words);
    assert p !in candidates;
    FirstMatchIsTop(candidates, matches);
  }

  /** Which patterns are proposed, from the words themselves: one of the first ten words is a keyword, or
      there are no keywords, the priority is at least 80 and at most four patterns are hit like that. */
  lemma ProposedIff(patterns: seq<Pattern>, candidates: seq<Pattern>, words: seq<string>, p: Pattern)
    requires IsCandidateList(candidates, patterns, words)
    ensures p in candidates <==>
              p in patterns &&
              ((exists i :: 0 <= i < 10 && i < |words| && words[i] in p.keywords) ||
               (p.keywords == [] && p.priority >= 80 &&
                |Filter(patterns, (q: Pattern) =>
                          exists i :: 0 <= i < 10 && i < |words| && words[i] in q.keywords)| <= 4))
  {
    var hit := (q: Pattern) => exists i :: 0 <= i < 10 && i < |words| && words[i] in q.keywords;
    forall q ensures Hit(q, words) <==> hit(q) {
      if i :| 0 <= i < 10 && i < |words| && words[i] in q.keywords {
        assert FirstWords(words)[i] in q.keywords;
      }
      if i :| 0 <= i < |FirstWords(words)| && FirstWords(words)[i] in q.keywords {
        assert words[i] in q.keywords;
      }
    }
    FilterSame(patterns, (q: Pattern) => Hit(q, words), hit);
  }

  lemma {:induction false} FilterSame(s: seq<Pattern>, f: Pattern -> bool, g: Pattern -> bool)
    requires forall p :: f(p) <==> g(p)
    ensures Filter(s, f) == Filter(s, g)
  {
    if s != [] {
      FilterSame(s[..|s| - 1], f, g);
    }
  }

  predicate SameAt(v: seq<string>, w: seq<string>, i: nat) {
    if i < |v| then i < |w| && v[i] == w[i] else i >= |w|
  }

  /** No later word matters: texts with the same first ten words have the same candidates, in the same
      order, and so the same choice. */
  lemma OnlyTenWordsMatter(patterns: seq<Pattern>, v: seq<string>, w: seq<string>)
    requires forall i :: 0 <= i < 10 ==> SameAt(v, w, i)
    ensures Candidates(patterns, v) == Candidates(patterns, w)
  {
    var a, b := FirstWords(v), FirstWords(w);
    assert |v| < 10 ==> SameAt(v, w, |v|);
    assert |w| < 10 ==> SameAt(v, w, |w|);
    assert |a| == |b|;
    forall i | 0 <= i < |a| ensures a[i] == b[i] {
      assert SameAt(v, w, i);
    }
    assert a == b;
  }

  /** They can disagree: with one keyword-free pattern below priority 80, which matches, the index
      chooses nothing. */
  lemma IndexCanMiss(p: Pattern, candidates: seq<Pattern>, words: seq<string>, matches: Pattern -> bool)
    requires p.keywords == [] && p.priority < FALLBACK_PRIORITY && matches(p)
    requires IsCandidateList(candidates, [p], words)
    ensures FirstMatch([p], matches) == Some(p) && FirstMatch(candidates, matches).None?
    ensures !Agree(FirstMatch(candidates, matches), FirstMatch([p], matches))
  {
    LowFallbackIsDead([p], candidates, words, matches, p);
    FirstMatchIsTop(candidates, matches);
  }

  /** The loop of parseError over the candidates. */
  method FirstMatching(candidates: seq<Pattern>, matches: Pattern -> bool) returns (chosen: Option<Pattern>)
    ensures chosen == FirstMatch(candidates, matches)
  {
    var i := 0;
    while i < |candidates|
      invariant 0 <= i <= |candidates|
      invariant FirstMatch(candidates, matches) == FirstMatch(candidates[i..], matches)
    {
      FirstMatchAt(candidates, matches, i);
      if matches(candidates[i]) {
        return Some(candidates[i]);
      }
      i := i + 1;
    }
    return None;
  }

  // ---- The class ----

  class ErrorDetector {
    const patterns: seq<Pattern>
    var fastPatterns: map<string, seq<Pattern>>
    var severityPatterns: map<string, seq<Pattern>>
    var fallbackPatterns: seq<Pattern>

    ghost predicate Valid()
      reads this
    {
      && Descending(patterns) && NoDuplicates(patterns)
      && IsIndex(fastPatterns, patterns) && IsSeverityIndex(severityPatterns, patterns)
      && fallbackPatterns == KeywordFree(patterns)
    }

    /** Sorts the patterns and indexes them. */
    constructor (general: seq<Pattern>)
      requires NoDuplicates(general) && forall p :: p in general ==> NoDuplicates(p.keywords)
      ensures Valid() && multiset(patterns) == multiset(general)
    {
      patterns := ByPriority(general);
      fastPatterns, severityPatterns, fallbackPatterns := map[], map[], [];
      new;
      ByPriorityDescends(general);
      DistinctOfMultiset(general, patterns);
      InitializeOptimizedPatterns();
    }

    /** Enters one pattern under each of its keywords. */
    method IndexByKeyword(pattern: Pattern, ghost before: seq<Pattern>)
      requires NoDuplicates(pattern.keywords) && IsIndex(fastPatterns, before)
      modifies `fastPatterns
      ensures IsIndex(fastPatterns, before + [pattern])
    {
      PartStart(fastPatterns, before, pattern);
      var j := 0;
      while j < |pattern.keywords|
        invariant 0 <= j <= |pattern.keywords| && PartIndex(fastPatterns, before, pattern, j)
      {
        PartStep(fastPatterns, before, pattern, j);
        fastPatterns := PushTo(fastPatterns, pattern.keywords[j], pattern);
        j := j + 1;
      }
      PartEnd(fastPatterns, before, pattern);
    }

    /** Enters the patterns one by one, highest priority first. */
    method InitializeOptimizedPatterns()
      requires Descending(patterns) && NoDuplicates(patterns)
      requires forall p :: p in patterns ==> NoDuplicates(p.keywords)
      requires fastPatterns == map[] && severityPatterns == map[] && fallbackPatterns == []
      modifies this
      ensures Valid()
    {
      var i := 0;
      while i < |patterns|
        invariant 0 <= i <= |patterns|
        invariant IsIndex(fastPatterns, patterns[..i]) && IsSeverityIndex(severityPatterns, patterns[..i])
        invariant fallbackPatterns == KeywordFree(patterns[..i])
      {
        var pattern := patterns[i];
        ghost var before, after := patterns[..i], patterns[..i + 1];
        Grow(patterns, i);
        assert after == before + [pattern];
        if |pattern.keywords| == 0 {
          fallbackPatterns := fallbackPatterns + [pattern];
          KeywordFreeStep(fastPatterns, before, pattern);
        } else {
          IndexByKeyword(pattern, before);
        }
        SeverityStep(severityPatterns, before, pattern);
        severityPatterns := PushTo(severityPatterns, pattern.severity, pattern);
        i := i + 1;
      }
      assert patterns[..i] == patterns;
    }

    /** The proposed patterns, each once, highest priority first. */
    method GetCandidatePatterns(words: seq<string>) returns (result: seq<Pattern>)
      requires Valid()
      ensures IsCandidateList(result, patterns, words) && result == Candidates(patterns, words)
    {
      var significantWords := FirstWords(words);
      var candidates: seq<Pattern> := [];
      var foundSpecific := false;
      var i := 0;
      while i < |significantWords|
        invariant 0 <= i <= |significantWords|
        invariant candidates == Collected(patterns, significantWords[..i])
        invariant !foundSpecific ==> candidates == []
      {
        var word := significantWords[i];
        CollectedSnoc(patterns, significantWords, i);
        assert Holds(fastPatterns, word, Bucket(patterns, word));
        if word in fastPatterns {
          candidates := AddAll(candidates, fastPatterns[word]);
          foundSpecific := true;
        }
        i := i + 1;
      }
      assert significantWords[..i] == significantWords;
      if !foundSpecific || |candidates| < ENOUGH_CANDIDATES {
        candidates := AddAll(candidates, Filter(fallbackPatterns, IsHigh));
      }
      result := ByPriority(candidates);
      CandidatesAreProposed(patterns, words);
    }

    /** parseError: the first proposed pattern that matches. */
    method ChoosePattern(words: seq<string>, matches: Pattern -> bool) returns (chosen: Option<Pattern>)
      requires Valid()
      ensures chosen == FirstMatch(Candidates(patterns, words), matches)
      ensures chosen.Some? ==> Proposed(patterns, chosen.value, words) && matches(chosen.value)
      ensures chosen.None? <==> forall p :: Proposed(patterns, p, words) ==> !matches(p)
      ensures var full := FirstMatch(patterns, matches);
              (chosen.Some? && full.Some? && chosen.value.priority == full.value.priority)
              <==> exists p :: Top(patterns, p, matches) && Proposed(patterns, p, words)
      ensures Agree(chosen, FirstMatch(patterns, matches))
              <==> (forall p :: p in patterns ==> !matches(p))
                   || exists p :: Top(patterns, p, matches) && Proposed(patterns, p, words)
    {
      var candidates := GetCandidatePatterns(words);
      FastChoiceIff(patterns, candidates, words, matches);
      FirstMatchIsTop(candidates, matches);
      chosen := FirstMatching(candidates, matches);
    }
  }
}
