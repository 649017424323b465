/**
 The conversation clean-up: keep the first message of every key, sort by the timestamp in the
 conversation id, and drop internal memos when more than 25 messages are left.  A message's
 content is its text after serialisation; reading an integer is a given function.
 */
module Migration {
  import opened Options
  import opened Sequences
  import opened StableSorting
  import opened Text

  /** A missing or null conversation id is "". */
  datatype Message = Message(conversationId: string, role: string, content: string)

  const MIN_MESSAGES_FOR_CLEANUP: nat := 25
  const KEY_CONTENT: nat := 100

  type IntReader = string -> Option<int>

  predicate StartsWith(s: string, prefix: string) {
    prefix <= s
  }

  /** extract_timestamp_from_id: the second piece of a `conv-` id, 0 when it is no integer. */
  function Timestamp(id: string, read: IntReader): int {
    if StartsWith(id, "conv-") then
      var parts := Split(id, '-');
      if |parts| >= 2 && read(parts[1]).Some? then read(parts[1]).value else 0
    else 0
  }

  /** The deduplication key; the fallback ends in the timestamp of the empty id, which is 0. */
  function Key(m: Message): string {
    if m.conversationId != "" then m.conversationId
    else m.role + "_" + (if |m.content| <= KEY_CONTENT then m.content else m.content[..KEY_CONTENT]) + "_0"
  }

  predicate OccursAt(s: string, t: string, i: nat) {
    i + |t| <= |s| && s[i..i + |t|] == t
  }

  predicate Contains(s: string, t: string) {
    exists i :: 0 <= i <= |s| && OccursAt(s, t, i)
  }

  predicate IsMemo(m: Message) {
    Contains(m.content, "**<Internal Memo>**") || Contains(m.content, "Project Updates:")
  }

  predicate IsReal(m: Message) {
    !IsMemo(m)
  }

  /** An id of the form conv-number-rest has that number as its timestamp; an id without the prefix, or whose
      second piece is no integer, has 0. */
  lemma TimestampIs(number: string, rest: string, id: string, read: IntReader)
    requires '-' !in number
    ensures Timestamp("conv-" + number + "-" + rest, read) == if read(number).Some? then read(number).value else 0
    ensures Timestamp("conv-" + number, read) == if read(number).Some? then read(number).value else 0
    ensures (|id| < 5 || id[..5] != "conv-") ==> Timestamp(id, read) == 0
  {
    var whole, short := "conv-" + number + "-" + rest, "conv-" + number;
    assert whole == "conv" + ['-'] + (number + ['-'] + rest) && short == "conv" + ['-'] + number;
    SplitFirst("conv", '-', number + ['-'] + rest);
    SplitFirst(number, '-', rest);
    SplitFirst("conv", '-', number);
    SplitNone(number, '-');
    assert whole[..5] == "conv-" && short[..5] == "conv-";
  }

  /** Messages with ids are duplicates exactly when their ids are equal; of messages without ids only the
      role and the first hundred characters count. */
  lemma KeyIs(m: Message, n: Message)
    ensures m.conversationId != "" && n.conversationId != "" ==>
              (Key(m) == Key(n) <==> m.conversationId == n.conversationId)
    ensures m.conversationId == "" && n.conversationId == "" && m.role == n.role ==>
              (Key(m) == Key(n) <==>
               (if |m.content| <= 100 then m.content else m.content[..100])
               == if |n.content| <= 100 then n.content else n.content[..100])
  {
    if m.conversationId == "" && n.conversationId == "" && m.role == n.role && Key(m) == Key(n) {
      var a := if |m.content| <= 100 then m.content else m.content[..100];
      var b := if |n.content| <= 100 then n.content else n.content[..100];
      var h := m.role + "_";
      assert Key(m) == h + a + "_0" && Key(n) == h + b + "_0";
      assert (h + a + "_0")[|h|..|h| + |a|] == a && (h + b + "_0")[|h|..|h| + |b|] == b;
    }
  }

  /** A memo is a text with one of the two marks in it. */
  lemma MemoIff(m: Message)
    ensures IsMemo(m) <==>
              || (exists a: string, b: string :: m.content == a + "**<Internal Memo>**" + b)
              || (exists a: string, b: string :: m.content == a + "Project Updates:" + b)
  {
    ContainsIff(m.content, "**<Internal Memo>**");
    ContainsIff(m.content, "Project Updates:");
  }

  lemma ContainsIff(s: string, t: string)
    ensures Contains(s, t) <==> exists a: string, b: string :: s == a + t + b
  {
    if i :| 0 <= i <= |s| && OccursAt(s, t, i) {
      assert s == s[..i] + t + s[i + |t|..];
    }
    if a: string, b: string :| s == a + t + b {
      assert OccursAt(s, t, |a|);
    }
  }

  // ---- The specification ----

  predicate HasKey(s: seq<Message>, k: string) {
    exists i :: 0 <= i < |s| && Key(s[i]) == k
  }

  /** The first message of every key, in order. */
  function FirstOccurrences(s: seq<Message>): seq<Message> {
    if s == [] then []
    else
      var u, m := FirstOccurrences(s[..|s| - 1]), s[|s| - 1];
      if HasKey(s[..|s| - 1], Key(m)) then u else u + [m]
  }

  function TimeOf(read: IntReader): Message -> int {
    (m: Message) => Timestamp(m.conversationId, read)
  }

  function ByTime(s: seq<Message>, read: IntReader): seq<Message> {
    StableSort(s, TimeOf(read))
  }

  function Unique(s: seq<Message>, read: IntReader): seq<Message> {
    ByTime(FirstOccurrences(s), read)
  }

  /** The final messages of a migration. */
  function Migrated(s: seq<Message>, read: IntReader): seq<Message> {
    var u := Unique(s, read);
    if |u| > MIN_MESSAGES_FOR_CLEANUP then Filter(u, IsReal) else u
  }

  ghost predicate DistinctKeys(s: seq<Message>) {
    forall i, j :: 0 <= i < j < |s| ==> Key(s[i]) != Key(s[j])
  }

  /** `m` is the first message with its key. */
  ghost predicate IsFirst(s: seq<Message>, m: Message) {
    exists i :: 0 <= i < |s| && s[i] == m && forall j :: 0 <= j < i ==> Key(s[j]) != Key(m)
  }

  lemma {:induction false} FirstOccurrencesAre(s: seq<Message>)
    ensures DistinctKeys(FirstOccurrences(s)) && |FirstOccurrences(s)| <= |s|
    ensures forall m :: m in FirstOccurrences(s) <==> IsFirst(s, m)
    ensures forall k :: HasKey(FirstOccurrences(s), k) <==> HasKey(s, k)
  {
    if s != [] {
      var t, l := s[..|s| - 1], s[|s| - 1];
      FirstOccurrencesAre(t);
      var u := FirstOccurrences(s);
      forall m ensures m in u <==> IsFirst(s, m) {
        FirstSnoc(t, l, m);
        assert s == t + [l];
      }
      forall k ensures HasKey(u, k) <==> HasKey(s, k) {
        KeySnoc(FirstOccurrences(t), l, k);
        KeySnoc(t, l, k);
        assert s == t + [l];
      }
    }
  }

  lemma KeySnoc(t: seq<Message>, l: Message, k: string)
    ensures HasKey(t + [l], k) <==> HasKey(t, k) || Key(l) == k
  {
    if i :| 0 <= i < |t| && Key(t[i]) == k {
      assert (t + [l])[i] == t[i];
    }
    assert (t + [l])[|t|] == l;
  }

  lemma FirstSnoc(t: seq<Message>, l: Message, m: Message)
    ensures IsFirst(t + [l], m) <==> IsFirst(t, m) || (m == l && !HasKey(t, Key(l)))
  {
    var s := t + [l];
    if IsFirst(t, m) {
      var i :| 0 <= i < |t| && t[i] == m && forall j :: 0 <= j < i ==> Key(t[j]) != Key(m);
      assert s[i] == m;
    }
    if m == l && !HasKey(t, Key(l)) {
      assert s[|t|] == m;
    }
    if i :| 0 <= i < |s| && s[i] == m && forall j :: 0 <= j < i ==> Key(s[j]) != Key(m) {
      if i < |t| {
        assert t[i] == m && forall j :: 0 <= j < i ==> t[j] == s[j];
      } else {
        assert forall j :: 0 <= j < |t| ==> t[j] == s[j];
      }
    }
  }

  lemma {:induction false} DistinctUnchanged(s: seq<Message>)
    requires DistinctKeys(s)
    ensures FirstOccurrences(s) == s
  {
    if s != [] {
      DistinctUnchanged(s[..|s| - 1]);
    }
  }

  lemma ByTimeKeeps(s: seq<Message>, read: IntReader)
    requires DistinctKeys(s)
    ensures DistinctKeys(ByTime(s, read)) && |ByTime(s, read)| == |s|
    ensures forall m :: m in ByTime(s, read) <==> m in s
    ensures Sorted(ByTime(s, read), TimeOf(read))
  {
    var key := TimeOf(read);
    SortSorts(s, key);
    SortMembers(s, key);
    KeysOfPermutation(s, ByTime(s, read));
  }

  lemma KeysOfPermutation(s: seq<Message>, t: seq<Message>)
    requires DistinctKeys(s) && multiset(s) == multiset(t)
    ensures DistinctKeys(t)
  {
    forall i, j | 0 <= i < j < |t| ensures Key(t[i]) != Key(t[j]) {
      assert t[i] in multiset(s) && t[j] in multiset(s);
      if t[i] == t[j] {
        assert t == t[..i] + [t[i]] + t[i + 1..j] + [t[j]] + t[j + 1..];
        assert multiset(t)[t[i]] >= 2;
        AtMostOnce(s, t[i]);
      }
    }
  }

  lemma {:induction false} AtMostOnce(s: seq<Message>, m: Message)
    requires DistinctKeys(s)
    ensures multiset(s)[m] <= 1
  {
    if s != [] {
      var t, l := s[..|s| - 1], s[|s| - 1];
      AtMostOnce(t, m);
      assert s == t + [l];
      assert l !in t;
    }
  }

  lemma FilterKeeps(s: seq<Message>, p: Message -> bool, key: Message -> int)
    requires DistinctKeys(s) && Sorted(s, key)
    ensures DistinctKeys(Filter(s, p)) && Sorted(Filter(s, p), key)
  {
    var at := FilterPlaces(s, p);
  }

  /** Migrating a migrated list changes nothing and removes nothing. */
  lemma MigrationIsIdempotent(s: seq<Message>, read: IntReader)
    ensures var f := Migrated(s, read);
            Unique(f, read) == f && Migrated(f, read) == f
  {
    var key := TimeOf(read);
    var u, f := Unique(s, read), Migrated(s, read);
    FirstOccurrencesAre(s);
    ByTimeKeeps(FirstOccurrences(s), read);
    FilterKeeps(u, IsReal, key);
    FilterMember(u, IsReal);
    DistinctUnchanged(f);
    SortOfSorted(f, key);
    if |f| > MIN_MESSAGES_FOR_CLEANUP {
      FilterAll(f, IsReal);
    }
  }

  /** Exactly these messages survive: the first of each key, unless it is a memo and more than 25
      keys are left; in particular every key whose first message is no memo survives. */
  lemma SurvivorsAre(s: seq<Message>, read: IntReader, m: Message)
    ensures m in Migrated(s, read) <==>
              IsFirst(s, m) && (IsReal(m) || |FirstOccurrences(s)| <= 25)
  {
    var u := Unique(s, read);
    FirstOccurrencesAre(s);
    ByTimeKeeps(FirstOccurrences(s), read);
    FilterMember(u, IsReal);
  }

  /** In time order, and with the order of the first occurrences inside every timestamp. */
  ghost predicate StablyOrdered(t: seq<Message>, s: seq<Message>, key: Message -> int) {
    Sorted(t, key) && forall v :: WithKey(t, key, v) == WithKey(FirstOccurrences(s), key, v)
  }

  /** The messages kept by the deduplication are put in timestamp order, and those with equal
      timestamps stay in the order of their first occurrences; this leaves one possible result. */
  lemma ResultIsDetermined(s: seq<Message>, read: IntReader, t: seq<Message>)
    ensures t == Unique(s, read) <==> StablyOrdered(t, s, TimeOf(read))
  {
    var key, u := TimeOf(read), Unique(s, read);
    SortSorts(FirstOccurrences(s), key);
    forall v ensures WithKey(u, key, v) == WithKey(FirstOccurrences(s), key, v) {
      SortIsStable(FirstOccurrences(s), key, v);
    }
    if StablyOrdered(t, s, key) {
      StableIsUnique(t, u, key);
    }
  }

  // ---- The algorithm ----

  datatype MigrationResult = MigrationResult(
    originalCount: nat, deduplicatedCount: nat, finalCount: nat,
    duplicatesRemoved: int, oldMessagesRemoved: nat, finalMessages: seq<Message>)

  lemma SeenSnoc(s: seq<Message>, i: nat)
    requires i < |s|
    ensures FirstOccurrences(s[..i + 1]) ==
              if HasKey(s[..i], Key(s[i])) then FirstOccurrences(s[..i]) else FirstOccurrences(s[..i]) + [s[i]]
    ensures forall k :: HasKey(s[..i + 1], k) <==> HasKey(s[..i], k) || Key(s[i]) == k
  {
    assert s[..i + 1][..i] == s[..i] && s[..i + 1] == s[..i] + [s[i]];
    forall k ensures HasKey(s[..i + 1], k) <==> HasKey(s[..i], k) || Key(s[i]) == k {
      KeySnoc(s[..i], s[i], k);
    }
  }

  lemma FilterSnoc(s: seq<Message>, i: nat, p: Message -> bool)
    requires i < |s|
    ensures Filter(s[..i + 1], p) == Filter(s[..i], p) + if p(s[i]) then [s[i]] else []
  {
    assert s[..i + 1][..i] == s[..i];
  }

  /** The partition loop. */
  method SeparateMemos(messages: seq<Message>) returns (realConversations: seq<Message>, internalMemos: seq<Message>)
    ensures realConversations == Filter(messages, IsReal) && internalMemos == Filter(messages, IsMemo)
    ensures |realConversations| + |internalMemos| == |messages|
  {
    realConversations, internalMemos := [], [];
    var j := 0;
    while j < |messages|
      invariant 0 <= j <= |messages|
      invariant realConversations == Filter(messages[..j], IsReal)
      invariant internalMemos == Filter(messages[..j], IsMemo)
    {
      FilterSnoc(messages, j, IsReal);
      FilterSnoc(messages, j, IsMemo);
      if IsMemo(messages[j]) {
        internalMemos := internalMemos + [messages[j]];
      } else {
        realConversations := realConversations + [messages[j]];
      }
      j := j + 1;
    }
    assert messages[..j] == messages;
    FilterPartition(messages, IsReal, IsMemo);
  }

  /** The deduplication loop over a set of the keys seen so far. */
  method Deduplicate(messages: seq<Message>) returns (uniqueMessages: seq<Message>)
    ensures uniqueMessages == FirstOccurrences(messages)
  {
    var seen: set<string> := {};
    uniqueMessages := [];
    var i := 0;
    while i < |messages|
      invariant 0 <= i <= |messages|
      invariant forall k :: k in seen <==> HasKey(messages[..i], k)
      invariant uniqueMessages == FirstOccurrences(messages[..i])
    {
      var key := Key(messages[i]);
      SeenSnoc(messages, i);
      if key !in seen {
        seen := seen + {key};
        uniqueMessages := uniqueMessages + [messages[i]];
      }
      i := i + 1;
    }
    assert messages[..i] == messages;
  }

  method ApplyMigrationAlgorithm(messages: seq<Message>, read: IntReader) returns (r: MigrationResult)
    ensures r.finalMessages == Migrated(messages, read)
    ensures r.originalCount == |messages| && r.finalCount == |r.finalMessages|
    ensures r.deduplicatedCount == |FirstOccurrences(messages)|
    ensures r.originalCount == r.finalCount + r.duplicatesRemoved + r.oldMessagesRemoved && r.duplicatesRemoved >= 0
    ensures r.oldMessagesRemoved ==
              if r.deduplicatedCount > MIN_MESSAGES_FOR_CLEANUP then Count(Unique(messages, read), IsMemo) else 0
  {
    var uniqueMessages := Deduplicate(messages);
    FirstOccurrencesAre(messages);
    ByTimeKeeps(uniqueMessages, read);
    uniqueMessages := ByTime(uniqueMessages, read);

    var finalMessages := uniqueMessages;
    var internalMemosRemoved := 0;
    if |uniqueMessages| > MIN_MESSAGES_FOR_CLEANUP {
      var realConversations, internalMemos := SeparateMemos(uniqueMessages);
      finalMessages := realConversations;
      internalMemosRemoved := |internalMemos|;
    }
    r := MigrationResult(|messages|, |uniqueMessages|, |finalMessages|, |messages| - |uniqueMessages|,
                         internalMemosRemoved, finalMessages);
  }
}
