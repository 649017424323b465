/**
 Appends to the log file are not awaited, so between the read and the write-back of a trim other
 appends, and other trims, can come in.  Lines are told apart by their numbers.
 */
module OverlappingTrims {

  /** The file as line numbers, the trims that have read it, and the next number. */
  datatype Racing = Racing(file: seq<nat>, trims: seq<TrimRead>, next: nat)

  /** What a trim will write back, and the next number when it read the file. */
  datatype TrimRead = TrimRead(kept: seq<nat>, upTo: nat)

  datatype RaceEvent = Appended | Read(drop: nat) | WrittenBack(k: nat)

  function RaceStep(s: Racing, e: RaceEvent): Racing {
    match e
    case Appended => s.(file := s.file + [s.next], next := s.next + 1)
    case Read(drop) =>
      if drop <= |s.file| then s.(trims := s.trims + [TrimRead(s.file[drop..], s.next)]) else s
    case WrittenBack(k) =>
      if k < |s.trims| then s.(file := s.trims[k].kept, trims := s.trims[..k] + s.trims[k + 1..]) else s
  }

  function Race(es: seq<RaceEvent>): Racing {
    if es == [] then Racing([], [], 0) else RaceStep(Race(es[..|es| - 1]), es[|es| - 1])
  }

  /** The numbers just below `next`, without a gap. */
  ghost predicate Gapless(lines: seq<nat>, next: nat) {
    forall i :: 0 <= i < |lines| ==> lines[i] == next - |lines| + i
  }

  ghost predicate InOrder(lines: seq<nat>, next: nat) {
    && (forall i :: 0 <= i < |lines| ==> lines[i] < next)
    && (forall i, j :: 0 <= i < j < |lines| ==> lines[i] < lines[j])
  }

  ghost predicate AllInOrder(s: Racing) {
    && InOrder(s.file, s.next)
    && forall k :: 0 <= k < |s.trims| ==> s.trims[k].upTo <= s.next && InOrder(s.trims[k].kept, s.next)
  }

  /** Whatever races, no line appears twice or out of order. */
  lemma {:induction false} RaceKeepsOrder(es: seq<RaceEvent>)
    ensures AllInOrder(Race(es))
  {
    if es != [] {
      RaceKeepsOrder(es[..|es| - 1]);
    }
  }

  /** A trim writes back lines although an append has come in since it read the file. */
  predicate LateWrite(s: Racing, e: RaceEvent) {
    e.WrittenBack? && e.k < |s.trims| && s.trims[e.k].kept != [] && s.trims[e.k].upTo != s.next
  }

  ghost predicate NeverLate(es: seq<RaceEvent>) {
    es == [] || (NeverLate(es[..|es| - 1]) && !LateWrite(Race(es[..|es| - 1]), es[|es| - 1]))
  }

  ghost predicate AlwaysGapless(es: seq<RaceEvent>) {
    Gapless(Race(es).file, Race(es).next) && (es == [] || AlwaysGapless(es[..|es| - 1]))
  }

  ghost predicate TrimsGapless(s: Racing) {
    forall k :: 0 <= k < |s.trims| ==> s.trims[k].upTo <= s.next && Gapless(s.trims[k].kept, s.trims[k].upTo)
  }

  lemma RaceStepIff(s: Racing, e: RaceEvent)
    requires Gapless(s.file, s.next) && TrimsGapless(s)
    ensures TrimsGapless(RaceStep(s, e))
    ensures Gapless(RaceStep(s, e).file, RaceStep(s, e).next) <==> !LateWrite(s, e)
  {
    var t := RaceStep(s, e);
    if e.WrittenBack? && e.k < |s.trims| && s.trims[e.k].kept != [] {
      assert t.file[0] == s.trims[e.k].upTo - |t.file|;
    }
  }

  lemma {:induction false} GaplessTrims(es: seq<RaceEvent>)
    requires AlwaysGapless(es)
    ensures TrimsGapless(Race(es))
  {
    if es != [] {
      GaplessTrims(es[..|es| - 1]);
      RaceStepIff(Race(es[..|es| - 1]), es[|es| - 1]);
    }
  }

  /** The file is at every moment an unbroken end of what was appended if and only if no trim writes back
      after an append that came in since it read the file; such an append is lost. */
  lemma {:induction false} GaplessIffNeverLate(es: seq<RaceEvent>)
    ensures AlwaysGapless(es) <==> NeverLate(es)
  {
    if es != [] {
      var before := es[..|es| - 1];
      GaplessIffNeverLate(before);
      if AlwaysGapless(before) {
        GaplessTrims(before);
        RaceStepIff(Race(before), es[|es| - 1]);
      }
    }
  }

  lemma RaceSnoc(es: seq<RaceEvent>, e: RaceEvent)
    ensures Race(es + [e]) == RaceStep(Race(es), e)
  {
    assert (es + [e])[..|es + [e]| - 1] == es;
  }

  /** One append between the read and the write-back of a trim that drops nothing, and its line is gone. */
  lemma AppendDuringTrimIsLost()
    ensures exists es: seq<RaceEvent> :: Race(es) == Racing([0], [], 2) && !NeverLate(es)
  {
    RaceSnoc([], Appended);
    RaceSnoc([] + [Appended], Read(0));
    RaceSnoc([] + [Appended] + [Read(0)], Appended);
    RaceSnoc([] + [Appended] + [Read(0)] + [Appended], WrittenBack(0));
    assert Race([] + [Appended] + [Read(0)]) == Racing([0], [TrimRead([0], 1)], 1);
    var es := [] + [Appended] + [Read(0)] + [Appended] + [WrittenBack(0)];
    assert Race(es) == Racing([0], [], 2);
    GaplessIffNeverLate(es);
    assert !Gapless([0], 2) by {
      assert [0][0] != 2 - 1;
    }
  }
}
