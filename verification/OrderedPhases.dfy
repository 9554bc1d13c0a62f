/** The phase bitmask of an ordered (barrier) sequence: kernel/linux/block/ll_rw_blk.c,
    blk_ordered_cur_seq and blk_ordered_complete_seq. */
module OrderedPhases {

  // include/linux/blkdev.h: QUEUE_ORDSEQ_*
  const STARTED := 0x01
  const DRAIN := 0x02
  const PREFLUSH := 0x04
  const BAR := 0x08
  const POSTFLUSH := 0x10
  const DONE := 0x20

  const PHASES: set<int> := {DRAIN, PREFLUSH, BAR, POSTFLUSH}

  /** The word q->ordseq, one field per QUEUE_ORDSEQ_* bit. */
  datatype Mask = Mask(started: bool, drain: bool, preflush: bool, bar: bool, postflush: bool, done: bool)

  /** ordseq == 0 */
  const IDLE := Mask(false, false, false, false, false, false)

  predicate Has(m: Mask, bit: int) {
    if bit == STARTED then m.started
    else if bit == DRAIN then m.drain
    else if bit == PREFLUSH then m.preflush
    else if bit == BAR then m.bar
    else if bit == POSTFLUSH then m.postflush
    else bit == DONE && m.done
  }

  /** ordseq |= bit */
  function Set(m: Mask, bit: int): Mask {
    if bit == STARTED then m.(started := true)
    else if bit == DRAIN then m.(drain := true)
    else if bit == PREFLUSH then m.(preflush := true)
    else if bit == BAR then m.(bar := true)
    else if bit == POSTFLUSH then m.(postflush := true)
    else if bit == DONE then m.(done := true)
    else m
  }

  /** 1 << ffz(ordseq), or 0 for an idle queue. */
  function CurSeq(m: Mask): int {
    if m == IDLE then 0
    else if !m.started then STARTED
    else if !m.drain then DRAIN
    else if !m.preflush then PREFLUSH
    else if !m.bar then BAR
    else if !m.postflush then POSTFLUSH
    else if !m.done then DONE
    else 2 * DONE
  }

  /** A sequence in progress: the mask, the error so far, and every value the
      original barrier request has been ended with. */
  datatype Sequence = Sequence(ordseq: Mask, orderr: int, ended: seq<int>)

  /** start_ordered: which phases are marked complete before any of them ran. */
  function StartMask(preflush: bool, postflush: bool, drained: bool): Mask {
    Mask(true, drained, !preflush, false, !postflush, false)
  }

  /** A mask between start_ordered and the end of the sequence. */
  predicate Running(m: Mask) {
    m.started && !m.done && !(m.drain && m.preflush && m.bar && m.postflush)
  }

  /** blk_ordered_complete_seq; the precondition is its BUG_ON. */
  function Complete(s: Sequence, phase: int, error: int): Sequence
    requires !Has(s.ordseq, phase)
  {
    var err := if error != 0 && s.orderr == 0 then error else s.orderr;
    var mask := Set(s.ordseq, phase);
    if CurSeq(mask) != DONE then Sequence(mask, err, s.ended)
    else Sequence(IDLE, err, s.ended + [if err != 0 then err else 1])
  }

  /** The current phase is the lowest one not yet complete: its own bit is clear,
      every lower bit is set. */
  lemma CurSeqIsLowestIncomplete(ordseq: Mask)
    requires Running(ordseq)
    ensures CurSeq(ordseq) in PHASES
    ensures !Has(ordseq, CurSeq(ordseq))
    ensures forall p | p in PHASES && !Has(ordseq, p) :: CurSeq(ordseq) <= p
  {
    if !Has(ordseq, DRAIN) {
    } else if !Has(ordseq, PREFLUSH) {
    } else if !Has(ordseq, BAR) {
    } else {
      assert !Has(ordseq, POSTFLUSH);
    }
  }

  /** start_ordered never leaves a finished mask behind: the barrier phase is outstanding. */
  lemma StartMaskRuns(preflush: bool, postflush: bool, drained: bool)
    ensures var m := StartMask(preflush, postflush, drained);
            && Running(m) && !Has(m, BAR)
            && (Has(m, DRAIN) <==> drained)
            && (Has(m, PREFLUSH) <==> !preflush)
            && (Has(m, POSTFLUSH) <==> !postflush)
  {
  }

  // Runs of completions, in any order.

  datatype Completion = Completion(phase: int, error: int)

  function Outstanding(ordseq: Mask): set<int> {
    set p | p in PHASES && !Has(ordseq, p)
  }

  function PhasesOf(cs: seq<Completion>): set<int> {
    set i | 0 <= i < |cs| :: cs[i].phase
  }

  /** No two completions report the same phase. */
  predicate Distinct(cs: seq<Completion>) {
    forall i, j | 0 <= i < j < |cs| :: cs[i].phase != cs[j].phase
  }

  /** Every completion meets the BUG_ON of blk_ordered_complete_seq. */
  predicate Legal(s: Sequence, cs: seq<Completion>)
    decreases |cs|, 0
  {
    cs == [] ||
    (Legal(s, cs[..|cs| - 1]) && !Has(RunPhases(s, cs[..|cs| - 1]).ordseq, cs[|cs| - 1].phase))
  }

  function RunPhases(s: Sequence, cs: seq<Completion>): Sequence
    requires Legal(s, cs)
    decreases |cs|, 1
  {
    if cs == [] then s
    else Complete(RunPhases(s, cs[..|cs| - 1]), cs[|cs| - 1].phase, cs[|cs| - 1].error)
  }

  /** The first error reported by a run, 0 if none. */
  function FirstError(cs: seq<Completion>): int {
    if cs == [] then 0
    else if cs[0].error != 0 then cs[0].error
    else FirstError(cs[1..])
  }

  lemma {:induction false} FirstErrorSnoc(cs: seq<Completion>)
    requires cs != []
    ensures FirstError(cs) ==
            var before := FirstError(cs[..|cs| - 1]);
            if before != 0 then before else cs[|cs| - 1].error
  {
    if |cs| > 1 {
      FirstErrorSnoc(cs[1..]);
      assert cs[1..][..|cs| - 2] == cs[..|cs| - 1][1..];
    }
  }

  /** What setting one outstanding phase bit does to a running mask. */
  lemma SetPhase(ordseq: Mask, phase: int)
    requires Running(ordseq) && phase in PHASES && !Has(ordseq, phase)
    ensures Outstanding(Set(ordseq, phase)) == Outstanding(ordseq) - {phase}
    ensures CurSeq(Set(ordseq, phase)) == DONE <==> Outstanding(ordseq) == {phase}
    ensures CurSeq(Set(ordseq, phase)) != DONE ==> Running(Set(ordseq, phase))
  {
    var m := Set(ordseq, phase);
    assert forall p | p in PHASES :: Has(m, p) <==> Has(ordseq, p) || p == phase;
    if CurSeq(m) == DONE {
      assert Outstanding(m) == {};
      assert phase in Outstanding(ordseq);
    } else {
      var q := CurSeq(m);
      CurSeqIsLowestIncomplete(m);
      assert q in Outstanding(ordseq) && q != phase;
    }
  }

  /** Whichever order the outstanding phases complete in: the BUG_ON is never hit; the
      original request is not ended before the last of them, and is ended exactly once by
      the last, with the first error seen (or 1); until then the mask is exactly the
      phases completed so far. */
  lemma {:induction false} PhasesCompleteInAnyOrder(m0: Mask, cs: seq<Completion>)
    requires Running(m0)
    requires Distinct(cs) && PhasesOf(cs) <= Outstanding(m0)
    ensures Legal(Sequence(m0, 0, []), cs)
    ensures var s := RunPhases(Sequence(m0, 0, []), cs);
            var rest := Outstanding(m0) - PhasesOf(cs);
            && s.orderr == FirstError(cs)
            && (rest != {} ==> s.ended == [] && Running(s.ordseq) && Outstanding(s.ordseq) == rest)
            && (rest == {} ==> s.ordseq == IDLE &&
                               s.ended == [if FirstError(cs) != 0 then FirstError(cs) else 1])
  {
    if cs == [] {
      CurSeqIsLowestIncomplete(m0);
      assert CurSeq(m0) in Outstanding(m0);
      assert PhasesOf(cs) == {};
    } else {
      var n := |cs| - 1;
      var front, last := cs[..n], cs[n];
      assert PhasesOf(cs) == PhasesOf(front) + {last.phase};
      PhasesCompleteInAnyOrder(m0, front);
      FirstErrorSnoc(cs);
      assert last.phase !in PhasesOf(front);
      var rest := Outstanding(m0) - PhasesOf(front);
      assert last.phase in rest;
      var s := RunPhases(Sequence(m0, 0, []), front);
      assert last.phase in Outstanding(s.ordseq);
      SetPhase(s.ordseq, last.phase);
      assert Outstanding(m0) - PhasesOf(cs) == rest - {last.phase};
    }
  }
}
