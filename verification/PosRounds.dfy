/**
 By how much the stored head goes up. A round is fixed when it begins: if more than a hundred blocks are missing it
 stores its head once, a hundred blocks further; otherwise it stores the head after every block, up to the best one.
 */
module PosRounds {
  import opened Common
  import opened PosImport

  function WindowOf(p: Phase): Window
    requires GenesisIsDone(p)
  {
    p.w
  }

  predicate IsSaving(p: Phase) {
    p.SavingTable? || p.SavingAccounts? || p.SavingHead?
  }

  /** The round of `s` began at `first`, with this head and this best block. */
  ghost predicate RoundOf(first: State, s: State) {
    GenesisIsDone(s.phase) ==>
      var h, w := HeadNum(first), WindowOf(s.phase);
      && w.fastforward == (first.best > h + 100)
      && w.end == (if first.best > h + 100 then h + 100 else first.best)
      && (if w.fastforward then HeadNum(s) == h && (if IsSaving(s.phase) then w.next == w.end + 1 else w.next <= w.end)
          else w.next == HeadNum(s) + (if IsSaving(s.phase) then 2 else 1) <= w.end + 1)
      && (s.phase.Importing? || s.phase.Touching? ==> w.next <= w.end)
  }

  lemma StepKeepsRound(c: Chain, first: State, s: State, t: State, step: Step)
    requires ValidChain(c) && NextStep(c, s, t, step)
    requires GenesisIsDone(s.phase) && RoundOf(first, s)
    ensures RoundOf(first, t)
    ensures HeadNum(t) != HeadNum(s) ==>
              if first.best > HeadNum(first) + 100
              then HeadNum(s) == HeadNum(first) && HeadNum(t) == HeadNum(first) + 100
              else HeadNum(t) == HeadNum(s) + 1 <= first.best
  {
  }

  lemma RoundBegins(c: Chain, s: State, t: State, step: Step)
    requires ValidChain(c) && NextStep(c, s, t, step) && !GenesisIsDone(s.phase)
    ensures RoundOf(s, t) && HeadNum(t) == HeadNum(s)
  {
  }

  /** The state in which the round of `run[i]` began. */
  lemma {:induction false} RoundBeganAt(c: Chain, run: seq<State>, i: nat) returns (j: nat)
    requires ValidChain(c) && IsRun(c, run) && Starts(c, run[0]) && i < |run| && GenesisIsDone(run[i].phase)
    ensures j < i && !GenesisIsDone(run[j].phase) && (forall k :: j < k <= i ==> GenesisIsDone(run[k].phase))
    ensures RoundOf(run[j], run[i])
  {
    var step :| NextStep(c, run[i - 1], run[i], step);
    if GenesisIsDone(run[i - 1].phase) {
      j := RoundBeganAt(c, run, i - 1);
      StepKeepsRound(c, run[j], run[i - 1], run[i], step);
    } else {
      j := i - 1;
      RoundBegins(c, run[j], run[i], step);
    }
  }

  /** Whenever the head goes up: the round it belongs to began at some `j` and has gone on since. With more than a
      hundred blocks missing there the head has stood still since and now goes up by a hundred; otherwise it goes up by
      one, to no more than the best block there was. */
  lemma HeadGoesUpBy(c: Chain, run: seq<State>, i: nat) returns (j: nat)
    requires ValidChain(c) && IsRun(c, run) && Starts(c, run[0]) && 0 < i < |run|
    requires HeadNum(run[i]) != HeadNum(run[i - 1])
    ensures j < i && !GenesisIsDone(run[j].phase) && (forall k :: j < k < i ==> GenesisIsDone(run[k].phase))
    ensures var h := HeadNum(run[j]);
            if run[j].best > h + 100 then HeadNum(run[i - 1]) == h && HeadNum(run[i]) == h + 100
            else HeadNum(run[i]) == HeadNum(run[i - 1]) + 1 <= run[j].best
  {
    var step :| NextStep(c, run[i - 1], run[i], step);
    if !GenesisIsDone(run[i - 1].phase) {
      RoundBegins(c, run[i - 1], run[i], step);
    }
    j := RoundBeganAt(c, run, i - 1);
    StepKeepsRound(c, run[j], run[i - 1], run[i], step);
  }
}
