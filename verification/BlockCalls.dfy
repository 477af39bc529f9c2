/**
 Calls of getBlock come to an end. From any state of any run, with other calls pending, a call that is made now, and one
 that is pending, returns by its own steps; what it returns is then in the cache, and nothing else about the others
 changes.
 */
module BlockCalls {
  import opened Common
  import opened BlockCache

  ghost predicate AreSteps(c: Chain, states: seq<State>)
    requires ValidChain(c)
  {
    states != [] && forall k :: 0 < k < |states| ==> Steps(c, states[k - 1], states[k])
  }

  lemma TakesStep(c: Chain, s: State, t: State, step: Step)
    requires ValidChain(c) && s.len <= |c| && Next(c, s, t, step)
    ensures Steps(c, s, t)
  {
  }

  /** The node has an answer to everything. */
  lemma AnswerExists(c: Chain, len: nat, rev: Revision, expanded: bool) returns (answer: Option<Block>)
    requires ValidChain(c) && len <= |c|
    ensures IsAnswer(c, len, rev, expanded, answer)
  {
    var n: int := match rev
      case Best => len - 1
      case ByNumber(n) => if n < len then n else -1
      case ById(id) => if id.num < len && c[id.num].id == id then id.num else -1;
    if n == -1 {
      answer := None;
    } else if expanded {
      answer := Some(c[n]);
    } else {
      ProjectIsRegular(c[n]);
      answer := Some(Project(c[n]));
    }
  }

  /** What getBlock for a number or an id has returned is found by the same question. */
  lemma ReturnedIsFound(c: Chain, len: nat, cache: map<Key, Block>, rev: Revision, expanded: bool,
                        answer: Option<Block>)
    requires ValidChain(c) && len <= |c| && IsAnswer(c, len, rev, expanded, answer)
    ensures !rev.Best? && answer.Some? ==> Lookup(Store(cache, rev, expanded, answer), rev, expanded) == answer
  {
  }

  /** From `s` to `t` one call has been answered: it is logged, and with a block for a number or an id it is cached. */
  ghost predicate HasReturned(c: Chain, s: State, t: State, rev: Revision, expanded: bool, others: multiset<Call>)
    requires ValidChain(c)
  {
    && t.len == s.len && t.calls == others
    && |t.log| == |s.log| + 1 && t.log[..|s.log|] == s.log
    && var r := t.log[|s.log|];
       && r.rev == rev && r.expanded == expanded && r.len <= s.len <= |c|
       && (OnChain(c, rev) ==> IsAnswer(c, r.len, rev, expanded, r.result))
       && (!rev.Best? && r.result.Some? ==> Lookup(t.cache, rev, expanded) == r.result)
  }

  /** A call that waits for the node, or for its turn after the answer. */
  lemma PendingReturns(c: Chain, s: State, k: Call) returns (more: seq<State>)
    requires ValidChain(c) && Inv(c, s) && k in s.calls
    ensures AreSteps(c, more) && more[0] == s
    ensures HasReturned(c, s, more[|more| - 1], k.rev, k.expanded, s.calls - multiset{k})
    ensures k.answer.None? ==> more[|more| - 1].log[|s.log|].len == s.len
  {
    if k.answer.None? {
      var answer := AnswerExists(c, s.len, k.rev, k.expanded);
      var answered := k.(answer := Some(answer));
      var t := s.(calls := s.calls - multiset{k} + multiset{answered});
      TakesStep(c, s, t, Answer(k, answer));
      var u := AnsweredReturns(c, t, answered, s.len);
      assert t.calls - multiset{answered} == s.calls - multiset{k};
      more := [s, t, u];
    } else {
      assert AnsweredAt(c, s.len, k);
      var len: nat :| len <= s.len && IsAnswer(c, len, k.rev, k.expanded, k.answer.value);
      var u := AnsweredReturns(c, s, k, len);
      more := [s, u];
    }
  }

  lemma AnsweredReturns(c: Chain, s: State, k: Call, len: nat) returns (t: State)
    requires ValidChain(c) && len <= s.len <= |c| && k in s.calls
    requires k.answer.Some? && IsAnswer(c, len, k.rev, k.expanded, k.answer.value)
    ensures Steps(c, s, t) && HasReturned(c, s, t, k.rev, k.expanded, s.calls - multiset{k})
    ensures t.log[|s.log|].len == len
  {
    t := s.(cache := Store(s.cache, k.rev, k.expanded, k.answer.value), calls := s.calls - multiset{k},
            log := s.log + [Returned(k.rev, k.expanded, k.answer.value, len)]);
    ReturnedIsFound(c, len, s.cache, k.rev, k.expanded, k.answer.value);
    TakesStep(c, s, t, Resume(k, len));
  }

  /** A call made now, with `t` the state right after its lookup. */
  lemma CallBegins(c: Chain, s: State, rev: Revision, expanded: bool) returns (t: State)
    requires ValidChain(c) && Inv(c, s)
    ensures Steps(c, s, t)
    ensures var found := Lookup(s.cache, rev, expanded);
            if found.Some? then
              t.cache == s.cache && HasReturned(c, s, t, rev, expanded, s.calls) && t.log[|s.log|].len == s.len
            else t == s.(calls := s.calls + multiset{Call(rev, expanded, None)})
  {
    var found := Lookup(s.cache, rev, expanded);
    if found.Some? {
      HitIsFetchIff(c, s.len, s.cache, rev, expanded);
      t := s.(log := s.log + [Returned(rev, expanded, found, s.len)]);
      TakesStep(c, s, t, Hit(rev, expanded));
    } else {
      t := s.(calls := s.calls + multiset{Call(rev, expanded, None)});
      TakesStep(c, s, t, Miss(rev, expanded));
    }
  }

  lemma MissReturns(c: Chain, s: State, t: State, k: Call) returns (more: seq<State>)
    requires ValidChain(c) && Inv(c, s) && Steps(c, s, t) && t == s.(calls := s.calls + multiset{k})
    ensures AreSteps(c, more) && more[0] == s
    ensures HasReturned(c, s, more[|more| - 1], k.rev, k.expanded, s.calls)
    ensures k.answer.None? ==> more[|more| - 1].log[|s.log|].len == s.len
  {
    var step: Step :| Next(c, s, t, step);
    StepKeepsInv(c, s, t, step);
    var rest := PendingReturns(c, t, k);
    assert t.calls - multiset{k} == s.calls;
    more := [s] + rest;
    StepsAfter(c, s, rest);
  }

  /** The main result: whatever is cached and whatever other calls are pending, a call returns, with what the node
      answers now; if it finds the block it leaves the cache as it is, and no other call is touched. */
  lemma CallReturns(c: Chain, run: seq<State>, i: nat, rev: Revision, expanded: bool) returns (more: seq<State>)
    requires ValidChain(c) && IsRun(c, run) && i < |run|
    ensures AreSteps(c, more) && more[0] == run[i]
    ensures HasReturned(c, run[i], more[|more| - 1], rev, expanded, run[i].calls)
    ensures more[|more| - 1].log[|run[i].log|].len == run[i].len
    ensures Lookup(run[i].cache, rev, expanded).Some? ==> more[|more| - 1].cache == run[i].cache
  {
    var s := run[i];
    RunKeepsInv(c, run, i);
    var t := CallBegins(c, s, rev, expanded);
    if Lookup(s.cache, rev, expanded).Some? {
      more := [s, t];
    } else {
      more := MissReturns(c, s, t, Call(rev, expanded, None));
    }
  }

  lemma StepsAfter(c: Chain, s: State, rest: seq<State>)
    requires ValidChain(c) && AreSteps(c, rest) && Steps(c, s, rest[0])
    ensures AreSteps(c, [s] + rest)
  {
    var more := [s] + rest;
    forall k | 0 < k < |more|
      ensures Steps(c, more[k - 1], more[k])
    {
      if k > 1 {
        assert more[k - 1] == rest[k - 2] && more[k] == rest[k - 1];
      }
    }
  }
}
