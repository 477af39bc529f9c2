/**
 The proposer statistics of an epoch: the blocks of the epoch are matched against the rounds of a
 round-robin schedule. A round is a success when the next unmatched block has the scheduled proposer.
 */
module EpochStats {
  import opened Common

  datatype Block = Block(number: nat, timestamp: int, beneficiary: Address, kblock: bool)

  /** status is 1 for a success and 2 for a timeout. */
  datatype Stat = Stat(status: nat, b: nat, intvl: int, k: bool)

  /** Committee index to address; a member without a candidate has the empty address, which no block has. */
  type Members = map<nat, Option<Address>>

  /** A member for every index: the committee had no repeated public key. */
  ghost predicate Complete(members: Members) {
    members != map[] && forall i: nat :: i < |members| ==> i in members
  }

  /** Reading the address of a member that is not there raises an exception. */
  predicate HasProposer(members: Members, round: nat) {
    |members| > 0 && round % |members| in members
  }

  predicate Proposes(members: Members, round: nat, block: Block) {
    HasProposer(members, round) && members[round % |members|] == Some(block.beneficiary)
  }

  /** The number of blocks the rounds below n match. */
  function Matched(blocks: seq<Block>, members: Members, n: nat): (m: nat)
    ensures m <= |blocks| && m <= n
  {
    if n == 0 then 0
    else
      var m := Matched(blocks, members, n - 1);
      if m < |blocks| && Proposes(members, n - 1, blocks[m]) then m + 1 else m
  }

  // ---------------------------------------------------------------------------
  // What the statistics say
  // ---------------------------------------------------------------------------

  /** The timestamp a block's interval starts at: that of the block before it. */
  function Previous(lastK: Option<int>, blocks: seq<Block>, i: nat): Option<int>
    requires i <= |blocks|
  {
    if i == 0 then lastK else Some(blocks[i - 1].timestamp)
  }

  /** Row round names the first block no earlier round matched, and is a success if that block's proposer has its
      turn. */
  ghost predicate RowRight(lastK: Option<int>, blocks: seq<Block>, members: Members, round: nat, s: Stat) {
    var m := Matched(blocks, members, round);
    && m < |blocks|
    && HasProposer(members, round)
    && s.b == blocks[m].number
    && s.k == blocks[m].kblock
    && (Proposes(members, round, blocks[m]) ==>
          && s.status == 1 && Previous(lastK, blocks, m).Some?
          && s.intvl == blocks[m].timestamp - Previous(lastK, blocks, m).value)
    && (!Proposes(members, round, blocks[m]) ==> s.status == 2 && s.intvl == 0)
  }

  /** The rounds whose computation raises an exception, which ends the list without a row. */
  ghost predicate Raises(lastK: Option<int>, blocks: seq<Block>, members: Members, round: nat) {
    var m := Matched(blocks, members, round);
    || !HasProposer(members, round)
    || m == |blocks|
    || (m == 0 && Proposes(members, round, blocks[0]) && lastK == None)
  }

  ghost predicate Report(lastK: Option<int>, blocks: seq<Block>, members: Members, lastRound: nat, stats: seq<Stat>) {
    && |stats| <= lastRound + 1
    && (forall round: nat :: round < |stats| ==> RowRight(lastK, blocks, members, round, stats[round]))
    && (|stats| <= lastRound ==> Raises(lastK, blocks, members, |stats|))
  }

  method CalcStats(lastK: Option<int>, blocks: seq<Block>, members: Members, lastRound: nat) returns (stats: seq<Stat>)
    ensures Report(lastK, blocks, members, lastRound, stats)
  {
    stats := [];
    var size := |members|;
    var curIndex: nat := 0;
    for round := 0 to lastRound + 1
      invariant |stats| == round && curIndex == Matched(blocks, members, round)
      invariant forall r: nat :: r < |stats| ==> RowRight(lastK, blocks, members, r, stats[r])
    {
      if size == 0 || round % size !in members {
        return;
      }
      var expectedProposer := members[round % size];
      if curIndex >= |blocks| {
        return;
      }
      var curBlock := blocks[curIndex];
      if expectedProposer == Some(curBlock.beneficiary) {
        var lastBlockTS := if curIndex == 0 then lastK else Some(blocks[curIndex - 1].timestamp);
        if lastBlockTS == None {
          return;
        }
        stats := stats + [Stat(1, curBlock.number, curBlock.timestamp - lastBlockTS.value, curBlock.kblock)];
        curIndex := curIndex + 1;
      } else {
        stats := stats + [Stat(2, curBlock.number, 0, curBlock.kblock)];
      }
    }
  }

  // ---------------------------------------------------------------------------
  // Successes are a prefix of the blocks, and their intervals telescope
  // ---------------------------------------------------------------------------

  function Numbers(blocks: seq<Block>): seq<nat> {
    if blocks == [] then [] else Numbers(blocks[..|blocks| - 1]) + [blocks[|blocks| - 1].number]
  }

  /** The blocks of the rows of a given status, in order. */
  function Successes(stats: seq<Stat>): seq<nat> {
    if stats == [] then []
    else
      var front, s := stats[..|stats| - 1], stats[|stats| - 1];
      if s.status == 1 then Successes(front) + [s.b] else Successes(front)
  }

  function TotalInterval(stats: seq<Stat>): int {
    if stats == [] then 0 else TotalInterval(stats[..|stats| - 1]) + stats[|stats| - 1].intvl
  }

  lemma ReportPrefix(lastK: Option<int>, blocks: seq<Block>, members: Members, lastRound: nat, stats: seq<Stat>)
    requires stats != [] && Report(lastK, blocks, members, lastRound, stats)
    ensures |stats| > 1 ==> Report(lastK, blocks, members, |stats| - 2, stats[..|stats| - 1])
  {
    var front := stats[..|stats| - 1];
    forall round: nat | round < |front|
      ensures RowRight(lastK, blocks, members, round, front[round])
    {
      assert RowRight(lastK, blocks, members, round, stats[round]);
    }
  }

  lemma {:induction false} SuccessesAreAPrefix(
      lastK: Option<int>, blocks: seq<Block>, members: Members, lastRound: nat, stats: seq<Stat>)
    requires Report(lastK, blocks, members, lastRound, stats)
    ensures Successes(stats) == Numbers(blocks[..Matched(blocks, members, |stats|)])
  {
    if stats != [] {
      var n := |stats| - 1;
      var m := Matched(blocks, members, n);
      assert RowRight(lastK, blocks, members, n, stats[n]);
      assert m < |blocks| ==> blocks[..m + 1][..m] == blocks[..m];
      if n > 0 {
        ReportPrefix(lastK, blocks, members, lastRound, stats);
        SuccessesAreAPrefix(lastK, blocks, members, n - 1, stats[..n]);
      }
    }
  }

  /** The intervals add up to the time from the last KBlock to the last matched block. */
  lemma {:induction false} IntervalsTelescope(
      lastK: Option<int>, blocks: seq<Block>, members: Members, lastRound: nat, stats: seq<Stat>)
    requires Report(lastK, blocks, members, lastRound, stats)
    ensures var m := Matched(blocks, members, |stats|);
            if m == 0 then TotalInterval(stats) == 0
            else lastK.Some? && TotalInterval(stats) == blocks[m - 1].timestamp - lastK.value
  {
    if stats != [] {
      var n := |stats| - 1;
      assert RowRight(lastK, blocks, members, n, stats[n]);
      if n > 0 {
        ReportPrefix(lastK, blocks, members, lastRound, stats);
        IntervalsTelescope(lastK, blocks, members, n - 1, stats[..n]);
      }
    }
  }

  // ---------------------------------------------------------------------------
  // The report in terms of seats
  // ---------------------------------------------------------------------------

  /** In each cycle through the committee every seat has one round: the turn of seat in the cycle-th cycle. */
  lemma TurnOfSeat(members: Members, cycle: nat, seat: nat, block: Block)
    requires seat < |members|
    ensures HasProposer(members, cycle * |members| + seat) <==> seat in members
    ensures Proposes(members, cycle * |members| + seat, block)
       <==> seat in members && members[seat] == Some(block.beneficiary)
  {
    RoundOfSeat(|members|, cycle, seat);
  }

  lemma RoundOfSeat(size: nat, cycle: nat, seat: nat)
    requires seat < size
    ensures (cycle * size + seat) % size == seat
  {
    var round := cycle * size + seat;
    var q := round / size;
    assert q * size + round % size == round;
    if q < cycle {
      Multiples(q, cycle, size);
    } else if cycle < q {
      Multiples(cycle, q, size);
    }
  }

  lemma {:induction false} Multiples(a: nat, b: nat, size: nat)
    requires a < b
    ensures a * size + size <= b * size
    decreases b
  {
    assert b * size == (b - 1) * size + size;
    if a < b - 1 {
      Multiples(a, b - 1, size);
    }
  }

  /**
   The row of a seat's turn. The blocks reported as successes before it are the first ones; the row names the next
   block, and is a success exactly if the member on the seat proposed that block.
   */
  lemma RowOfSeat(lastK: Option<int>, blocks: seq<Block>, members: Members, lastRound: nat, stats: seq<Stat>,
                  cycle: nat, seat: nat)
    requires Report(lastK, blocks, members, lastRound, stats)
    requires seat < |members| && cycle * |members| + seat < |stats|
    ensures var round := cycle * |members| + seat;
            var row, next := stats[round], |Successes(stats[..round])|;
            && seat in members && next < |blocks|
            && row.b == blocks[next].number && row.k == blocks[next].kblock
            && (row.status == 1 <==> members[seat] == Some(blocks[next].beneficiary))
            && (row.status == 1 && next == 0 ==> lastK == Some(blocks[0].timestamp - row.intvl))
            && (row.status == 1 && next > 0 ==> row.intvl == blocks[next].timestamp - blocks[next - 1].timestamp)
            && (row.status != 1 ==> row.status == 2 && row.intvl == 0)
  {
    var round := cycle * |members| + seat;
    assert RowRight(lastK, blocks, members, round, stats[round]);
    SuccessesBefore(lastK, blocks, members, lastRound, stats, round);
    TurnOfSeat(members, cycle, seat, blocks[Matched(blocks, members, round)]);
  }

  lemma SuccessesBefore(lastK: Option<int>, blocks: seq<Block>, members: Members, lastRound: nat, stats: seq<Stat>,
                        round: nat)
    requires Report(lastK, blocks, members, lastRound, stats) && round <= |stats|
    ensures |Successes(stats[..round])| == Matched(blocks, members, round)
  {
    if round > 0 {
      forall r: nat | r < round
        ensures RowRight(lastK, blocks, members, r, stats[..round][r])
      {
        assert RowRight(lastK, blocks, members, r, stats[r]);
      }
      SuccessCount(lastK, blocks, members, round - 1, stats[..round]);
    }
  }

  /** The report ends before its last round exactly where a seat is empty, no block is left, or the first block's
      interval has no start. */
  lemma EndOfReport(lastK: Option<int>, blocks: seq<Block>, members: Members, lastRound: nat, stats: seq<Stat>,
                    cycle: nat, seat: nat)
    requires Report(lastK, blocks, members, lastRound, stats)
    requires seat < |members| && cycle * |members| + seat == |stats| <= lastRound
    ensures || seat !in members
            || |Successes(stats)| == |blocks|
            || (lastK == None && Successes(stats) == [] && members[seat] == Some(blocks[0].beneficiary))
  {
    SuccessCount(lastK, blocks, members, lastRound, stats);
    if blocks != [] {
      TurnOfSeat(members, cycle, seat, blocks[0]);
    } else {
      TurnOfSeat(members, cycle, seat, Block(0, 0, 0, false));
    }
  }

  // ---------------------------------------------------------------------------
  // The greedy matching is the longest
  // ---------------------------------------------------------------------------

  /** The first |rounds| blocks at increasing rounds below n, each in its proposer's turn. */
  ghost predicate Assigns(blocks: seq<Block>, members: Members, n: nat, rounds: seq<nat>) {
    && |rounds| <= |blocks|
    && (forall j: nat, k: nat :: j < k < |rounds| ==> rounds[j] < rounds[k])
    && (forall j: nat :: j < |rounds| ==> rounds[j] < n && Proposes(members, rounds[j], blocks[j]))
  }

  /** The rounds the greedy matching uses. */
  function GreedyRounds(blocks: seq<Block>, members: Members, n: nat): (rounds: seq<nat>)
    ensures |rounds| == Matched(blocks, members, n)
  {
    if n == 0 then []
    else
      var front := GreedyRounds(blocks, members, n - 1);
      if |front| < |blocks| && Proposes(members, n - 1, blocks[|front|]) then front + [n - 1] else front
  }

  lemma {:induction false} GreedyAssigns(blocks: seq<Block>, members: Members, n: nat)
    ensures Assigns(blocks, members, n, GreedyRounds(blocks, members, n))
  {
    if n > 0 {
      GreedyAssigns(blocks, members, n - 1);
    }
  }

  /** No assignment is longer, and the greedy one is nowhere later. */
  lemma {:induction false} GreedyIsLongest(blocks: seq<Block>, members: Members, n: nat, rounds: seq<nat>)
    requires Assigns(blocks, members, n, rounds)
    ensures |rounds| <= Matched(blocks, members, n)
    ensures forall j: nat :: j < |rounds| ==> GreedyRounds(blocks, members, n)[j] <= rounds[j]
  {
    if rounds != [] && rounds[|rounds| - 1] == n - 1 {
      var front := rounds[..|rounds| - 1];
      AssignsFront(blocks, members, n, rounds);
      GreedyIsLongest(blocks, members, n - 1, front);
      GreedyTakesTheRound(blocks, members, n, rounds, front);
    } else if n > 0 {
      AssignsEarlier(blocks, members, n, rounds);
      GreedyIsLongest(blocks, members, n - 1, rounds);
    }
  }

  lemma AssignsFront(blocks: seq<Block>, members: Members, n: nat, rounds: seq<nat>)
    requires Assigns(blocks, members, n, rounds) && rounds != []
    ensures Assigns(blocks, members, rounds[|rounds| - 1], rounds[..|rounds| - 1])
  {
  }

  lemma AssignsEarlier(blocks: seq<Block>, members: Members, n: nat, rounds: seq<nat>)
    requires Assigns(blocks, members, n, rounds) && n > 0
    requires rounds == [] || rounds[|rounds| - 1] < n - 1
    ensures Assigns(blocks, members, n - 1, rounds)
  {
    forall j: nat | j < |rounds|
      ensures rounds[j] < n - 1
    {
      assert j < |rounds| - 1 ==> rounds[j] < rounds[|rounds| - 1];
    }
  }

  lemma GreedyTakesTheRound(blocks: seq<Block>, members: Members, n: nat, rounds: seq<nat>, front: seq<nat>)
    requires n > 0 && rounds == front + [n - 1] && |rounds| <= |blocks|
    requires Proposes(members, n - 1, blocks[|front|])
    requires |front| <= Matched(blocks, members, n - 1)
    requires forall j: nat :: j < |front| ==> GreedyRounds(blocks, members, n - 1)[j] <= front[j]
    ensures |rounds| <= Matched(blocks, members, n)
    ensures forall j: nat :: j < |rounds| ==> GreedyRounds(blocks, members, n)[j] <= rounds[j]
  {
    var before, after := GreedyRounds(blocks, members, n - 1), GreedyRounds(blocks, members, n);
    GreedyAssigns(blocks, members, n);
    forall j: nat | j < |rounds|
      ensures after[j] <= rounds[j]
    {
      if j < |front| {
        assert after[j] == before[j] && rounds[j] == front[j];
      }
    }
  }

  lemma CompleteHasProposers(members: Members, round: nat)
    requires Complete(members)
    ensures HasProposer(members, round)
  {
    assert |members| > 0 && round % |members| < |members|;
  }

  /** The number of matched blocks never drops, and with every block matched it stays. */
  lemma {:induction false} MatchedGrows(blocks: seq<Block>, members: Members, n: nat, m: nat)
    requires n <= m
    ensures Matched(blocks, members, n) <= Matched(blocks, members, m)
    decreases m
  {
    if n < m {
      MatchedGrows(blocks, members, n, m - 1);
    }
  }

  /**
   With a complete committee and a known last KBlock the report matches as many blocks as any assignment to
   rounds up to lastRound: an exception can only come when no block is left.
   */
  lemma ReportIsLongest(lastK: Option<int>, blocks: seq<Block>, members: Members, lastRound: nat, stats: seq<Stat>,
                        rounds: seq<nat>)
    requires Report(lastK, blocks, members, lastRound, stats)
    requires Complete(members) && lastK.Some?
    requires Assigns(blocks, members, lastRound + 1, rounds)
    ensures |rounds| <= |Successes(stats)|
    ensures |stats| <= lastRound ==> Successes(stats) == Numbers(blocks)
  {
    GreedyIsLongest(blocks, members, lastRound + 1, rounds);
    SuccessCount(lastK, blocks, members, lastRound, stats);
    if |stats| <= lastRound {
      CompleteHasProposers(members, |stats|);
      SuccessesAreAPrefix(lastK, blocks, members, lastRound, stats);
      assert blocks[..|blocks|] == blocks;
    }
  }

  lemma SuccessCount(lastK: Option<int>, blocks: seq<Block>, members: Members, lastRound: nat, stats: seq<Stat>)
    requires Report(lastK, blocks, members, lastRound, stats)
    ensures |Successes(stats)| == Matched(blocks, members, |stats|)
  {
    var m := Matched(blocks, members, |stats|);
    SuccessesAreAPrefix(lastK, blocks, members, lastRound, stats);
    NumbersLength(blocks[..m]);
  }

  lemma {:induction false} NumbersLength(blocks: seq<Block>)
    ensures |Numbers(blocks)| == |blocks|
  {
    if blocks != [] {
      NumbersLength(blocks[..|blocks| - 1]);
    }
  }

  /** If the epoch did follow the schedule, every block is reported as a success, once and in order. */
  lemma ScheduledBlocksAreAllFound(lastK: Option<int>, blocks: seq<Block>, members: Members, lastRound: nat,
                                   stats: seq<Stat>, rounds: seq<nat>)
    requires Report(lastK, blocks, members, lastRound, stats)
    requires Complete(members) && lastK.Some?
    requires Assigns(blocks, members, lastRound + 1, rounds) && |rounds| == |blocks|
    ensures Successes(stats) == Numbers(blocks)
  {
    ReportIsLongest(lastK, blocks, members, lastRound, stats, rounds);
    SuccessesAreAPrefix(lastK, blocks, members, lastRound, stats);
    NumbersLength(blocks[..Matched(blocks, members, |stats|)]);
    assert blocks[..|blocks|] == blocks;
  }

  /** There is a row for every round exactly if no round before the end raises an exception. */
  lemma AllRoundsReportedIff(lastK: Option<int>, blocks: seq<Block>, members: Members, lastRound: nat, stats: seq<Stat>)
    requires Report(lastK, blocks, members, lastRound, stats)
    requires Complete(members) && lastK.Some?
    ensures |stats| == lastRound + 1 <==> Matched(blocks, members, lastRound) < |blocks|
  {
    if |stats| == lastRound + 1 {
      RowHasABlock(lastK, blocks, members, lastRound, stats, lastRound);
    } else {
      CompleteHasProposers(members, |stats|);
      MatchedGrows(blocks, members, |stats|, lastRound);
    }
  }

  lemma RowHasABlock(lastK: Option<int>, blocks: seq<Block>, members: Members, lastRound: nat, stats: seq<Stat>, i: nat)
    requires Report(lastK, blocks, members, lastRound, stats) && i < |stats|
    ensures Matched(blocks, members, i) < |blocks|
  {
    assert RowRight(lastK, blocks, members, i, stats[i]);
  }

  // ---------------------------------------------------------------------------
  // When the matching is the true one
  // ---------------------------------------------------------------------------

  /** The first round after the block before the j-th. */
  function After(rounds: seq<nat>, j: nat): nat
    requires j <= |rounds|
  {
    if j == 0 then 0 else rounds[j - 1] + 1
  }

  /** No block's proposer had an earlier turn since the block before. */
  ghost predicate NoTurnPassed(blocks: seq<Block>, members: Members, rounds: seq<nat>)
    requires |rounds| <= |blocks|
  {
    forall j: nat, r: nat :: j < |rounds| && After(rounds, j) <= r < rounds[j] ==> !Proposes(members, r, blocks[j])
  }

  /** The greedy matching lets no turn pass, and has not had one for the next block. */
  lemma {:induction false} GreedyWaits(blocks: seq<Block>, members: Members, n: nat)
    ensures var rounds := GreedyRounds(blocks, members, n);
            && NoTurnPassed(blocks, members, rounds)
            && (|rounds| < |blocks| ==>
                  forall r: nat :: After(rounds, |rounds|) <= r < n ==> !Proposes(members, r, blocks[|rounds|]))
  {
    if n > 0 {
      GreedyWaits(blocks, members, n - 1);
      var front, rounds := GreedyRounds(blocks, members, n - 1), GreedyRounds(blocks, members, n);
      forall j: nat, r: nat | j < |rounds| && After(rounds, j) <= r < rounds[j]
        ensures !Proposes(members, r, blocks[j])
      {
        assert After(rounds, j) == After(front, j);
      }
    }
  }

  lemma SameNextTurn(blocks: seq<Block>, members: Members, n: nat, a: seq<nat>, b: seq<nat>, j: nat)
    requires Assigns(blocks, members, n, a) && Assigns(blocks, members, n, b)
    requires NoTurnPassed(blocks, members, a) && NoTurnPassed(blocks, members, b)
    requires j < |a| && j < |b| && After(a, j) == After(b, j)
    ensures a[j] == b[j]
  {
  }

  lemma SamePrefixes(a: seq<nat>, b: seq<nat>, k: nat)
    requires 0 < k <= |a| && k <= |b| && a[..k - 1] == b[..k - 1]
    ensures After(a, k - 1) == After(b, k - 1)
    ensures a[k - 1] == b[k - 1] ==> a[..k] == b[..k]
  {
    assert k > 1 ==> a[..k - 1][k - 2] == b[..k - 1][k - 2];
    assert a[..k] == a[..k - 1] + [a[k - 1]] && b[..k] == b[..k - 1] + [b[k - 1]];
  }

  /** Two such matchings of equally many blocks are the same. */
  lemma {:induction false} NoTurnPassedIsUnique(
      blocks: seq<Block>, members: Members, n: nat, a: seq<nat>, b: seq<nat>, k: nat)
    requires Assigns(blocks, members, n, a) && Assigns(blocks, members, n, b)
    requires NoTurnPassed(blocks, members, a) && NoTurnPassed(blocks, members, b)
    requires k <= |a| && k <= |b|
    ensures a[..k] == b[..k]
  {
    if k > 0 {
      NoTurnPassedIsUnique(blocks, members, n, a, b, k - 1);
      SamePrefixes(a, b, k);
      SameNextTurn(blocks, members, n, a, b, k - 1);
    }
  }

  /** A matching of as many blocks is the greedy one exactly if no proposer let a turn of its own pass. */
  lemma GreedyIsTrueIff(blocks: seq<Block>, members: Members, n: nat, rounds: seq<nat>)
    requires Assigns(blocks, members, n, rounds) && |rounds| == Matched(blocks, members, n)
    ensures GreedyRounds(blocks, members, n) == rounds <==> NoTurnPassed(blocks, members, rounds)
  {
    var greedy := GreedyRounds(blocks, members, n);
    GreedyWaits(blocks, members, n);
    GreedyAssigns(blocks, members, n);
    if NoTurnPassed(blocks, members, rounds) {
      NoTurnPassedIsUnique(blocks, members, n, greedy, rounds, |rounds|);
      assert greedy[..|rounds|] == greedy && rounds[..|rounds|] == rounds;
    }
  }

  /** The rounds that are reported as a success. */
  function SuccessRounds(stats: seq<Stat>): seq<nat> {
    if stats == [] then []
    else
      var n := |stats| - 1;
      if stats[n].status == 1 then SuccessRounds(stats[..n]) + [n] else SuccessRounds(stats[..n])
  }

  lemma {:induction false} SuccessRoundsAreGreedy(
      lastK: Option<int>, blocks: seq<Block>, members: Members, lastRound: nat, stats: seq<Stat>)
    requires Report(lastK, blocks, members, lastRound, stats)
    ensures SuccessRounds(stats) == GreedyRounds(blocks, members, |stats|)
  {
    if stats != [] {
      var n := |stats| - 1;
      assert RowRight(lastK, blocks, members, n, stats[n]);
      if n > 0 {
        ReportPrefix(lastK, blocks, members, lastRound, stats);
        SuccessRoundsAreGreedy(lastK, blocks, members, n - 1, stats[..n]);
      }
    }
  }

  lemma {:induction false} GreedyStops(blocks: seq<Block>, members: Members, n: nat, m: nat)
    requires n <= m && Matched(blocks, members, n) == |blocks|
    ensures GreedyRounds(blocks, members, m) == GreedyRounds(blocks, members, n)
    decreases m
  {
    if n < m {
      GreedyStops(blocks, members, n, m - 1);
    }
  }

  /** The report is cut short only when all blocks are matched, so its successes are the whole greedy matching. */
  lemma SuccessRoundsAreAll(lastK: Option<int>, blocks: seq<Block>, members: Members, lastRound: nat, stats: seq<Stat>)
    requires Report(lastK, blocks, members, lastRound, stats)
    requires Complete(members) && lastK.Some?
    ensures SuccessRounds(stats) == GreedyRounds(blocks, members, lastRound + 1)
  {
    SuccessRoundsAreGreedy(lastK, blocks, members, lastRound, stats);
    if |stats| <= lastRound {
      CompleteHasProposers(members, |stats|);
      GreedyStops(blocks, members, |stats|, lastRound + 1);
    }
  }

  /** If the epoch's blocks were really proposed in `rounds`, the report shows exactly those rounds as successes
      if and only if no proposer had let an earlier turn of its own pass since the block before. */
  lemma ReportIsTrueIff(lastK: Option<int>, blocks: seq<Block>, members: Members, lastRound: nat,
                        stats: seq<Stat>, rounds: seq<nat>)
    requires Report(lastK, blocks, members, lastRound, stats)
    requires Complete(members) && lastK.Some?
    requires Assigns(blocks, members, lastRound + 1, rounds) && |rounds| == |blocks|
    ensures SuccessRounds(stats) == rounds <==> NoTurnPassed(blocks, members, rounds)
  {
    SuccessRoundsAreAll(lastK, blocks, members, lastRound, stats);
    GreedyIsLongest(blocks, members, lastRound + 1, rounds);
    GreedyIsTrueIff(blocks, members, lastRound + 1, rounds);
  }

  /**
   The matching is a best guess: a committee of one member who times out in round 0 and proposes in round 1
   is reported with a success in round 0, and round 1 is not reported at all.
   */
  lemma TheGuessCanBeWrong()
    ensures var blocks := [Block(1, 10, 7, false)];
            var members := map[0 := Some(7)];
            && Assigns(blocks, members, 2, [1])
            && (forall stats :: Report(Some(0), blocks, members, 1, stats) ==> stats == [Stat(1, 1, 10, false)])
  {
    var blocks := [Block(1, 10, 7, false)];
    var members: Members := map[0 := Some(7)];
    assert |members| == 1;
    forall stats: seq<Stat> | Report(Some(0), blocks, members, 1, stats)
      ensures stats == [Stat(1, 1, 10, false)]
    {
      assert Matched(blocks, members, 0) == 0;
      assert Matched(blocks, members, 1) == 1;
      if |stats| > 1 {
        RowHasABlock(Some(0), blocks, members, 1, stats, 1);
        assert false;
      }
      if |stats| > 0 {
        assert RowRight(Some(0), blocks, members, 0, stats[0]);
      }
    }
  }
}
