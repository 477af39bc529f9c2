/**
 What a reader of the database may conclude from a block row, at any moment and above the head too: the block rows are
 saved last and deleted first, so a stored block has all of its rows, in every state of every run with crashes.
 */
module PosBlocks {
  import opened PosImport

  /** The blocks that have their block row have every other row as well. */
  ghost predicate Whole(c: Chain, rows: set<Row>) {
    forall n: nat :: Row(Block, n, 0) in rows ==> n < |c| && c[n].rows <= rows
  }

  /** Of the blocks above h and below next, every row of the tables up to `k` is stored or still to be saved. */
  ghost predicate SavedUpTo(c: Chain, rows: set<Row>, h: int, next: nat, k: nat, unsaved: set<Row>)
    requires next <= |c|
  {
    && (forall r :: r in unsaved ==> SaveOrder(r.table) == k && r.num < |c| && h < r.num < next && r in c[r.num].rows)
    && (forall r: Row :: h < r.num < next && r in c[r.num].rows && SaveOrder(r.table) <= k ==>
          r in rows || r in unsaved)
  }

  ghost predicate BlocksInv(c: Chain, s: State)
    requires ValidChain(c)
  {
    var h := HeadNum(s);
    && Whole(c, s.rows)
    && match s.phase
       case Cleaning(k) => k > 0 ==> forall n: nat :: Row(Block, n, 0) in s.rows ==> n <= h
       case SavingTable(w, k, unsaved) => w.next <= |c| && SavedUpTo(c, s.rows, h, w.next, k, unsaved)
       case SavingAccounts(w, _) => w.next <= |c| && SavedUpTo(c, s.rows, h, w.next, SaveOrder(InternalTx), {})
       case _ => true
  }

  /** The block row of a block is saved when the block's other rows are there. */
  lemma InsertKeepsWhole(c: Chain, s: State, t: State, r: Row)
    requires ValidChain(c) && BlocksInv(c, s) && InsertRowStep(c, s, t, r)
    ensures BlocksInv(c, t)
  {
    forall n: nat | Row(Block, n, 0) in t.rows
      ensures n < |c| && c[n].rows <= t.rows
    {
      if r == Row(Block, n, 0) {
        forall x | x in c[n].rows
          ensures x in t.rows
        {
          assert SaveOrder(x.table) <= s.phase.k;
        }
      }
    }
  }

  /** Other rows are deleted when no block row above the head is left. */
  lemma DeleteKeepsWhole(c: Chain, s: State, t: State, r: Row)
    requires ValidChain(c) && BlocksInv(c, s) && DeleteRowStep(c, s, t, r)
    ensures BlocksInv(c, t)
  {
    forall n: nat | Row(Block, n, 0) in t.rows
      ensures n < |c| && c[n].rows <= t.rows
    {
      assert r.table != Block ==> n <= HeadNum(s);
      assert r in c[n].rows ==> r.num == n;
    }
  }

  lemma StepKeepsBlocks(c: Chain, s: State, t: State, step: Step)
    requires ValidChain(c) && BlocksInv(c, s) && NextStep(c, s, t, step)
    ensures BlocksInv(c, t)
  {
    match step
    case InsertRow(r) => InsertKeepsWhole(c, s, t, r);
    case DeleteRow(r) => DeleteKeepsWhole(c, s, t, r);
    case EndBlock => EndBlockKeepsBlocks(c, s, t);
    case TableSaved => TableSavedKeepsBlocks(c, s, t);
    case AccountsSaved => AccountsSavedKeepsBlocks(c, s, t);
    case _ =>
  }

  lemma EndBlockKeepsBlocks(c: Chain, s: State, t: State)
    requires ValidChain(c) && BlocksInv(c, s) && EndBlockStep(c, s, t)
    ensures BlocksInv(c, t)
  {
  }

  lemma TableSavedKeepsBlocks(c: Chain, s: State, t: State)
    requires ValidChain(c) && BlocksInv(c, s) && TableSavedStep(c, s, t)
    ensures BlocksInv(c, t)
  {
  }

  lemma AccountsSavedKeepsBlocks(c: Chain, s: State, t: State)
    requires ValidChain(c) && BlocksInv(c, s) && AccountsSavedStep(c, s, t)
    ensures BlocksInv(c, t)
  {
  }

  lemma StartsWhole(c: Chain, s: State)
    requires ValidChain(c) && Starts(c, s)
    ensures BlocksInv(c, s)
  {
    if AtRest(c, s) {
      forall n: nat | Row(Block, n, 0) in s.rows
        ensures n < |c| && c[n].rows <= s.rows
      {
        assert Imported(c, s.head.value, Row(Block, n, 0));
        assert forall r :: r in c[n].rows ==> Imported(c, s.head.value, r);
      }
    }
  }

  lemma {:induction false} RunsKeepBlocks(c: Chain, run: seq<State>, i: nat)
    requires ValidChain(c) && IsRun(c, run) && Starts(c, run[0]) && i < |run|
    ensures BlocksInv(c, run[i])
  {
    if i == 0 {
      StartsWhole(c, run[0]);
    } else {
      RunsKeepBlocks(c, run, i - 1);
      var step :| NextStep(c, run[i - 1], run[i], step);
      StepKeepsBlocks(c, run[i - 1], run[i], step);
    }
  }

  /** The main result: whoever finds the row of a block finds all of the block, whether or not the head is there yet,
      and whatever has crashed or is just being cleaned up. */
  lemma StoredBlocksAreWhole(c: Chain, run: seq<State>, i: nat, n: nat)
    requires ValidChain(c) && IsRun(c, run) && Starts(c, run[0]) && i < |run|
    requires Row(Block, n, 0) in run[i].rows
    ensures n < |c| && forall r :: r in c[n].rows ==> r in run[i].rows
  {
    RunsKeepBlocks(c, run, i);
  }
}
