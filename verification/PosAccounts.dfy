/**
 The accounts of the PoS importer under crashes: after the cleanup every account has the chain's balances at
 the head.
 */
module PosAccounts {
  import opened Common
  import opened PosImport
  import opened PosTables

  // ---------------------------------------------------------------------------
  // The invariant
  // ---------------------------------------------------------------------------

  /** Holds whenever a head is stored: a row whose last update is not above the head is already right, and
      an account without a row has no balance. */
  ghost predicate OldAccountsRight(c: Chain, accts: map<Address, Acct>, h: int)
    requires h < |c|
  {
    forall a :: (a in accts ==> accts[a].lastUpdate <= h) ==> AccountRight(c, accts, h, a)
  }

  /** The account cache holds the balances after the blocks before `next`, and for the accounts in
      `done` also the changes of block `next`. */
  ghost predicate CacheRight(c: Chain, h: int, accts: map<Address, Acct>, cache: map<Address, Acct>,
                             next: nat, done: set<Address>)
    requires h < next <= |c|
    requires done != {} ==> next < |c|
  {
    && cache.Keys <= accts.Keys
    && (forall a :: a in cache ==>
          && cache[a].lastUpdate > h
          && cache[a].bal == ChainBalance(c, if a in done then next else next - 1, a))
    && (forall a :: a !in cache ==> a !in done && ChainBalance(c, next - 1, a) == ChainBalance(c, h, a))
  }

  /** Before processGenesis: no allocated account is stored, and what is stored has no balance. */
  ghost predicate BeforeGenesis(c: Chain, accts: map<Address, Acct>)
    requires |c| > 0
  {
    forall a :: if a in Alloc(c) then a !in accts else AccountRight(c, accts, -1, a)
  }

  ghost predicate WithinGenesis(c: Chain, accts: map<Address, Acct>, left: set<Address>, made: Option<Address>)
    requires |c| > 0
  {
    && left <= Alloc(c).Keys && (made.Some? ==> made.value in Alloc(c) && made.value !in left)
    && (forall a :: a in Alloc(c) ==> (a in left <==> a !in accts))
    && (forall a :: a !in left && made != Some(a) ==> AccountRight(c, accts, -1, a))
  }

  ghost predicate AccountsOk(c: Chain, s: State)
    requires ValidChain(c) && RowsInv(c, s)
  {
    var h := HeadNum(s);
    match s.phase
    case Down => s.cache == map[] && (s.head.None? ==> BeforeGenesis(c, s.accts))
    case Cleaning(_) => s.cache == map[]
    case FixingLate(late) =>
      && s.cache == map[] && late <= s.accts.Keys
      && (forall a :: a !in late ==> AccountRight(c, s.accts, h, a))
    case FixingNegative(negative) => s.cache == map[] && negative <= s.accts.Keys && AccountsRight(c, s.accts, h)
    case Waiting =>
      s.cache == map[] && if s.head.Some? then AccountsRight(c, s.accts, h) else BeforeGenesis(c, s.accts)
    case Genesis(left, made) => s.cache == map[] && WithinGenesis(c, s.accts, left, made)
    case Importing(w) => AccountsRight(c, s.accts, h) && CacheRight(c, h, s.accts, s.cache, w.next, {})
    case Touching(w, untouched) =>
      AccountsRight(c, s.accts, h) && CacheRight(c, h, s.accts, s.cache, w.next, c[w.next].deltas.Keys - untouched)
    case SavingTable(w, k, _) =>
      && CacheRight(c, h, s.accts, s.cache, w.next, {})
      && AccountsRight(c, s.accts, if k == SaveOrder(Block) then w.next - 1 else h)
    case SavingAccounts(w, unsaved) =>
      && CacheRight(c, h, s.accts, s.cache, w.next, {})
      && (forall a :: a in unsaved ==> AccountRight(c, s.accts, h, a))
      && (forall a :: a !in unsaved ==> AccountRight(c, s.accts, w.next - 1, a))
    case SavingHead(w) => AccountsRight(c, s.accts, w.next - 1)
  }

  ghost predicate AccountsInv(c: Chain, s: State)
    requires ValidChain(c)
  {
    && RowsInv(c, s)
    && (s.head.Some? ==> OldAccountsRight(c, s.accts, HeadNum(s)))
    && (s.head.None? && GenesisIsDone(s.phase) ==> Alloc(c).Keys <= s.accts.Keys)
    && AccountsOk(c, s)
  }

  // ---------------------------------------------------------------------------
  // When a crash before the first head spoils them
  // ---------------------------------------------------------------------------

  /** An allocated account was created and no head is stored: processGenesis will meet it again. */
  ghost predicate LeftAccount(c: Chain, s: State, a: Address)
    requires ValidChain(c)
  {
    && s.head.None? && a in Alloc(c) && a in s.accts
    && (s.phase.Down? || s.phase.Waiting? || (s.phase.Genesis? && a in s.phase.left))
  }

  ghost predicate Blocked(c: Chain, s: State)
    requires ValidChain(c)
  {
    TablesBlocked(c, s) || exists a :: LeftAccount(c, s, a)
  }

  lemma LeftAccountStays(c: Chain, s: State, t: State, step: Step, a: Address)
    requires ValidChain(c) && LeftAccount(c, s, a) && NextStep(c, s, t, step)
    ensures LeftAccount(c, t, a)
  {
  }

  /** A first window of n blocks that changes accounts and has no rows to be saved before them. */
  ghost predicate Silent(c: Chain, n: nat)
    requires n <= |c|
  {
    && (forall r :: Imported(c, n - 1, r) ==> r.table == Block)
    && exists a :: ChainBalance(c, n - 1, a) != ChainBalance(c, -1, a)
  }

  ghost predicate NothingBounded(c: Chain) {
    forall a :: a in Alloc(c) ==> Alloc(c)[a].mtrBounded == 0 && Alloc(c)[a].mtrgBounded == 0
  }

  /** What the accounts need of the chain: nothing allocated is bounded, and if nothing is allocated at all, the
      first window, of one block or of a hundred, is not silent. */
  ghost predicate AccountsSafe(c: Chain) {
    && NothingBounded(c)
    && (Alloc(c) == map[] ==> (|c| > 0 ==> !Silent(c, 1)) && (|c| > LOOP_WINDOW ==> !Silent(c, LOOP_WINDOW)))
  }

  // ---------------------------------------------------------------------------
  // Every step keeps the invariant
  // ---------------------------------------------------------------------------

  lemma NextBlockCached(c: Chain, h: int, accts: map<Address, Acct>, cache: map<Address, Acct>, num: nat)
    requires h < num < |c|
    requires CacheRight(c, h, accts, cache, num, c[num].deltas.Keys)
    ensures CacheRight(c, h, accts, cache, num + 1, {})
  {
  }

  /** With nothing allocated and a first window that is not silent, all accounts have the same balances before
      it and after it when none of its rows is stored. */
  lemma NotSilent(c: Chain, rows: set<Row>, n: nat)
    requires ValidChain(c) && 0 < n <= |c| && !Silent(c, n) && rows == {}
    requires forall r :: Imported(c, n - 1, r) && SaveOrder(r.table) <= SaveOrder(InternalTx) ==> r in rows
    ensures forall a :: ChainBalance(c, n - 1, a) == ChainBalance(c, -1, a)
  {
    forall r | Imported(c, n - 1, r)
      ensures r.table == Block
    {
      assert r.table != Block ==> SaveOrder(r.table) <= SaveOrder(InternalTx);
    }
  }

  /** A save that dies with all tables empty has saved nothing, or the accounts of a window that is not silent. */
  lemma NothingSavedYet(c: Chain, s: State)
    requires ValidChain(c) && AccountsSafe(c) && AccountsInv(c, s) && s.head.None? && s.rows == {} && Alloc(c) == map[]
    ensures GenesisIsDone(s.phase) ==> AccountsRight(c, s.accts, -1)
  {
    if s.phase.SavingAccounts? || (s.phase.SavingTable? && s.phase.k == SaveOrder(Block)) || s.phase.SavingHead? {
      var n := s.phase.w.next;
      assert n == 1 || n == LOOP_WINDOW;
      NotSilent(c, s.rows, n);
      forall a
        ensures AccountRight(c, s.accts, -1, a)
      {
        assert AccountRight(c, s.accts, -1, a) || AccountRight(c, s.accts, n - 1, a);
      }
    }
  }

  lemma CrashKeepsAccounts(c: Chain, s: State, t: State)
    requires ValidChain(c) && AccountsInv(c, s) && CrashStep(c, s, t)
    requires s.head.None? ==> AccountsSafe(c)
    ensures AccountsInv(c, t) || Blocked(c, t)
  {
    CrashKeepsRows(c, s, t);
    if s.head.None? && RowsInv(c, t) && s.rows == {} {
      if a :| a in Alloc(c) && a in s.accts {
        assert LeftAccount(c, t, a);
      } else if GenesisIsDone(s.phase) {
        assert Alloc(c) == map[];
        NothingSavedYet(c, s);
      }
    }
  }

  /** Growth, and the steps of a new process up to its first account. */
  lemma EarlyStepKeepsAccounts(c: Chain, s: State, t: State, step: Step)
    requires ValidChain(c) && AccountsInv(c, s) && NextStep(c, s, t, step) && RowsInv(c, t)
    requires step.Grow? || step.Restart? || step.DeleteRow? || step.TableCleaned? || step.LateFixed?
             || step.NegativeFixed?
    ensures AccountsInv(c, t)
  {
  }

  lemma GenesisStepKeepsAccounts(c: Chain, s: State, t: State, step: Step)
    requires ValidChain(c) && NothingBounded(c) && AccountsInv(c, s) && NextStep(c, s, t, step) && RowsInv(c, t)
    requires step.BeginGenesis? || step.CreateGenesis? || step.SaveGenesis?
    ensures AccountsInv(c, t)
  {
  }

  lemma FixLateKeepsAccounts(c: Chain, s: State, t: State, a: Address)
    requires ValidChain(c) && AccountsInv(c, s) && FixLateStep(c, s, t, a) && RowsInv(c, t)
    ensures AccountsInv(c, t)
  {
    assert Imported(c, HeadNum(s), Row(Block, s.head.value, 0));
  }

  lemma FixNegativeKeepsAccounts(c: Chain, s: State, t: State, a: Address)
    requires ValidChain(c) && AccountsInv(c, s) && FixNegativeStep(c, s, t, a) && RowsInv(c, t)
    ensures AccountsInv(c, t)
  {
    assert Imported(c, HeadNum(s), Row(Block, s.head.value, 0));
    forall b ensures AccountRight(c, t.accts, HeadNum(s), b) {
      assert AccountRight(c, s.accts, HeadNum(s), b);
    }
  }

  /** A repair gives the account the chain's balances at the head. A document that has them already is not saved again,
      and so keeps its last update; no other document is written. */
  lemma RepairIsExact(c: Chain, s: State, t: State, a: Address)
    requires ValidChain(c) && RowsInv(c, s) && (FixLateStep(c, s, t, a) || FixNegativeStep(c, s, t, a))
    ensures var h := s.head.value;
            && t.accts.Keys == s.accts.Keys && a in s.accts
            && t.accts[a].bal == ChainBalance(c, h, a)
            && t.accts[a].lastUpdate == (if s.accts[a].bal == ChainBalance(c, h, a) then s.accts[a].lastUpdate else h)
            && forall x :: x in s.accts && x != a ==> t.accts[x] == s.accts[x]
  {
    assert Imported(c, HeadNum(s), Row(Block, s.head.value, 0));
  }

  lemma StartBlockKeepsAccounts(c: Chain, s: State, t: State)
    requires ValidChain(c) && AccountsInv(c, s) && StartBlockStep(c, s, t) && RowsInv(c, t)
    ensures AccountsInv(c, t)
  {
  }

  lemma TouchKeepsAccounts(c: Chain, s: State, t: State, a: Address)
    requires ValidChain(c) && AccountsInv(c, s) && TouchStep(c, s, t, a) && RowsInv(c, t)
    ensures AccountsInv(c, t)
  {
    var w, h := s.phase.w, HeadNum(s);
    var done := c[w.next].deltas.Keys - s.phase.untouched;
    forall b ensures AccountRight(c, t.accts, h, b) {
      assert AccountRight(c, s.accts, h, b);
    }
    assert c[w.next].deltas.Keys - t.phase.untouched == done + {a};
    assert AccountRight(c, s.accts, h, a);
    assert t.cache[a].bal == ChainBalance(c, w.next, a);
    assert CacheRight(c, h, t.accts, t.cache, w.next, done + {a});
  }

  lemma EndBlockKeepsAccounts(c: Chain, s: State, t: State)
    requires ValidChain(c) && AccountsInv(c, s) && EndBlockStep(c, s, t) && RowsInv(c, t)
    ensures AccountsInv(c, t)
  {
    NextBlockCached(c, HeadNum(s), s.accts, s.cache, s.phase.w.next);
  }

  /** Saving rows leaves the accounts alone. */
  lemma InsertRowKeepsAccounts(c: Chain, s: State, t: State, r: Row)
    requires ValidChain(c) && AccountsInv(c, s) && InsertRowStep(c, s, t, r) && RowsInv(c, t)
    ensures AccountsInv(c, t)
  {
  }

  lemma TableSavedKeepsAccounts(c: Chain, s: State, t: State)
    requires ValidChain(c) && AccountsInv(c, s) && TableSavedStep(c, s, t) && RowsInv(c, t)
    ensures AccountsInv(c, t)
  {
    if t.phase.SavingAccounts? {
      AccountsStart(c, s, t);
    } else if t.phase.SavingTable? {
      FurtherTableKeepsAccounts(c, s, t);
    }
  }

  lemma FurtherTableKeepsAccounts(c: Chain, s: State, t: State)
    requires ValidChain(c) && AccountsInv(c, s) && TableSavedStep(c, s, t) && RowsInv(c, t) && t.phase.SavingTable?
    ensures AccountsInv(c, t)
  {
  }

  lemma AccountsStart(c: Chain, s: State, t: State)
    requires ValidChain(c) && AccountsInv(c, s) && TableSavedStep(c, s, t) && RowsInv(c, t) && t.phase.SavingAccounts?
    ensures AccountsInv(c, t)
  {
    NotCachedIsRight(c, s, s.phase.w.next);
  }

  /** An account that is not cached has not changed. */
  lemma NotCachedIsRight(c: Chain, s: State, next: nat)
    requires HeadNum(s) < next <= |c| && AccountsRight(c, s.accts, HeadNum(s))
    requires CacheRight(c, HeadNum(s), s.accts, s.cache, next, {})
    ensures forall a :: a !in s.cache ==> AccountRight(c, s.accts, next - 1, a)
  {
    forall a | a !in s.cache
      ensures AccountRight(c, s.accts, next - 1, a)
    {
      assert AccountRight(c, s.accts, HeadNum(s), a);
    }
  }

  lemma SaveAccountKeepsAccounts(c: Chain, s: State, t: State, a: Address)
    requires ValidChain(c) && AccountsInv(c, s) && SaveAccountStep(c, s, t, a) && RowsInv(c, t)
    ensures AccountsInv(c, t)
  {
    var w := s.phase.w;
    forall b ensures if b in t.phase.unsaved then AccountRight(c, t.accts, HeadNum(s), b)
                     else AccountRight(c, t.accts, w.next - 1, b) {
      assert if b in s.phase.unsaved then AccountRight(c, s.accts, HeadNum(s), b)
             else AccountRight(c, s.accts, w.next - 1, b);
    }
  }

  lemma AccountsSavedKeepsAccounts(c: Chain, s: State, t: State)
    requires ValidChain(c) && AccountsInv(c, s) && AccountsSavedStep(c, s, t) && RowsInv(c, t)
    ensures AccountsInv(c, t)
  {
  }

  lemma UpdateHeadKeepsAccounts(c: Chain, s: State, t: State)
    requires ValidChain(c) && AccountsInv(c, s) && UpdateHeadStep(c, s, t) && RowsInv(c, t)
    ensures AccountsInv(c, t)
  {
  }

  /** The steps of a round, from its first block to its head. */
  predicate IsImport(step: Step) {
    step.StartBlock? || step.Touch? || step.EndBlock? || step.InsertRow? || step.TableSaved? || step.SaveAccount?
    || step.AccountsSaved? || step.UpdateHead?
  }

  lemma ImportStepKeepsAccounts(c: Chain, s: State, t: State, step: Step)
    requires ValidChain(c) && AccountsInv(c, s) && NextStep(c, s, t, step) && RowsInv(c, t) && IsImport(step)
    ensures AccountsInv(c, t)
  {
    match step
    case StartBlock => StartBlockKeepsAccounts(c, s, t);
    case Touch(a) => TouchKeepsAccounts(c, s, t, a);
    case EndBlock => EndBlockKeepsAccounts(c, s, t);
    case InsertRow(r) => InsertRowKeepsAccounts(c, s, t, r);
    case TableSaved => TableSavedKeepsAccounts(c, s, t);
    case SaveAccount(a) => SaveAccountKeepsAccounts(c, s, t, a);
    case AccountsSaved => AccountsSavedKeepsAccounts(c, s, t);
    case UpdateHead => UpdateHeadKeepsAccounts(c, s, t);
  }

  lemma OtherStepKeepsAccounts(c: Chain, s: State, t: State, step: Step)
    requires ValidChain(c) && AccountsInv(c, s) && NextStep(c, s, t, step) && RowsInv(c, t)
    requires !IsImport(step) && !step.Crash?
    requires s.head.None? ==> NothingBounded(c)
    ensures AccountsInv(c, t)
  {
    if step.FixLate? {
      FixLateKeepsAccounts(c, s, t, step.acct);
    } else if step.FixNegative? {
      FixNegativeKeepsAccounts(c, s, t, step.acct);
    } else if step.BeginRound? {
    } else if step.BeginGenesis? || step.CreateGenesis? || step.SaveGenesis? {
      GenesisStepKeepsAccounts(c, s, t, step);
    } else {
      EarlyStepKeepsAccounts(c, s, t, step);
    }
  }

  /** Once a head is stored nothing spoils the accounts; before, only a crash does, and not if they are safe. */
  lemma StepKeepsAccounts(c: Chain, s: State, t: State, step: Step)
    requires ValidChain(c) && AccountsInv(c, s) && NextStep(c, s, t, step)
    requires s.head.None? ==> AccountsSafe(c)
    ensures AccountsInv(c, t) || (step.Crash? && s.head.None? && Blocked(c, t))
  {
    StepKeepsRows(c, s, t, step);
    if step.Crash? {
      CrashKeepsAccounts(c, s, t);
    } else if IsImport(step) {
      ImportStepKeepsAccounts(c, s, t, step);
    } else {
      OtherStepKeepsAccounts(c, s, t, step);
    }
  }

  // ---------------------------------------------------------------------------
  // Main results
  // ---------------------------------------------------------------------------

  lemma NextKeepsBlocked(c: Chain, s: State, t: State)
    requires ValidChain(c) && Blocked(c, s) && Next(c, s, t)
    ensures Blocked(c, t)
  {
    if TablesBlocked(c, s) {
      var r :| LeftRow(c, s, r);
      NextKeepsLeftRow(c, s, t, r);
    } else {
      var a :| LeftAccount(c, s, a);
      var step :| NextStep(c, s, t, step);
      LeftAccountStays(c, s, t, step, a);
    }
  }

  lemma BlockedHasNoHead(c: Chain, s: State)
    requires ValidChain(c) && Blocked(c, s)
    ensures s.head.None?
  {
  }

  lemma NextKeepsAccounts(c: Chain, s: State, t: State)
    requires ValidChain(c) && (AccountsInv(c, s) || Blocked(c, s)) && Next(c, s, t)
    requires s.head.None? ==> AccountsSafe(c)
    ensures AccountsInv(c, t) || Blocked(c, t)
  {
    if Blocked(c, s) {
      NextKeepsBlocked(c, s, t);
    } else {
      var step :| NextStep(c, s, t, step);
      StepKeepsAccounts(c, s, t, step);
    }
  }

  lemma StartsRight(c: Chain, s: State)
    requires ValidChain(c) && Starts(c, s)
    ensures AccountsInv(c, s)
  {
  }

  /** What every step keeps. */
  ghost predicate AccountsKept(c: Chain, s: State)
    requires ValidChain(c)
  {
    AccountsInv(c, s) || Blocked(c, s)
  }

  lemma StepOfRunKeepsAccounts(c: Chain, run: seq<State>, i: nat)
    requires ValidChain(c) && IsRun(c, run) && 0 < i < |run| && AccountsKept(c, run[i - 1])
    requires run[i - 1].head.None? ==> AccountsSafe(c)
    ensures AccountsKept(c, run[i])
  {
    NextKeepsAccounts(c, run[i - 1], run[i]);
  }

  lemma HeadStays(c: Chain, run: seq<State>, i: nat)
    requires ValidChain(c) && IsRun(c, run) && Starts(c, run[0]) && i < |run|
    ensures run[i].head.None? ==> run[0].head.None?
  {
    HeadNeverDecreases(c, run, 0, i);
  }

  lemma {:induction false} RunsKeepAccounts(c: Chain, run: seq<State>, i: nat)
    requires ValidChain(c) && IsRun(c, run) && Starts(c, run[0]) && i < |run|
    requires run[0].head.None? ==> AccountsSafe(c)
    ensures AccountsKept(c, run[i])
  {
    if i == 0 {
      StartsRight(c, run[0]);
    } else {
      RunsKeepAccounts(c, run, i - 1);
      HeadStays(c, run, i - 1);
      StepOfRunKeepsAccounts(c, run, i);
    }
  }

  /** Account recovery: at every moment the rows that were not saved after the head are right, and once
      the cleanup is done every row is, until the next save. From an empty database this needs the accounts
      to be safe. */
  lemma AccountsRecover(c: Chain, run: seq<State>, i: nat)
    requires ValidChain(c) && IsRun(c, run) && Starts(c, run[0]) && i < |run| && run[i].head.Some?
    requires run[0].head.None? ==> AccountsSafe(c)
    ensures var s := run[i];
            && s.head.value < |c|
            && OldAccountsRight(c, s.accts, s.head.value)
            && (TablesAtRest(s.phase) && !s.phase.FixingLate? ==> AccountsRight(c, s.accts, s.head.value))
  {
    RunsKeepAccounts(c, run, i);
    if Blocked(c, run[i]) {
      BlockedHasNoHead(c, run[i]);
    }
  }
}
