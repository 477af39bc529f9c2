/**
 The PoS importer as a state machine. Every awaited write is a step of its own, down to the single
 document: a bulk insert saves its documents one by one, in any order. `Crash` may happen between any
 two steps; `Restart` begins with empty caches and, when a head is stored, with the cleanup.

 A chain is the list of blocks the node will ever report; `best` says how many are there already.
 */
module PosImport {
  import opened Common

  /** The tables whose rows carry a block number and are deleted above the head by the cleanup. */
  datatype Table = Movement | Tx | LogEvent | LogTransfer | TxDigest | Bound | Unbound | InternalTx | Block

  /** A row: its table, the number of its block, and what the table's unique index identifies it by. */
  datatype Row = Row(table: Table, num: nat, id: nat)

  function Add(a: Balance, b: Balance): Balance {
    Balance(a.mtr + b.mtr, a.mtrg + b.mtrg, a.mtrBounded + b.mtrBounded, a.mtrgBounded + b.mtrgBounded)
  }

  predicate IsNegative(b: Balance) {
    b.mtr < 0 || b.mtrg < 0 || b.mtrBounded < 0 || b.mtrgBounded < 0
  }

  /** What importing a block produces: its rows, its transaction hashes, and per touched account the
      change of its balances. `alloc` is what accounts have before the first block; only that of block 0
      matters. */
  datatype BlockData = BlockData(rows: set<Row>, txs: seq<nat>, deltas: map<Address, Balance>,
                                 alloc: map<Address, Balance>)

  type Chain = seq<BlockData>

  predicate ValidChain(c: Chain) {
    forall n :: 0 <= n < |c| ==>
      && Row(Block, n, 0) in c[n].rows
      && (forall r :: r in c[n].rows ==> r.num == n && (r.table == Block ==> r.id == 0))
      && (forall i :: 0 <= i < |c[n].txs| ==> Row(Tx, n, c[n].txs[i]) in c[n].rows)
  }

  /** The accounts that exist before the first block. */
  function Alloc(c: Chain): map<Address, Balance> {
    if |c| > 0 then c[0].alloc else map[]
  }

  /** The balances of an account on the chain right after block `h`; before block 0 they are the allocated ones. */
  function ChainBalance(c: Chain, h: int, a: Address): Balance
    requires h < |c|
    decreases h + 1
  {
    if h < 0 then (if a in Alloc(c) then Alloc(c)[a] else ZERO_BALANCE)
    else if a in c[h].deltas then Add(ChainBalance(c, h - 1, a), c[h].deltas[a])
    else ChainBalance(c, h - 1, a)
  }

  /** The rows of a fault-free import of blocks 0 .. h. */
  predicate Imported(c: Chain, h: int, r: Row) {
    r.num <= h && r.num < |c| && r in c[r.num].rows
  }

  const TABLES := 9

  /** The position of a table in saveCacheToDB; the accounts are saved between InternalTx and Block. */
  function SaveOrder(t: Table): (k: nat)
    ensures k < TABLES
  {
    match t
    case Movement => 0
    case Tx => 1
    case LogEvent => 2
    case LogTransfer => 3
    case TxDigest => 4
    case Bound => 5
    case Unbound => 6
    case InternalTx => 7
    case Block => 8
  }

  /** The position of a table in cleanUpIncompleteData. */
  function CleanOrder(t: Table): (k: nat)
    ensures k < TABLES
  {
    match t
    case Block => 0
    case Tx => 1
    case LogEvent => 2
    case LogTransfer => 3
    case Bound => 4
    case Unbound => 5
    case TxDigest => 6
    case Movement => 7
    case InternalTx => 8
  }

  const LOOP_WINDOW := 100

  /** The blocks of a round: `next` is the next one to fetch and `end` the last one. */
  datatype Window = Window(next: nat, end: nat, fastforward: bool)

  datatype Phase =
    | Down
    | Cleaning(cleaned: nat)
    | FixingLate(late: set<Address>)
    | FixingNegative(negative: set<Address>)
    | Waiting
    | Genesis(left: set<Address>, made: Option<Address>)
    | Importing(w: Window)
    | Touching(w: Window, untouched: set<Address>)
    | SavingTable(w: Window, k: nat, unsavedRows: set<Row>)
    | SavingAccounts(w: Window, unsaved: set<Address>)
    | SavingHead(w: Window)

  /** Past processGenesis and within a round. */
  predicate GenesisIsDone(p: Phase) {
    p.Importing? || p.Touching? || p.SavingTable? || p.SavingAccounts? || p.SavingHead?
  }

  /** `rows`, `accts` and `head` are the database, `cache` and `phase` the process. The blocks held in
      the caches are those from head + 1 up to `phase.w.next`, exclusively. */
  datatype State = State(rows: set<Row>, accts: map<Address, Acct>, head: Option<nat>, best: nat,
                         cache: map<Address, Acct>, phase: Phase)

  function HeadNum(s: State): int {
    if s.head.Some? then s.head.value else -1
  }

  datatype Step =
    | Grow
    | Crash
    | Restart
    | DeleteRow(row: Row)
    | TableCleaned
    | FixLate(acct: Address)
    | LateFixed
    | FixNegative(acct: Address)
    | NegativeFixed
    | BeginGenesis
    | CreateGenesis(acct: Address)
    | SaveGenesis
    | BeginRound
    | StartBlock
    | Touch(acct: Address)
    | EndBlock
    | InsertRow(row: Row)
    | TableSaved
    | SaveAccount(acct: Address)
    | AccountsSaved
    | UpdateHead

  function Late(s: State): set<Address> {
    set a | a in s.accts && s.accts[a].lastUpdate > HeadNum(s)
  }

  function Negatives(s: State): set<Address> {
    set a | a in s.accts && IsNegative(s.accts[a].bal)
  }

  /** fixAccount: without the head's block row it only warns. */
  function Fixed(c: Chain, s: State, a: Address): map<Address, Acct>
    requires s.head.Some? && s.head.value < |c| && a in s.accts
  {
    var onChain := ChainBalance(c, s.head.value, a);
    if Row(Block, s.head.value, 0) in s.rows && s.accts[a].bal != onChain
    then s.accts[a := Acct(onChain, s.head.value)]
    else s.accts
  }

  /** setDefault: the cached account, else the stored one, else a new one with zero balances. */
  function Default(s: State, a: Address, num: nat): Acct {
    if a in s.cache then s.cache[a]
    else if a in s.accts then s.accts[a]
    else Acct(ZERO_BALANCE, num)
  }

  /** The cached documents of table `k` for the blocks from .. to-1. */
  function WindowRows(c: Chain, from: nat, to: nat, k: nat): (rows: set<Row>)
    requires ValidChain(c) && to <= |c|
    ensures forall r :: r in rows <==> from <= r.num < to && r in c[r.num].rows && SaveOrder(r.table) == k
  {
    if to <= from then {}
    else WindowRows(c, from, to - 1, k) + set r | r in c[to - 1].rows && SaveOrder(r.table) == k
  }

  /** The chain gets longer. */
  ghost predicate GrowStep(c: Chain, s: State, t: State)
    requires ValidChain(c)
  {
    s.best + 1 < |c| && t == s.(best := s.best + 1)
  }

  /** The process dies: what it held in memory is gone. */
  ghost predicate CrashStep(c: Chain, s: State, t: State)
    requires ValidChain(c)
  {
    t == s.(phase := Down, cache := map[])
  }

  /** A new process starts, and cleans up when a head is stored. */
  ghost predicate RestartStep(c: Chain, s: State, t: State)
    requires ValidChain(c)
  {
    s.phase.Down? && t == s.(phase := if s.head.Some? then Cleaning(0) else Waiting)
  }

  /** One row of a deleteMany above the head. */
  ghost predicate DeleteRowStep(c: Chain, s: State, t: State, r: Row)
    requires ValidChain(c)
  {
    var h := HeadNum(s);
    && s.phase.Cleaning? && r in s.rows && CleanOrder(r.table) == s.phase.cleaned && r.num > h
    && t == s.(rows := s.rows - {r})
  }

  ghost predicate TableCleanedStep(c: Chain, s: State, t: State)
    requires ValidChain(c)
  {
    var h := HeadNum(s);
    && s.phase.Cleaning?
    && (forall r :: r in s.rows && CleanOrder(r.table) == s.phase.cleaned ==> r.num <= h)
    && t == s.(phase := if s.phase.cleaned + 1 < TABLES then Cleaning(s.phase.cleaned + 1) else FixingLate(Late(s)))
  }

  /** fixAccount on an account that was saved after the head. */
  ghost predicate FixLateStep(c: Chain, s: State, t: State, a: Address)
    requires ValidChain(c)
  {
    var h := HeadNum(s);
    && s.phase.FixingLate? && a in s.phase.late && a in s.accts && s.head.Some? && h < |c|
    && t == s.(accts := Fixed(c, s, a), phase := FixingLate(s.phase.late - {a}))
  }

  ghost predicate LateFixedStep(c: Chain, s: State, t: State)
    requires ValidChain(c)
  {
    && s.phase.FixingLate? && s.phase.late == {}
    && t == s.(phase := FixingNegative(Negatives(s)))
  }

  /** fixAccount on an account with a negative field. */
  ghost predicate FixNegativeStep(c: Chain, s: State, t: State, a: Address)
    requires ValidChain(c)
  {
    var h := HeadNum(s);
    && s.phase.FixingNegative? && a in s.phase.negative && a in s.accts && s.head.Some? && h < |c|
    && t == s.(accts := Fixed(c, s, a), phase := FixingNegative(s.phase.negative - {a}))
  }

  ghost predicate NegativeFixedStep(c: Chain, s: State, t: State)
    requires ValidChain(c)
  {
    && s.phase.FixingNegative? && s.phase.negative == {}
    && t == s.(phase := Waiting)
  }

  /** Without a head every round begins with processGenesis. */
  ghost predicate BeginGenesisStep(c: Chain, s: State, t: State)
    requires ValidChain(c)
  {
    s.phase.Waiting? && s.head.None? && t == s.(phase := Genesis(Alloc(c).Keys, None))
  }

  /** The row of an allocated account is created with zero balances; the unique index refuses a second one. */
  ghost predicate CreateGenesisStep(c: Chain, s: State, t: State, a: Address)
    requires ValidChain(c)
  {
    && s.phase.Genesis? && s.phase.made.None? && a in s.phase.left && a !in s.accts
    && t == s.(accts := s.accts[a := Acct(ZERO_BALANCE, 0)], phase := Genesis(s.phase.left - {a}, Some(a)))
  }

  /** Then it is saved with the chain's balances, but not with what is bounded. */
  ghost predicate SaveGenesisStep(c: Chain, s: State, t: State)
    requires ValidChain(c)
  {
    && s.phase.Genesis? && s.phase.made.Some? && s.phase.made.value in Alloc(c)
    && var a := s.phase.made.value;
       t == s.(accts := s.accts[a := Acct(Balance(Alloc(c)[a].mtr, Alloc(c)[a].mtrg, 0, 0), 0)],
               phase := Genesis(s.phase.left, None))
  }

  /** Read the head and the best block and fix the range of the round. */
  ghost predicate BeginRoundStep(c: Chain, s: State, t: State)
    requires ValidChain(c)
  {
    var h := HeadNum(s);
    var end := if h + LOOP_WINDOW > s.best then s.best else h + LOOP_WINDOW;
    && (if s.head.Some? then s.phase.Waiting? else s.phase == Genesis({}, None))
    && h < end
    && t == s.(phase := Importing(Window(h + 1, end, end < s.best)))
  }

  ghost predicate StartBlockStep(c: Chain, s: State, t: State)
    requires ValidChain(c)
  {
    && s.phase.Importing?
    && var w := s.phase.w;
       && w.next <= w.end && w.next < |c|
       && t == s.(phase := Touching(w, c[w.next].deltas.Keys))
  }

  /** Load or create one account of the block and apply its change. */
  ghost predicate TouchStep(c: Chain, s: State, t: State, a: Address)
    requires ValidChain(c)
  {
    && s.phase.Touching? && a in s.phase.untouched
    && var w := s.phase.w;
       && w.next < |c| && a in c[w.next].deltas
       && var acct := Default(s, a, w.next);
          t == s.(accts := if a in s.cache then s.accts else s.accts[a := acct],
                  cache := s.cache[a := Acct(Add(acct.bal, c[w.next].deltas[a]), w.next)],
                  phase := Touching(w, s.phase.untouched - {a}))
  }

  /** The block is in the caches: save it now, or in fast-forward mode at the end of the round. */
  ghost predicate EndBlockStep(c: Chain, s: State, t: State)
    requires ValidChain(c)
  {
    var h := HeadNum(s);
    && s.phase.Touching? && s.phase.untouched == {}
    && var w := s.phase.w.(next := s.phase.w.next + 1);
       && w.next <= |c|
       && t == s.(phase := if w.fastforward && w.next <= w.end then Importing(w)
                           else SavingTable(w, 0, WindowRows(c, h + 1, w.next, 0)))
  }

  /** One document of a bulk insert; the unique index refuses a second one. */
  ghost predicate InsertRowStep(c: Chain, s: State, t: State, r: Row)
    requires ValidChain(c)
  {
    && s.phase.SavingTable? && r in s.phase.unsavedRows && r !in s.rows
    && t == s.(rows := s.rows + {r}, phase := SavingTable(s.phase.w, s.phase.k, s.phase.unsavedRows - {r}))
  }

  ghost predicate TableSavedStep(c: Chain, s: State, t: State)
    requires ValidChain(c)
  {
    var h := HeadNum(s);
    && s.phase.SavingTable? && s.phase.unsavedRows == {}
    && var w, k := s.phase.w, s.phase.k;
       && w.next <= |c|
       && t == s.(phase := if k == SaveOrder(InternalTx) then SavingAccounts(w, s.cache.Keys)
                           else if k == SaveOrder(Block) then SavingHead(w)
                           else SavingTable(w, k + 1, WindowRows(c, h + 1, w.next, k + 1)))
  }

  /** One account document of the concurrent save. */
  ghost predicate SaveAccountStep(c: Chain, s: State, t: State, a: Address)
    requires ValidChain(c)
  {
    && s.phase.SavingAccounts? && a in s.phase.unsaved && a in s.cache
    && t == s.(accts := s.accts[a := s.cache[a]], phase := SavingAccounts(s.phase.w, s.phase.unsaved - {a}))
  }

  ghost predicate AccountsSavedStep(c: Chain, s: State, t: State)
    requires ValidChain(c)
  {
    var h := HeadNum(s);
    && s.phase.SavingAccounts? && s.phase.unsaved == {}
    && var w := s.phase.w;
       && w.next <= |c|
       && t == s.(phase := SavingTable(w, SaveOrder(Block), WindowRows(c, h + 1, w.next, SaveOrder(Block))))
  }

  /** The head is written last; then the caches are emptied. */
  ghost predicate UpdateHeadStep(c: Chain, s: State, t: State)
    requires ValidChain(c)
  {
    && s.phase.SavingHead?
    && var w := s.phase.w;
       && w.next > 0
       && t == s.(head := Some(w.next - 1), cache := map[],
                  phase := if !w.fastforward && w.next <= w.end then Importing(w) else Waiting)
  }

  ghost predicate NextStep(c: Chain, s: State, t: State, step: Step)
    requires ValidChain(c)
  {
    match step
    case Grow => GrowStep(c, s, t)
    case Crash => CrashStep(c, s, t)
    case Restart => RestartStep(c, s, t)
    case DeleteRow(r) => DeleteRowStep(c, s, t, r)
    case TableCleaned => TableCleanedStep(c, s, t)
    case FixLate(a) => FixLateStep(c, s, t, a)
    case LateFixed => LateFixedStep(c, s, t)
    case FixNegative(a) => FixNegativeStep(c, s, t, a)
    case NegativeFixed => NegativeFixedStep(c, s, t)
    case BeginGenesis => BeginGenesisStep(c, s, t)
    case CreateGenesis(a) => CreateGenesisStep(c, s, t, a)
    case SaveGenesis => SaveGenesisStep(c, s, t)
    case BeginRound => BeginRoundStep(c, s, t)
    case StartBlock => StartBlockStep(c, s, t)
    case Touch(a) => TouchStep(c, s, t, a)
    case EndBlock => EndBlockStep(c, s, t)
    case InsertRow(r) => InsertRowStep(c, s, t, r)
    case TableSaved => TableSavedStep(c, s, t)
    case SaveAccount(a) => SaveAccountStep(c, s, t, a)
    case AccountsSaved => AccountsSavedStep(c, s, t)
    case UpdateHead => UpdateHeadStep(c, s, t)
  }

  ghost predicate Next(c: Chain, s: State, t: State)
    requires ValidChain(c)
  {
    exists step :: NextStep(c, s, t, step)
  }

  ghost predicate IsRun(c: Chain, run: seq<State>)
    requires ValidChain(c)
  {
    run != [] && forall i :: 0 < i < |run| ==> Next(c, run[i - 1], run[i])
  }

  // ---------------------------------------------------------------------------
  // Where runs begin
  // ---------------------------------------------------------------------------

  /** A database at rest: a head is stored, the tables and the accounts are those of the chain at it. */
  ghost predicate AtRest(c: Chain, s: State)
    requires ValidChain(c)
  {
    && s.phase.Down? && s.cache == map[] && s.head.Some? && s.head.value <= s.best < |c|
    && (forall r :: r in s.rows <==> Imported(c, s.head.value, r))
    && AccountsRight(c, s.accts, s.head.value)
  }

  /** A new database. */
  function Empty(best: nat): State {
    State({}, map[], None, best, map[], Down)
  }

  ghost predicate Starts(c: Chain, s: State)
    requires ValidChain(c)
  {
    AtRest(c, s) || (s.best < |c| && s == Empty(s.best))
  }

  /** The stored account is right after block `n`: a missing row stands for zero balances. */
  ghost predicate AccountRight(c: Chain, accts: map<Address, Acct>, n: int, a: Address)
    requires n < |c|
  {
    (if a in accts then accts[a].bal else ZERO_BALANCE) == ChainBalance(c, n, a)
  }

  ghost predicate AccountsRight(c: Chain, accts: map<Address, Acct>, n: int)
    requires n < |c|
  {
    forall a :: AccountRight(c, accts, n, a)
  }
}
