/**
 The PoW importer. Its loop deletes what lies above the head, then imports block by block and stores the
 head after each. The process may die at any await: `budget` is the number of awaits it still survives,
 and every await that touches the database or the node goes through `Survives`.
 */
module PowImport {
  datatype PowBlock = PowBlock(hash: nat, height: nat, txs: seq<nat>)

  type Chain = seq<PowBlock>

  /** Hashes identify blocks, and no transaction is listed twice, in one block or in two. */
  ghost predicate ValidChain(c: Chain) {
    && (forall h :: 0 <= h < |c| ==> c[h].height == h)
    && (forall g, h :: 0 <= g < |c| && 0 <= h < |c| && c[g].hash == c[h].hash ==> g == h)
    && (forall h :: 0 <= h < |c| ==> NoneTwice(c[h].txs))
    && (forall g, h :: 0 <= g < h < |c| ==> NoneInBoth(c[g].txs, c[h].txs))
  }

  type MainChain = c: Chain | ValidChain(c) witness []

  ghost predicate NoneTwice(txs: seq<nat>) {
    forall i, j :: 0 <= i < j < |txs| ==> txs[i] != txs[j]
  }

  ghost predicate NoneInBoth(txs: seq<nat>, others: seq<nat>) {
    forall tx :: tx in txs ==> tx !in others
  }

  /** The pow_block and pow_tx tables; both are unique by hash. */
  datatype Tables = Tables(blocks: map<nat, PowBlock>, txs: set<nat>)

  // ---------------------------------------------------------------------------
  // What holds at every await
  // ---------------------------------------------------------------------------

  /** Every stored block is the chain's block of its height, and is at most one above the head. */
  ghost predicate BlocksOnChain(c: Chain, t: Tables, head: int) {
    forall x :: x in t.blocks ==>
      var b := t.blocks[x];
      1 <= b.height <= head + 1 && b.height < |c| && b == c[b.height] && x == b.hash
  }

  /** The blocks 1 .. head are stored, with all their transactions. */
  ghost predicate ImportedUpTo(c: Chain, t: Tables, head: int)
    requires head < |c|
  {
    forall h :: 1 <= h <= head ==>
      c[h].hash in t.blocks && forall i :: 0 <= i < |c[h].txs| ==> c[h].txs[i] in t.txs
  }

  /** The transaction is listed by a stored block. */
  ghost predicate Listed(t: Tables, tx: nat) {
    exists x :: x in t.blocks && tx in t.blocks[x].txs
  }

  ghost predicate Inv(c: Chain, t: Tables, head: int) {
    && -1 <= head < |c|
    && BlocksOnChain(c, t, head) && ImportedUpTo(c, t, head)
    && forall tx :: tx in t.txs ==> Listed(t, tx)
  }

  /** The tables of an import of blocks 1 .. head and of nothing else. */
  ghost predicate Exactly(c: Chain, t: Tables, head: int)
    requires head < |c|
  {
    && (forall x :: x in t.blocks <==> exists h :: 1 <= h <= head && c[h].hash == x)
    && (forall h :: 1 <= h <= head && c[h].hash in t.blocks ==> t.blocks[c[h].hash] == c[h])
    && (forall tx :: tx in t.txs <==> exists h :: 1 <= h <= head && tx in c[h].txs)
  }

  // ---------------------------------------------------------------------------
  // Each write keeps it
  // ---------------------------------------------------------------------------

  /** Deleting a transaction of a block above the head is safe exactly when no block up to the head lists
      it too. */
  lemma DeleteTxKeepsInvIff(c: Chain, t: Tables, head: int, tx: nat)
    requires Inv(c, t, head)
    ensures Inv(c, t.(txs := t.txs - {tx}), head) <==> forall h :: 1 <= h <= head ==> tx !in c[h].txs
  {
    var s := t.(txs := t.txs - {tx});
    forall x | x in s.txs
      ensures Listed(s, x)
    {
      assert Listed(t, x);
    }
  }

  lemma DeleteTxKeepsInv(c: Chain, t: Tables, head: int, b: PowBlock, tx: nat)
    requires ValidChain(c) && Inv(c, t, head) && b.hash in t.blocks && b == t.blocks[b.hash]
    requires b.height > head && tx in b.txs
    ensures Inv(c, t.(txs := t.txs - {tx}), head)
  {
    assert b == c[b.height];
    forall h | 1 <= h <= head
      ensures tx !in c[h].txs
    {
      assert NoneInBoth(c[h].txs, b.txs);
    }
    DeleteTxKeepsInvIff(c, t, head, tx);
  }

  lemma DeleteBlockKeepsInv(c: Chain, t: Tables, head: int, b: PowBlock)
    requires ValidChain(c) && Inv(c, t, head) && b.hash in t.blocks && b == t.blocks[b.hash]
    requires b.height > head && forall tx :: tx in b.txs ==> tx !in t.txs
    ensures Inv(c, t.(blocks := t.blocks - {b.hash}), head)
  {
    var s := t.(blocks := t.blocks - {b.hash});
    forall x | x in s.txs
      ensures Listed(s, x)
    {
      assert Listed(t, x);
      var y :| y in t.blocks && x in t.blocks[y].txs;
      assert y in s.blocks;
    }
  }

  lemma CreateBlockKeepsInv(c: Chain, t: Tables, head: int)
    requires ValidChain(c) && Inv(c, t, head) && 1 <= head + 1 < |c|
    ensures Inv(c, t.(blocks := t.blocks[c[head + 1].hash := c[head + 1]]), head)
  {
    var b := c[head + 1];
    var s := t.(blocks := t.blocks[b.hash := b]);
    forall x | x in s.txs
      ensures Listed(s, x)
    {
      assert Listed(t, x);
      var y :| y in t.blocks && x in t.blocks[y].txs;
      assert y in s.blocks && s.blocks[y] == t.blocks[y];
    }
  }

  lemma CreateTxKeepsInv(c: Chain, t: Tables, head: int, tx: nat)
    requires Inv(c, t, head) && Listed(t, tx)
    ensures Inv(c, t.(txs := t.txs + {tx}), head)
  {
    var s := t.(txs := t.txs + {tx});
    forall x | x in s.txs
      ensures Listed(s, x)
    {
      assert Listed(t, x);
    }
  }

  ghost predicate NothingAbove(t: Tables, head: int) {
    forall x :: x in t.blocks ==> t.blocks[x].height <= head
  }

  /** With nothing above the head, the tables are exactly the import up to the head. */
  lemma NothingAboveIsExact(c: Chain, t: Tables, head: int)
    requires ValidChain(c) && Inv(c, t, head) && NothingAbove(t, head)
    ensures Exactly(c, t, head)
  {
    forall tx | tx in t.txs
      ensures exists h :: 1 <= h <= head && tx in c[h].txs
    {
      assert Listed(t, tx);
      var x :| x in t.blocks && tx in t.blocks[x].txs;
      assert tx in c[t.blocks[x].height].txs;
    }
    forall x | x in t.blocks
      ensures exists h :: 1 <= h <= head && c[h].hash == x
    {
      assert c[t.blocks[x].height].hash == x;
    }
  }

  // ---------------------------------------------------------------------------
  // One block more
  // ---------------------------------------------------------------------------

  /** Nothing of the next block is there yet. */
  lemma NextIsNew(c: Chain, t: Tables, head: int)
    requires ValidChain(c) && 1 <= head + 1 < |c| && Exactly(c, t, head)
    ensures c[head + 1].hash !in t.blocks && forall tx :: tx in c[head + 1].txs ==> tx !in t.txs
  {
    forall tx | tx in t.txs
      ensures tx !in c[head + 1].txs
    {
      var h :| 1 <= h <= head && tx in c[h].txs;
      assert NoneInBoth(c[h].txs, c[head + 1].txs);
    }
  }

  /** With the next block and its transactions stored, one block more is imported. */
  lemma OneMoreImported(c: Chain, t: Tables, head: int)
    requires ValidChain(c) && Inv(c, t, head) && head + 1 < |c|
    requires head + 1 >= 1 ==> c[head + 1].hash in t.blocks && forall tx :: tx in c[head + 1].txs ==> tx in t.txs
    ensures Inv(c, t, head + 1) && Exactly(c, t, head + 1)
  {
    NothingAboveIsExact(c, t, head + 1);
  }

  // ---------------------------------------------------------------------------
  // How many awaits it takes
  // ---------------------------------------------------------------------------

  /** The deletion of the one block that can be above the head, after its transactions. */
  function CleanAwaits(c: Chain, t: Tables, head: int): nat
    requires -1 <= head < |c|
  {
    if 1 <= head + 1 < |c| && c[head + 1].hash in t.blocks then |c[head + 1].txs| + 1 else 0
  }

  /** The block before and the block's row, and for each transaction the node and its row. */
  function BlockAwaits(b: PowBlock): nat {
    if b.height == 0 then 0 else 2 + 2 * |b.txs|
  }

  /** The blocks `from` to `last`, each fetched before and followed by the head. */
  function ImportAwaits(c: Chain, from: nat, last: int): nat
    requires last < |c|
    decreases last - from
  {
    if last < from then 0 else 2 + BlockAwaits(c[from]) + ImportAwaits(c, from + 1, last)
  }

  const LOOP_WINDOW := 100

  function Target(head: int, best: nat): int {
    if head + LOOP_WINDOW > best then best else head + LOOP_WINDOW
  }

  function RoundAwaits(c: Chain, t: Tables, head: int, best: nat): nat
    requires -1 <= head < |c| && best < |c|
  {
    CleanAwaits(c, t, head) + 1 + ImportAwaits(c, head + 1, Target(head, best))
  }

  /** Enough for a round from any head: what every block could take for its deletion and its import. */
  function Enough(c: Chain, n: nat): nat
    requires n <= |c|
  {
    if n == 0 then 1 else Enough(c, n - 1) + 5 + 3 * |c[n - 1].txs|
  }

  lemma {:induction false} EnoughGrows(c: Chain, n: nat, m: nat)
    requires n <= m <= |c|
    ensures Enough(c, n) <= Enough(c, m)
    ensures n < m ==> Enough(c, n) + 5 + 3 * |c[n].txs| <= Enough(c, m)
    decreases m
  {
    if n < m {
      EnoughGrows(c, n, m - 1);
    }
  }

  lemma {:induction false} ImportTakesLess(c: Chain, from: nat, last: int)
    requires from <= last < |c|
    ensures ImportAwaits(c, from, last) + 1 + |c[from].txs| <= Enough(c, last + 1) - Enough(c, from)
    decreases last - from
  {
    assert Enough(c, from + 1) == Enough(c, from) + 5 + 3 * |c[from].txs|;
    if from < last {
      ImportTakesLess(c, from + 1, last);
    }
  }

  lemma EnoughIsPositive(c: Chain, n: nat)
    requires n <= |c|
    ensures Enough(c, n) >= 1
  {
    EnoughGrows(c, 0, n);
  }

  lemma EnoughIsEnough(c: Chain, t: Tables, head: int, best: nat)
    requires -1 <= head < |c| && best < |c|
    ensures RoundAwaits(c, t, head, best) <= Enough(c, |c|)
  {
    EnoughIsPositive(c, |c|);
    if head + 1 <= Target(head, best) {
      EnoughToImport(c, t, head, Target(head, best));
    } else if head + 1 < |c| {
      EnoughToClean(c, t, head);
    }
  }

  lemma EnoughToImport(c: Chain, t: Tables, head: int, last: int)
    requires -1 <= head < last < |c|
    ensures CleanAwaits(c, t, head) + 1 + ImportAwaits(c, head + 1, last) <= Enough(c, |c|)
  {
    ImportTakesLess(c, head + 1, last);
    EnoughIsPositive(c, head + 1);
    EnoughGrows(c, last + 1, |c|);
    WorkFits(c, t, head, ImportAwaits(c, head + 1, last), Enough(c, head + 1), Enough(c, last + 1));
  }

  lemma EnoughToClean(c: Chain, t: Tables, head: int)
    requires -1 <= head < |c| - 1
    ensures CleanAwaits(c, t, head) + 1 <= Enough(c, |c|)
  {
    EnoughIsPositive(c, head + 1);
    EnoughGrows(c, head + 1, |c|);
    WorkFits(c, t, head, 0, Enough(c, head + 1), Enough(c, |c|));
  }

  lemma WorkFits(c: Chain, t: Tables, head: int, work: nat, before: nat, after: nat)
    requires -1 <= head < |c| - 1 && before >= 1 && work + 1 + |c[head + 1].txs| <= after - before
    ensures CleanAwaits(c, t, head) + 1 + work <= after
  {
  }

  /** Only the block after the head can be stored above the head. */
  lemma OneAbove(c: Chain, t: Tables, head: int)
    requires ValidChain(c) && Inv(c, t, head)
    ensures CleanAwaits(c, t, head) > 0 ==> head + 1 < |c| && t.blocks[c[head + 1].hash] == c[head + 1]
    ensures forall x :: x in t.blocks && t.blocks[x].height > head
                   <==> CleanAwaits(c, t, head) > 0 && x == c[head + 1].hash
  {
  }

  // ---------------------------------------------------------------------------
  // The importer
  // ---------------------------------------------------------------------------

  /** How a stretch of code ends: it runs through, the process dies at an await, or it throws. */
  datatype Outcome = Through | Died | Threw

  class PowCmd {
    const chain: MainChain
    var tables: Tables
    /** The head row; -1 when there is none. */
    var head: int
    var budget: nat

    constructor (chain: MainChain)
      ensures this.chain == chain && Valid() && tables == Tables(map[], {}) && head == -1
    {
      this.chain, tables, head, budget := chain, Tables(map[], {}), -1, 0;
    }

    ghost predicate Valid()
      reads this
    {
      Inv(chain, tables, head)
    }

    method Survives() returns (alive: bool)
      modifies this`budget
      ensures alive <==> old(budget) > 0
      ensures budget == if alive then old(budget) - 1 else 0
    {
      alive := budget > 0;
      if alive {
        budget := budget - 1;
      }
    }

    /** The deletions at the beginning of a round, and how many awaits they take. */
    method CleanUp() returns (alive: bool)
      requires Valid()
      modifies this`tables, this`budget
      ensures Valid()
      ensures alive ==> Exactly(chain, tables, head)
      ensures alive <==> old(budget) >= CleanAwaits(chain, old(tables), head)
      ensures alive ==> budget == old(budget) - CleanAwaits(chain, old(tables), head)
    {
      var future := set x | x in tables.blocks && tables.blocks[x].height > head;
      OneAbove(chain, tables, head);
      while future != {}
        invariant Valid()
        invariant forall x :: x in future <==> x in tables.blocks && tables.blocks[x].height > head
        invariant if future == {} then budget == old(budget) - CleanAwaits(chain, old(tables), head)
                  else tables == old(tables) && budget == old(budget)
        decreases future
      {
        var x :| x in future;
        assert future == {x};
        alive := DeleteBlock(tables.blocks[x]);
        if !alive {
          return;
        }
        future := future - {x};
      }
      NothingAboveIsExact(chain, tables, head);
      alive := true;
    }

    /** A block above the head: its transactions one by one, then its row. */
    method DeleteBlock(b: PowBlock) returns (alive: bool)
      requires Valid() && b.hash in tables.blocks && tables.blocks[b.hash] == b && b.height > head
      modifies this`tables, this`budget
      ensures Valid()
      ensures alive <==> old(budget) >= |b.txs| + 1
      ensures alive ==> budget == old(budget) - |b.txs| - 1 && tables.blocks == old(tables).blocks - {b.hash}
    {
      for i := 0 to |b.txs|
        invariant Valid() && tables.blocks == old(tables).blocks && budget == old(budget) - i
        invariant forall j :: 0 <= j < i ==> b.txs[j] !in tables.txs
      {
        alive := Survives();
        if !alive {
          return;
        }
        DeleteTxKeepsInv(chain, tables, head, b, b.txs[i]);
        tables := tables.(txs := tables.txs - {b.txs[i]});
      }
      alive := Survives();
      if !alive {
        return;
      }
      DeleteBlockKeepsInv(chain, tables, head, b);
      tables := tables.(blocks := tables.blocks - {b.hash});
    }

    /** processBlock: the row of the block, unless it is block 0, then its transactions one by one. The
        unique indexes never refuse one of them. */
    method ProcessBlock(b: PowBlock) returns (outcome: Outcome)
      requires Valid() && 0 <= head + 1 < |chain| && b == chain[head + 1] && Exactly(chain, tables, head)
      modifies this`tables, this`budget
      ensures Valid() && !outcome.Threw?
      ensures outcome.Through? ==> Inv(chain, tables, head + 1) && Exactly(chain, tables, head + 1)
      ensures outcome.Through? <==> old(budget) >= BlockAwaits(b)
      ensures outcome.Through? ==> budget == old(budget) - BlockAwaits(b)
    {
      if b.height > 0 {
        NextIsNew(chain, tables, head);
        outcome := StoreBlock(b);
        if !outcome.Through? {
          return;
        }
      }
      if b.height > 0 && |b.txs| > 0 {
        outcome := StoreTxs(b);
        if !outcome.Through? {
          return;
        }
      }
      OneMoreImported(chain, tables, head);
      return Through;
    }

    /** The previous block is fetched for its hash, and the row is created. */
    method StoreBlock(b: PowBlock) returns (outcome: Outcome)
      requires Valid() && 1 <= head + 1 < |chain| && b == chain[head + 1] && Exactly(chain, tables, head)
      modifies this`tables, this`budget
      ensures Valid() && !outcome.Threw? && tables.txs == old(tables).txs
      ensures outcome.Through? ==> tables == old(tables).(blocks := old(tables).blocks[b.hash := b])
      ensures outcome.Through? <==> old(budget) >= 2
      ensures outcome.Through? ==> budget == old(budget) - 2
    {
      var alive := Survives();
      if !alive {
        return Died;
      }
      alive := Survives();
      if !alive {
        return Died;
      }
      NextIsNew(chain, tables, head);
      if b.hash in tables.blocks {
        return Threw;
      }
      CreateBlock(b);
      return Through;
    }

    method CreateBlock(b: PowBlock)
      requires Valid() && 1 <= head + 1 < |chain| && b == chain[head + 1]
      modifies this`tables
      ensures Valid() && tables == old(tables).(blocks := old(tables).blocks[b.hash := b])
    {
      CreateBlockKeepsInv(chain, tables, head);
      tables := tables.(blocks := tables.blocks[b.hash := b]);
    }

    method StoreTxs(b: PowBlock) returns (outcome: Outcome)
      requires Valid() && 1 <= head + 1 < |chain| && b == chain[head + 1]
      requires b.hash in tables.blocks && tables.blocks[b.hash] == b
      requires forall tx :: tx in b.txs ==> tx !in tables.txs
      modifies this`tables, this`budget
      ensures Valid() && !outcome.Threw? && tables.blocks == old(tables.blocks)
      ensures outcome.Through? ==> forall tx :: tx in tables.txs <==> tx in old(tables.txs) || tx in b.txs
      ensures outcome.Through? <==> old(budget) >= 2 * |b.txs|
      ensures outcome.Through? ==> budget == old(budget) - 2 * |b.txs|
    {
      for i := 0 to |b.txs|
        invariant Valid() && tables.blocks == old(tables.blocks)
        invariant forall tx :: tx in tables.txs <==> tx in old(tables.txs) || tx in b.txs[..i]
        invariant budget == old(budget) - 2 * i
      {
        // the transaction from the node, then its row
        var alive := Survives();
        if !alive {
          return Died;
        }
        alive := Survives();
        if !alive {
          return Died;
        }
        assert NoneTwice(b.txs);
        if b.txs[i] in tables.txs {
          return Threw;
        }
        assert b.txs[i] in tables.blocks[b.hash].txs;
        CreateTxKeepsInv(chain, tables, head, b.txs[i]);
        tables := tables.(txs := tables.txs + {b.txs[i]});
      }
      return Through;
    }

    /** The cleanup, and the question for the best height. */
    method Prepare() returns (alive: bool)
      requires Valid()
      modifies this`tables, this`budget
      ensures Valid()
      ensures alive ==> Exactly(chain, tables, head)
      ensures alive <==> old(budget) >= CleanAwaits(chain, old(tables), head) + 1
      ensures alive ==> budget == old(budget) - CleanAwaits(chain, old(tables), head) - 1
    {
      alive := CleanUp();
      if alive {
        alive := Survives();
      }
    }

    /** One pass of the endless loop, with `best` the node's best height. A pass that is survived imports up
        to the best height, or a window further, and leaves exactly that; and it is survived exactly if the
        process does not die before the awaits it takes. */
    method Round(best: nat) returns (outcome: Outcome)
      requires Valid() && best < |chain|
      modifies this
      ensures Valid() && head >= old(head) && !outcome.Threw?
      ensures outcome.Through? ==> Exactly(chain, tables, head)
      ensures outcome.Through? ==>
                head == if old(head) > Target(old(head), best) then old(head) else Target(old(head), best)
      ensures outcome.Through? <==> old(budget) >= RoundAwaits(chain, old(tables), old(head), best)
    {
      var headNum := head;
      var alive := Prepare();
      if !alive {
        return Died;
      }
      var tgtNum := headNum + LOOP_WINDOW;
      if tgtNum > best {
        tgtNum := best;
      }
      if headNum + 1 > tgtNum {
        return Through;
      }
      alive := ImportBlocks(tgtNum);
      if !alive {
        return Died;
      }
      NothingAboveIsExact(chain, tables, head);
      return Through;
    }

    /** The blocks after the head up to `target`. */
    method ImportBlocks(target: nat) returns (alive: bool)
      requires Valid() && NothingAbove(tables, head) && head < target < |chain|
      modifies this
      ensures Valid() && old(head) <= head
      ensures alive ==> head == target && NothingAbove(tables, head)
      ensures alive ==> old(budget) - budget == ImportAwaits(chain, old(head) + 1, target)
      ensures !alive ==> old(budget) < ImportAwaits(chain, old(head) + 1, target)
    {
      ghost var all := ImportAwaits(chain, head + 1, target);
      for num := head + 1 to target + 1
        invariant Valid() && head == num - 1 && NothingAbove(tables, head)
        invariant old(budget) - budget == all - ImportAwaits(chain, num, target)
      {
        alive := ImportNext(num, target, old(budget), all);
        if !alive {
          return;
        }
      }
      alive := true;
    }

    /** One turn of the loop, of a process that began it with `before` awaits left and needs `all`. */
    method ImportNext(ghost num: nat, ghost target: nat, ghost before: nat, ghost all: nat) returns (alive: bool)
      requires Valid() && NothingAbove(tables, head) && head + 1 == num <= target < |chain|
      requires before - budget == all - ImportAwaits(chain, num, target)
      modifies this
      ensures Valid()
      ensures if alive then head == num && NothingAbove(tables, head) else head == old(head)
      ensures alive ==> before - budget == all - ImportAwaits(chain, num + 1, target)
      ensures !alive ==> before < all
    {
      alive := ImportBlock();
    }

    /** The next block: it is fetched, processed, and the head is stored. Nothing throws on the way. */
    method ImportBlock() returns (alive: bool)
      requires Valid() && NothingAbove(tables, head) && head + 1 < |chain|
      modifies this
      ensures Valid()
      ensures if alive then head == old(head) + 1 && NothingAbove(tables, head) else head == old(head)
      ensures alive <==> old(budget) >= 2 + BlockAwaits(chain[old(head) + 1])
      ensures alive ==> budget == old(budget) - 2 - BlockAwaits(chain[old(head) + 1])
    {
      alive := Survives();
      if !alive {
        return;
      }
      NothingAboveIsExact(chain, tables, head);
      var outcome := ProcessBlock(chain[head + 1]);
      if outcome.Died? {
        return false;
      }
      alive := Survives();
      if !alive {
        return;
      }
      head := head + 1;
    }

    /** Any run: processes that die and are started again, each with the awaits it survives and the best
        height it sees. Every state between two awaits is the last one of such a run. However the processes before
        it died, one that lives long enough gets to its best height, or a window further. */
    method Run(lives: seq<(nat, nat)>)
      requires Valid() && forall i :: 0 <= i < |lives| ==> lives[i].1 < |chain|
      modifies this
      ensures Valid() && head >= old(head)
      ensures lives != [] && lives[|lives| - 1].0 >= Enough(chain, |chain|) ==>
                head >= Target(old(head), lives[|lives| - 1].1) && Exactly(chain, tables, head)
    {
      for i := 0 to |lives|
        invariant Valid() && head >= old(head)
        invariant i > 0 && lives[i - 1].0 >= Enough(chain, |chain|) ==>
                    head >= Target(old(head), lives[i - 1].1) && Exactly(chain, tables, head)
      {
        EnoughIsEnough(chain, tables, head, lives[i].1);
        budget := lives[i].0;
        var outcome := Round(lives[i].1);
      }
    }
  }
}
