/**
 The block cache in front of the node. `Pos.getBlock` looks a block up under two keys, awaits the node
 on a miss, and stores the answer under up to four keys. Any number of calls may be waiting at once, the
 LRU cache may evict anything at any moment, and the chain grows meanwhile.
 */
module BlockCache {
  import opened Common

  /** A block id: its first four bytes are the block number. */
  datatype Id = Id(num: nat, rest: nat)

  datatype Tx = Tx(id: nat, body: nat)

  /** A block with its transactions, or with their ids only. */
  datatype Block = Expanded(number: nat, id: Id, txs: seq<Tx>) | Regular(number: nat, id: Id, txIds: seq<nat>)

  datatype Revision = Best | ByNumber(n: nat) | ById(id: Id)

  /** The cache keys b-e and b-r, followed by a number or an id. */
  datatype Key = NumKey(expanded: bool, n: nat) | IdKey(expanded: bool, id: Id)

  /** The blocks the chain will ever have, expanded. */
  type Chain = seq<Block>

  ghost predicate ValidChain(c: Chain) {
    forall n :: 0 <= n < |c| ==> c[n].Expanded? && c[n].number == n && c[n].id.num == n
  }

  // ---------------------------------------------------------------------------
  // What the node answers
  // ---------------------------------------------------------------------------

  /** The regular form of a block names its transactions, one id for each, in their order. */
  ghost predicate IsRegularOf(r: Block, b: Block) {
    && r.Regular? && b.Expanded? && r.number == b.number && r.id == b.id
    && |r.txIds| == |b.txs| && forall i :: 0 <= i < |b.txs| ==> r.txIds[i] == b.txs[i].id
  }

  ghost predicate IsForm(x: Block, b: Block, expanded: bool) {
    if expanded then x == b else IsRegularOf(x, b)
  }

  /** The node's answer while the chain has `len` blocks. */
  ghost predicate IsAnswer(c: Chain, len: nat, rev: Revision, expanded: bool, answer: Option<Block>)
    requires ValidChain(c) && len <= |c|
  {
    match rev
    case Best => if len == 0 then answer.None? else answer.Some? && IsForm(answer.value, c[len - 1], expanded)
    case ByNumber(n) => if n < len then answer.Some? && IsForm(answer.value, c[n], expanded) else answer.None?
    case ById(id) =>
      if id.num < len && c[id.num].id == id then answer.Some? && IsForm(answer.value, c[id.num], expanded)
      else answer.None?
  }

  /** It has only one answer. */
  lemma AnswersAreUnique(c: Chain, len: nat, rev: Revision, expanded: bool, a: Option<Block>, b: Option<Block>)
    requires ValidChain(c) && len <= |c| && IsAnswer(c, len, rev, expanded, a) && IsAnswer(c, len, rev, expanded, b)
    ensures a == b
  {
    if a.Some? && !expanded {
      assert a.value.txIds == b.value.txIds;
    }
  }

  // ---------------------------------------------------------------------------
  // The two halves of getBlock, before and after the await
  // ---------------------------------------------------------------------------

  function TxIds(txs: seq<Tx>): seq<nat> {
    if txs == [] then [] else [txs[0].id] + TxIds(txs[1..])
  }

  /** The regular form that the cache makes of an expanded block. */
  function Project(b: Block): Block
    requires b.Expanded?
  {
    Regular(b.number, b.id, TxIds(b.txs))
  }

  lemma {:induction false} TxIdsAre(txs: seq<Tx>)
    ensures |TxIds(txs)| == |txs| && forall i :: 0 <= i < |txs| ==> TxIds(txs)[i] == txs[i].id
  {
    if txs != [] {
      TxIdsAre(txs[1..]);
    }
  }

  lemma ProjectIsRegular(b: Block)
    requires b.Expanded?
    ensures IsRegularOf(Project(b), b)
  {
    TxIdsAre(b.txs);
  }

  /** The block found in the cache; an id is first looked up by the number it starts with. */
  function Lookup(cache: map<Key, Block>, rev: Revision, expanded: bool): Option<Block> {
    match rev
    case Best => None
    case ByNumber(n) => if NumKey(expanded, n) in cache then Some(cache[NumKey(expanded, n)]) else None
    case ById(id) =>
      if NumKey(expanded, id.num) in cache then Some(cache[NumKey(expanded, id.num)])
      else if IdKey(expanded, id) in cache then Some(cache[IdKey(expanded, id)])
      else None
  }

  /** The cache after the node's answer; Best is answered past the cache. */
  function Store(cache: map<Key, Block>, rev: Revision, expanded: bool, answer: Option<Block>): map<Key, Block>
    requires answer.Some? ==> answer.value.Expanded? == expanded
  {
    if rev.Best? || answer.None? then cache
    else
      var b := answer.value;
      if expanded then
        cache[NumKey(false, b.number) := Project(b)][IdKey(false, b.id) := Project(b)]
             [NumKey(true, b.number) := b][IdKey(true, b.id) := b]
      else cache[NumKey(false, b.number) := b][IdKey(false, b.id) := b]
  }

  /** The block can be found by number and by id in the form it came in, an expanded one in its regular form too, and
      no other entry has changed. */
  ghost predicate Written(before: map<Key, Block>, after: map<Key, Block>, expanded: bool, b: Block) {
    var same := {NumKey(expanded, b.number), IdKey(expanded, b.id)};
    var other := {NumKey(false, b.number), IdKey(false, b.id)};
    && (forall k :: k in same ==> k in after && after[k] == b)
    && (expanded ==> forall k :: k in other ==> k in after && IsRegularOf(after[k], b))
    && after - (same + other) == before - (same + other)
  }

  lemma StoreWrites(cache: map<Key, Block>, rev: Revision, expanded: bool, answer: Option<Block>)
    requires answer.Some? && answer.value.Expanded? == expanded && !rev.Best?
    ensures Written(cache, Store(cache, rev, expanded, answer), expanded, answer.value)
  {
    if expanded {
      ProjectIsRegular(answer.value);
    }
  }

  /** A stored block is found afterwards, by its id also when its number has been evicted. */
  lemma StoredIsFound(cache: map<Key, Block>, rev: Revision, expanded: bool, answer: Option<Block>)
    requires answer.Some? && answer.value.Expanded? == expanded && !rev.Best?
    requires answer.value.id.num == answer.value.number
    ensures var t, b := Store(cache, rev, expanded, answer), answer.value;
            && Lookup(t, ByNumber(b.number), expanded) == answer && Lookup(t, ById(b.id), expanded) == answer
            && Lookup(t - {NumKey(expanded, b.number)}, ById(b.id), expanded) == answer
            && (expanded ==>
                  var found := Lookup(t, ByNumber(b.number), false);
                  found.Some? && IsRegularOf(found.value, b) && Lookup(t, ById(b.id), false) == found)
  {
    StoreWrites(cache, rev, expanded, answer);
  }

  class Pos {
    var cache: map<Key, Block>

    constructor ()
      ensures cache == map[]
    {
      cache := map[];
    }

    /** What is found is what a node with the blocks of any chain that the cache is coherent with would answer,
        for the revisions on that chain and for no others. */
    method FromCache(rev: Revision, expanded: bool, ghost c: Chain, ghost len: nat) returns (b: Option<Block>)
      ensures b == Lookup(cache, rev, expanded)
      ensures ValidChain(c) && len <= |c| && Coherent(c, len, cache) && b.Some? ==>
                (IsAnswer(c, len, rev, expanded, b) <==> OnChain(c, rev))
    {
      if ValidChain(c) && len <= |c| && Coherent(c, len, cache) && Lookup(cache, rev, expanded).Some? {
        HitIsFetchIff(c, len, cache, rev, expanded);
      }
      match rev {
        case Best => return None;
        case ByNumber(n) =>
          var key := NumKey(expanded, n);
          return if key in cache then Some(cache[key]) else None;
        case ById(id) =>
          var key, idKey := NumKey(expanded, id.num), IdKey(expanded, id);
          if key in cache {
            return Some(cache[key]);
          } else if idKey in cache {
            return Some(cache[idKey]);
          }
          return None;
      }
    }

    method ToCache(rev: Revision, expanded: bool, answer: Option<Block>)
      requires answer.Some? ==> answer.value.Expanded? == expanded
      modifies this
      ensures cache == Store(old(cache), rev, expanded, answer)
      ensures !rev.Best? && answer.Some? ==> Written(old(cache), cache, expanded, answer.value)
    {
      if !rev.Best? && answer.Some? {
        StoreWrites(cache, rev, expanded, answer);
      }
      if rev.Best? {
        return;
      }
      if answer.Some? {
        var b := answer.value;
        if expanded {
          var txIds := [];
          for i := 0 to |b.txs|
            invariant TxIds(b.txs) == txIds + TxIds(b.txs[i..])
          {
            assert b.txs[i..][1..] == b.txs[i + 1..];
            txIds := txIds + [b.txs[i].id];
          }
          assert b.txs[|b.txs|..] == [] && TxIds(b.txs) == txIds;
          var regular := Regular(b.number, b.id, txIds);
          cache := cache[NumKey(false, b.number) := regular];
          cache := cache[IdKey(false, b.id) := regular];
          cache := cache[NumKey(true, b.number) := b];
          cache := cache[IdKey(true, b.id) := b];
        } else {
          cache := cache[NumKey(false, b.number) := b];
          cache := cache[IdKey(false, b.id) := b];
        }
      }
    }
  }

  // ---------------------------------------------------------------------------
  // Many calls at once
  // ---------------------------------------------------------------------------

  /** A call that missed the cache: waiting for the node, or answered but not yet resumed. */
  datatype Call = Call(rev: Revision, expanded: bool, answer: Option<Option<Block>>)

  /** A value getBlock has returned, with the length of the chain when it was decided. */
  datatype Returned = Returned(rev: Revision, expanded: bool, result: Option<Block>, len: nat)

  datatype State = State(len: nat, cache: map<Key, Block>, calls: multiset<Call>, log: seq<Returned>)

  datatype Step =
    | Grow
    | Evict(key: Key)
    | Hit(rev: Revision, expanded: bool)
    | Miss(rev: Revision, expanded: bool)
    | Answer(call: Call, answer: Option<Block>)
    | Resume(call: Call, len: nat)

  ghost predicate Next(c: Chain, s: State, t: State, step: Step)
    requires ValidChain(c) && s.len <= |c|
  {
    match step
    case Grow => s.len < |c| && t == s.(len := s.len + 1)
    case Evict(k) => t == s.(cache := s.cache - {k})
    case Hit(rev, e) =>
      var found := Lookup(s.cache, rev, e);
      found.Some? && t == s.(log := s.log + [Returned(rev, e, found, s.len)])
    case Miss(rev, e) => Lookup(s.cache, rev, e).None? && t == s.(calls := s.calls + multiset{Call(rev, e, None)})
    case Answer(k, answer) =>
      && k in s.calls && k.answer.None? && IsAnswer(c, s.len, k.rev, k.expanded, answer)
      && t == s.(calls := s.calls - multiset{k} + multiset{k.(answer := Some(answer))})
    case Resume(k, len) =>
      // `len` is the length of the chain when the node answered
      && k in s.calls && k.answer.Some? && len <= s.len && IsAnswer(c, len, k.rev, k.expanded, k.answer.value)
      && t == s.(cache := Store(s.cache, k.rev, k.expanded, k.answer.value), calls := s.calls - multiset{k},
                 log := s.log + [Returned(k.rev, k.expanded, k.answer.value, len)])
  }

  /** Every entry is a block the chain has, in the form of its key; nothing absent is cached. */
  ghost predicate Coherent(c: Chain, len: nat, cache: map<Key, Block>)
    requires ValidChain(c) && len <= |c|
  {
    forall k :: k in cache ==>
      match k
      case NumKey(e, n) => n < len && IsForm(cache[k], c[n], e)
      case IdKey(e, id) => id.num < len && c[id.num].id == id && IsForm(cache[k], c[id.num], e)
  }

  predicate OnChain(c: Chain, rev: Revision)
    requires ValidChain(c)
  {
    rev.ById? ==> rev.id.num < |c| && c[rev.id.num].id == rev.id
  }

  ghost predicate Inv(c: Chain, s: State)
    requires ValidChain(c)
  {
    && s.len <= |c| && Coherent(c, s.len, s.cache)
    && (forall k :: k in s.calls && k.answer.Some? ==> AnsweredAt(c, s.len, k))
    && (forall r :: r in s.log ==>
          r.len <= s.len && (OnChain(c, r.rev) ==> IsAnswer(c, r.len, r.rev, r.expanded, r.result)))
  }

  ghost predicate AnsweredAt(c: Chain, now: nat, k: Call)
    requires ValidChain(c) && now <= |c| && k.answer.Some?
  {
    exists len: nat :: len <= now && IsAnswer(c, len, k.rev, k.expanded, k.answer.value)
  }

  /** A hit is what the node would answer now, exactly when the revision is not a foreign id: the id of a
      block that is not on the chain, with the number of one that is cached. */
  lemma HitIsFetchIff(c: Chain, len: nat, cache: map<Key, Block>, rev: Revision, expanded: bool)
    requires ValidChain(c) && len <= |c| && Coherent(c, len, cache) && Lookup(cache, rev, expanded).Some?
    ensures IsAnswer(c, len, rev, expanded, Lookup(cache, rev, expanded)) <==> OnChain(c, rev)
  {
  }

  lemma StoreKeepsCoherent(c: Chain, len: nat, now: nat, cache: map<Key, Block>, rev: Revision, expanded: bool,
                           answer: Option<Block>)
    requires ValidChain(c) && len <= now <= |c| && Coherent(c, now, cache) && IsAnswer(c, len, rev, expanded, answer)
    ensures Coherent(c, now, Store(cache, rev, expanded, answer))
  {
    if answer.Some? && expanded {
      ProjectIsRegular(answer.value);
    }
  }

  lemma StepKeepsInv(c: Chain, s: State, t: State, step: Step)
    requires ValidChain(c) && Inv(c, s) && Next(c, s, t, step)
    ensures Inv(c, t)
  {
    match step
    case Grow =>
      forall k | k in t.calls && k.answer.Some?
        ensures AnsweredAt(c, t.len, k)
      {
        assert AnsweredAt(c, s.len, k);
      }
    case Evict(k) =>
    case Hit(rev, e) => HitIsFetchIff(c, s.len, s.cache, rev, e);
    case Miss(rev, e) =>
    case Answer(_, _) =>
    case Resume(k, len) => StoreKeepsCoherent(c, len, s.len, s.cache, k.rev, k.expanded, k.answer.value);
  }

  ghost predicate Steps(c: Chain, s: State, t: State)
    requires ValidChain(c)
  {
    s.len <= |c| && exists step :: Next(c, s, t, step)
  }

  ghost predicate IsRun(c: Chain, run: seq<State>)
    requires ValidChain(c)
  {
    && run != [] && run[0].len <= |c| && run[0].cache == map[] && run[0].calls == multiset{} && run[0].log == []
    && forall i :: 0 < i < |run| ==> Steps(c, run[i - 1], run[i])
  }

  lemma {:induction false} RunKeepsInv(c: Chain, run: seq<State>, i: nat)
    requires ValidChain(c) && IsRun(c, run) && i < |run|
    ensures Inv(c, run[i])
  {
    if i > 0 {
      RunKeepsInv(c, run, i - 1);
      assert Steps(c, run[i - 1], run[i]);
      var step :| Next(c, run[i - 1], run[i], step);
      StepKeepsInv(c, run[i - 1], run[i], step);
    }
  }

  /** The main result: under any interleaving, everything getBlock returns for a number, for the best
      block or for an id on the chain is what the node would have answered. */
  lemma EveryReturnIsAFetch(c: Chain, run: seq<State>, i: nat, r: Returned)
    requires ValidChain(c) && IsRun(c, run) && i < |run| && r in run[i].log && OnChain(c, r.rev)
    ensures r.len <= run[i].len <= |c| && IsAnswer(c, r.len, r.rev, r.expanded, r.result)
  {
    RunKeepsInv(c, run, i);
  }

  /** Whenever a block is cached in both forms, the regular one names the transactions of the expanded one. */
  lemma FormsAgree(c: Chain, run: seq<State>, i: nat, n: nat)
    requires ValidChain(c) && IsRun(c, run) && i < |run|
    requires NumKey(true, n) in run[i].cache && NumKey(false, n) in run[i].cache
    ensures IsRegularOf(run[i].cache[NumKey(false, n)], run[i].cache[NumKey(true, n)])
  {
    RunKeepsInv(c, run, i);
  }

  /** A foreign id does reach a cached block: the cache answers with the chain's block of that number,
      the node with nothing. */
  lemma ForeignIdHits(c: Chain, len: nat, id: Id, expanded: bool, answer: Option<Block>)
    requires ValidChain(c) && id.num < len <= |c| && c[id.num].id != id
    requires IsAnswer(c, len, ByNumber(id.num), expanded, answer)
    ensures var cache := Store(map[], ByNumber(id.num), expanded, answer);
            && Coherent(c, len, cache)
            && Lookup(cache, ById(id), expanded) == answer && answer.Some?
            && IsAnswer(c, len, ById(id), expanded, None)
  {
    StoreKeepsCoherent(c, len, len, map[], ByNumber(id.num), expanded, answer);
  }
}
