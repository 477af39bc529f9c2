/**
 The NFT write-back cache as written: two maps from keys to record objects, whose owner and value are
 changed in place. Each method is proved against the operation of the same name in `NftState`.
 */
module NftCache {
  import opened Common
  import opened NftState

  /** A cached record or a loaded document. */
  class Record {
    const kind: Kind
    const address: Address
    const tokenId: nat
    const block: nat
    const home: Option<Slot>
    var owner: Address
    var value: int

    constructor (n: Nft)
      ensures Data() == n
    {
      kind, address, tokenId, block, home := n.kind, n.address, n.tokenId, n.block, n.home;
      owner, value := n.owner, n.value;
    }

    function Data(): Nft
      reads this
    {
      Nft(kind, address, tokenId, block, owner, value, home)
    }
  }

  class Cache {
    var minted: map<Key, Record>
    var updated: map<Key, Record>
    var rows: map<Slot, Nft>
    ghost var objects: set<Record>

    constructor (rows: map<Slot, Nft>)
      ensures Valid() && Abs() == State(map[], map[], rows) && objects == {}
    {
      minted, updated, this.rows, objects := map[], map[], rows, {};
    }

    /** No two keys share an object; `objects` are the records the cache has ever held. */
    ghost predicate Valid()
      reads this
    {
      && (forall k, k' :: k in minted && k' in minted && minted[k] == minted[k'] ==> k == k')
      && (forall k, k' :: k in updated && k' in updated && updated[k] == updated[k'] ==> k == k')
      && (forall k, k' :: k in minted && k' in updated ==> minted[k] != updated[k'])
      && (forall k :: k in minted ==> minted[k] in objects)
      && (forall k :: k in updated ==> updated[k] in objects)
    }

    ghost function Abs(): State
      reads this, objects
      requires Valid()
    {
      State(map k | k in minted :: minted[k].Data(), map k | k in updated :: updated[k].Data(), rows)
    }

    /** findByIDWithOwner: every call loads a document of its own. */
    method Load(slot: Slot) returns (doc: Record?)
      ensures doc != null <==> slot in rows
      ensures doc != null ==> fresh(doc) && doc.Data() == rows[slot]
    {
      if slot in rows {
        doc := new Record(rows[slot]);
      } else {
        doc := null;
      }
    }

    method Mint721(nft: Nft)
      requires Valid()
      modifies this
      ensures Valid() && fresh(objects - old(objects))
      ensures Abs() == NftState.Mint721(old(Abs()), nft)
    {
      if nft.kind != ERC721 {
        return;
      }
      var key := Key721(nft.address, nft.tokenId);
      if key in minted || (exists slot | slot in rows :: slot.address == nft.address && slot.tokenId == nft.tokenId) {
        return;
      }
      var record := new Record(nft);
      PutMinted(key, record);
    }

    method Mint1155(nft: Nft)
      requires Valid()
      modifies this, objects
      ensures Valid() && fresh(objects - old(objects))
      ensures Abs() == NftState.Mint1155(old(Abs()), nft)
    {
      if nft.kind != ERC1155 {
        return;
      }
      var key := Key1155(nft.address, nft.tokenId, nft.owner);
      if key in minted {
        SetMinted(key, minted[key].owner, minted[key].value + nft.value);
        return;
      }
      if SlotOf(nft) in rows {
        LoadAndAdd(key, SlotOf(nft), nft.value);
        return;
      }
      var record := new Record(nft);
      PutMinted(key, record);
    }

    method Transfer721(address: Address, tokenId: nat, from: Address, to: Address) returns (outcome: Outcome)
      requires Valid()
      modifies this, objects
      ensures Valid() && fresh(objects - old(objects))
      ensures (Abs(), outcome) == NftState.Transfer721(old(Abs()), address, tokenId, from, to)
    {
      var key := Key721(address, tokenId);
      if key in updated {
        var nft := updated[key];
        if nft.kind != ERC721 {
          return Skipped;
        }
        if nft.value < 1 {
          return NotEnoughBalance;
        }
        SetUpdated(key, to, nft.value);
        return Done;
      }
      if key in minted {
        var nft := minted[key];
        if nft.kind != ERC721 {
          return Skipped;
        }
        if nft.value < 1 {
          return NotEnoughBalance;
        }
        SetMinted(key, to, nft.value);
        return Done;
      }
      var nft := Load(Slot(address, tokenId, from));
      if nft == null {
        return Skipped;
      }
      if nft.kind != ERC721 {
        return Skipped;
      }
      if nft.value < 1 {
        return NotEnoughBalance;
      }
      nft.owner := to;
      PutUpdated(key, nft);
      return Done;
    }

    /** The part of transfer1155 that credits the recipient, repeated three times in the source. When the
        recipient's cached document is the sender's own object, the sender's object is credited. */
    method Credit(template: Record, to: Slot, value: int)
      requires Valid()
      modifies this, objects
      ensures Valid() && fresh(objects - old(objects))
      ensures Abs() == NftState.Credit(old(Abs()), old(template.Data()), to, value)
      ensures forall k :: k in old(updated) ==> k in updated && updated[k] == old(updated)[k]
      ensures forall k :: k in old(minted) && (to in rows || k != Key1155(to.address, to.tokenId, to.owner)) ==>
                k in minted && minted[k] == old(minted)[k]
      ensures to !in rows ==> Key1155(to.address, to.tokenId, to.owner) in minted
                              && fresh(minted[Key1155(to.address, to.tokenId, to.owner)])
      ensures (forall k :: k in old(updated) ==> old(updated)[k] != template)
              ==> template.Data() == old(template.Data())
    {
      var toKey := Key1155(to.address, to.tokenId, to.owner);
      if to in rows {
        if toKey in updated {
          SetUpdated(toKey, updated[toKey].owner, updated[toKey].value + value);
        } else {
          LoadAndAdd(toKey, to, value);
        }
      } else {
        var existed := 0;
        if toKey in minted {
          existed := minted[toKey].value;
        }
        var copy := new Record(template.Data().(owner := to.owner, value := value + existed, home := None));
        PutMinted(toKey, copy);
      }
    }

    method Transfer1155(from: Slot, to: Address, value: int) returns (outcome: Outcome)
      requires Valid()
      modifies this, objects
      ensures Valid() && fresh(objects - old(objects))
      ensures (Abs(), outcome) == NftState.Transfer1155(old(Abs()), from, to, value)
    {
      var key := Key1155(from.address, from.tokenId, from.owner);
      if key in minted {
        outcome := TransferMinted(from, to, value);
        return;
      }
      var fromNft: Record?;
      if key in updated {
        fromNft := updated[key];
      } else {
        fromNft := Load(from);
      }
      if fromNft == null {
        return Skipped;
      }
      if fromNft.kind != ERC1155 {
        return Skipped;
      }
      if fromNft.value < value {
        return NotEnoughBalance;
      }
      if fromNft.value == value {
        TransferWhole(from, to, fromNft);
      } else {
        TransferPart(from, to, value, fromNft);
      }
      return Done;
    }

    method TransferMinted(from: Slot, to: Address, value: int) returns (outcome: Outcome)
      requires Valid() && Key1155(from.address, from.tokenId, from.owner) in minted
      modifies this, objects
      ensures Valid() && fresh(objects - old(objects))
      ensures (Abs(), outcome) == NftState.TransferMinted(old(Abs()), from, to, value)
    {
      var key := Key1155(from.address, from.tokenId, from.owner);
      var nft := minted[key];
      if nft.kind != ERC1155 {
        return Skipped;
      }
      if nft.value < value {
        return NotEnoughBalance;
      }
      if nft.value == value {
        SetMinted(key, to, nft.value);
        return Done;
      }
      TransferPartOfMinted(from, to, value);
      return Done;
    }

    method TransferPartOfMinted(from: Slot, to: Address, value: int)
      requires Valid() && Key1155(from.address, from.tokenId, from.owner) in minted
      requires var nft := minted[Key1155(from.address, from.tokenId, from.owner)];
               nft.kind == ERC1155 && nft.value > value
      modifies this, objects
      ensures Valid() && fresh(objects - old(objects))
      ensures (Abs(), Done) == NftState.TransferMinted(old(Abs()), from, to, value)
    {
      var key := Key1155(from.address, from.tokenId, from.owner);
      var nft := minted[key];
      Credit(nft, from.(owner := to), value);
      if minted[key] == nft {
        SetMinted(key, nft.owner, nft.value - value);
      } else {
        // the record was replaced by the credit: the debit reaches nobody
        assert minted.Keys == Abs().minted.Keys && updated.Keys == Abs().updated.Keys;
        SetDetached(nft, nft.value - value);
      }
    }

    method SetDetached(record: Record, value: int)
      requires Valid()
      requires (forall k :: k in minted ==> minted[k] != record) && (forall k :: k in updated ==> updated[k] != record)
      modifies record
      ensures Valid() && Abs() == old(Abs()) && record.Data() == old(record.Data()).(value := value)
    {
      record.value := value;
      assert Abs().minted == old(Abs()).minted && Abs().updated == old(Abs()).updated;
    }

    /** What holds of the sender's document: it is the cached one, or one just loaded. */
    ghost predicate Sender(key: Key, slot: Slot, doc: Record)
      reads this, objects, doc
    {
      if key in updated then doc == updated[key] else slot in rows && doc !in objects && doc.Data() == rows[slot]
    }

    method TransferWhole(from: Slot, to: Address, fromNft: Record)
      requires Valid() && Key1155(from.address, from.tokenId, from.owner) !in minted
      requires Sender(Key1155(from.address, from.tokenId, from.owner), from, fromNft)
      modifies this, objects, fromNft
      ensures Valid() && fresh(objects - old(objects) - {fromNft})
      ensures Abs() == NftState.TransferWhole(old(Abs()), from, to, old(fromNft.Data()))
    {
      var key := Key1155(from.address, from.tokenId, from.owner);
      ghost var nft := fromNft.Data();
      WriteSender(key, from, fromNft, to, fromNft.value);
      Credit(fromNft, from.(owner := to), fromNft.value);
      DropUpdated(key);
    }

    method TransferPart(from: Slot, to: Address, value: int, fromNft: Record)
      requires Valid() && Key1155(from.address, from.tokenId, from.owner) !in minted
      requires Sender(Key1155(from.address, from.tokenId, from.owner), from, fromNft)
      modifies this, objects, fromNft
      ensures Valid() && fresh(objects - old(objects) - {fromNft})
      ensures Abs() == NftState.TransferPart(old(Abs()), from, to, value, old(fromNft.Data()))
    {
      var key := Key1155(from.address, from.tokenId, from.owner);
      if key in updated {
        TransferPartOfCached(from, to, value);
      } else {
        TransferPartOfLoaded(from, to, value, fromNft);
      }
    }

    method TransferPartOfCached(from: Slot, to: Address, value: int)
      requires Valid() && Key1155(from.address, from.tokenId, from.owner) in updated
      modifies this, objects
      ensures Valid() && fresh(objects - old(objects))
      ensures var doc := old(updated)[Key1155(from.address, from.tokenId, from.owner)];
              Abs() == NftState.TransferPart(old(Abs()), from, to, value, old(doc.Data()))
    {
      var key := Key1155(from.address, from.tokenId, from.owner);
      var fromNft := updated[key];
      Credit(fromNft, from.(owner := to), value);
      SetUpdated(key, fromNft.owner, fromNft.value - value);
    }

    method TransferPartOfLoaded(from: Slot, to: Address, value: int, fromNft: Record)
      requires Valid() && Key1155(from.address, from.tokenId, from.owner) !in updated
      requires from in rows && fromNft !in objects
      modifies this, objects, fromNft
      ensures Valid() && fresh(objects - old(objects) - {fromNft})
      ensures Abs() == NftState.TransferPart(old(Abs()), from, to, value, old(fromNft.Data()))
    {
      var key := Key1155(from.address, from.tokenId, from.owner);
      Credit(fromNft, from.(owner := to), value);
      assert fromNft !in objects;
      SetDetached(fromNft, fromNft.value - value);
      PutUpdated(key, fromNft);
    }

    /** The sender's document is changed and put among the updated ones, where it may be already. */
    method WriteSender(key: Key, slot: Slot, doc: Record, owner: Address, value: int)
      requires Valid() && key !in minted && Sender(key, slot, doc)
      modifies this`updated, this`objects, doc
      ensures Valid() && updated == old(updated)[key := doc] && objects == old(objects) + {doc}
      ensures doc.Data() == old(doc.Data()).(owner := owner, value := value)
      ensures Abs() == old(Abs()).(updated := old(Abs()).updated[key := doc.Data()])
    {
      if key in updated {
        SetUpdated(key, owner, value);
        assert doc.Data() == Abs().updated[key];
        assert updated == updated[key := doc];
      } else {
        doc.owner, doc.value := owner, value;
        assert Abs() == old(Abs());
        PutUpdated(key, doc);
      }
    }

    // The field and map updates, each with its effect on the cache as a whole

    method LoadAndAdd(key: Key, slot: Slot, value: int)
      requires Valid() && slot in rows
      modifies this`updated, this`objects
      ensures Valid() && key in updated && updated == old(updated)[key := updated[key]] && fresh(updated[key])
      ensures objects == old(objects) + {updated[key]}
      ensures Abs() == old(Abs()).(updated := old(Abs()).updated[key := rows[slot].(value := rows[slot].value + value)])
    {
      var doc := Load(slot);
      doc.value := doc.value + value;
      assert Abs() == old(Abs());
      PutUpdated(key, doc);
    }

    method SetMinted(key: Key, owner: Address, value: int)
      requires Valid() && key in minted
      modifies minted[key]
      ensures Valid()
      ensures var changed := old(Abs()).minted[key].(owner := owner, value := value);
              Abs() == old(Abs()).(minted := old(Abs()).minted[key := changed])
    {
      minted[key].owner, minted[key].value := owner, value;
      assert Abs().minted == old(Abs()).minted[key := old(Abs()).minted[key].(owner := owner, value := value)];
      assert Abs().updated == old(Abs()).updated;
    }

    method SetUpdated(key: Key, owner: Address, value: int)
      requires Valid() && key in updated
      modifies updated[key]
      ensures Valid()
      ensures var changed := old(Abs()).updated[key].(owner := owner, value := value);
              Abs() == old(Abs()).(updated := old(Abs()).updated[key := changed])
    {
      updated[key].owner, updated[key].value := owner, value;
      assert Abs().updated == old(Abs()).updated[key := old(Abs()).updated[key].(owner := owner, value := value)];
      assert Abs().minted == old(Abs()).minted;
    }

    method PutMinted(key: Key, record: Record)
      requires Valid() && record !in objects
      modifies this`minted, this`objects
      ensures Valid() && minted == old(minted)[key := record] && objects == old(objects) + {record}
      ensures Abs() == old(Abs()).(minted := old(Abs()).minted[key := record.Data()])
    {
      minted, objects := minted[key := record], objects + {record};
      assert Abs().minted == old(Abs()).minted[key := record.Data()];
    }

    method PutUpdated(key: Key, doc: Record)
      requires Valid() && doc !in objects
      modifies this`updated, this`objects
      ensures Valid() && updated == old(updated)[key := doc] && objects == old(objects) + {doc}
      ensures Abs() == old(Abs()).(updated := old(Abs()).updated[key := doc.Data()])
    {
      updated, objects := updated[key := doc], objects + {doc};
      assert Abs().updated == old(Abs()).updated[key := doc.Data()];
    }

    method DropUpdated(key: Key)
      requires Valid()
      modifies this`updated
      ensures Valid() && updated == old(updated) - {key}
      ensures Abs() == old(Abs()).(updated := old(Abs()).updated - {key})
    {
      updated := updated - {key};
      assert Abs().updated == old(Abs()).updated - {key};
    }

    // Saving

    /** saveToDB: insert the minted records, then save or delete the updated documents. When no unique
        index is violated the save succeeds and leaves the table that `Saved` describes. */
    method SaveToDB() returns (ok: bool)
      requires Valid()
      modifies this`rows
      ensures Valid() && (SaveReady(old(Abs())) ==> ok && Saved(old(Abs()), rows))
    {
      ghost var s := Abs();
      ok := InsertMinted(s);
      if ok {
        ok := SaveUpdated(s);
      }
    }

    method InsertMinted(ghost s: State) returns (ok: bool)
      requires Valid() && s == Abs()
      modifies this`rows
      ensures Valid() && Abs() == s.(rows := rows)
      ensures (SaveReady(s) ==> ok) && (ok ==> Progress(s, rows, s.minted.Keys, {}))
    {
      var todo := minted.Keys;
      while todo != {}
        invariant todo <= s.minted.Keys && Abs() == s.(rows := rows)
        invariant Progress(s, rows, s.minted.Keys - todo, {})
        decreases todo
      {
        var k :| k in todo;
        ok := InsertRow(k, s, s.minted.Keys - todo);
        if !ok {
          return;
        }
        assert s.minted.Keys - (todo - {k}) == (s.minted.Keys - todo) + {k};
        todo := todo - {k};
      }
      assert s.minted.Keys - {} == s.minted.Keys;
      ok := true;
    }

    method InsertRow(k: Key, ghost s: State, ghost done: set<Key>) returns (ok: bool)
      requires Valid() && Abs() == s.(rows := rows) && k in s.minted && k !in done && Progress(s, rows, done, {})
      modifies this`rows
      ensures Valid() && Abs() == s.(rows := rows)
      ensures (SaveReady(s) ==> ok) && (ok ==> Progress(s, rows, done + {k}, {}))
    {
      assert minted.Keys == Abs().minted.Keys;
      var n := minted[k].Data();
      assert n == s.minted[k];
      if SaveReady(s) {
        InsertOne(s, rows, done, k);
        assert Progress(s, rows[SlotOf(n) := Stored(n)], done + {k}, {});
      }
      if SlotOf(n) in rows {
        return false;
      }
      rows := rows[SlotOf(n) := Stored(n)];
      return true;
    }

    method SaveUpdated(ghost s: State) returns (ok: bool)
      requires Valid() && Abs() == s.(rows := rows) && Progress(s, rows, s.minted.Keys, {})
      modifies this`rows
      ensures Valid() && (SaveReady(s) ==> ok && Saved(s, rows))
    {
      var todo := updated.Keys;
      assert updated.Keys == Abs().updated.Keys && s.updated.Keys - todo == {};
      while todo != {}
        invariant todo <= s.updated.Keys && Abs() == s.(rows := rows)
        invariant Progress(s, rows, s.minted.Keys, s.updated.Keys - todo)
        decreases todo
      {
        var k :| k in todo;
        ok := SaveRow(k, s, s.updated.Keys - todo);
        if !ok {
          return;
        }
        assert s.updated.Keys - (todo - {k}) == (s.updated.Keys - todo) + {k};
        todo := todo - {k};
      }
      assert s.updated.Keys - {} == s.updated.Keys;
      if SaveReady(s) {
        AllSaved(s, rows);
      }
      ok := true;
    }

    method SaveRow(k: Key, ghost s: State, ghost done: set<Key>) returns (ok: bool)
      requires Valid() && Abs() == s.(rows := rows) && k in s.updated && k !in done
      requires Progress(s, rows, s.minted.Keys, done)
      modifies this`rows
      ensures Valid() && Abs() == s.(rows := rows)
      ensures (SaveReady(s) ==> ok) && (ok ==> Progress(s, rows, s.minted.Keys, done + {k}))
    {
      assert updated.Keys == Abs().updated.Keys;
      var n := updated[k].Data();
      assert n == s.updated[k];
      if SaveReady(s) {
        SaveOne(s, rows, done, k);
      }
      var others := if n.home.Some? then rows - {n.home.value} else rows;
      if n.owner == ZERO_ADDRESS {
        SetRows(s, others);
        return true;
      }
      if SlotOf(n) in others {
        return false;
      }
      SetRows(s, others[SlotOf(n) := Stored(n)]);
      return true;
    }

    method SetRows(ghost s: State, table: map<Slot, Nft>)
      requires Valid() && Abs() == s.(rows := rows)
      modifies this`rows
      ensures Valid() && rows == table && Abs() == s.(rows := table)
    {
      rows := table;
    }

    method Clean()
      modifies this`minted, this`updated
      ensures Valid() && Abs() == State(map[], map[], rows)
    {
      minted, updated := map[], map[];
    }
  }

  // ---------------------------------------------------------------------------
  // The two loops of the save
  // ---------------------------------------------------------------------------

  ghost predicate HomeOf(s: State, done: set<Key>, slot: Slot) {
    exists k :: k in done && k in s.updated && s.updated[k].home == Some(slot)
  }

  ghost predicate InsertedBy(s: State, done: set<Key>, slot: Slot) {
    exists k :: k in done && k in s.minted && SlotOf(s.minted[k]) == slot
  }

  ghost predicate RewrittenBy(s: State, done: set<Key>, slot: Slot) {
    exists k :: k in done && k in s.updated && s.updated[k].owner != ZERO_ADDRESS && SlotOf(s.updated[k]) == slot
  }

  /** The table after inserting the minted records `ins` and handling the updated documents `upd`. */
  ghost predicate SavedSoFar(s: State, rows: map<Slot, Nft>, ins: set<Key>, upd: set<Key>) {
    && (forall k :: k in ins && k in s.minted ==>
          SlotOf(s.minted[k]) in rows && rows[SlotOf(s.minted[k])] == Stored(s.minted[k]))
    && (forall k :: k in upd && k in s.updated && s.updated[k].owner != ZERO_ADDRESS ==>
          SlotOf(s.updated[k]) in rows && rows[SlotOf(s.updated[k])] == Stored(s.updated[k]))
    && (forall slot :: slot in s.rows && !HomeOf(s, upd, slot) ==> slot in rows && rows[slot] == s.rows[slot])
    && (forall slot :: slot in rows ==>
          (slot in s.rows && !HomeOf(s, upd, slot)) || InsertedBy(s, ins, slot) || RewrittenBy(s, upd, slot))
  }

  lemma InsertOne(s: State, rows: map<Slot, Nft>, done: set<Key>, k: Key)
    requires Progress(s, rows, done, {}) && SaveReady(s) && k in s.minted && k !in done
    ensures SlotOf(s.minted[k]) !in rows
    ensures Progress(s, rows[SlotOf(s.minted[k]) := Stored(s.minted[k])], done + {k}, {})
  {
    var slot := SlotOf(s.minted[k]);
    assert slot !in rows;
    var rows' := rows[slot := Stored(s.minted[k])];
    assert InsertedBy(s, done + {k}, slot);
    forall x | x in rows && InsertedBy(s, done, x)
      ensures InsertedBy(s, done + {k}, x)
    {
      var j :| j in done && j in s.minted && SlotOf(s.minted[j]) == x;
      assert j in done + {k};
    }
  }

  lemma OneMoreHandled(s: State, done: set<Key>, k: Key)
    requires k in s.updated
    ensures forall slot :: HomeOf(s, done + {k}, slot) <==> HomeOf(s, done, slot) || s.updated[k].home == Some(slot)
    ensures forall slot :: RewrittenBy(s, done + {k}, slot)
                      <==> RewrittenBy(s, done, slot)
                           || (s.updated[k].owner != ZERO_ADDRESS && SlotOf(s.updated[k]) == slot)
  {
    var upd := done + {k};
    forall slot
      ensures HomeOf(s, upd, slot) <==> HomeOf(s, done, slot) || s.updated[k].home == Some(slot)
      ensures RewrittenBy(s, upd, slot)
         <==> RewrittenBy(s, done, slot) || (s.updated[k].owner != ZERO_ADDRESS && SlotOf(s.updated[k]) == slot)
    {
      assert k in upd;
      if j :| j in done && j in s.updated && s.updated[j].home == Some(slot) {
        assert j in upd;
      }
      if j :| j in done && j in s.updated && s.updated[j].owner != ZERO_ADDRESS && SlotOf(s.updated[j]) == slot {
        assert j in upd;
      }
    }
  }

  /** The slot a document moves to is free once its own row is gone. */
  lemma TargetIsFree(s: State, rows: map<Slot, Nft>, done: set<Key>, k: Key)
    requires SaveReady(s) && SavedSoFar(s, rows, s.minted.Keys, done) && k in s.updated && k !in done
    ensures SlotOf(s.updated[k]) in rows ==> Some(SlotOf(s.updated[k])) == s.updated[k].home
  {
    var slot := SlotOf(s.updated[k]);
    if slot in rows {
      assert !InsertedBy(s, s.minted.Keys, slot);
      assert !RewrittenBy(s, done, slot);
    }
  }

  /** The row a document was loaded from belongs to no other document, and nothing was put there. */
  lemma HomeIsOwn(s: State, rows: map<Slot, Nft>, done: set<Key>, k: Key)
    requires SaveReady(s) && SavedSoFar(s, rows, s.minted.Keys, done) && k in s.updated && k !in done
    ensures s.updated[k].home.Some?
    ensures var h := s.updated[k].home.value;
            && h in s.rows
            && (forall j :: j in s.minted ==> SlotOf(s.minted[j]) != h)
            && (forall j :: j in done && j in s.updated ==> SlotOf(s.updated[j]) != h)
  {
  }

  lemma DeleteRow(s: State, rows: map<Slot, Nft>, done: set<Key>, k: Key, n: Nft, h: Slot)
    requires SavedSoFar(s, rows, s.minted.Keys, done) && k in s.updated && n == s.updated[k] && n.home == Some(h)
    requires h in s.rows && (forall j :: j in s.minted ==> SlotOf(s.minted[j]) != h)
    requires forall j :: j in done && j in s.updated ==> SlotOf(s.updated[j]) != h
    requires n.owner == ZERO_ADDRESS
    ensures SavedSoFar(s, rows - {h}, s.minted.Keys, done + {k})
  {
    OneMoreHandled(s, done, k);
  }

  lemma MoveRow(s: State, rows: map<Slot, Nft>, done: set<Key>, k: Key, n: Nft, h: Slot)
    requires SavedSoFar(s, rows, s.minted.Keys, done) && k in s.updated && n == s.updated[k] && n.home == Some(h)
    requires h in s.rows && (forall j :: j in s.minted ==> SlotOf(s.minted[j]) != h)
    requires forall j :: j in done && j in s.updated ==> SlotOf(s.updated[j]) != h
    requires n.owner != ZERO_ADDRESS && (SlotOf(n) in rows ==> SlotOf(n) == h)
    ensures SavedSoFar(s, (rows - {h})[SlotOf(n) := Stored(n)], s.minted.Keys, done + {k})
  {
    OneMoreHandled(s, done, k);
  }

  lemma SaveOne(s: State, rows: map<Slot, Nft>, done: set<Key>, k: Key)
    requires k in s.updated && k !in done && Progress(s, rows, s.minted.Keys, done) && SaveReady(s)
    ensures s.updated[k].home.Some?
    ensures var n := s.updated[k];
            var others := rows - {n.home.value};
            if n.owner == ZERO_ADDRESS then Progress(s, others, s.minted.Keys, done + {k})
            else SlotOf(n) !in others && Progress(s, others[SlotOf(n) := Stored(n)], s.minted.Keys, done + {k})
  {
    TargetIsFree(s, rows, done, k);
    HomeIsOwn(s, rows, done, k);
    if s.updated[k].owner == ZERO_ADDRESS {
      DeleteRow(s, rows, done, k, s.updated[k], s.updated[k].home.value);
    } else {
      MoveRow(s, rows, done, k, s.updated[k], s.updated[k].home.value);
    }
  }

  /** The progress of the two loops, for a cache that can be saved. */
  ghost predicate Progress(s: State, rows: map<Slot, Nft>, ins: set<Key>, upd: set<Key>) {
    SaveReady(s) ==> SavedSoFar(s, rows, ins, upd)
  }

  lemma AllSaved(s: State, rows: map<Slot, Nft>)
    requires SaveReady(s) && Progress(s, rows, s.minted.Keys, s.updated.Keys)
    ensures Saved(s, rows)
  {
    forall slot
      ensures HomeOf(s, s.updated.Keys, slot) <==> IsHome(s, slot)
      ensures InsertedBy(s, s.minted.Keys, slot) ==> Inserted(s, slot)
      ensures RewrittenBy(s, s.updated.Keys, slot) ==> Rewritten(s, slot)
    {
    }
  }
}
