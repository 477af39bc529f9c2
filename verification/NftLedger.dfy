/**
 The NFT cache against a plain ledger: one map from holders to amounts and one from tokens to owners,
 updated event by event. Where the cache departs from the ledger, the exact departure is proved.
 */
module NftLedger {
  import opened Common
  import opened NftState

  // ---------------------------------------------------------------------------
  // One operation
  // ---------------------------------------------------------------------------

  /** A record built from a mint event, of a kind its contract has. */
  predicate NewRecord(erc721: set<Address>, nft: Nft) {
    nft.home == None && if nft.address in erc721 then nft.kind == ERC721 && nft.value == 1 else nft.kind == ERC1155
  }

  predicate SameToken(slot: Slot, address: Address, tokenId: nat) {
    slot.address == address && slot.tokenId == tokenId
  }

  ghost predicate OthersKept(erc721: set<Address>, s: State, t: State, x: Slot, y: Slot) {
    && (forall slot: Slot :: slot.address !in erc721 && slot != x && slot != y ==> Held(t, slot) == Held(s, slot))
    && (forall slot: Slot :: slot.address in erc721 ==> (Owns(t, slot) <==> Owns(s, slot)))
  }

  /** From `s` to `t` one holding has become `value`, and nothing else has changed in the view. */
  ghost predicate Holds(erc721: set<Address>, s: State, t: State, holder: Slot, value: int) {
    Inv(erc721, t) && Held(t, holder) == value && OthersKept(erc721, s, t, holder, holder)
  }

  /** The records of a holder, wherever they are, are those of the holder. */
  lemma EntriesOf(erc721: set<Address>, s: State, holder: Slot)
    requires Inv(erc721, s) && holder.address !in erc721
    ensures var key := Key1155(holder.address, holder.tokenId, holder.owner);
            && (key in s.minted ==> holder !in s.rows && s.minted[key].kind == ERC1155
                                    && SlotOf(s.minted[key]) == holder && s.minted[key].home == None)
            && (key in s.updated ==> holder in s.rows && key !in s.minted && s.updated[key].kind == ERC1155
                                     && SlotOf(s.updated[key]) == holder && s.updated[key].home == Some(holder))
            && (holder in s.rows ==> s.rows[holder].kind == ERC1155
                                     && SlotOf(s.rows[holder]) == holder && s.rows[holder].home == Some(holder))
  {
  }

  /** One ERC1155 entry of `minted` is written. */
  lemma PutMinted(erc721: set<Address>, s: State, holder: Slot, n: Nft)
    requires Inv(erc721, s) && holder.address !in erc721 && holder !in s.rows
    requires n.kind == ERC1155 && SlotOf(n) == holder && n.home == None
    ensures var t := s.(minted := s.minted[Key1155(holder.address, holder.tokenId, holder.owner) := n]);
            Holds(erc721, s, t, holder, n.value)
  {
  }

  /** One ERC1155 entry of `updated` is written. */
  lemma PutUpdated(erc721: set<Address>, s: State, holder: Slot, n: Nft)
    requires Inv(erc721, s) && holder.address !in erc721 && holder in s.rows
    requires n.kind == ERC1155 && SlotOf(n) == holder && n.home == Some(holder)
    ensures var t := s.(updated := s.updated[Key1155(holder.address, holder.tokenId, holder.owner) := n]);
            Holds(erc721, s, t, holder, n.value)
  {
  }

  /** One ERC1155 entry of `updated` is forgotten: the holder falls back to the stored row. */
  lemma DropUpdated(erc721: set<Address>, s: State, holder: Slot)
    requires Inv(erc721, s) && holder.address !in erc721 && holder in s.rows
    ensures var t := s.(updated := s.updated - {Key1155(holder.address, holder.tokenId, holder.owner)});
            Holds(erc721, s, t, holder, s.rows[holder].value)
  {
  }

  lemma CreditExact(erc721: set<Address>, s: State, template: Nft, to: Slot, value: int)
    requires Inv(erc721, s) && to.address !in erc721
    requires template.kind == ERC1155 && template.address == to.address && template.tokenId == to.tokenId
    ensures var t := Credit(s, template, to, value);
            t.rows == s.rows && Holds(erc721, s, t, to, Held(s, to) + value)
  {
    var toKey, t := Key1155(to.address, to.tokenId, to.owner), Credit(s, template, to, value);
    EntriesOf(erc721, s, to);
    if to in s.rows {
      var n := if toKey in s.updated then s.updated[toKey] else s.rows[to];
      assert t == s.(updated := s.updated[toKey := n.(value := n.value + value)]);
      PutUpdated(erc721, s, to, n.(value := n.value + value));
    } else {
      var existed := if toKey in s.minted then s.minted[toKey].value else 0;
      var n := template.(owner := to.owner, value := value + existed, home := None);
      assert t == s.(minted := s.minted[toKey := n]);
      PutMinted(erc721, s, to, n);
    }
  }

  lemma Mint721Refines(erc721: set<Address>, s: State, nft: Nft)
    requires Inv(erc721, s) && NewRecord(erc721, nft) && nft.address in erc721
    ensures var t := Mint721(s, nft);
            var known := Key721(nft.address, nft.tokenId) in s.minted || TokenStored(s.rows, nft.address, nft.tokenId);
            && Inv(erc721, t) && (known ==> t == s)
            && (forall slot: Slot :: slot.address in erc721 ==>
                  (Owns(t, slot)
                   <==> if SameToken(slot, nft.address, nft.tokenId) && !known then slot.owner == nft.owner
                        else Owns(s, slot)))
            && (forall slot: Slot :: slot.address !in erc721 ==> Held(t, slot) == Held(s, slot))
  {
  }

  /** A mint adds its amount. When the holder's document is cached as updated, that document is replaced
      by the stored one first: what had been changed since the last save is lost. */
  lemma Mint1155Exact(erc721: set<Address>, s: State, nft: Nft)
    requires Inv(erc721, s) && NewRecord(erc721, nft) && nft.address !in erc721
    ensures var t, holder, key := Mint1155(s, nft), SlotOf(nft), Key1155(nft.address, nft.tokenId, nft.owner);
            Holds(erc721, s, t, holder, nft.value + if key in s.updated then s.rows[holder].value else Held(s, holder))
  {
    var holder, key, t := SlotOf(nft), Key1155(nft.address, nft.tokenId, nft.owner), Mint1155(s, nft);
    EntriesOf(erc721, s, holder);
    if holder !in s.rows {
      var n := if key in s.minted then s.minted[key].(value := s.minted[key].value + nft.value) else nft;
      assert t == s.(minted := s.minted[key := n]);
      PutMinted(erc721, s, holder, n);
    } else {
      var n := s.rows[holder].(value := s.rows[holder].value + nft.value);
      assert t == s.(updated := s.updated[key := n]);
      PutUpdated(erc721, s, holder, n);
    }
  }

  /** One ERC721 entry is written, in `updated` when the token has a row and else in `minted`. */
  lemma PutToken(erc721: set<Address>, s: State, token: Slot, n: Nft, stored: bool)
    requires Inv(erc721, s) && token.address in erc721
    requires n.kind == ERC721 && n.value == 1 && n.address == token.address && n.tokenId == token.tokenId
    requires var key := Key721(token.address, token.tokenId);
             if stored then
               && key !in s.minted && n.home.Some? && n.home.value in s.rows
               && SameToken(n.home.value, token.address, token.tokenId)
             else key in s.minted && n.home == None
    ensures var key := Key721(token.address, token.tokenId);
            var t := if stored then s.(updated := s.updated[key := n]) else s.(minted := s.minted[key := n]);
            && Inv(erc721, t)
            && (forall slot: Slot :: slot.address in erc721 ==>
                  (Owns(t, slot) <==> if SameToken(slot, token.address, token.tokenId) then slot.owner == n.owner
                                      else Owns(s, slot)))
            && (forall slot: Slot :: slot.address !in erc721 ==> Held(t, slot) == Held(s, slot))
  {
    if stored {
      assert TokenStored(s.rows, token.address, token.tokenId);
    }
  }

  lemma Transfer721Exact(erc721: set<Address>, s: State, from: Slot, to: Address)
    requires Inv(erc721, s) && from.address in erc721
    ensures var (t, outcome) := Transfer721(s, from.address, from.tokenId, from.owner, to);
            var key := Key721(from.address, from.tokenId);
            var moved := key in s.minted || key in s.updated || from in s.rows;
            && Inv(erc721, t) && (outcome == if moved then Done else Skipped) && (!moved ==> t == s)
            && (Owns(s, from) ==> moved)
            && (forall slot: Slot :: slot.address in erc721 ==>
                  (Owns(t, slot) <==> if SameToken(slot, from.address, from.tokenId) && moved then slot.owner == to
                                      else Owns(s, slot)))
            && (forall slot: Slot :: slot.address !in erc721 ==> Held(t, slot) == Held(s, slot))
  {
    var key := Key721(from.address, from.tokenId);
    if key in s.updated {
      PutToken(erc721, s, from, s.updated[key].(owner := to), true);
    } else if key in s.minted {
      PutToken(erc721, s, from, s.minted[key].(owner := to), false);
    } else if from in s.rows {
      PutToken(erc721, s, from, s.rows[from].(owner := to), true);
    }
  }

  /** An operation on a token of the other kind changes nothing: a mint of the wrong type, and a transfer of the wrong
      event of a contract. */
  lemma OtherKindIsLeftAlone(erc721: set<Address>, s: State, nft: Nft, from: Slot, to: Address, value: int)
    requires Inv(erc721, s)
    ensures nft.kind == ERC1155 ==> Mint721(s, nft) == s
    ensures nft.kind == ERC721 ==> Mint1155(s, nft) == s
    ensures from.address !in erc721 ==> Transfer721(s, from.address, from.tokenId, from.owner, to) == (s, Skipped)
    ensures from.address in erc721 ==> Transfer1155(s, from, to, value) == (s, Skipped)
  {
  }

  /** Something is cached or stored for the holder. */
  predicate Exists(s: State, slot: Slot) {
    var key := Key1155(slot.address, slot.tokenId, slot.owner);
    key in s.minted || key in s.updated || slot in s.rows
  }

  /** The document that a transfer by `from` starts from. */
  function Document(s: State, from: Slot): Nft
    requires Exists(s, from)
  {
    var key := Key1155(from.address, from.tokenId, from.owner);
    if key in s.minted then s.minted[key] else if key in s.updated then s.updated[key] else s.rows[from]
  }

  /** A part of the document, to somebody else: the recipient is credited, and then the document written. */
  lemma PartIsCreditAndPut(s: State, from: Slot, to: Address, value: int, credited: State, left: Nft)
    requires to != from.owner && Exists(s, from)
    requires Key1155(from.address, from.tokenId, from.owner) in s.minted || from in s.rows
    requires Document(s, from).kind == ERC1155 && value < Document(s, from).value
    requires credited == Credit(s, Document(s, from), from.(owner := to), value)
    requires left == Document(s, from).(value := Document(s, from).value - value)
    ensures var key := Key1155(from.address, from.tokenId, from.owner);
            Transfer1155(s, from, to, value)
            == (if key in s.minted then credited.(minted := credited.minted[key := left])
                else credited.(updated := credited.updated[key := left]), Done)
  {
  }

  lemma PartOfMinted(erc721: set<Address>, s: State, from: Slot, to: Address, value: int)
    requires Inv(erc721, s) && from.address !in erc721 && to != from.owner
    requires var key := Key1155(from.address, from.tokenId, from.owner); key in s.minted && value < s.minted[key].value
    ensures var (t, outcome) := Transfer1155(s, from, to, value);
            && outcome == Done && Inv(erc721, t)
            && Held(t, from) == Held(s, from) - value
            && Held(t, from.(owner := to)) == Held(s, from.(owner := to)) + value
            && OthersKept(erc721, s, t, from, from.(owner := to))
  {
    var nft, toSlot := Document(s, from), from.(owner := to);
    EntriesOf(erc721, s, from);
    PartIsCreditAndPut(s, from, to, value, Credit(s, nft, toSlot, value), nft.(value := nft.value - value));
    CreditExact(erc721, s, nft, toSlot, value);
    PutMinted(erc721, Credit(s, nft, toSlot, value), from, nft.(value := nft.value - value));
  }

  lemma PartOfStored(erc721: set<Address>, s: State, from: Slot, to: Address, value: int)
    requires Inv(erc721, s) && from.address !in erc721 && to != from.owner && Exists(s, from) && value < Held(s, from)
    requires Key1155(from.address, from.tokenId, from.owner) !in s.minted
    ensures var (t, outcome) := Transfer1155(s, from, to, value);
            && outcome == Done && Inv(erc721, t)
            && Held(t, from) == Held(s, from) - value
            && Held(t, from.(owner := to)) == Held(s, from.(owner := to)) + value
            && OthersKept(erc721, s, t, from, from.(owner := to))
  {
    var nft, toSlot := Document(s, from), from.(owner := to);
    EntriesOf(erc721, s, from);
    PartIsCreditAndPut(s, from, to, value, Credit(s, nft, toSlot, value), nft.(value := nft.value - value));
    CreditExact(erc721, s, nft, toSlot, value);
    PutUpdated(erc721, Credit(s, nft, toSlot, value), from, nft.(value := nft.value - value));
  }

  /** Less than the whole holding, to somebody else: the plain ledger. */
  lemma PartialTransferExact(erc721: set<Address>, s: State, from: Slot, to: Address, value: int)
    requires Inv(erc721, s) && from.address !in erc721 && to != from.owner && Exists(s, from) && value < Held(s, from)
    ensures var (t, outcome) := Transfer1155(s, from, to, value);
            && outcome == Done && Inv(erc721, t)
            && Held(t, from) == Held(s, from) - value
            && Held(t, from.(owner := to)) == Held(s, from.(owner := to)) + value
            && OthersKept(erc721, s, t, from, from.(owner := to))
  {
    if Key1155(from.address, from.tokenId, from.owner) in s.minted {
      PartOfMinted(erc721, s, from, to, value);
    } else {
      PartOfStored(erc721, s, from, to, value);
    }
  }

  lemma PutThenDrop<K, V>(m: map<K, V>, key: K, a: V, other: K, b: V)
    requires key != other
    ensures m[key := a][other := b] - {key} == (m - {key})[other := b]
    ensures m[key := a] - {key} == m - {key}
  {
  }

  /** Emptying a document: the same as forgetting it before the recipient is credited. */
  lemma WholeTransferIsDropAndCredit(s: State, from: Slot, to: Address, value: int, renamed: Nft)
    requires to != from.owner && Exists(s, from)
    requires var key := Key1155(from.address, from.tokenId, from.owner);
             && key !in s.minted
             && var nft := if key in s.updated then s.updated[key] else s.rows[from];
                nft.kind == ERC1155 && nft.value == value && renamed == nft.(owner := to)
    ensures Transfer1155(s, from, to, value)
         == (Credit(s.(updated := s.updated - {Key1155(from.address, from.tokenId, from.owner)}), renamed,
                    from.(owner := to), value), Done)
  {
    var key, toSlot := Key1155(from.address, from.tokenId, from.owner), from.(owner := to);
    var toKey := Key1155(from.address, from.tokenId, to);
    if toSlot in s.rows {
      var toNft := if toKey in s.updated then s.updated[toKey] else s.rows[toSlot];
      PutThenDrop(s.updated, key, renamed, toKey, toNft.(value := toNft.value + value));
    } else {
      PutThenDrop(s.updated, key, renamed, toKey, renamed);
    }
  }

  /** The whole holding of a holder who is not among the minted ones: the recipient is credited, and the
      sender falls back to the row as it was last saved. */
  lemma WholeTransferExact(erc721: set<Address>, s: State, from: Slot, to: Address, value: int)
    requires Inv(erc721, s) && from.address !in erc721 && to != from.owner && Exists(s, from) && value == Held(s, from)
    requires Key1155(from.address, from.tokenId, from.owner) !in s.minted
    ensures var (t, outcome) := Transfer1155(s, from, to, value);
            && outcome == Done && Inv(erc721, t) && from in s.rows
            && Held(t, from) == s.rows[from].value
            && Held(t, from.(owner := to)) == Held(s, from.(owner := to)) + value
            && OthersKept(erc721, s, t, from, from.(owner := to))
  {
    var nft := if Key1155(from.address, from.tokenId, from.owner) in s.updated
               then s.updated[Key1155(from.address, from.tokenId, from.owner)] else s.rows[from];
    DropUpdated(erc721, s, from);
    WholeTransferIsDropAndCredit(s, from, to, value, nft.(owner := to));
    CreditExact(erc721, s.(updated := s.updated - {Key1155(from.address, from.tokenId, from.owner)}),
                nft.(owner := to), from.(owner := to), value);
  }

  /** A transfer to oneself of less than the holding: a minted record gains the amount, an updated
      document is unchanged, and a stored one, loaded twice, loses the amount. */
  lemma SelfTransferExact(erc721: set<Address>, s: State, from: Slot, value: int)
    requires Inv(erc721, s) && from.address !in erc721 && Exists(s, from) && value < Held(s, from)
    ensures var (t, outcome) := Transfer1155(s, from, from.owner, value);
            var key := Key1155(from.address, from.tokenId, from.owner);
            && outcome == Done && Inv(erc721, t)
            && Held(t, from)
               == Held(s, from) + (if key in s.minted then value else if key in s.updated then 0 else -value)
            && OthersKept(erc721, s, t, from, from)
  {
    var key := Key1155(from.address, from.tokenId, from.owner);
    assert from.(owner := from.owner) == from;
    if key in s.minted {
      CreditExact(erc721, s, s.minted[key], from, value);
    } else {
      SelfTransferOfStored(erc721, s, from, value);
    }
  }

  lemma SelfTransferOfStored(erc721: set<Address>, s: State, from: Slot, value: int)
    requires Inv(erc721, s) && from.address !in erc721 && Exists(s, from) && value < Held(s, from)
    requires Key1155(from.address, from.tokenId, from.owner) !in s.minted
    ensures var (t, outcome) := Transfer1155(s, from, from.owner, value);
            && outcome == Done && Inv(erc721, t)
            && Held(t, from)
               == Held(s, from) - (if Key1155(from.address, from.tokenId, from.owner) in s.updated then 0 else value)
            && OthersKept(erc721, s, t, from, from)
  {
    var key := Key1155(from.address, from.tokenId, from.owner);
    var nft := if key in s.updated then s.updated[key] else s.rows[from];
    assert from.(owner := from.owner) == from;
    var credited := Credit(s, nft, from, value);
    var after := nft.(value := if key in s.updated then nft.value else nft.value - value);
    CreditExact(erc721, s, nft, from, value);
    assert Transfer1155(s, from, from.owner, value) == (credited.(updated := credited.updated[key := after]), Done);
    PutUpdated(erc721, credited, from, after);
  }

  lemma PutTwiceThenDrop<K, V>(m: map<K, V>, key: K, a: V, b: V)
    ensures m[key := a][key := b] - {key} == m - {key}
  {
  }

  lemma WholeSelfTransferDrops(s: State, from: Slot, nft: Nft)
    requires from in s.rows && Key1155(from.address, from.tokenId, from.owner) !in s.minted && SlotOf(nft) == from
    requires var key := Key1155(from.address, from.tokenId, from.owner);
             nft == if key in s.updated then s.updated[key] else s.rows[from]
    requires nft.kind == ERC1155
    ensures Transfer1155(s, from, from.owner, nft.value)
         == (s.(updated := s.updated - {Key1155(from.address, from.tokenId, from.owner)}), Done)
  {
    assert from.(owner := from.owner) == from;
    PutTwiceThenDrop(s.updated, Key1155(from.address, from.tokenId, from.owner), nft,
                     nft.(value := nft.value + nft.value));
  }

  /** A transfer of the whole holding to oneself: a minted record is unchanged, and anything else falls back to
      the row as it was last saved. */
  lemma WholeSelfTransferExact(erc721: set<Address>, s: State, from: Slot)
    requires Inv(erc721, s) && from.address !in erc721 && Exists(s, from)
    ensures var (t, outcome) := Transfer1155(s, from, from.owner, Held(s, from));
            var key := Key1155(from.address, from.tokenId, from.owner);
            && outcome == Done && Inv(erc721, t) && (key !in s.minted ==> from in s.rows)
            && Held(t, from) == (if key in s.minted then Held(s, from) else s.rows[from].value)
            && OthersKept(erc721, s, t, from, from)
  {
    var key := Key1155(from.address, from.tokenId, from.owner);
    EntriesOf(erc721, s, from);
    if key in s.minted {
      assert from.(owner := from.owner) == from;
      assert Transfer1155(s, from, from.owner, Held(s, from)).0 == s;
    } else {
      WholeSelfTransferDrops(s, from, if key in s.updated then s.updated[key] else s.rows[from]);
      DropUpdated(erc721, s, from);
    }
  }

  /** More than the holding, or nothing to transfer from: nothing changes. */
  lemma RefusedTransferExact(erc721: set<Address>, s: State, from: Slot, to: Address, value: int)
    requires Inv(erc721, s) && from.address !in erc721 && (Exists(s, from) ==> value > Held(s, from))
    ensures Transfer1155(s, from, to, value) == (s, if Exists(s, from) then NotEnoughBalance else Skipped)
  {
  }

  /** A transfer from a holder who is not among the minted ones, to somebody else and covered by the
      holding, agrees with the plain ledger exactly when it leaves something, or nothing was stored. */
  lemma TransferAgreesIff(erc721: set<Address>, s: State, from: Slot, to: Address, value: int)
    requires Inv(erc721, s) && from.address !in erc721 && to != from.owner && Exists(s, from) && value <= Held(s, from)
    requires Key1155(from.address, from.tokenId, from.owner) !in s.minted
    ensures var t := Transfer1155(s, from, to, value).0;
            (forall slot: Slot :: slot.address !in erc721 ==>
               Held(t, slot) == Held(s, slot) + (if slot == from.(owner := to) then value else 0)
                                - (if slot == from then value else 0))
            <==> value < Held(s, from) || s.rows[from].value == 0
  {
    if value < Held(s, from) {
      PartialTransferExact(erc721, s, from, to, value);
    } else {
      WholeTransferExact(erc721, s, from, to, value);
    }
  }

  /** A mint agrees with the plain ledger exactly when the holder has no unsaved change. */
  lemma MintAgreesIff(erc721: set<Address>, s: State, nft: Nft)
    requires Inv(erc721, s) && NewRecord(erc721, nft) && nft.address !in erc721
    ensures var t, key := Mint1155(s, nft), Key1155(nft.address, nft.tokenId, nft.owner);
            (forall slot: Slot :: slot.address !in erc721 ==>
               Held(t, slot) == Held(s, slot) + (if slot == SlotOf(nft) then nft.value else 0))
            <==> (key in s.updated ==> s.updated[key].value == s.rows[SlotOf(nft)].value)
  {
    Mint1155Exact(erc721, s, nft);
  }

  /** The whole holding of a minted record: it keeps its key and changes its owner. The next save can
      store it exactly when the recipient has neither a row nor a minted record; otherwise the unique
      index refuses it. What it stores then is what the plain ledger says. */
  lemma MintedWholeTransferSavesIff(erc721: set<Address>, s: State, from: Slot, to: Address)
    requires Inv(erc721, s) && from.address !in erc721 && to != from.owner
    requires Key1155(from.address, from.tokenId, from.owner) in s.minted
    ensures var t := Transfer1155(s, from, to, Held(s, from)).0;
            SaveReady(t) <==> from.(owner := to) !in s.rows && Key1155(from.address, from.tokenId, to) !in s.minted
  {
    var key, toKey := Key1155(from.address, from.tokenId, from.owner), Key1155(from.address, from.tokenId, to);
    var toSlot := from.(owner := to);
    var t := Transfer1155(s, from, to, Held(s, from)).0;
    SaveIsReady(erc721, s);
    EntriesOf(erc721, s, from);
    EntriesOf(erc721, s, toSlot);
    assert t == s.(minted := s.minted[key := s.minted[key].(owner := to)]);
    assert SlotOf(t.minted[key]) == toSlot;
    if toKey in s.minted {
      assert SlotOf(t.minted[toKey]) == toSlot;
    }
  }

  lemma MintedWholeTransferSaved(erc721: set<Address>, s: State, from: Slot, to: Address, rows: map<Slot, Nft>)
    requires Inv(erc721, s) && from.address !in erc721 && to != from.owner
    requires Key1155(from.address, from.tokenId, from.owner) in s.minted
    requires var t := Transfer1155(s, from, to, Held(s, from)).0; SaveReady(t) && Saved(t, rows)
    ensures from !in rows && from.(owner := to) in rows && rows[from.(owner := to)].value == Held(s, from)
  {
    var key, toSlot := Key1155(from.address, from.tokenId, from.owner), from.(owner := to);
    var t := Transfer1155(s, from, to, Held(s, from)).0;
    EntriesOf(erc721, s, from);
    assert t == s.(minted := s.minted[key := s.minted[key].(owner := to)]);
    assert SlotOf(t.minted[key]) == toSlot;
  }

  // ---------------------------------------------------------------------------
  // The rest of a window after a whole minted transfer
  // ---------------------------------------------------------------------------

  /** The record a holder minted is owned by somebody else already: a whole transfer has renamed it under its key. */
  predicate Renamed(s: State, holder: Slot, owner: Address) {
    var key := Key1155(holder.address, holder.tokenId, holder.owner);
    && owner != holder.owner && holder !in s.rows
    && key in s.minted && s.minted[key].kind == ERC1155 && SlotOf(s.minted[key]) == holder.(owner := owner)
  }

  /** The transfer renames the record and moves nothing in the view. */
  lemma WholeMintedRenames(erc721: set<Address>, s: State, from: Slot, to: Address)
    requires Inv(erc721, s) && from.address !in erc721 && to != from.owner
    requires Key1155(from.address, from.tokenId, from.owner) in s.minted
    ensures var t := Transfer1155(s, from, to, Held(s, from)).0;
            && Renamed(t, from, to) && t.rows == s.rows && t.updated == s.updated
            && forall slot: Slot :: slot.address !in erc721 ==> Held(t, slot) == Held(s, slot)
  {
    EntriesOf(erc721, s, from);
  }

  /** The recipient, unless it has something of its own, can spend nothing. */
  lemma RecipientCannotSpend(s: State, holder: Slot, owner: Address, to: Address, value: int)
    requires Renamed(s, holder, owner) && !Exists(s, holder.(owner := owner))
    ensures Transfer1155(s, holder.(owner := owner), to, value) == (s, Skipped)
  {
  }

  /** What is minted to the sender goes into the recipient's record. */
  lemma MintGoesToRecipient(s: State, holder: Slot, owner: Address, nft: Nft)
    requires Renamed(s, holder, owner) && nft.kind == ERC1155 && SlotOf(nft) == holder
    ensures var t, key := Mint1155(s, nft), Key1155(holder.address, holder.tokenId, holder.owner);
            Renamed(t, holder, owner) && t.minted[key].value == s.minted[key].value + nft.value
  {
  }

  /** What the sender goes on to spend is taken from the recipient's record. */
  lemma SenderSpendsRecipients(s: State, holder: Slot, owner: Address, to: Address, value: int)
    requires Renamed(s, holder, owner) && to != holder.owner
    requires var key := Key1155(holder.address, holder.tokenId, holder.owner); 0 <= value < s.minted[key].value
    ensures var (t, outcome) := Transfer1155(s, holder, to, value);
            var key := Key1155(holder.address, holder.tokenId, holder.owner);
            outcome == Done && Renamed(t, holder, owner) && t.minted[key].value == s.minted[key].value - value
  {
  }

  /** What the sender receives takes the record back, with the recipient's amount. */
  lemma ReceivingTakesBack(s: State, template: Nft, holder: Slot, owner: Address, value: int)
    requires Renamed(s, holder, owner) && template.kind == ERC1155
    requires template.address == holder.address && template.tokenId == holder.tokenId
    ensures var t, key := Credit(s, template, holder, value), Key1155(holder.address, holder.tokenId, holder.owner);
            key in t.minted && SlotOf(t.minted[key]) == holder && t.minted[key].value == s.minted[key].value + value
  {
  }

  /** An event of other holders leaves the record alone. */
  lemma OthersLeaveRecord(s: State, holder: Slot, owner: Address, from: Slot, to: Address, value: int)
    requires Renamed(s, holder, owner) && from != holder && from.(owner := to) != holder
    ensures var t, key := Transfer1155(s, from, to, value).0, Key1155(holder.address, holder.tokenId, holder.owner);
            Renamed(t, holder, owner) && t.minted[key] == s.minted[key]
  {
  }

  /** A save stores the record under its owner, and nothing under the holder that minted it. */
  lemma RenamedIsSaved(s: State, holder: Slot, owner: Address, rows: map<Slot, Nft>)
    requires Renamed(s, holder, owner) && SaveReady(s) && Saved(s, rows)
    requires forall k :: k in s.minted ==> SlotOf(s.minted[k]) != holder
    requires forall k :: k in s.updated ==> SlotOf(s.updated[k]) != holder
    ensures holder !in rows && holder.(owner := owner) in rows
    ensures rows[holder.(owner := owner)].value
         == s.minted[Key1155(holder.address, holder.tokenId, holder.owner)].value
  {
  }

  // ---------------------------------------------------------------------------
  // Whole runs
  // ---------------------------------------------------------------------------

  datatype Op = MintOp(nft: Nft) | TransferOp(from: Slot, to: Address, value: int) | SaveOp

  /** Holders' amounts and tokens' owners; a burnt token keeps its entry, with the zero address. */
  datatype Ledger = Ledger(holdings: map<Slot, int>, owners: map<(Address, nat), Address>)

  function Holding(l: Ledger, slot: Slot): int {
    if slot in l.holdings then l.holdings[slot] else 0
  }

  /** Applying one event to the plain ledger. */
  function Play(erc721: set<Address>, l: Ledger, op: Op): Ledger {
    match op
    case MintOp(nft) =>
      if nft.address in erc721 then l.(owners := l.owners[TokenOf(SlotOf(nft)) := nft.owner])
      else l.(holdings := l.holdings[SlotOf(nft) := Holding(l, SlotOf(nft)) + nft.value])
    case TransferOp(from, to, value) =>
      if from.address in erc721 then l.(owners := l.owners[TokenOf(from) := to])
      else
        var debited := l.(holdings := l.holdings[from := Holding(l, from) - value]);
        debited.(holdings := debited.holdings[from.(owner := to) := Holding(debited, from.(owner := to)) + value])
    case SaveOp => l
  }

  function PlayAll(erc721: set<Address>, l: Ledger, ops: seq<Op>): Ledger {
    if ops == [] then l else Play(erc721, PlayAll(erc721, l, ops[..|ops| - 1]), ops[|ops| - 1])
  }

  /** The events that are not saves. */
  function Events(ops: seq<Op>): seq<Op> {
    if ops == [] then []
    else Events(ops[..|ops| - 1]) + if ops[|ops| - 1].SaveOp? then [] else [ops[|ops| - 1]]
  }

  /** One operation of the cache. */
  ghost predicate StepOp(erc721: set<Address>, s: State, op: Op, t: State) {
    match op
    case MintOp(nft) => t == if nft.address in erc721 then Mint721(s, nft) else Mint1155(s, nft)
    case TransferOp(from, to, value) =>
      t == if from.address in erc721 then Transfer721(s, from.address, from.tokenId, from.owner, to).0
           else Transfer1155(s, from, to, value).0
    case SaveOp => t.minted == map[] && t.updated == map[] && Saved(s, t.rows)
  }

  /** What the events of the chain look like: ERC721 tokens are minted once and moved by their owner, and ERC1155
      transfers are covered. The conditions on the cache are those under which it agrees with the ledger: a mint
      finds the holder's cached amount saved, and a transfer to somebody else leaves something, or nothing was
      saved. A transfer to oneself must find its document cached. */
  ghost predicate ValidOp(erc721: set<Address>, l: Ledger, s: State, op: Op) {
    match op
    case MintOp(nft) =>
      && NewRecord(erc721, nft) && nft.owner != ZERO_ADDRESS
      && if nft.address in erc721 then TokenOf(SlotOf(nft)) !in l.owners
         else
           var key, slot := Key1155(nft.address, nft.tokenId, nft.owner), SlotOf(nft);
           key in s.updated ==> slot in s.rows && s.updated[key].value == s.rows[slot].value
    case TransferOp(from, to, value) =>
      && from.owner != ZERO_ADDRESS
      && if from.address in erc721 then TokenOf(from) in l.owners && l.owners[TokenOf(from)] == from.owner
         else
           && 0 <= value <= Holding(l, from)
           && if to == from.owner then SelfTransferOk(s, from, value, Holding(l, from))
              else value < Holding(l, from) || WholeTransferOk(s, from)
    case SaveOp => true
  }

  predicate WholeTransferOk(s: State, from: Slot) {
    && Exists(s, from) && Key1155(from.address, from.tokenId, from.owner) !in s.minted
    && from in s.rows && s.rows[from].value == 0
  }

  predicate SelfTransferOk(s: State, from: Slot, value: int, holding: int) {
    var key := Key1155(from.address, from.tokenId, from.owner);
    && Exists(s, from)
    && if key in s.minted then value == 0 || value == holding
       else if value < holding then key in s.updated || value == 0
       else from in s.rows && s.rows[from].value == holding
  }

  /** The cache's view is the ledger. A token the cache knows of has been minted. */
  ghost predicate Agrees(erc721: set<Address>, s: State, l: Ledger) {
    && (forall slot: Slot :: slot.address !in erc721 && slot.owner != ZERO_ADDRESS ==>
          Held(s, slot) == Holding(l, slot))
    && (forall slot: Slot :: slot.address in erc721 && slot.owner != ZERO_ADDRESS ==>
          (Owns(s, slot) <==> TokenOf(slot) in l.owners && l.owners[TokenOf(slot)] == slot.owner))
    && (forall slot: Slot :: slot.address in erc721 && slot in s.rows ==> TokenOf(slot) in l.owners)
    && (forall k :: k in s.minted && k.Key721? ==> (k.address, k.tokenId) in l.owners)
  }

  lemma TokenMintAgrees(erc721: set<Address>, s: State, l: Ledger, op: Op, t: State)
    requires op.MintOp? && op.nft.address in erc721
    requires Inv(erc721, s) && Agrees(erc721, s, l) && ValidOp(erc721, l, s, op) && StepOp(erc721, s, op, t)
    ensures Inv(erc721, t) && Agrees(erc721, t, Play(erc721, l, op))
  {
    var nft := op.nft;
    forall slot | slot in s.rows && slot.address == nft.address
      ensures slot.tokenId != nft.tokenId
    {
      assert TokenOf(slot) in l.owners;
    }
    Mint721Refines(erc721, s, nft);
  }

  lemma HoldingMintAgrees(erc721: set<Address>, s: State, l: Ledger, op: Op, t: State)
    requires op.MintOp? && op.nft.address !in erc721
    requires Inv(erc721, s) && Agrees(erc721, s, l) && ValidOp(erc721, l, s, op) && StepOp(erc721, s, op, t)
    ensures Inv(erc721, t) && Agrees(erc721, t, Play(erc721, l, op))
  {
    Mint1155Exact(erc721, s, op.nft);
    assert Holding(l, SlotOf(op.nft)) == Held(s, SlotOf(op.nft));
  }

  lemma TokenTransferAgrees(erc721: set<Address>, s: State, l: Ledger, op: Op, t: State)
    requires op.TransferOp? && op.from.address in erc721
    requires Inv(erc721, s) && Agrees(erc721, s, l) && ValidOp(erc721, l, s, op) && StepOp(erc721, s, op, t)
    ensures Inv(erc721, t) && Agrees(erc721, t, Play(erc721, l, op))
  {
    assert Owns(s, op.from);
    Transfer721Exact(erc721, s, op.from, op.to);
  }

  lemma PlayedHolding(erc721: set<Address>, l: Ledger, op: Op, slot: Slot)
    requires op.TransferOp? && op.from.address !in erc721
    ensures Holding(Play(erc721, l, op), slot)
         == Holding(l, slot) + (if slot == op.from.(owner := op.to) then op.value else 0)
                             - (if slot == op.from then op.value else 0)
    ensures Play(erc721, l, op).owners == l.owners
  {
  }

  /** The amount leaves one holder and reaches another, and nothing else changes. */
  ghost predicate Moved(erc721: set<Address>, s: State, t: State, from: Slot, to: Address, value: int) {
    && Inv(erc721, t)
    && (forall slot: Slot :: slot.address !in erc721 ==>
          Held(t, slot) == Held(s, slot) + (if slot == from.(owner := to) then value else 0)
                           - (if slot == from then value else 0))
    && (forall slot: Slot :: slot.address in erc721 ==> (Owns(t, slot) <==> Owns(s, slot)))
  }

  /** A transfer stores nothing, and mints no token. */
  lemma TransferMintsNoToken(s: State, from: Slot, to: Address, value: int)
    ensures var t := Transfer1155(s, from, to, value).0;
            t.rows == s.rows && forall k: Key :: k.Key721? ==> (k in t.minted <==> k in s.minted)
  {
  }

  lemma TransferMoves(erc721: set<Address>, s: State, from: Slot, to: Address, value: int)
    requires Inv(erc721, s) && from.address !in erc721 && to != from.owner && 0 <= value <= Held(s, from)
    requires value < Held(s, from) || WholeTransferOk(s, from)
    ensures Moved(erc721, s, Transfer1155(s, from, to, value).0, from, to, value)
  {
    if value < Held(s, from) {
      PartialTransferExact(erc721, s, from, to, value);
    } else {
      WholeTransferExact(erc721, s, from, to, value);
    }
  }

  lemma SelfTransferMoves(erc721: set<Address>, s: State, from: Slot, value: int)
    requires Inv(erc721, s) && from.address !in erc721 && 0 <= value <= Held(s, from)
    requires SelfTransferOk(s, from, value, Held(s, from))
    ensures Moved(erc721, s, Transfer1155(s, from, from.owner, value).0, from, from.owner, value)
  {
    if value < Held(s, from) {
      SelfTransferExact(erc721, s, from, value);
    } else {
      WholeSelfTransferExact(erc721, s, from);
    }
    assert from.(owner := from.owner) == from;
  }

  lemma HoldingTransferAgrees(erc721: set<Address>, s: State, l: Ledger, op: Op, t: State)
    requires op.TransferOp? && op.from.address !in erc721
    requires Inv(erc721, s) && Agrees(erc721, s, l) && ValidOp(erc721, l, s, op) && StepOp(erc721, s, op, t)
    ensures Inv(erc721, t) && Agrees(erc721, t, Play(erc721, l, op))
  {
    assert Held(s, op.from) == Holding(l, op.from);
    TransferMintsNoToken(s, op.from, op.to, op.value);
    if op.to == op.from.owner {
      SelfTransferMoves(erc721, s, op.from, op.value);
    } else {
      TransferMoves(erc721, s, op.from, op.to, op.value);
    }
    forall slot: Slot | slot.address !in erc721 && slot.owner != ZERO_ADDRESS
      ensures Held(t, slot) == Holding(Play(erc721, l, op), slot)
    {
      PlayedHolding(erc721, l, op, slot);
      assert Held(s, slot) == Holding(l, slot);
    }
  }

  lemma SaveAgrees(erc721: set<Address>, s: State, l: Ledger, t: State)
    requires Inv(erc721, s) && Agrees(erc721, s, l) && StepOp(erc721, s, SaveOp, t)
    ensures Inv(erc721, t) && Agrees(erc721, t, l)
  {
    SaveKeepsView(erc721, s, t.rows);
    forall slot: Slot | slot.address in erc721 && slot in t.rows
      ensures TokenOf(slot) in l.owners
    {
      SavedTokenRow(erc721, s, t.rows, slot);
      var key := Key721(slot.address, slot.tokenId);
      if key in s.updated {
        assert TokenOf(s.updated[key].home.value) in l.owners;
      }
    }
  }

  /** A run of the cache: the states after each operation, every event valid for the ledger so far. */
  ghost predicate IsRun(erc721: set<Address>, l: Ledger, ops: seq<Op>, states: seq<State>) {
    && |states| == |ops| + 1
    && Inv(erc721, states[0]) && Agrees(erc721, states[0], l)
    && forall i :: 0 <= i < |ops| ==>
         && StepOp(erc721, states[i], ops[i], states[i + 1])
         && ValidOp(erc721, PlayAll(erc721, l, ops[..i]), states[i], ops[i])
  }

  /** Over every run, wherever it is cut into windows, the cache's view is the plain ledger. */
  lemma {:induction false} RunAgrees(erc721: set<Address>, l: Ledger, ops: seq<Op>, states: seq<State>, i: nat)
    requires IsRun(erc721, l, ops, states) && i <= |ops|
    ensures Inv(erc721, states[i]) && Agrees(erc721, states[i], PlayAll(erc721, l, ops[..i]))
  {
    if i > 0 {
      RunAgrees(erc721, l, ops, states, i - 1);
      var before := PlayAll(erc721, l, ops[..i - 1]);
      assert ops[..i][..i - 1] == ops[..i - 1];
      match ops[i - 1]
      case MintOp(nft) =>
        if nft.address in erc721 {
          TokenMintAgrees(erc721, states[i - 1], before, ops[i - 1], states[i]);
        } else {
          HoldingMintAgrees(erc721, states[i - 1], before, ops[i - 1], states[i]);
        }
      case TransferOp(from, _, _) =>
        if from.address in erc721 {
          TokenTransferAgrees(erc721, states[i - 1], before, ops[i - 1], states[i]);
        } else {
          HoldingTransferAgrees(erc721, states[i - 1], before, ops[i - 1], states[i]);
        }
      case SaveOp => SaveAgrees(erc721, states[i - 1], before, states[i]);
    } else {
      assert ops[..0] == [];
    }
  }

  lemma {:induction false} PlayEvents(erc721: set<Address>, l: Ledger, ops: seq<Op>)
    ensures PlayAll(erc721, l, Events(ops)) == PlayAll(erc721, l, ops)
  {
    if ops != [] {
      var front, last := ops[..|ops| - 1], ops[|ops| - 1];
      PlayEvents(erc721, l, front);
      if last.SaveOp? {
        assert Events(ops) == Events(front);
      } else {
        assert Events(ops)[..|Events(front)|] == Events(front);
      }
    }
  }

  /** Window independence: two runs with the same events, saved at different times, end with the same
      stored owners and the same stored amounts. Rows of the zero address count as absent. */
  lemma WindowsDoNotMatter(erc721: set<Address>, l: Ledger, ops: seq<Op>, states: seq<State>, ops': seq<Op>,
                           states': seq<State>)
    requires IsRun(erc721, l, ops, states) && IsRun(erc721, l, ops', states') && Events(ops) == Events(ops')
    requires ops != [] && ops[|ops| - 1].SaveOp? && ops' != [] && ops'[|ops'| - 1].SaveOp?
    ensures var rows, rows' := states[|ops|].rows, states'[|ops'|].rows;
            && (forall slot: Slot :: slot.address in erc721 && slot.owner != ZERO_ADDRESS ==>
                  (slot in rows <==> slot in rows'))
            && (forall slot: Slot :: slot.address !in erc721 && slot.owner != ZERO_ADDRESS ==>
                  (if slot in rows then rows[slot].value else 0) == (if slot in rows' then rows'[slot].value else 0))
  {
    var s, s' := states[|ops|], states'[|ops'|];
    RunAgrees(erc721, l, ops, states, |ops|);
    RunAgrees(erc721, l, ops', states', |ops'|);
    assert ops[..|ops|] == ops && ops'[..|ops'|] == ops';
    PlayEvents(erc721, l, ops);
    PlayEvents(erc721, l, ops');
    assert StepOp(erc721, states[|ops| - 1], SaveOp, s) && StepOp(erc721, states'[|ops'| - 1], SaveOp, s');
    forall slot: Slot | slot.address in erc721 && slot.owner != ZERO_ADDRESS
      ensures slot in s.rows <==> slot in s'.rows
    {
      assert Owns(s, slot) <==> Owns(s', slot);
    }
    forall slot: Slot | slot.address !in erc721 && slot.owner != ZERO_ADDRESS
      ensures (if slot in s.rows then s.rows[slot].value else 0) == (if slot in s'.rows then s'.rows[slot].value else 0)
    {
      assert Held(s, slot) == Held(s', slot);
    }
  }
}
