/**
 The NFT write-back cache on values: two overlay maps over the stored rows. The operations follow
 nftCache.ts branch by branch, including what they do when two names denote the same document.
 `NftCache` refines these functions with objects that are updated in place.
 */
module NftState {
  import opened Common

  datatype Kind = ERC721 | ERC1155

  /** The cache keys: one per token for ERC721, one per token and owner for ERC1155. */
  datatype Key = Key721(address: Address, tokenId: nat) | Key1155(address: Address, tokenId: nat, owner: Address)

  /** What the unique index of the nft table identifies a row by. */
  datatype Slot = Slot(address: Address, tokenId: nat, owner: Address)

  /** An NFT record; `block` is the block it was minted in, which copies keep, and `home` is the row it was loaded
      from, None for a record minted in this window. */
  datatype Nft = Nft(kind: Kind, address: Address, tokenId: nat, block: nat, owner: Address, value: int,
                     home: Option<Slot>)

  datatype State = State(minted: map<Key, Nft>, updated: map<Key, Nft>, rows: map<Slot, Nft>)

  datatype Outcome = Done | Skipped | NotEnoughBalance

  function SlotOf(n: Nft): Slot {
    Slot(n.address, n.tokenId, n.owner)
  }

  /** findByTokenId finds a row. */
  predicate TokenStored(rows: map<Slot, Nft>, address: Address, tokenId: nat) {
    exists slot :: slot in rows && slot.address == address && slot.tokenId == tokenId
  }

  // ---------------------------------------------------------------------------
  // The operations
  // ---------------------------------------------------------------------------

  function Mint721(s: State, nft: Nft): State {
    var key := Key721(nft.address, nft.tokenId);
    if nft.kind != ERC721 || key in s.minted || TokenStored(s.rows, nft.address, nft.tokenId) then s
    else s.(minted := s.minted[key := nft])
  }

  function Mint1155(s: State, nft: Nft): State {
    var key, slot := Key1155(nft.address, nft.tokenId, nft.owner), SlotOf(nft);
    if nft.kind != ERC1155 then s
    else if key in s.minted then
      s.(minted := s.minted[key := s.minted[key].(value := s.minted[key].value + nft.value)])
    else if slot in s.rows then
      // the stored row is loaded anew, whatever `updated` holds
      s.(updated := s.updated[key := s.rows[slot].(value := s.rows[slot].value + nft.value)])
    else s.(minted := s.minted[key := nft])
  }

  function Transfer721(s: State, address: Address, tokenId: nat, from: Address, to: Address): (State, Outcome) {
    var key, slot := Key721(address, tokenId), Slot(address, tokenId, from);
    if key in s.updated then
      var nft := s.updated[key];
      if nft.kind != ERC721 then (s, Skipped)
      else if nft.value < 1 then (s, NotEnoughBalance)
      else (s.(updated := s.updated[key := nft.(owner := to)]), Done)
    else if key in s.minted then
      var nft := s.minted[key];
      if nft.kind != ERC721 then (s, Skipped)
      else if nft.value < 1 then (s, NotEnoughBalance)
      else (s.(minted := s.minted[key := nft.(owner := to)]), Done)
    else if slot in s.rows then
      var nft := s.rows[slot];
      if nft.kind != ERC721 then (s, Skipped)
      else if nft.value < 1 then (s, NotEnoughBalance)
      else (s.(updated := s.updated[key := nft.(owner := to)]), Done)
    else (s, Skipped)
  }

  /** Credit the recipient: the cached or stored row when there is a stored one, else a record among the
      minted ones, copied from the sender's. */
  function Credit(s: State, template: Nft, to: Slot, value: int): State {
    var toKey := Key1155(to.address, to.tokenId, to.owner);
    if to in s.rows then
      var toNft := if toKey in s.updated then s.updated[toKey] else s.rows[to];
      s.(updated := s.updated[toKey := toNft.(value := toNft.value + value)])
    else
      var existed := if toKey in s.minted then s.minted[toKey].value else 0;
      s.(minted := s.minted[toKey := template.(owner := to.owner, value := value + existed, home := None)])
  }

  /** From a minted record: the whole of it changes its owner and keeps its key. */
  function TransferMinted(s: State, from: Slot, to: Address, value: int): (State, Outcome)
    requires Key1155(from.address, from.tokenId, from.owner) in s.minted
  {
    var key := Key1155(from.address, from.tokenId, from.owner);
    var nft := s.minted[key];
    if nft.kind != ERC1155 then (s, Skipped)
    else if nft.value < value then (s, NotEnoughBalance)
    else if nft.value == value then (s.(minted := s.minted[key := nft.(owner := to)]), Done)
    else
      var credited := Credit(s, nft, from.(owner := to), value);
      // a transfer to oneself has just replaced the record that is debited here
      if to == from.owner && from !in s.rows then (credited, Done)
      else (credited.(minted := credited.minted[key := nft.(value := nft.value - value)]), Done)
  }

  /** The whole of the sender's document `nft`: the emptied document is dropped, not saved. */
  function TransferWhole(s: State, from: Slot, to: Address, nft: Nft): State {
    var key := Key1155(from.address, from.tokenId, from.owner);
    var renamed := nft.(owner := to);
    var credited := Credit(s.(updated := s.updated[key := renamed]), renamed, from.(owner := to), nft.value);
    credited.(updated := credited.updated - {key})
  }

  /** A part of the sender's document `nft`. A cached document transferred to itself is credited and
      debited; a stored one is loaded twice, and the debited copy wins. */
  function TransferPart(s: State, from: Slot, to: Address, value: int, nft: Nft): State {
    var key := Key1155(from.address, from.tokenId, from.owner);
    var credited := Credit(s, nft, from.(owner := to), value);
    var left := if to == from.owner && key in s.updated && from in s.rows then nft.value else nft.value - value;
    credited.(updated := credited.updated[key := nft.(value := left)])
  }

  function Transfer1155(s: State, from: Slot, to: Address, value: int): (State, Outcome) {
    var key := Key1155(from.address, from.tokenId, from.owner);
    if key in s.minted then TransferMinted(s, from, to, value)
    else if key !in s.updated && from !in s.rows then (s, Skipped)
    else
      var nft := if key in s.updated then s.updated[key] else s.rows[from];
      if nft.kind != ERC1155 then (s, Skipped)
      else if nft.value < value then (s, NotEnoughBalance)
      else if nft.value == value then (TransferWhole(s, from, to, nft), Done)
      else (TransferPart(s, from, to, value, nft), Done)
  }

  // ---------------------------------------------------------------------------
  // Saving
  // ---------------------------------------------------------------------------

  function Stored(n: Nft): Nft {
    n.(home := Some(SlotOf(n)))
  }

  /** The row's document is among the updated ones. */
  ghost predicate IsHome(s: State, slot: Slot) {
    exists k :: k in s.updated && s.updated[k].home == Some(slot)
  }

  /** No unique index is violated by the save. */
  ghost predicate SaveReady(s: State) {
    && (forall k, k' :: k in s.minted && k' in s.minted && SlotOf(s.minted[k]) == SlotOf(s.minted[k']) ==> k == k')
    && (forall k, k' :: k in s.updated && k' in s.updated && SlotOf(s.updated[k]) == SlotOf(s.updated[k']) ==> k == k')
    && (forall k :: k in s.minted ==> SlotOf(s.minted[k]) !in s.rows)
    && (forall k :: k in s.updated ==> s.updated[k].home.Some? && s.updated[k].home.value in s.rows)
    && (forall k :: k in s.updated && SlotOf(s.updated[k]) in s.rows ==>
          SlotOf(s.updated[k]) == s.updated[k].home.value)
    && (forall k, k' :: k in s.updated && k' in s.updated && s.updated[k].home == s.updated[k'].home ==> k == k')
    && (forall k, k' :: k in s.minted && k' in s.updated ==> SlotOf(s.minted[k]) != SlotOf(s.updated[k']))
  }

  /** Why a row is there after a save: it was not touched, it was minted, or it was saved. */
  ghost predicate Kept(s: State, slot: Slot) {
    slot in s.rows && !IsHome(s, slot)
  }

  ghost predicate Inserted(s: State, slot: Slot) {
    exists k :: k in s.minted && SlotOf(s.minted[k]) == slot
  }

  ghost predicate Rewritten(s: State, slot: Slot) {
    exists k :: k in s.updated && s.updated[k].owner != ZERO_ADDRESS && SlotOf(s.updated[k]) == slot
  }

  /** `rows` is the table after saveToDB: the minted records are inserted, the updated documents saved
      under their present owner, those of the zero address deleted, and all other rows kept. */
  ghost predicate Saved(s: State, rows: map<Slot, Nft>) {
    && (forall k :: k in s.minted ==> SlotOf(s.minted[k]) in rows && rows[SlotOf(s.minted[k])] == Stored(s.minted[k]))
    && (forall k :: k in s.updated && s.updated[k].owner != ZERO_ADDRESS ==>
          SlotOf(s.updated[k]) in rows && rows[SlotOf(s.updated[k])] == Stored(s.updated[k]))
    && (forall slot :: Kept(s, slot) ==> slot in rows && rows[slot] == s.rows[slot])
    && (forall slot :: slot in rows ==> Kept(s, slot) || Inserted(s, slot) || Rewritten(s, slot))
  }

  // ---------------------------------------------------------------------------
  // The invariant; `erc721` is the set of ERC721 contracts, every other contract is ERC1155
  // ---------------------------------------------------------------------------

  function TokenOf(slot: Slot): (Address, nat) {
    (slot.address, slot.tokenId)
  }

  ghost predicate RowsOk(erc721: set<Address>, rows: map<Slot, Nft>) {
    && (forall slot :: slot in rows ==>
          && SlotOf(rows[slot]) == slot && rows[slot].home == Some(slot)
          && (slot.address in erc721 ==> rows[slot].kind == ERC721 && rows[slot].value == 1)
          && (slot.address !in erc721 ==> rows[slot].kind == ERC1155))
    && (forall x, y {:trigger TokenOf(x), TokenOf(y)} ::
          x in rows && y in rows && x.address in erc721 && TokenOf(x) == TokenOf(y) ==> x == y)
  }

  ghost predicate MintedOk(erc721: set<Address>, s: State) {
    forall k :: k in s.minted ==>
      && k !in s.updated && s.minted[k].home == None
      && s.minted[k].address == k.address && s.minted[k].tokenId == k.tokenId
      && match k
         case Key721(a, id) =>
           a in erc721 && s.minted[k].kind == ERC721 && s.minted[k].value == 1 && !TokenStored(s.rows, a, id)
         case Key1155(a, id, owner) =>
           a !in erc721 && s.minted[k].kind == ERC1155 && s.minted[k].owner == owner && Slot(a, id, owner) !in s.rows
  }

  ghost predicate UpdatedOk(erc721: set<Address>, s: State) {
    forall k :: k in s.updated ==>
      && s.updated[k].home.Some? && s.updated[k].home.value in s.rows
      && s.updated[k].address == k.address && s.updated[k].tokenId == k.tokenId
      && s.updated[k].home.value.address == k.address && s.updated[k].home.value.tokenId == k.tokenId
      && match k
         case Key721(a, _) => a in erc721 && s.updated[k].kind == ERC721 && s.updated[k].value == 1
         case Key1155(a, id, owner) =>
           && a !in erc721 && s.updated[k].kind == ERC1155
           && s.updated[k].owner == owner && s.updated[k].home == Some(Slot(a, id, owner))
  }

  ghost predicate Inv(erc721: set<Address>, s: State) {
    RowsOk(erc721, s.rows) && MintedOk(erc721, s) && UpdatedOk(erc721, s)
  }

  // ---------------------------------------------------------------------------
  // The effective view: minted, else updated, else stored
  // ---------------------------------------------------------------------------

  /** How much of an ERC1155 token the owner holds. */
  function Held(s: State, slot: Slot): int {
    var key := Key1155(slot.address, slot.tokenId, slot.owner);
    if key in s.minted then s.minted[key].value
    else if key in s.updated then s.updated[key].value
    else if slot in s.rows then s.rows[slot].value
    else 0
  }

  /** Whether the address owns the ERC721 token. */
  predicate Owns(s: State, slot: Slot) {
    var key := Key721(slot.address, slot.tokenId);
    if key in s.minted then s.minted[key].owner == slot.owner
    else if key in s.updated then s.updated[key].owner == slot.owner
    else slot in s.rows
  }

  lemma SaveIsReady(erc721: set<Address>, s: State)
    requires Inv(erc721, s)
    ensures SaveReady(s)
  {
    forall k | k in s.updated && SlotOf(s.updated[k]) in s.rows
      ensures SlotOf(s.updated[k]) == s.updated[k].home.value
    {
      assert TokenOf(SlotOf(s.updated[k])) == TokenOf(s.updated[k].home.value);
    }
    forall k | k in s.minted
      ensures SlotOf(s.minted[k]) !in s.rows
    {
      assert k.Key721? ==> !TokenStored(s.rows, k.address, k.tokenId);
    }
    forall k, k' | k in s.minted && k' in s.updated
      ensures SlotOf(s.minted[k]) != SlotOf(s.updated[k'])
    {
      assert k.Key721? ==> !TokenStored(s.rows, k.address, k.tokenId);
    }
  }

  /** The one row of an ERC721 token after a save is the one the view names. */
  lemma SavedTokenRow(erc721: set<Address>, s: State, rows: map<Slot, Nft>, slot: Slot)
    requires Inv(erc721, s) && Saved(s, rows) && slot.address in erc721
    ensures var key := Key721(slot.address, slot.tokenId);
            slot in rows <==>
              if key in s.minted then s.minted[key].owner == slot.owner
              else if key in s.updated then s.updated[key].owner == slot.owner && slot.owner != ZERO_ADDRESS
              else slot in s.rows
    ensures slot in rows ==> rows[slot].kind == ERC721 && rows[slot].value == 1
                             && SlotOf(rows[slot]) == slot && rows[slot].home == Some(slot)
  {
    var key := Key721(slot.address, slot.tokenId);
    if slot in s.rows {
      assert key in s.minted ==> !TokenStored(s.rows, slot.address, slot.tokenId);
      if key in s.updated {
        assert TokenOf(s.updated[key].home.value) == TokenOf(slot);
        assert IsHome(s, slot);
      }
    }
  }

  /** The row of an ERC1155 holding after a save. Of the zero address only the records minted in the window and the
      rows that were not touched are there: its documents are deleted. */
  lemma SavedHolding(erc721: set<Address>, s: State, rows: map<Slot, Nft>, slot: Slot)
    requires Inv(erc721, s) && Saved(s, rows) && slot.address !in erc721
    ensures slot in rows ==> rows[slot].kind == ERC1155 && SlotOf(rows[slot]) == slot && rows[slot].home == Some(slot)
    ensures slot.owner != ZERO_ADDRESS ==> Held(s, slot) == if slot in rows then rows[slot].value else 0
    ensures slot in rows ==> rows[slot].value == Held(s, slot)
    ensures var key := Key1155(slot.address, slot.tokenId, slot.owner);
            slot in rows <==> key in s.minted || (slot in s.rows && (slot.owner == ZERO_ADDRESS ==> key !in s.updated))
  {
    var key := Key1155(slot.address, slot.tokenId, slot.owner);
    if key in s.updated {
      assert IsHome(s, slot);
    }
  }

  /** Saving keeps the invariant, and the view of every owner but the zero address, whose documents it
      deletes. */
  lemma SaveKeepsView(erc721: set<Address>, s: State, rows: map<Slot, Nft>)
    requires Inv(erc721, s) && Saved(s, rows)
    ensures var t := State(map[], map[], rows);
            && Inv(erc721, t)
            && (forall slot: Slot :: slot.owner != ZERO_ADDRESS && slot.address !in erc721 ==>
                  Held(t, slot) == Held(s, slot))
            && (forall slot: Slot :: slot.owner != ZERO_ADDRESS && slot.address in erc721 ==>
                  (Owns(t, slot) <==> Owns(s, slot)))
  {
    forall slot: Slot
      ensures slot.address in erc721 ==> slot.owner != ZERO_ADDRESS ==> (slot in rows <==> Owns(s, slot))
      ensures slot in rows ==>
                && SlotOf(rows[slot]) == slot && rows[slot].home == Some(slot)
                && (slot.address in erc721 ==> rows[slot].kind == ERC721 && rows[slot].value == 1)
                && (slot.address !in erc721 ==> rows[slot].kind == ERC1155)
      ensures slot.address !in erc721 && slot.owner != ZERO_ADDRESS ==>
                Held(s, slot) == if slot in rows then rows[slot].value else 0
    {
      if slot.address in erc721 {
        SavedTokenRow(erc721, s, rows, slot);
      } else {
        SavedHolding(erc721, s, rows, slot);
      }
    }
    forall x, y {:trigger TokenOf(x), TokenOf(y)} |
      x in rows && y in rows && x.address in erc721 && TokenOf(x) == TokenOf(y)
      ensures x == y
    {
      SavedTokenRow(erc721, s, rows, x);
      SavedTokenRow(erc721, s, rows, y);
    }
  }
}
