/**
 The repository's operations, command by command (repositories/handlesRepository.ts), each proved to
 add up to its net effect in HandleTables, whether its writes run at once or wait in a batch.

 `save` is taken apart as the program orders it: stake bucket, record, traits, type and root, the
 removals of what may have changed, the additions. `removeHandle` goes through the handle's buckets
 and then its holder; `updateHandleIndexes` through an output's assets with the caller's maps.
 */
module HandleRepository {
  import opened BlockIndexer
  import opened HandleStore
  import opened HandleTables
  import opened Ledger
  import opened Wrappers

  // ---------- Net effects of groups of commands ----------

  /** Later removals of `save` never touch what it added before them. */
  lemma SaveOrder(lib: Lib, db: Db, h: Handle, previous: Option<Handle>)
    ensures var n := h.name;
            var traits := {(Rarity(h.rarity), n), (Character(h.characters), n),
                           (NumericModifier(h.numericModifiers), n), (Length(h.length), n)};
            var oldType := if previous.Some? && previous.value.handleType != h.handleType
                           then {(HandleType(previous.value.handleType), n)} else {};
            var oldAddress := if previous.Some?
                              then {(Address(previous.value.address), n)} + PaymentPair(lib, previous.value.address, n)
                              else {};
            var s1 := db.sets + StakePair(lib, h.holder, n) + traits;
            var s2 := (s1 - oldType) + {(HandleType(h.handleType), n)} + RootPair(lib, n);
            var s3 := s2 - ({(Og(Flag(h.ogNumber == 0)), n), (Personalized(!h.personalized), n)} + oldAddress);
            var s4 := s3 + {(Personalized(h.personalized), n), (Og(Flag(h.ogNumber > 0)), n), (Address(h.address), n),
                            (PaymentKey(lib.paymentKey(h.address)), n)};
            s4 == Save(lib, db, h, previous).sets
  {
  }

  /** Burns: every bucket the handle may be in, in one removal each. */
  lemma BurnOrder(lib: Lib, db: Db, h: Handle)
    ensures var n := h.name;
            var s1 := db.sets - {(Rarity(h.rarity), n), (Og(h.ogNumber), n), (Character(h.characters), n)} -
                PaymentPair(lib, h.address, n);
            var s2 := s1 - {(Address(h.address), n), (NumericModifier(h.numericModifiers), n), (Length(h.length), n),
                            (HandleType(h.handleType), n)};
            var s3 := s2 - {(Personalized(false), n), (Personalized(true), n)} - RootPair(lib, n);
            s3 == Forget(lib, db, h).sets
  {
  }

  /** Read after the removal, a holder's set is what it was without the name. */
  lemma ReadAfterRemoval(sets: Sets, holder: string, name: string)
    ensures var after := sets - {(HeldBy(holder), name), (DefaultHandle(holder), name)};
            && Members(after, HeldBy(holder)) == Members(sets, HeldBy(holder)) - {name}
            && (Members(after, HeldBy(holder)) == {} ==> |Members(sets, HeldBy(holder))| <= 1)
  {
    var after := sets - {(HeldBy(holder), name), (DefaultHandle(holder), name)};
    var was := Members(sets, HeldBy(holder));
    assert Members(after, HeldBy(holder)) == was - {name};
    if was - {name} == {} {
      assert was <= {name};
      assert was == {} || was == {name};
    }
  }

  lemma IdleIsSettled(db: Db)
    ensures Effects(db, []) == db
  {
  }

  /** The caller's maps of stored handles and holder sets, updated along the way. */
  class CallerMaps {
    var handles: map<string, Handle>
    var holders: map<string, set<string>>

    constructor (m: Maps)
      ensures Value() == m
    {
      handles, holders := m.handles, m.holders;
    }

    function Value(): Maps
      reads this
    {
      Maps(handles, holders)
    }
  }

  class Repository {
    const store: Store
    const lib: Lib

    constructor (store: Store, lib: Lib)
      ensures this.store == store && this.lib == lib
    {
      this.store, this.lib := store, lib;
    }

    // ---------- save ----------

    method AddAll(b0: Bucket, b1: Bucket, b2: Bucket, b3: Bucket, n: string)
      requires store.Valid()
      modifies store`live, store`queue
      ensures store.Valid() && (store.active ==> store.live == old(store.live))
      ensures store.Settled() == old(store.Settled()).(
                sets := old(store.Settled()).sets + {(b0, n), (b1, n), (b2, n), (b3, n)})
    {
      hide Effects;
      store.Write(SAdd(b0, n));
      store.Write(SAdd(b1, n));
      store.Write(SAdd(b2, n));
      store.Write(SAdd(b3, n));
    }

    method RemovePair(b: Bucket, n: string)
      requires store.Valid()
      modifies store`live, store`queue
      ensures store.Valid() && (store.active ==> store.live == old(store.live))
      ensures store.Settled() == old(store.Settled()).(sets := old(store.Settled()).sets - {(b, n)})
    {
      hide Effects;
      store.Write(SRem(b, n));
    }

    /** Removal from the PAYMENT_KEY_HASH bucket, skipped when the address has no payment key. */
    method RemovePaymentKey(address: string, n: string)
      requires store.Valid()
      modifies store`live, store`queue
      ensures store.Valid() && (store.active ==> store.live == old(store.live))
      ensures store.Settled() == old(store.Settled()).(sets := old(store.Settled()).sets - PaymentPair(lib, address, n))
    {
      hide Effects;
      if lib.paymentKey(address).Some? {
        RemovePair(PaymentKey(lib.paymentKey(address)), n);
      }
    }

    method SaveTypeAndRoot(h: Handle, previous: Option<Handle>)
      requires store.Valid()
      modifies store`live, store`queue
      ensures store.Valid() && (store.active ==> store.live == old(store.live))
      ensures var oldType := if previous.Some? && previous.value.handleType != h.handleType
                             then {(HandleType(previous.value.handleType), h.name)} else {};
              store.Settled() == old(store.Settled()).(
                sets := (old(store.Settled()).sets - oldType) + {(HandleType(h.handleType), h.name)} +
                    RootPair(lib, h.name))
    {
      hide Effects;
      if previous.Some? && previous.value.handleType != h.handleType {
        store.Write(SRem(HandleType(previous.value.handleType), h.name));
      }
      store.Write(SAdd(HandleType(h.handleType), h.name));
      match lib.root(h.name)
      case Some(r) => store.Write(SAdd(Subhandle(r), h.name));
      case None =>
    }

    method ClearOld(h: Handle, previous: Option<Handle>)
      requires store.Valid()
      modifies store`live, store`queue
      ensures store.Valid() && (store.active ==> store.live == old(store.live))
      ensures var oldAddress := if previous.Some?
                                then {(Address(previous.value.address), h.name)}
                                     + PaymentPair(lib, previous.value.address, h.name)
                                else {};
              store.Settled() == old(store.Settled()).(
                sets := old(store.Settled()).sets - ({(Og(Flag(h.ogNumber == 0)), h.name),
                                                      (Personalized(!h.personalized), h.name)} + oldAddress),
                slots := old(store.Settled()).slots - {h.name})
    {
      hide Effects, PaymentPair;
      RemovePair(Og(Flag(!(h.ogNumber > 0))), h.name);
      RemovePair(Personalized(!h.personalized), h.name);
      if previous.Some? {
        RemovePair(Address(previous.value.address), h.name);
        RemovePaymentKey(previous.value.address, h.name);
      }
      store.Write(ZRemSlot(h.name));
    }

    method SaveStake(h: Handle)
      requires store.Valid()
      modifies store`live, store`queue
      ensures store.Valid() && (store.active ==> store.live == old(store.live))
      ensures store.Settled() == old(store.Settled()).(sets := old(store.Settled()).sets +
                                                       StakePair(lib, h.holder, h.name))
    {
      hide Effects;
      match lib.stakeHash(h.holder)
      case Some(x) => store.Write(SAdd(StakeHash(x), h.name));
      case None =>
    }

    method SaveRecord(h: Handle)
      requires store.Valid()
      modifies store`live, store`queue
      ensures store.Valid() && (store.active ==> store.live == old(store.live))
      ensures store.Settled() == old(store.Settled()).(
                handles := old(store.Settled()).handles[h.name := h], handleRoot :=
                    old(store.Settled()).handleRoot + {h.name})
    {
      hide Effects;
      store.Write(SetHandle(h));
      store.Write(AddRoot(h.name));
    }

    method AddNew(h: Handle)
      requires store.Valid()
      modifies store`live, store`queue
      ensures store.Valid() && (store.active ==> store.live == old(store.live))
      ensures store.Settled() == old(store.Settled()).(
                sets := old(store.Settled()).sets + {(Personalized(h.personalized), h.name),
                                                     (Og(Flag(h.ogNumber > 0)), h.name),
                                                     (Address(h.address), h.name),
                                                     (PaymentKey(lib.paymentKey(h.address)), h.name)},
                slots := old(store.Settled()).slots[h.name := h.updatedSlot])
    {
      hide Effects;
      AddAll(Personalized(h.personalized), Og(Flag(h.ogNumber > 0)), Address(h.address),
             PaymentKey(lib.paymentKey(h.address)), h.name);
      store.Write(ZAddSlot(h.name, h.updatedSlot));
    }

    method Save(h: Handle, previous: Option<Handle>)
      requires store.Valid()
      modifies store`live, store`queue
      ensures store.Valid() && (store.active ==> store.live == old(store.live))
      ensures store.Settled() == HandleTables.Save(lib, old(store.Settled()), h, previous)
    {
      hide Effects, Effect, PaymentPair, StakePair, RootPair, SaveAdds, SaveRemoves;
      ghost var was := store.Settled();
      SaveStake(h);
      SaveRecord(h);
      AddAll(Rarity(h.rarity), Character(h.characters), NumericModifier(h.numericModifiers), Length(h.length), h.name);
      SaveTypeAndRoot(h, previous);
      ClearOld(h, previous);
      AddNew(h);
      SaveOrder(lib, was, h, previous);
      assert (was.slots - {h.name})[h.name := h.updatedSlot] == was.slots[h.name := h.updatedSlot];
    }

    // ---------- _removeHandleFromHolder and removeHandle ----------

    /** The holder's count once it is known how many handles are left, or its key's removal. */
    method SettleCount(holder: string, known: nat) returns (kept: bool)
      requires store.Valid()
      modifies store`live, store`queue
      ensures store.Valid() && (store.active ==> store.live == old(store.live))
      ensures var left: int := if known > 0 then known
                               else |Members(old(store.live).sets, HeldBy(holder))| - Pending(store.AsBatch(), holder);
              && kept == (left > 0)
              && store.Settled() ==
                   if left > 0
                   then old(store.Settled()).(holderCount := old(store.Settled()).holderCount[holder := left])
                   else old(store.Settled()).(sets := WithoutBucket(old(store.Settled()).sets, HeldBy(holder)),
                                              holderCount := old(store.Settled()).holderCount - {holder})
    {
      hide Effects, Members, WithoutBucket;
      kept := true;
      if known > 0 {
        store.Write(ZAddCount(holder, known));
      } else {
        var size: int := store.Scard(HeldBy(holder));
        var removals: int := store.PendingHolderRemovals(holder);
        var left := size - removals;
        if left > 0 {
          store.Write(ZAddCount(holder, left));
        } else {
          kept := false;
          store.Write(ZRemCount(holder));
          store.Write(DelSet(HeldBy(holder)));
        }
      }
    }

    /** What the caller knows to be left: from its map, or from a read that a pipeline defers. */
    method LeftOf(holder: string, name: string, maps: CallerMaps?) returns (known: nat)
      requires store.Valid()
      modifies store`queue, maps
      ensures store.Valid() && store.Settled() == old(store.Settled())
      ensures maps == null ==> known == if store.active then 0 else |Members(store.live.sets, HeldBy(holder))|
      ensures maps != null ==>
                var left := (if holder in old(maps.holders) then old(maps.holders)[holder] else {}) - {name};
                && known == |left| && maps.handles == old(maps.handles)
                && maps.holders ==
                     if holder in old(maps.holders) then old(maps.holders)[holder := left] else old(maps.holders)
    {
      hide Effects, Members;
      if maps != null {
        if holder in maps.holders { maps.holders := maps.holders[holder := maps.holders[holder] - {name}]; }
        known := if holder in maps.holders then |maps.holders[holder]| else 0;
      } else {
        var r := store.Read(GetSet(HeldBy(holder)));
        known := if r.Some? then |r.value.s| else 0;
      }
    }

    method TakeFromHolder(holder: string, name: string)
      requires store.Valid()
      modifies store`live, store`queue, store`pending
      ensures store.Valid() && (store.active ==> store.live == old(store.live))
      ensures store.Settled() == old(store.Settled()).(
                sets := old(store.Settled()).sets - {(HeldBy(holder), name), (DefaultHandle(holder), name)})
      ensures store.pending ==
                if store.active then old(store.pending)[holder := old(Pending(store.AsBatch(), holder)) + 1]
                else old(store.pending)
    {
      hide Effects, Pending;
      store.RemoveFromHolder(holder, name);
      store.Write(SRem(DefaultHandle(holder), name));
    }

    method RemoveHandleFromHolder(holder: string, name: string, maps: CallerMaps?)
      requires store.Valid() && (maps != null ==> store.active)
      modifies store`live, store`queue, store`pending, maps
      ensures store.Valid() && (store.active ==> store.live == old(store.live))
      ensures maps == null && store.active ==>
                store.AsBatch() == LeaveHolder(lib, old(store.AsBatch()), holder, name, 0)
      ensures maps == null && !store.active ==>
                store.live == LeaveHolder(lib, old(store.AsBatch()), holder, name,
                                          |Members(old(store.live).sets, HeldBy(holder)) - {name}|).db
      ensures maps != null ==>
                var (b, m) := Move(lib, old(store.AsBatch()), old(maps.Value()), holder, name);
                store.AsBatch() == b && maps.Value() == m
    {
      hide Effects, Effect, Members, WithoutBucket, StakePair;
      ReadAfterRemoval(store.live.sets, holder, name);
      IdleIsSettled(store.live);
      TakeFromHolder(holder, name);
      IdleIsSettled(store.live);
      var known := LeftOf(holder, name, maps);
      var kept := SettleCount(holder, known);
      if maps != null && !kept { maps.holders := maps.holders - {holder}; }
      RemoveStake(holder, name);
      IdleIsSettled(store.live);
    }

    method RemoveStake(holder: string, name: string)
      requires store.Valid()
      modifies store`live, store`queue
      ensures store.Valid() && (store.active ==> store.live == old(store.live))
      ensures store.Settled() == old(store.Settled()).(sets := old(store.Settled()).sets - StakePair(lib, holder, name))
    {
      hide Effects;
      match lib.stakeHash(holder)
      case Some(x) => store.Write(SRem(StakeHash(x), name));
      case None =>
    }

    method ForgetTraits(h: Handle)
      requires store.Valid()
      modifies store`live, store`queue
      ensures store.Valid() && (store.active ==> store.live == old(store.live))
      ensures store.Settled() == old(store.Settled()).(
                sets := old(store.Settled()).sets - {(Rarity(h.rarity), h.name), (Og(h.ogNumber), h.name),
                                                     (Character(h.characters), h.name)}
                        - PaymentPair(lib, h.address, h.name))
    {
      hide Effects, Effect, PaymentPair;
      RemovePair(Rarity(h.rarity), h.name);
      RemovePair(Og(h.ogNumber), h.name);
      RemovePair(Character(h.characters), h.name);
      RemovePaymentKey(h.address, h.name);
    }

    method ForgetKeys(h: Handle)
      requires store.Valid()
      modifies store`live, store`queue
      ensures store.Valid() && (store.active ==> store.live == old(store.live))
      ensures store.Settled() == old(store.Settled()).(
                sets := old(store.Settled()).sets - {(Address(h.address), h.name),
                                                     (NumericModifier(h.numericModifiers), h.name),
                                                     (Length(h.length), h.name), (HandleType(h.handleType), h.name)})
    {
      hide Effects, Effect;
      RemovePair(Address(h.address), h.name);
      RemovePair(NumericModifier(h.numericModifiers), h.name);
      RemovePair(Length(h.length), h.name);
      RemovePair(HandleType(h.handleType), h.name);
    }

    method ForgetFlags(n: string)
      requires store.Valid()
      modifies store`live, store`queue
      ensures store.Valid() && (store.active ==> store.live == old(store.live))
      ensures store.Settled() == old(store.Settled()).(
                sets := old(store.Settled()).sets - {(Personalized(false), n), (Personalized(true), n)} -
                    RootPair(lib, n),
                slots := old(store.Settled()).slots - {n})
    {
      hide Effects, Effect, RootPair;
      RemovePair(Personalized(false), n);
      RemovePair(Personalized(true), n);
      DropSlotAndRoot(n);
    }

    method ForgetHandle(h: Handle)
      requires store.Valid()
      modifies store`live, store`queue
      ensures store.Valid() && (store.active ==> store.live == old(store.live))
      ensures store.Settled() == Forget(lib, old(store.Settled()), h)
    {
      hide Effects, Effect, BurnRemoves, PaymentPair, RootPair;
      ghost var was := store.Settled();
      DropRecord(h.name);
      ForgetTraits(h);
      ForgetKeys(h);
      ForgetFlags(h.name);
      BurnOrder(lib, was, h);
    }

    method DropRecord(n: string)
      requires store.Valid()
      modifies store`live, store`queue
      ensures store.Valid() && (store.active ==> store.live == old(store.live))
      ensures store.Settled() == old(store.Settled()).(
                handles := old(store.Settled()).handles - {n}, handleRoot := old(store.Settled()).handleRoot - {n})
    {
      hide Effects;
      store.Write(DelHandle(n));
      store.Write(RemRoot(n));
    }

    method DropSlotAndRoot(n: string)
      requires store.Valid()
      modifies store`live, store`queue
      ensures store.Valid() && (store.active ==> store.live == old(store.live))
      ensures store.Settled() == old(store.Settled()).(
                sets := old(store.Settled()).sets - RootPair(lib, n), slots := old(store.Settled()).slots - {n})
    {
      hide Effects;
      store.Write(ZRemSlot(n));
      match lib.root(n)
      case Some(r) => store.Write(SRem(Subhandle(r), n));
      case None =>
    }

    method RemoveHandle(h: Handle)
      requires store.Valid()
      modifies store`live, store`queue, store`pending
      ensures store.Valid() && (store.active ==> store.live == old(store.live))
      ensures store.active ==> store.AsBatch() == HandleTables.RemoveHandle(lib, old(store.AsBatch()), h)
      ensures !store.active ==> store.live == RemoveHandleNow(lib, old(store.live), h)
    {
      hide Effects, HandleTables.Save, LeaveHolder, Forget, Members;
      IdleIsSettled(store.live);
      if h.amount - 1 <= 0 {
        ForgetHandle(h);
        IdleIsSettled(store.live);
        RemoveHandleFromHolder(h.holder, h.name, null);
      } else {
        Save(h.(amount := h.amount - 1), Some(h));
        IdleIsSettled(store.live);
      }
    }

    method AddUTxO(u: Utxo)
      requires store.Valid()
      modifies store`live, store`queue
      ensures store.Valid() && (store.active ==> store.live == old(store.live))
      ensures store.Settled() == AddUtxo(old(store.Settled()), u)
    {
      hide Effects;
      store.Write(ZAddUtxo(u.id, u.slot));
      store.Write(SetUtxo(u));
    }

    // ---------- updateHolder and updateHandleIndexes, inside a pipeline with the caller's maps ----------

    method UpdateHolder(holder: string, name: string, maps: CallerMaps)
      requires store.Valid() && store.active
      modifies store`live, store`queue, maps
      ensures store.Valid() && store.live == old(store.live)
      ensures (store.AsBatch(), maps.Value()) == JoinHolder(old(store.AsBatch()), old(maps.Value()), holder, name)
    {
      hide Effects;
      store.Write(SRem(DefaultHandle(holder), name));
      var members := (if holder in maps.holders then maps.holders[holder] else {}) + {name};
      maps.holders := maps.holders[holder := members];
      store.Write(SAdd(HeldBy(holder), name));
      store.Write(ZAddCount(holder, |members|));
    }

    /** The stored handle: from the caller's map, or a read that the pipeline defers. */
    method ExistingHandle(name: string, maps: CallerMaps) returns (existing: Option<Handle>)
      requires store.Valid()
      modifies store`queue
      ensures store.Valid() && store.Settled() == old(store.Settled())
      ensures existing == if name in maps.handles then Some(maps.handles[name])
                          else if store.active then None else Find(store.live.handles, name)
    {
      existing := None;
      if name in maps.handles {
        existing := Some(maps.handles[name]);
      } else {
        var r := store.Read(GetHandle(name));
        existing := if r.Some? then r.value.h else None;
      }
    }

    method UpdateAsset(u: Utxo, asset: Asset, mints: MintMap, maps: CallerMaps) returns (ok: bool)
      requires store.Valid() && store.active
      modifies store`live, store`queue, store`pending, maps
      ensures store.Valid() && store.live == old(store.live)
      ensures var r := IndexAsset(lib, old(store.AsBatch()), old(maps.Value()), u, asset, mints);
              (ok <==> r.Some?) && (ok ==> r.value == (store.AsBatch(), maps.Value()))
    {
      hide Effects, Answer, JoinHolder, Move, HandleTables.Save, Updated, FirstSlot, LeaveHolder, Members;
      ok := true;
      if asset == NAMELESS { return; }
      var name := asset.name;
      if name !in mints || mints[name] == {} { return false; }
      var existing := ExistingHandle(name, maps);
      if existing.None? && name == "" { return false; }
      var updated := Updated(lib, existing, u, asset, FirstSlot(mints[name]));
      var h := updated.(holder := lib.holderOf(updated.address));
      UpdateHolder(h.holder, name, maps);
      if existing.Some? && existing.value.holder != h.holder {
        RemoveHandleFromHolder(existing.value.holder, name, maps);
      }
      maps.handles := maps.handles[name := h];
      Save(h, existing);
    }

    method UpdateHandleIndexes(u: Utxo, mints: MintMap, maps: CallerMaps) returns (ok: bool)
      requires store.Valid() && store.active
      modifies store`live, store`queue, store`pending, maps
      ensures store.Valid() && store.live == old(store.live)
      ensures var r := IndexAssets(lib, old(store.AsBatch()), old(maps.Value()), u, u.assets, mints);
              (ok <==> r.Some?) && (ok ==> r.value == (store.AsBatch(), maps.Value()))
    {
      hide Effects, IndexAsset;
      ok := true;
      var i := 0;
      while i < |u.assets|
        invariant i <= |u.assets| && store.Valid() && store.active && store.live == old(store.live)
        invariant var r := IndexAssets(lib, old(store.AsBatch()), old(maps.Value()), u, u.assets[..i], mints);
                  r == Some((store.AsBatch(), maps.Value()))
      {
        assert u.assets[..i + 1][..i] == u.assets[..i];
        ok := UpdateAsset(u, u.assets[i], mints, maps);
        if !ok {
          NeverRecovers(lib, old(store.AsBatch()), old(maps.Value()), u, u.assets, i + 1, mints);
          return;
        }
        i := i + 1;
      }
      assert u.assets[..i] == u.assets;
    }
  }

  /** Once an asset raised, the output did. */
  lemma {:induction false} NeverRecovers(lib: Lib, b: Batch, maps: Maps, u: Utxo, assets: seq<Asset>, i: nat,
        mints: MintMap)
    requires i <= |assets| && IndexAssets(lib, b, maps, u, assets[..i], mints).None?
    ensures IndexAssets(lib, b, maps, u, assets, mints).None?
    decreases |assets|
  {
    hide IndexAsset;
    if i == |assets| {
      assert assets[..i] == assets;
    } else {
      assert assets[..|assets| - 1][..i] == assets[..i];
      NeverRecovers(lib, b, maps, u, assets[..|assets| - 1], i, mints);
    }
  }
}
