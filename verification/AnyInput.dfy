/**
 What the indexer keeps whatever the blocks contain. No rule of the ledger is used here: mints may be repeated,
 names may be held twice, amounts may grow, passes may stop or raise anywhere; only slots do not fall.
 */
module AnyInput {
  import opened BlockFacts
  import opened BlockIndexer
  import BlockRefinement
  import opened HandleTables
  import opened HolderCounts
  import opened IndexAgreement
  import opened Ledger
  import opened OutputIndexing
  import opened ScannedEntries
  import opened Sequences
  import opened TableInvariants
  import opened Wrappers

  /** Every index, holder set, count and stake bucket agrees with the stored handles. */
  ghost predicate Agreeing(lib: Lib, db: Db, slot: nat) {
    && IndexOk(lib, db) && AllDerived(lib, db) && HoldersOk(db) && CountsOk(db) && StakeOk(lib, db)
    && forall n <- db.handles :: db.handles[n].updatedSlot <= slot
  }

  lemma AgreeingDepends(lib: Lib, db: Db, other: Db, slot: nat, later: nat)
    requires Agreeing(lib, db, slot) && slot <= later
    requires other.handles == db.handles && other.handleRoot == db.handleRoot && other.sets == db.sets
    requires other.slots == db.slots && other.holderCount == db.holderCount
    ensures Agreeing(lib, other, later)
  {
    hide OwnKey, HolderSet, Owned, Derived;
    forall a: string ensures CountOk(other, a) && HolderSet(other.sets, a) == Owned(other.handles, a) {
      assert CountOk(db, a) && HolderSet(db.sets, a) == Owned(db.handles, a);
    }
  }

  // ---------- Burns ----------

  /** Between two burns of a batch. */
  ghost predicate BatchAgrees(lib: Lib, b: Batch, slot: nat) {
    Agreeing(lib, b.db, slot) && forall a: string :: Tracked(b, a)
  }

  lemma BurnHolder(lib: Lib, b: Batch, h: Handle, a: string)
    requires Tracked(b, a) && CountOk(b.db, a) && (a == h.holder ==> h.name in HolderSet(b.db.sets, a))
    ensures var after := RemoveHandle(lib, b, h);
            && Tracked(after, a) && CountOk(after.db, a)
            && HolderSet(after.db.sets, a)
                 == HolderSet(b.db.sets, a) - if h.amount <= 1 && h.holder == a then {h.name} else {}
  {
    hide LeaveHolder, HolderSet, Save, Forget, Tracked, CountOk;
    if h.amount <= 1 {
      BurnKeepsCount(lib, b, h, a);
    } else {
      var kept := h.(amount := h.amount - 1);
      SaveKeepsHolders(lib, b.db, kept, Some(h), a);
      SavedRest(lib, b.db, kept, Some(h));
      SameCarries(b, RemoveHandle(lib, b, h), a);
    }
  }

  lemma BurnStake(lib: Lib, b: Batch, h: Handle)
    requires StakeOk(lib, b.db) && Find(b.db.handles, h.name) == Some(h)
    ensures StakeOk(lib, RemoveHandle(lib, b, h).db)
  {
    hide LeaveHolder, Save, Forget;
    RemovedHandles(lib, b, h);
    var after := RemoveHandle(lib, b, h).db;
    forall x: string, n: string
      ensures (StakeHash(x), n) in after.sets <==>
                n in after.handles && lib.stakeHash(after.handles[n].holder) == Some(x)
    {
      if h.amount <= 1 {
        ForgottenPair(lib, b.db, h, StakeHash(x), n);
        LeavePair(lib, b.(db := Forget(lib, b.db, h)), h.holder, h.name, 0, StakeHash(x), n);
      } else {
        SavedPair(lib, b.db, h.(amount := h.amount - 1), Some(h), StakeHash(x), n);
      }
    }
  }

  lemma OwnedAfterBurn(lib: Lib, b: Batch, h: Handle, a: string)
    requires Find(b.db.handles, h.name) == Some(h)
    ensures Owned(RemoveHandle(lib, b, h).db.handles, a)
              == Owned(b.db.handles, a) - if h.amount <= 1 && h.holder == a then {h.name} else {}
  {
    hide RemoveHandle, Owned;
    RemovedHandles(lib, b, h);
    var after := RemoveHandle(lib, b, h).db.handles;
    forall n: string
      ensures n in Owned(after, a) <==> n in Owned(b.db.handles, a) && !(n == h.name && h.amount <= 1 && h.holder == a)
    {
      InOwned(after, a, n);
      InOwned(b.db.handles, a, n);
    }
  }

  /** One burn of a stored handle, whatever its amount. */
  lemma BurnAgrees(lib: Lib, b: Batch, h: Handle, slot: nat)
    requires BatchAgrees(lib, b, slot) && Find(b.db.handles, h.name) == Some(h)
    ensures BatchAgrees(lib, RemoveHandle(lib, b, h), slot)
  {
    hide RemoveHandle, IndexOk, StakeOk, Derived, HolderSet, Owned, CountOk, Tracked;
    RemoveKeepsAgreement(lib, b, h);
    BurnStake(lib, b, h);
    RemovedHandles(lib, b, h);
    SameDerived(lib, h);
    var after := RemoveHandle(lib, b, h);
    forall a: string
      ensures Tracked(after, a) && CountOk(after.db, a) && HolderSet(after.db.sets, a) == Owned(after.db.handles, a)
    {
      assert Tracked(b, a) && CountOk(b.db, a) && HolderSet(b.db.sets, a) == Owned(b.db.handles, a);
      OwnedHas(b.db.handles, h.name);
      BurnHolder(lib, b, h, a);
      OwnedAfterBurn(lib, b, h, a);
    }
  }

  lemma SameDerived(lib: Lib, h: Handle)
    ensures Derived(lib, h.(amount := h.amount - 1)) <==> Derived(lib, h)
  {
  }

  lemma {:induction false} BurnsAgree(lib: Lib, db: Db, hs: seq<Handle>, slot: nat)
    requires Agreeing(lib, db, slot) && Distinct(hs) && StoredIn(db.handles, hs)
    ensures var after := RemoveHandles(lib, Open(db), hs);
            && BatchAgrees(lib, after, slot)
            && forall n: string | n !in HandleNames(hs) :: Find(after.db.handles, n) == Find(db.handles, n)
    decreases |hs|
  {
    hide RemoveHandle, Agreeing, HandleNames, Tracked;
    if hs == [] {
      forall a: string ensures Tracked(Open(db), a) { NotStarted(db, a); }
    } else {
      var before, h := hs[..|hs| - 1], hs[|hs| - 1];
      BurnsAgree(lib, db, before, slot);
      NotYetBurned(hs);
      NamesGrow(hs);
      assert h in hs;
      BurnAgrees(lib, RemoveHandles(lib, Open(db), before), h, slot);
      RemovedHandles(lib, RemoveHandles(lib, Open(db), before), h);
    }
  }

  lemma NotStarted(db: Db, a: string)
    ensures Tracked(Open(db), a)
  {
  }

  // ---------- Outputs ----------

  /** The saved record is made from the name and the output's holder, even if it counts as one more unit. */
  lemma AnyRecord(lib: Lib, existing: Option<Handle>, u: Utxo, asset: Asset, created: nat)
    requires existing.Some? ==>
               existing.value.name == asset.name && Derived(lib, existing.value) && existing.value.updatedSlot <= u.slot
    ensures var h := NewRecord(lib, existing, u, asset, created);
            && h.name == asset.name && Derived(lib, h) && h.updatedSlot == u.slot && h.holder == lib.holderOf(u.address)
            && (existing.Some? ==> SameShape(h, existing.value))
  {
  }

  lemma AnyAsset(lib: Lib, b: Batch, maps: Maps, u: Utxo, asset: Asset, mints: MintMap)
    requires asset != NAMELESS && IndexAsset(lib, b, maps, u, asset, mints).Some?
    requires var existing := Find(maps.handles, asset.name);
             existing.Some? ==>
                 existing.value.name == asset.name && Derived(lib, existing.value)
                     && existing.value.updatedSlot <= u.slot
    ensures MintsOf(mints, asset.name) != {}
    ensures var existing := Find(maps.handles, asset.name);
            IndexAsset(lib, b, maps, u, asset, mints)
              == Some(Stored(lib, b, maps, existing, NewRecord(lib, existing, u, asset, FirstSlot(mints[asset.name]))))
  {
    hide JoinHolder, Move, Save, FirstSlot, Updated;
    var existing := Find(maps.handles, asset.name);
    AnyRecord(lib, existing, u, asset, FirstSlot(mints[asset.name]));
  }

  lemma StoredAgrees(lib: Lib, b: Batch, maps: Maps, existing: Option<Handle>, h: Handle, slot: nat)
    requires Agreeing(lib, b.db, slot) && BatchOk(b, maps, h.holder) && existing == Find(b.db.handles, h.name)
    requires Derived(lib, h) && h.updatedSlot <= slot && (existing.Some? ==> SameShape(h, existing.value))
    ensures var (c, m) := Stored(lib, b, maps, existing, h);
            && Agreeing(lib, c.db, slot) && BatchOk(c, m, h.holder)
            && c.db.handles == b.db.handles[h.name := h] && m.handles == maps.handles[h.name := h]
  {
    hide Stored, IndexOk, StakeOk, HoldersOk, CountsOk, MapsOk, Tracked, Derived, SameShape;
    StoredKeepsHolders(lib, b, maps, existing, h);
    StoredKeepsStake(lib, b, maps, existing, h);
    StoredKeepsIndexes(lib, b, maps, existing, h);
  }

  ghost predicate SameHandles(b: Batch, maps: Maps, names: set<string>) {
    MapsAgree(b.db.handles, maps, names)
  }

  lemma AssetAgrees(lib: Lib, b: Batch, maps: Maps, u: Utxo, asset: Asset, mints: MintMap, names: set<string>)
    requires Agreeing(lib, b.db, u.slot) && BatchOk(b, maps, lib.holderOf(u.address)) && SameHandles(b, maps, names)
    requires asset == NAMELESS || asset.name in names
    ensures var r := IndexAsset(lib, b, maps, u, asset, mints);
            r.Some? ==>
              && Agreeing(lib, r.value.0.db, u.slot) && BatchOk(r.value.0, r.value.1, lib.holderOf(u.address))
              && SameHandles(r.value.0, r.value.1, names)
  {
    hide IndexAsset, BatchOk, Stored, NewRecord, FirstSlot, StakeOk, HoldersOk, CountsOk;
    var r := IndexAsset(lib, b, maps, u, asset, mints);
    if asset == NAMELESS {
      Nameless(lib, b, maps, u, mints);
    } else if r.Some? {
      var existing := Find(maps.handles, asset.name);
      assert existing == Find(b.db.handles, asset.name);
      if existing.Some? { IndexedName(lib, b.db, asset.name); }
      AnyAsset(lib, b, maps, u, asset, mints);
      AnyRecord(lib, existing, u, asset, FirstSlot(mints[asset.name]));
      StoredAgrees(lib, b, maps, existing, NewRecord(lib, existing, u, asset, FirstSlot(mints[asset.name])), u.slot);
    }
  }

  lemma {:induction false} AssetsAgree(lib: Lib, b: Batch, maps: Maps, u: Utxo, assets: seq<Asset>, mints: MintMap,
                                       names: set<string>)
    requires Agreeing(lib, b.db, u.slot) && BatchOk(b, maps, lib.holderOf(u.address)) && SameHandles(b, maps, names)
    requires NamesOf(assets) <= names
    ensures var r := IndexAssets(lib, b, maps, u, assets, mints);
            r.Some? ==>
              && Agreeing(lib, r.value.0.db, u.slot) && BatchOk(r.value.0, r.value.1, lib.holderOf(u.address))
              && SameHandles(r.value.0, r.value.1, names)
    decreases |assets|
  {
    hide Agreeing, BatchOk, SameHandles, IndexAsset, NamesOf;
    if assets != [] {
      var before := assets[..|assets| - 1];
      NamesOfGrow(assets);
      AssetsAgree(lib, b, maps, u, before, mints, names);
      var r := IndexAssets(lib, b, maps, u, before, mints);
      if r.Some? { AssetAgrees(lib, r.value.0, r.value.1, u, assets[|assets| - 1], mints, names); }
    }
  }

  lemma OutputAgrees(lib: Lib, db: Db, u: Utxo, blockMints: MintMap, slot: nat)
    requires Agreeing(lib, db, slot) && slot <= u.slot
    ensures var r := IndexOutput(lib, db, u, blockMints); r.Some? ==> Agreeing(lib, r.value, u.slot)
  {
    hide Agreeing, IndexAssets, NamesOf, BuildMaps, BatchOk, MapsAgree;
    var b, maps := Batch(db.sets, AddUtxo(db, u), map[]), BuildMaps(lib, db, u);
    var mints := MintsFor(db, u, blockMints);
    AgreeingDepends(lib, db, AddUtxo(db, u), slot, u.slot);
    if NamesOf(u.assets) == {} {
      AllNameless(lib, b, maps, u, u.assets, mints);
    } else {
      OutputOpens(lib, db, u, slot);
      AssetsAgree(lib, b, maps, u, u.assets, mints, NamesOf(u.assets));
    }
  }

  lemma OutputOpens(lib: Lib, db: Db, u: Utxo, slot: nat)
    requires Agreeing(lib, db, slot) && NamesOf(u.assets) != {}
    ensures var b, maps := Batch(db.sets, AddUtxo(db, u), map[]), BuildMaps(lib, db, u);
            BatchOk(b, maps, lib.holderOf(u.address)) && SameHandles(b, maps, NamesOf(u.assets))
  {
    hide IndexOk, StakeOk, AllDerived, BuildMaps, MapsOk, Tracked, NamesOf, HolderSet, Owned, MapsAgree;
    BuiltMaps(lib, db, u);
    forall a: string ensures Tracked(Batch(db.sets, AddUtxo(db, u), map[]), a) { NothingPending(db, u, a); }
    forall a: string ensures CountOk(AddUtxo(db, u), a) { assert CountOk(db, a); }
  }

  // ---------- Whole passes ----------

  predicate AtSlot(w: Write, slot: nat) {
    (w.Burn? ==> Once(w.names)) && (w.IndexUtxo? ==> w.u.slot == slot)
  }

  lemma WriteAgrees(lib: Lib, db: Db, w: Write, slot: nat)
    requires Agreeing(lib, db, slot) && AtSlot(w, slot)
    ensures var r := Exec(lib, db, w); r.Some? ==> Agreeing(lib, r.value, slot)
  {
    hide Agreeing, RemoveHandles, IndexOutput, StoredHandles, Distinct, StoredIn, Once;
    match w
    case Burn(names) =>
      StoredNames(lib, db, slot);
      StoredHandlesAre(db, names);
      BurnsAgree(lib, db, StoredHandles(db, names), slot);
    case IndexUtxo(u, blockMints) => OutputAgrees(lib, db, u, blockMints, slot);
    case _ => AgreeingDepends(lib, db, Exec(lib, db, w).value, slot, slot);
  }

  lemma StoredNames(lib: Lib, db: Db, slot: nat)
    requires Agreeing(lib, db, slot)
    ensures forall n <- db.handles :: db.handles[n].name == n
  {
  }

  lemma {:induction false} RunAgrees(lib: Lib, db: Db, ws: seq<Write>, slot: nat)
    requires Agreeing(lib, db, slot) && forall w <- ws :: AtSlot(w, slot)
    ensures var r := Run(lib, db, ws); r.Some? ==> Agreeing(lib, r.value, slot)
    decreases |ws|
  {
    hide Agreeing, Exec, AtSlot;
    if ws != [] {
      var before := ws[..|ws| - 1];
      assert ws[|ws| - 1] in ws && forall w <- before :: w in ws;
      RunAgrees(lib, db, before, slot);
      if Run(lib, db, before).Some? { WriteAgrees(lib, Run(lib, db, before).value, ws[|ws| - 1], slot); }
    }
  }

  lemma {:induction false} OutputSlots(rows: seq<Tx>, slot: nat)
    requires forall t <- rows :: t.slot == slot
    ensures forall u <- OutputsOf(rows) :: u.slot == slot
    decreases |rows|
  {
    hide OutputAt;
    if rows != [] {
      var before, t := rows[..|rows| - 1], rows[|rows| - 1];
      assert t in rows && forall x <- before :: x in rows;
      OutputSlots(before, slot);
      forall u <- OutputsUpTo(t, |t.outputs|) ensures u.slot == slot {
        OutputsUpToAre(t, |t.outputs|);
        var i :| 0 <= i < |t.outputs| && u == OutputAt(t, i);
        OutputSlot(t, i);
      }
    }
  }

  lemma OutputSlot(t: Tx, i: nat)
    requires i < |t.outputs|
    ensures OutputAt(t, i).slot == t.slot
  {
  }

  lemma {:induction false} SurvivingSlots(us: seq<Utxo>, spent: set<OutRef>, slot: nat)
    requires forall u <- us :: u.slot == slot
    ensures forall u <- Surviving(us, spent) :: u.slot == slot
    decreases |us|
  {
    if us != [] {
      assert us[|us| - 1] in us && forall u <- us[..|us| - 1] :: u in us;
      SurvivingSlots(us[..|us| - 1], spent, slot);
    }
  }

  lemma {:induction false} IndexSlots(us: seq<Utxo>, mints: MintMap, slot: nat)
    requires forall u <- us :: u.slot == slot
    ensures forall w <- IndexWrites(us, mints) :: AtSlot(w, slot)
    decreases |us|
  {
    if us != [] {
      assert us[|us| - 1] in us && forall u <- us[..|us| - 1] :: u in us;
      IndexSlots(us[..|us| - 1], mints, slot);
    }
  }

  lemma BlockSlots(block: Block, rows: seq<Tx>, tip: Tip)
    requires forall t <- rows :: t.slot == block.slot
    ensures forall w <- Writes(block, rows, tip) :: AtSlot(w, block.slot)
  {
    hide OutputsOf, Pick, BlockMints, BurnNames, AllMinted, SpentAll, Surviving, IndexWrites, Once, Has222;
    OutputSlots(rows, block.slot);
    BurnNamesAre(AllMinted(rows), "");
    var built := BuildUtxos(rows);
    forall u <- built ensures u.slot == block.slot {
      PickHas(OutputsOf(rows), true, u);
      PickHas(OutputsOf(rows), false, u);
    }
    SurvivingSlots(built, SpentAll(rows), block.slot);
    IndexSlots(Surviving(built, SpentAll(rows)), BlockMints(built), block.slot);
  }

  function PassSlot(ps: seq<Pass>): nat {
    if ps == [] then 0 else ps[|ps| - 1].block.slot
  }

  /** Each pass lists transactions of its block's slot, and slots do not fall. */
  predicate InSlotOrder(ps: seq<Pass>) {
    ps == [] ||
    (var before, p := ps[..|ps| - 1], ps[|ps| - 1];
     InSlotOrder(before) && PassSlot(before) <= p.block.slot && forall t <- p.rows :: t.slot == p.block.slot)
  }

  lemma NothingStored(lib: Lib)
    ensures Agreeing(lib, BlockRefinement.EMPTY, 0)
  {
    BlockRefinement.EmptyFollows(lib);
  }

  /** After any history from empty tables, cut anywhere, everything agrees. */
  lemma {:induction false} HistoryAgrees(lib: Lib, ps: seq<Pass>)
    requires InSlotOrder(ps)
    ensures var r := Passes(lib, BlockRefinement.EMPTY, ps); r.Some? ==> Agreeing(lib, r.value, PassSlot(ps))
    decreases |ps|
  {
    hide Agreeing, Run, Writes, AtSlot;
    if ps == [] {
      NothingStored(lib);
    } else {
      var before, p := ps[..|ps| - 1], ps[|ps| - 1];
      HistoryAgrees(lib, before);
      var d := Passes(lib, BlockRefinement.EMPTY, before);
      if d.Some? {
        AgreeingDepends(lib, d.value, d.value, PassSlot(before), p.block.slot);
        BlockSlots(p.block, p.rows, p.tip);
        assert forall w <- PassWrites(p) :: w in Writes(p.block, p.rows, p.tip);
        RunAgrees(lib, d.value, PassWrites(p), p.block.slot);
      }
    }
  }

  // ---------- Two inputs that never come up ----------

  /**
   So the two ways in which save and burn can go wrong are closed to the indexer: in every state it can reach
   a stored name is in its holder's set, and the record made from any output has the stored one's shape.
   */
  lemma ReachedStatesAreSafe(lib: Lib, ps: seq<Pass>, n: string)
    requires InSlotOrder(ps) && Passes(lib, BlockRefinement.EMPTY, ps).Some?
    requires n in Passes(lib, BlockRefinement.EMPTY, ps).value.handles
    ensures var db := Passes(lib, BlockRefinement.EMPTY, ps).value; var h := db.handles[n];
            && h.name == n && n in HolderSet(db.sets, h.holder) && CountOk(db, h.holder)
            && forall u: Utxo, asset: Asset, created: nat | asset.name == n && PassSlot(ps) <= u.slot ::
                 SameShape(NewRecord(lib, Some(h), u, asset, created), h)
  {
    hide Passes, NewRecord, HolderSet, Owned, CountOk, SameShape, StakeOk, Derived;
    HistoryAgrees(lib, ps);
    var db := Passes(lib, BlockRefinement.EMPTY, ps).value;
    var h := db.handles[n];
    OwnedHas(db.handles, n);
    assert HolderSet(db.sets, h.holder) == Owned(db.handles, h.holder) && CountOk(db, h.holder);
    assert Derived(lib, h);
    IndexedName(lib, db, n);
    forall u: Utxo, asset: Asset, created: nat | asset.name == n && PassSlot(ps) <= u.slot
      ensures SameShape(NewRecord(lib, Some(h), u, asset, created), h)
    {
      AnyRecord(lib, Some(h), u, asset, created);
    }
  }
}
