/**
 What every write of a block keeps of the tables.

 Own-key indexes, holder sets, holder counts and stake-hash buckets all agree with the stored
 handles, and each stored handle has one unit, an output and the holder of its address. A batch of
 burns is followed here; the batch of one output is in OutputIndexing.
 */
module TableInvariants {
  import opened HandleTables
  import opened HolderCounts
  import opened IndexAgreement
  import opened Ledger
  import opened Wrappers

  function Owned(handles: map<string, Handle>, a: string): set<string> {
    set n | n in handles && handles[n].holder == a :: n
  }

  /** Each HOLDER set is the names of the handles that name that holder. */
  ghost predicate HoldersOk(db: Db) {
    forall a: string :: HolderSet(db.sets, a) == Owned(db.handles, a)
  }

  ghost predicate CountsOk(db: Db) {
    forall a: string :: CountOk(db, a)
  }

  ghost predicate StakeOk(lib: Lib, db: Db) {
    forall x: string, n: string :: (StakeHash(x), n) in db.sets <==>
        n in db.handles && lib.stakeHash(db.handles[n].holder) == Some(x)
  }

  predicate RecordOk(lib: Lib, h: Handle, slot: nat) {
    h.amount == 1 && h.utxo.Some? && h.holder == lib.holderOf(h.address) && h.updatedSlot <= slot
        && Names(h.asset, h.name)
  }

  ghost predicate RecordsOk(lib: Lib, db: Db, slot: nat) {
    forall n <- db.handles :: RecordOk(lib, db.handles[n], slot)
  }

  ghost predicate TablesOk(lib: Lib, db: Db, slot: nat) {
    IndexOk(lib, db) && AllDerived(lib, db) && HoldersOk(db) && CountsOk(db) && StakeOk(lib, db)
        && RecordsOk(lib, db, slot)
  }

  /** The invariant speaks of these tables only. */
  lemma TablesDepend(lib: Lib, db: Db, other: Db, slot: nat)
    requires TablesOk(lib, db, slot)
    requires other.handles == db.handles && other.handleRoot == db.handleRoot && other.sets == db.sets
    requires other.slots == db.slots && other.holderCount == db.holderCount
    ensures TablesOk(lib, other, slot)
  {
    hide OwnKey, HolderSet, Owned, Derived, RecordOk;
    forall a: string ensures CountOk(other, a) { assert CountOk(db, a); }
    forall a: string ensures HolderSet(other.sets, a) == Owned(other.handles, a) {
      assert HolderSet(db.sets, a) == Owned(db.handles, a);
    }
  }

  // ---------- Burns ----------

  lemma BurnKeepsStake(lib: Lib, b: Batch, h: Handle)
    requires StakeOk(lib, b.db) && Find(b.db.handles, h.name) == Some(h) && h.amount == 1
    ensures StakeOk(lib, RemoveHandle(lib, b, h).db)
  {
    hide LeaveHolder, Save, Forget;
    var mid := b.(db := Forget(lib, b.db, h));
    var after := RemoveHandle(lib, b, h).db;
    RemovedHandles(lib, b, h);
    forall x: string, n: string
      ensures (StakeHash(x), n) in after.sets <==>
                n in after.handles && lib.stakeHash(after.handles[n].holder) == Some(x)
    {
      ForgottenPair(lib, b.db, h, StakeHash(x), n);
      LeavePair(lib, mid, h.holder, h.name, 0, StakeHash(x), n);
    }
  }

  function HandleNames(hs: seq<Handle>): set<string> {
    set h <- hs :: h.name
  }

  ghost predicate StoredIn(handles: map<string, Handle>, hs: seq<Handle>) {
    forall h <- hs :: Find(handles, h.name) == Some(h)
  }

  lemma NamesGrow(hs: seq<Handle>)
    requires hs != []
    ensures HandleNames(hs) == HandleNames(hs[..|hs| - 1]) + {hs[|hs| - 1].name}
  {
    assert hs == hs[..|hs| - 1] + [hs[|hs| - 1]];
  }

  lemma NotYetBurned(hs: seq<Handle>)
    requires hs != [] && Distinct(hs)
    ensures hs[|hs| - 1].name !in HandleNames(hs[..|hs| - 1])
  {
  }

  lemma {:induction false} BurnsKeepIndexes(lib: Lib, db: Db, hs: seq<Handle>, slot: nat)
    requires IndexOk(lib, db) && AllDerived(lib, db) && StakeOk(lib, db) && RecordsOk(lib, db, slot)
    requires Distinct(hs) && StoredIn(db.handles, hs)
    ensures var after := RemoveHandles(lib, Open(db), hs).db;
            && IndexOk(lib, after) && AllDerived(lib, after) && StakeOk(lib, after)
            && after.handles == db.handles - HandleNames(hs)
            && after.utxos == db.utxos && after.utxoSlot == db.utxoSlot && after.mint == db.mint
            && after.cursor == db.cursor && after.scanned == db.scanned
    decreases |hs|
  {
    hide RemoveHandle, IndexOk, StakeOk, HandleNames, Derived;
    if hs == [] {
      NoNames();
    } else {
      var before, h := hs[..|hs| - 1], hs[|hs| - 1];
      BurnsKeepIndexes(lib, db, before, slot);
      var b := RemoveHandles(lib, Open(db), before);
      assert h in hs;
      NotYetBurned(hs);
      NamesGrow(hs);
      assert RecordOk(lib, db.handles[h.name], slot);
      RemoveKeepsAgreement(lib, b, h);
      BurnKeepsStake(lib, b, h);
      RemovedHandles(lib, b, h);
      RemovedRest(lib, b, h);
    }
  }

  lemma NoNames()
    ensures HandleNames([]) == {}
  {
  }

  lemma RemovedRest(lib: Lib, b: Batch, h: Handle)
    ensures var after := RemoveHandle(lib, b, h).db;
            && after.utxos == b.db.utxos && after.utxoSlot == b.db.utxoSlot && after.mint == b.db.mint
            && after.cursor == b.db.cursor && after.scanned == b.db.scanned
  {
    hide Save, LeaveHolder;
    LeaveFrame(lib, b.(db := Forget(lib, b.db, h)), h.holder, h.name, 0);
    SavedRest(lib, b.db, h.(amount := h.amount - 1), Some(h));
  }

  lemma InOwned(handles: map<string, Handle>, a: string, n: string)
    ensures n in Owned(handles, a) <==> n in handles && handles[n].holder == a
  {
  }

  lemma BurnedAreNamed(hs: seq<Handle>, a: string)
    ensures BurnedOf(hs, a) <= HandleNames(hs)
  {
    forall n <- BurnedOf(hs, a) ensures n in HandleNames(hs) {
      var h :| h in hs && h.holder == a && h.name == n;
      assert h.name in HandleNames(hs);
    }
  }

  lemma OwnedWithout(handles: map<string, Handle>, hs: seq<Handle>, a: string)
    requires StoredIn(handles, hs)
    ensures Owned(handles - HandleNames(hs), a) == Owned(handles, a) - BurnedOf(hs, a)
  {
    forall n: string
      ensures n in Owned(handles - HandleNames(hs), a) <==> n in Owned(handles, a) && n !in BurnedOf(hs, a)
    {
      InOwned(handles - HandleNames(hs), a, n);
      InOwned(handles, a, n);
      BurnedAreNamed(hs, a);
      if n in HandleNames(hs) {
        var h :| h in hs && h.name == n;
        assert Find(handles, h.name) == Some(h);
        if h.holder == a { assert n in BurnedOf(hs, a); }
      }
    }
  }

  /** The batch of burns removes exactly those handles and keeps every table in agreement. */
  lemma BurnsKeepTables(lib: Lib, db: Db, hs: seq<Handle>, slot: nat)
    requires TablesOk(lib, db, slot) && Distinct(hs) && StoredIn(db.handles, hs)
    ensures var after := RemoveHandles(lib, Open(db), hs).db;
            && TablesOk(lib, after, slot) && after.handles == db.handles - HandleNames(hs)
            && after.utxos == db.utxos && after.utxoSlot == db.utxoSlot && after.mint == db.mint
            && after.cursor == db.cursor && after.scanned == db.scanned
  {
    hide RemoveHandles, IndexOk, StakeOk, HandleNames, Derived, Owned, HolderSet, CountOk, BurnedOf;
    BurnsKeepIndexes(lib, db, hs, slot);
    var after := RemoveHandles(lib, Open(db), hs).db;
    forall h <- hs ensures h.amount <= 1 && h.name in HolderSet(db.sets, h.holder) {
      OwnedHas(db.handles, h.name);
      assert HolderSet(db.sets, h.holder) == Owned(db.handles, h.holder);
      assert RecordOk(lib, db.handles[h.name], slot);
    }
    forall a: string ensures CountOk(after, a) && HolderSet(after.sets, a) == Owned(after.handles, a) {
      assert CountOk(db, a) && HolderSet(db.sets, a) == Owned(db.handles, a);
      BurnsKeepCounts(lib, db, hs, a);
      OwnedWithout(db.handles, hs, a);
    }
  }

  lemma OwnedHas(handles: map<string, Handle>, n: string)
    requires n in handles
    ensures n in Owned(handles, handles[n].holder)
  {
  }
}
