/**
 The indexer's tables are the ledger's: a valid block keeps every handle at the one live output that holds
 its name, and raises exactly when a surviving output mixes fresh and older names.
 */
module BlockRefinement {
  import opened BlockFacts
  import opened BlockIndexer
  import opened HandleTables
  import opened HolderCounts
  import IndexAgreement
  import opened Ledger
  import opened NetUtxo
  import opened OutputIndexing
  import opened TableInvariants
  import opened Wrappers

  // ---------- The surviving outputs, one after the other ----------

  /** Outputs with a name in common are one output, listed twice. */
  predicate Apart(us: seq<Utxo>) {
    forall i, j | 0 <= i < j < |us| ::
      NamesOf(us[i].assets) !! NamesOf(us[j].assets) || KeyedOut(us[i]) == KeyedOut(us[j])
  }

  ghost predicate Indexable(handles: map<string, Handle>, u: Utxo, slot: nat) {
    u.slot == slot && DistinctAssets(u.assets) && NamedAssets(u.assets) && NoDoubles(handles, u, NamesOf(u.assets))
  }

  function IndexedAll(lib: Lib, db: Db, us: seq<Utxo>, blockMints: MintMap): map<string, Handle> {
    if us == [] then db.handles
    else
      var u := us[|us| - 1];
      IndexedHandles(lib, IndexedAll(lib, db, us[..|us| - 1], blockMints), u, u.assets, MintsFor(db, u, blockMints))
  }

  function PutAll(t: Table, us: seq<Utxo>): Table {
    if us == [] then t else PutAll(t, us[..|us| - 1])[us[|us| - 1].id := us[|us| - 1]]
  }

  function SlotsOf(t: Table): map<OutRef, nat> {
    map id | id in t :: t[id].slot
  }

  ghost predicate Named(us: seq<Utxo>, n: string) {
    exists u <- us :: n in NamesOf(u.assets)
  }

  lemma {:induction false} UnnamedKept(lib: Lib, db: Db, us: seq<Utxo>, blockMints: MintMap, n: string)
    requires !Named(us, n)
    ensures Find(IndexedAll(lib, db, us, blockMints), n) == Find(db.handles, n)
  {
    hide IndexedHandles, NamesOf;
    if us != [] {
      var u := us[|us| - 1];
      assert u in us && forall v <- us[..|us| - 1] :: v in us;
      UnnamedKept(lib, db, us[..|us| - 1], blockMints, n);
      OthersKept(lib, IndexedAll(lib, db, us[..|us| - 1], blockMints), u, u.assets, MintsFor(db, u, blockMints), n);
    }
  }

  lemma SharedIsSame(us: seq<Utxo>, u: Utxo, v: Utxo, n: string)
    requires Apart(us) && u in us && v in us && n in NamesOf(u.assets) && n in NamesOf(v.assets)
    ensures KeyedOut(u) == KeyedOut(v)
  {
    hide NamesOf, KeyedOut;
    var i :| 0 <= i < |us| && us[i] == u;
    var j :| 0 <= j < |us| && us[j] == v;
  }

  lemma FewerApart(us: seq<Utxo>)
    requires us != [] && Apart(us)
    ensures Apart(us[..|us| - 1]) && forall u <- us[..|us| - 1] :: u in us
  {
    hide NamesOf, KeyedOut;
  }

  predicate AllHaveMints(db: Db, us: seq<Utxo>, blockMints: MintMap) {
    forall u <- us :: HasMints(MintsFor(db, u, blockMints), NamesOf(u.assets))
  }

  lemma StillIndexable(lib: Lib, db: Db, us: seq<Utxo>, blockMints: MintMap, slot: nat)
    requires TablesOk(lib, db, slot) && us != [] && Apart(us) && forall u <- us :: Indexable(db.handles, u, slot)
    requires AllHaveMints(db, us[..|us| - 1], blockMints)
    ensures Indexable(IndexedAll(lib, db, us[..|us| - 1], blockMints), us[|us| - 1], slot)
  {
    hide TablesOk, IndexedAll, NamesOf, NotDouble, Apart, DistinctAssets, NamedAssets, RecordFor, HasMints, MintsFor;
    var before, u := us[..|us| - 1], us[|us| - 1];
    var handles := IndexedAll(lib, db, before, blockMints);
    FewerApart(us);
    assert u in us && Indexable(db.handles, u, slot);
    forall n <- NamesOf(u.assets) ensures NotDouble(Find(handles, n), u) {
      if Named(before, n) {
        var v :| v in before && n in NamesOf(v.assets);
        SharedIsSame(us, u, v, n);
        NamesOfHas(v.assets, n);
        var i :| 0 <= i < |v.assets| && v.assets[i] != NAMELESS && v.assets[i].name == n;
        NamedSaved(lib, db, before, blockMints, slot, v, i);
        RecordIsOurs(lib, db, slot, v, i, blockMints);
        assert Find(handles, n) == Some(RecordFor(lib, db, Find(db.handles, n), v, i, blockMints));
        OursIsNotDouble(RecordFor(lib, db, Find(db.handles, n), v, i, blockMints), u, v);
      } else {
        UnnamedKept(lib, db, before, blockMints, n);
      }
    }
  }

  lemma OursIsNotDouble(h: Handle, u: Utxo, v: Utxo)
    requires h.utxo == Some(v.id) && KeyedOut(u) == KeyedOut(v)
    ensures NotDouble(Some(h), u)
  {
    SameOutFields(u, v);
  }

  /** A record made from an output is made again from itself. */
  lemma RecordAgain(lib: Lib, existing: Option<Handle>, u: Utxo, asset: Asset, created: nat)
    requires asset != NAMELESS && NotDouble(existing, u)
    requires existing.Some? ==> RecordOk(lib, existing.value, u.slot) && existing.value.name == asset.name
    ensures var h := NewRecord(lib, existing, u, asset, created);
            NewRecord(lib, Some(h), u, asset, created) == h && NotDouble(Some(h), u)
  {
  }

  lemma RecordIsOurs(lib: Lib, db: Db, slot: nat, u: Utxo, i: nat, blockMints: MintMap)
    requires TablesOk(lib, db, slot) && Indexable(db.handles, u, slot)
    requires HasMints(MintsFor(db, u, blockMints), NamesOf(u.assets))
    requires i < |u.assets| && u.assets[i] != NAMELESS
    ensures var h := RecordFor(lib, db, Find(db.handles, u.assets[i].name), u, i, blockMints);
            && h.utxo == Some(u.id) && RecordFor(lib, db, Some(h), u, i, blockMints) == h && NotDouble(Some(h), u)
  {
    hide TablesOk, FirstSlot, MintsFor, NotDouble, NewRecord, RecordOk;
    var n := u.assets[i].name;
    NamesOfHas(u.assets, n);
    if n in db.handles { TablesRecord(lib, db, slot, n); }
    RecordFollowsOutput(lib, Find(db.handles, n), u, u.assets[i], FirstSlot(MintsFor(db, u, blockMints)[n]));
    RecordAgain(lib, Find(db.handles, n), u, u.assets[i], FirstSlot(MintsFor(db, u, blockMints)[n]));
  }

  lemma KeyedRecord(lib: Lib, existing: Option<Handle>, u: Utxo, v: Utxo, asset: Asset, created: nat)
    requires KeyedOut(u) == KeyedOut(v)
    ensures NewRecord(lib, existing, u, asset, created) == NewRecord(lib, existing, v, asset, created)
  {
    SameOutFields(u, v);
  }

  lemma KeyedMints(db: Db, u: Utxo, v: Utxo, blockMints: MintMap)
    requires KeyedOut(u) == KeyedOut(v)
    ensures MintsFor(db, u, blockMints) == MintsFor(db, v, blockMints) && u.assets == v.assets
  {
    SameOutFields(u, v);
  }

  lemma {:induction false} OutputsKeepTables(lib: Lib, db: Db, us: seq<Utxo>, blockMints: MintMap, slot: nat)
    requires TablesOk(lib, db, slot) && db.utxoSlot == SlotsOf(db.utxos)
    requires Apart(us) && forall u <- us :: Indexable(db.handles, u, slot)
    ensures var r := Run(lib, db, IndexWrites(us, blockMints));
            && (r.Some? <==> AllHaveMints(db, us, blockMints))
            && (r.Some? ==>
                  && TablesOk(lib, r.value, slot) && r.value.handles == IndexedAll(lib, db, us, blockMints)
                  && r.value.utxos == PutAll(db.utxos, us) && r.value.utxoSlot == SlotsOf(r.value.utxos)
                  && r.value.mint == db.mint && r.value.cursor == db.cursor && r.value.scanned == db.scanned)
    decreases |us|
  {
    hide TablesOk, Indexable, HasMints, NamesOf, IndexOutput, IndexedHandles, SlotsOf;
    if us != [] {
      var before, u := us[..|us| - 1], us[|us| - 1];
      assert us == before + [u];
      OutputsKeepTables(lib, db, before, blockMints, slot);
      var ws := IndexWrites(us, blockMints);
      assert ws[..|ws| - 1] == IndexWrites(before, blockMints);
      var r := Run(lib, db, IndexWrites(before, blockMints));
      if r.Some? {
        StillIndexable(lib, db, us, blockMints, slot);
        NextOutput(lib, r.value, u, blockMints, slot);
        SameMints(r.value, db, u, blockMints);
        SlotsGrow(r.value.utxos, u);
      }
    }
  }

  lemma NextOutput(lib: Lib, db: Db, u: Utxo, blockMints: MintMap, slot: nat)
    requires TablesOk(lib, db, slot) && Indexable(db.handles, u, slot)
    ensures var r := IndexOutput(lib, db, u, blockMints); var mints := MintsFor(db, u, blockMints);
            && (r.Some? <==> HasMints(mints, NamesOf(u.assets)))
            && (r.Some? ==>
                  && TablesOk(lib, r.value, slot) && r.value.utxos == db.utxos[u.id := u]
                  && r.value.utxoSlot == db.utxoSlot[u.id := u.slot] && r.value.mint == db.mint
                  && r.value.cursor == db.cursor && r.value.scanned == db.scanned
                  && r.value.handles == IndexedHandles(lib, db.handles, u, u.assets, mints))
  {
    hide TablesOk, NoDoubles, DistinctAssets, NamedAssets, HasMints, MintsFor, NamesOf, IndexOutput, IndexedHandles;
    OutputKeepsTables(lib, db, u, blockMints, slot);
  }

  lemma SameMints(db: Db, other: Db, u: Utxo, blockMints: MintMap)
    requires db.mint == other.mint
    ensures MintsFor(db, u, blockMints) == MintsFor(other, u, blockMints)
  {
  }

  lemma SlotsGrow(t: Table, u: Utxo)
    ensures SlotsOf(t[u.id := u]) == SlotsOf(t)[u.id := u.slot]
  {
  }

  // ---------- The block in the ledger's terms ----------

  /**
   A valid block at this slot, and the provider's rows for it: in any order, repeated or not, and with the keys
   of their metadata in any order.
   */
  ghost predicate BlockOf(l: Ledger, txs: seq<Tx>, rows: seq<Tx>, slot: nat) {
    Sound(l) && ValidAll(l, txs) && TxSet(rows) == TxSet(txs) && (forall t <- txs :: t.slot == slot)
  }

  function SurvivorsOf(rows: seq<Tx>): seq<Utxo> {
    Surviving(BuildUtxos(rows), SpentAll(rows))
  }

  lemma {:induction false} AllOneUnit(l: Ledger, txs: seq<Tx>)
    requires ValidAll(l, txs)
    ensures forall t <- txs :: OneUnit(t)
    decreases |txs|
  {
    hide OneUnit;
    if txs != [] {
      AllOneUnit(l, txs[..|txs| - 1]);
      assert txs == txs[..|txs| - 1] + [txs[|txs| - 1]];
    }
  }

  lemma MadeIsBuilt(txs: seq<Tx>, u: Utxo)
    requires DistinctIds(txs) && Makes(txs, u)
    ensures u.id in Built(txs) && Built(txs)[u.id] == u
  {
    hide OutputAt, Created, DistinctIds, Fold, Built;
    var t, i :| t in txs && 0 <= i < |t.outputs| && u == OutputAt(t, i) && u.assets != [];
    var j :| 0 <= j < |txs| && txs[j] == t;
    OutputIsCreated(t, i);
    NewOutput(map[], txs, j, u.id);
  }

  lemma {:induction false} BuiltIsMade(txs: seq<Tx>, id: OutRef)
    requires id in Built(txs)
    ensures Makes(txs, Built(txs)[id]) && Built(txs)[id].id == id
    decreases |txs|
  {
    hide OutputAt, Created;
    var before, t := txs[..|txs| - 1], txs[|txs| - 1];
    assert txs == before + [t];
    if id in HandleOutputs(Created(t)) {
      CreatedIsOutput(t, id);
      assert t in txs;
    } else {
      BuiltIsMade(before, id);
      assert forall x <- before :: x in txs;
    }
  }

  lemma CreatedIsOutput(t: Tx, id: OutRef)
    requires id in Created(t)
    ensures exists i | 0 <= i < |t.outputs| :: Created(t)[id] == OutputAt(t, i)
    ensures Created(t)[id].id == id
  {
    var i :| 0 <= i < |t.outputs| && OutRef(t.id, i) == id;
    assert Created(t)[id] == OutputAt(t, i);
  }

  /** A built output is an output of the block; it survives exactly if that one is live. */
  lemma BuiltIsCreatedToo(l: Ledger, txs: seq<Tx>, rows: seq<Tx>, u: Utxo)
    requires Sound(l) && ValidAll(l, txs) && TxSet(rows) == TxSet(txs) && Makes(rows, u)
    ensures u.id in CreatedAll(txs) && KeyedOut(CreatedAll(txs)[u.id]) == KeyedOut(u) && u.assets != []
    ensures Makes(txs, CreatedAll(txs)[u.id])
    ensures Makes(txs, u) ==> CreatedAll(txs)[u.id] == u
  {
    hide OutputAt, Created, KeyedTx, KeyedOut, DistinctIds, Built, ValidAll, Makes;
    ValidIsOrdered(l, txs);
    BuiltIsCreated(l, txs);
    var v := MakesToo(rows, txs, u);
    SameOutFields(u, v);
    MadeIsBuilt(txs, v);
    MakesHolds(rows, u);
    if Makes(txs, u) { MadeIsBuilt(txs, u); }
  }

  lemma MakesHolds(rows: seq<Tx>, u: Utxo)
    requires Makes(rows, u)
    ensures u.assets != []
  {
  }

  /** The survivors are the new live outputs with handle assets. */
  lemma SurvivorsAreLive(l: Ledger, txs: seq<Tx>, rows: seq<Tx>, slot: nat)
    requires BlockOf(l, txs, rows, slot)
    ensures forall u <- SurvivorsOf(rows) ::
              && Makes(rows, u) && u.id in CreatedAll(txs) && u.id in ApplyAll(l, txs).utxo
              && KeyedOut(ApplyAll(l, txs).utxo[u.id]) == KeyedOut(u) && Makes(txs, ApplyAll(l, txs).utxo[u.id])
              && (Makes(txs, u) ==> ApplyAll(l, txs).utxo[u.id] == u)
    ensures forall id <- ApplyAll(l, txs).utxo | id in CreatedAll(txs) && ApplyAll(l, txs).utxo[id].assets != [] ::
              Survives(rows, ApplyAll(l, txs).utxo[id]) && ApplyAll(l, txs).utxo[id].id == id
  {
    hide Makes, Sound, ValidAll, SpentAll, CreatedAll, KeyedTx, KeyedOut, Created;
    BuildUtxosHave(rows);
    SurvivingAre(BuildUtxos(rows), SpentAll(rows));
    SameSpends(txs, rows);
    NetForm(l, txs);
    CreatedAreNew(l, txs);
    forall u <- SurvivorsOf(rows)
      ensures Makes(rows, u) && u.id in CreatedAll(txs) && u.id in ApplyAll(l, txs).utxo
      ensures KeyedOut(ApplyAll(l, txs).utxo[u.id]) == KeyedOut(u) && Makes(txs, ApplyAll(l, txs).utxo[u.id])
      ensures Makes(txs, u) ==> ApplyAll(l, txs).utxo[u.id] == u
    {
      BuiltIsCreatedToo(l, txs, rows, u);
    }
    forall id <- ApplyAll(l, txs).utxo | id in CreatedAll(txs) && ApplyAll(l, txs).utxo[id].assets != []
      ensures Survives(rows, ApplyAll(l, txs).utxo[id]) && ApplyAll(l, txs).utxo[id].id == id
    {
      CreatedIsBuiltToo(l, txs, rows, id);
    }
  }

  predicate Survives(rows: seq<Tx>, u: Utxo) {
    exists s <- SurvivorsOf(rows) :: s.id == u.id && KeyedOut(s) == KeyedOut(u)
  }

  lemma CreatedAreNew(l: Ledger, txs: seq<Tx>)
    requires Sound(l) && ValidAll(l, txs)
    ensures forall id <- ApplyAll(l, txs).utxo | id in CreatedAll(txs) ::
              ApplyAll(l, txs).utxo[id] == CreatedAll(txs)[id]
    ensures forall id <- CreatedAll(txs) | id !in SpentAll(txs) :: id in ApplyAll(l, txs).utxo
  {
    hide Sound, ValidAll;
    NetForm(l, txs);
  }

  lemma CreatedIsBuiltToo(l: Ledger, txs: seq<Tx>, rows: seq<Tx>, id: OutRef)
    requires Sound(l) && ValidAll(l, txs) && TxSet(rows) == TxSet(txs)
    requires id in CreatedAll(txs) && CreatedAll(txs)[id].assets != [] && id !in SpentAll(rows)
    ensures Survives(rows, CreatedAll(txs)[id]) && CreatedAll(txs)[id].id == id
  {
    hide OutputAt, Created, KeyedTx, KeyedOut, Makes, Sound, ValidAll, CreatedAll, Built, SpentAll;
    BuiltIsCreated(l, txs);
    BuildUtxosHave(rows);
    SurvivingAre(BuildUtxos(rows), SpentAll(rows));
    BuiltIsMade(txs, id);
    var v := MakesToo(txs, rows, Built(txs)[id]);
    SameOutFields(Built(txs)[id], v);
    assert v in SurvivorsOf(rows);
  }

  lemma HoldsIsNamed(u: Utxo, n: string)
    ensures Holds(u, n) <==> n in NamesOf(u.assets)
  {
  }

  lemma SameHolds(u: Utxo, v: Utxo, n: string)
    requires KeyedOut(u) == KeyedOut(v)
    ensures Holds(u, n) <==> Holds(v, n)
    ensures u.mint == v.mint && u.assets == v.assets && u.id == v.id && u.slot == v.slot
  {
    SameOutFields(u, v);
  }

  /** A survivor that holds a name is the name's holder after the block. */
  lemma SurvivorIsHolder(l: Ledger, txs: seq<Tx>, rows: seq<Tx>, slot: nat, u: Utxo, n: string)
    requires BlockOf(l, txs, rows, slot) && u in SurvivorsOf(rows) && n in NamesOf(u.assets)
    ensures Holder(ApplyAll(l, txs), n, u.id) && KeyedOut(ApplyAll(l, txs).utxo[u.id]) == KeyedOut(u)
  {
    hide Makes, ValidAll, CreatedAll, NamesOf, SurvivorsOf, ApplyAll, Holds, KeyedOut;
    SurvivorsAreLive(l, txs, rows, slot);
    HoldsIsNamed(u, n);
    SameHolds(ApplyAll(l, txs).utxo[u.id], u, n);
  }

  lemma SurvivorsApart(l: Ledger, txs: seq<Tx>, rows: seq<Tx>, slot: nat)
    requires BlockOf(l, txs, rows, slot)
    ensures Apart(SurvivorsOf(rows))
  {
    hide Makes, ValidAll, CreatedAll, NamesOf, SurvivorsOf, ApplyAll, Holds, KeyedOut, Holder;
    BlockStaysSound(l, txs);
    var us := SurvivorsOf(rows);
    forall i, j | 0 <= i < j < |us|
      ensures NamesOf(us[i].assets) !! NamesOf(us[j].assets) || KeyedOut(us[i]) == KeyedOut(us[j])
    {
      if n :| n in NamesOf(us[i].assets) && n in NamesOf(us[j].assets) {
        SurvivorIsHolder(l, txs, rows, slot, us[i], n);
        SurvivorIsHolder(l, txs, rows, slot, us[j], n);
        assert us[i].id == us[j].id;
      }
    }
  }

  // ---------- What the block mints ----------

  lemma {:induction false} MintedAssetsAre(ms: seq<Mint>, a: Asset)
    ensures a in MintedAssets(ms) <==> exists m <- ms :: m.quantity >= 0 && m.asset == a
  {
    if ms != [] {
      assert ms == ms[..|ms| - 1] + [ms[|ms| - 1]];
      MintedAssetsAre(ms[..|ms| - 1], a);
    }
  }

  lemma {:induction false} WithinIs(assets: seq<Asset>, among: seq<Asset>, a: Asset)
    ensures a in Within(assets, among) <==> a in assets && a in among
  {
    if assets != [] {
      assert assets == assets[..|assets| - 1] + [assets[|assets| - 1]];
      WithinIs(assets[..|assets| - 1], among, a);
    }
  }

  lemma OutputMint(t: Tx, i: nat, a: Asset)
    requires i < |t.outputs| && OneUnit(t)
    ensures a in OutputAt(t, i).mint <==>
              a in t.outputs[i].assets && exists m <- t.minted :: m.quantity > 0 && m.asset == a
  {
    WithinIs(t.outputs[i].assets, MintedAssets(t.minted), a);
    MintedAssetsAre(t.minted, a);
  }

  /** A token in an output's own mint was minted by its transaction. */
  lemma OwnMintIsMinted(txs: seq<Tx>, u: Utxo, a: Asset)
    requires Makes(txs, u) && (forall t <- txs :: OneUnit(t)) && a in u.mint && a != NAMELESS
    ensures MintsAny(txs, a.name) && a in u.assets
  {
    hide OneUnit;
    var t, i :| t in txs && 0 <= i < |t.outputs| && u == OutputAt(t, i) && u.assets != [];
    OutputMint(t, i, a);
    assert Mints(t, a.name);
  }

  lemma MintIsInOutput(l: Ledger, t: Tx, n: string)
    requires Valid(l, t) && Mints(t, n)
    ensures exists i | 0 <= i < |t.outputs| :: n in NamesOf(OutputAt(t, i).mint)
  {
    hide Holder;
    assert Leaves(t, n);
    var i :| 0 <= i < |t.outputs| && Holds(OutputAt(t, i), n);
    var a :| a in t.outputs[i].assets && Names(a, n);
    var m :| m in t.minted && m.quantity > 0 && Names(m.asset, n);
    assert a == m.asset;
    OutputMint(t, i, a);
    assert n in NamesOf(OutputAt(t, i).mint);
  }

  lemma {:induction false} EachIsValid(l: Ledger, txs: seq<Tx>, t: Tx)
    requires ValidAll(l, txs) && t in txs
    ensures exists m: Ledger :: Valid(m, t)
    decreases |txs|
  {
    hide Valid;
    assert txs == txs[..|txs| - 1] + [txs[|txs| - 1]];
    if t != txs[|txs| - 1] { EachIsValid(l, txs[..|txs| - 1], t); }
  }

  /** The block has minting data for a name exactly when it mints it. */
  lemma MintedNames(l: Ledger, txs: seq<Tx>, rows: seq<Tx>, slot: nat, n: string)
    requires BlockOf(l, txs, rows, slot)
    ensures MintsOf(BlockMints(BuildUtxos(rows)), n) != {} <==> MintsAny(txs, n)
  {
    hide Makes, OneUnit, NamesOf, BlockMints, BuildUtxos, Mints, ValidAll, Valid, TxSet, KeyedOut;
    var us := BuildUtxos(rows);
    BuildUtxosHave(rows);
    BlockMintsAre(us, n);
    AllOneUnit(l, txs);
    if d :| d in MintsOf(BlockMints(us), n) {
      var u :| u in us && n in NamesOf(u.mint) && d == MintData(u.slot, u.metadata, u.id.tx);
      var v := MakesToo(rows, txs, u);
      SameHolds(u, v, n);
      MintNamed(txs, v, n);
    }
    if MintsAny(txs, n) {
      var t :| t in txs && Mints(t, n);
      EachIsValid(l, txs, t);
      var m: Ledger :| Valid(m, t);
      MintIsInOutput(m, t, n);
      var i :| 0 <= i < |t.outputs| && n in NamesOf(OutputAt(t, i).mint);
      MadeWithMint(t, i, n);
      var u := OutputAt(t, i);
      MakesOne(txs, t, i);
      var v := MakesToo(txs, rows, u);
      SameHolds(u, v, n);
      assert MintData(v.slot, v.metadata, v.id.tx) in MintsOf(BlockMints(us), n);
    }
  }

  lemma MintNamed(txs: seq<Tx>, u: Utxo, n: string)
    requires Makes(txs, u) && (forall t <- txs :: OneUnit(t)) && n in NamesOf(u.mint)
    ensures MintsAny(txs, n)
  {
    hide Makes, OneUnit, Mints;
    var a :| a in u.mint && a != NAMELESS && a.name == n;
    OwnMintIsMinted(txs, u, a);
  }

  lemma MadeWithMint(t: Tx, i: nat, n: string)
    requires i < |t.outputs| && n in NamesOf(OutputAt(t, i).mint)
    ensures OutputAt(t, i).assets != []
  {
    var a :| a in OutputAt(t, i).mint && a != NAMELESS && a.name == n;
    WithinIs(t.outputs[i].assets, MintedAssets(t.minted), a);
  }

  lemma MakesOne(txs: seq<Tx>, t: Tx, i: nat)
    requires t in txs && i < |t.outputs| && OutputAt(t, i).assets != []
    ensures Makes(txs, OutputAt(t, i))
  {
    hide OutputAt;
  }

  // ---------- The tables follow the ledger ----------

  /** The stored handle is the one this output gives its name. */
  predicate PointsAt(h: Handle, u: Utxo) {
    h.utxo == Some(u.id) && h.address == u.address && h.lovelace == u.lovelace && h.updatedSlot == u.slot
        && h.asset in u.assets
  }

  ghost predicate HandlesFollow(handles: map<string, Handle>, l: Ledger) {
    && (forall n: string :: n in handles <==> Held(l, n))
    && (forall n: string, id: OutRef | Holder(l, n, id) :: n in handles && PointsAt(handles[n], l.utxo[id]))
  }

  predicate NamesHaveMints(db: Db) {
    forall n <- db.handles :: MintsOf(db.mint, n) != {}
  }

  /**
   The handle table holds exactly the names held on chain, each at its one live holding output; all
   indexes agree with it; the UTXO tables are the live outputs with handle assets, up to the key order of
   their metadata.
   */
  ghost predicate Follows(lib: Lib, db: Db, l: Ledger, slot: nat) {
    && TablesOk(lib, db, slot) && HandlesFollow(db.handles, l) && NamesHaveMints(db)
    && KeyedTable(db.utxos) == KeyedTable(HandleOutputs(l.utxo)) && db.utxoSlot == SlotsOf(db.utxos)
  }

  lemma HeldIsNamed(l: Ledger, n: string)
    requires Sound(l) && Held(l, n)
    ensures n != ""
  {
    var id :| Holder(l, n, id);
    var a :| a in l.utxo[id].assets && Names(a, n);
    assert a != Owner222("");
  }

  /** The first write: the block's burned names are gone. */
  lemma BurnWrite(lib: Lib, db: Db, l: Ledger, txs: seq<Tx>, rows: seq<Tx>, was: nat, slot: nat)
    requires Follows(lib, db, l, was) && BlockOf(l, txs, rows, slot) && was <= slot
    ensures var after := Exec(lib, db, Burn(BurnNames(AllMinted(rows)))).value;
            && TablesOk(lib, after, slot) && SameRest(db, after)
            && forall n: string :: Find(after.handles, n) == if BurnsAny(txs, n) then None else Find(db.handles, n)
  {
    hide TablesOk, BurnNames, HandleNames, Distinct, StoredIn, RemoveHandles, BurnsAny, ValidAll, DistinctIds,
      PointsAt, StoredHandles;
    var names := BurnNames(AllMinted(rows));
    BurnNamesAre(AllMinted(rows), "");
    TablesNames(lib, db, was);
    StoredHandlesAre(db, names);
    BurnsKeepTables(lib, db, StoredHandles(db, names), was);
    LaterSlot(lib, Exec(lib, db, Burn(names)).value, was, slot);
    forall n: string
      ensures n in HandleNames(StoredHandles(db, names)) <==> n in db.handles && BurnsAny(txs, n)
    {
      if n in db.handles {
        HeldIsNamed(l, n);
        BurnedNames(rows, n);
        SameBurns(txs, rows, n);
      }
    }
  }

  lemma TablesNames(lib: Lib, db: Db, slot: nat)
    requires TablesOk(lib, db, slot)
    ensures forall n <- db.handles :: db.handles[n].name == n && Names(db.handles[n].asset, n)
  {
    forall n <- db.handles ensures Names(db.handles[n].asset, n) {
      assert RecordOk(lib, db.handles[n], slot);
      IndexedName(lib, db, n);
    }
  }

  /** The second write. */
  lemma MintWrite(lib: Lib, db: Db, mints: MintMap, slot: nat)
    requires TablesOk(lib, db, slot)
    ensures TablesOk(lib, AddMint(db, mints), slot)
  {
    hide TablesOk;
    TablesDepend(lib, db, AddMint(db, mints), slot);
  }

  lemma MadeShape(txs: seq<Tx>, u: Utxo, slot: nat)
    requires Makes(txs, u) && forall t <- txs :: OneUnit(t) && t.slot == slot
    ensures u.slot == slot && DistinctAssets(u.assets) && NamedAssets(u.assets) && u.assets != []
  {
    var t, i :| t in txs && 0 <= i < |t.outputs| && u == OutputAt(t, i) && u.assets != [];
    assert t.outputs[i] in t.outputs;
    forall a <- u.assets ensures a != NAMELESS ==> a.name != "" { assert a != Owner222(""); }
  }

  /** A stored handle that outlives the burns is not minted again in the block. */
  lemma SurvivorIndexable(l: Ledger, txs: seq<Tx>, rows: seq<Tx>, slot: nat, handles: map<string, Handle>, u: Utxo)
    requires BlockOf(l, txs, rows, slot) && u in SurvivorsOf(rows)
    requires forall n <- handles :: Held(l, n) && !BurnsAny(txs, n) && Names(handles[n].asset, n)
    ensures Indexable(handles, u, slot) && u.assets != []
  {
    hide ValidAll, SurvivorsOf, Makes, OneUnit, DistinctAssets, NamedAssets, NamesOf, ApplyAll, CreatedAll, Held,
      MintsAny, BurnsAny, KeyedOut, TxSet;
    SurvivorsAreLive(l, txs, rows, slot);
    AllOneUnit(l, txs);
    var v := ApplyAll(l, txs).utxo[u.id];
    SameHolds(v, u, "");
    MadeShape(txs, v, slot);
    forall n <- NamesOf(u.assets) ensures NotDouble(Find(handles, n), u) {
      if n in handles && handles[n].asset in u.mint {
        OwnMintIsMinted(txs, v, handles[n].asset);
        RemintIsBurned(l, txs, n);
      }
    }
  }

  // ---------- When the block goes through ----------

  /** Some surviving output holds a token of its own transaction's mint beside a name the block does not mint. */
  ghost predicate Mixes(l: Ledger, txs: seq<Tx>) {
    exists id: OutRef ::
      && id in ApplyAll(l, txs).utxo && id in CreatedAll(txs) && ApplyAll(l, txs).utxo[id].mint != []
      && exists n: string :: Holds(ApplyAll(l, txs).utxo[id], n) && !MintsAny(txs, n)
  }

  lemma NamesNeedMints(l: Ledger, txs: seq<Tx>, rows: seq<Tx>, slot: nat, db: Db, u: Utxo)
    requires BlockOf(l, txs, rows, slot) && u in SurvivorsOf(rows)
    requires forall n: string | Held(l, n) || MintsAny(txs, n) :: MintsOf(db.mint, n) != {}
    ensures var ok := HasMints(MintsFor(db, u, BlockMints(BuildUtxos(rows))), NamesOf(u.assets));
            ok <==> (u.mint != [] ==> forall n: string | Holds(u, n) :: MintsAny(txs, n))
  {
    hide ValidAll, SurvivorsOf, NamesOf, ApplyAll, CreatedAll, MintsAny, BlockMints, BuildUtxos, Holds, Sound, Makes,
      BurnsAny, Holder, TxSet;
    var bm := BlockMints(BuildUtxos(rows));
    forall n: string ensures Holds(u, n) <==> n in NamesOf(u.assets) { HoldsIsNamed(u, n); }
    forall n: string ensures MintsOf(bm, n) != {} <==> MintsAny(txs, n) { MintedNames(l, txs, rows, slot, n); }
    if u.mint == [] {
      forall n <- NamesOf(u.assets) ensures MintsOf(MintsFor(db, u, bm), n) != {} {
        SurvivorIsHolder(l, txs, rows, slot, u, n);
        if !Held(l, n) { NewIsMinted(l, txs, n); }
        StoredMintsOf(db, u.assets, n);
      }
    }
  }

  lemma StoredMintsOf(db: Db, assets: seq<Asset>, n: string)
    requires n in NamesOf(assets)
    ensures MintsOf(StoredMints(db, assets), n) == MintsOf(db.mint, n)
  {
  }

  lemma GoesThrough(l: Ledger, txs: seq<Tx>, rows: seq<Tx>, slot: nat, db: Db)
    requires BlockOf(l, txs, rows, slot)
    requires forall n: string | Held(l, n) || MintsAny(txs, n) :: MintsOf(db.mint, n) != {}
    ensures AllHaveMints(db, SurvivorsOf(rows), BlockMints(BuildUtxos(rows))) <==> !Mixes(l, txs)
  {
    hide ValidAll, SurvivorsOf, NamesOf, ApplyAll, CreatedAll, MintsAny, BlockMints, BuildUtxos, Holds, Sound, Makes,
      HasMints, MintsFor, BlockOf, KeyedOut, Mixes;
    var us, bm := SurvivorsOf(rows), BlockMints(BuildUtxos(rows));
    forall u <- us
      ensures HasMints(MintsFor(db, u, bm), NamesOf(u.assets)) <==>
                (u.mint != [] ==> forall n: string | Holds(u, n) :: MintsAny(txs, n))
    {
      NamesNeedMints(l, txs, rows, slot, db, u);
    }
    if Mixes(l, txs) {
      var u, n := MixedSurvives(l, txs, rows, slot);
    } else {
      forall u, n: string | u in us && u.mint != [] && Holds(u, n) ensures MintsAny(txs, n) {
        NothingMixed(l, txs, rows, slot, u, n);
      }
    }
  }

  /** The mixed output among the survivors. */
  lemma MixedSurvives(l: Ledger, txs: seq<Tx>, rows: seq<Tx>, slot: nat) returns (u: Utxo, n: string)
    requires BlockOf(l, txs, rows, slot) && Mixes(l, txs)
    ensures u in SurvivorsOf(rows) && u.mint != [] && Holds(u, n) && !MintsAny(txs, n)
  {
    hide ValidAll, SurvivorsOf, ApplyAll, CreatedAll, MintsAny, Holds, Sound, Makes, KeyedOut, TxSet;
    var id: OutRef, m: string :|
      && id in ApplyAll(l, txs).utxo && id in CreatedAll(txs) && ApplyAll(l, txs).utxo[id].mint != []
      && Holds(ApplyAll(l, txs).utxo[id], m) && !MintsAny(txs, m);
    HoldsSomething(ApplyAll(l, txs).utxo[id], m);
    u := LiveIsListed(l, txs, rows, slot, id);
    n := m;
    SameHolds(u, ApplyAll(l, txs).utxo[id], n);
  }

  lemma NothingMixed(l: Ledger, txs: seq<Tx>, rows: seq<Tx>, slot: nat, u: Utxo, n: string)
    requires BlockOf(l, txs, rows, slot) && !Mixes(l, txs) && u in SurvivorsOf(rows) && u.mint != [] && Holds(u, n)
    ensures MintsAny(txs, n)
  {
    hide ValidAll, SurvivorsOf, ApplyAll, CreatedAll, MintsAny, Holds, Sound, Makes, KeyedOut, TxSet;
    SurvivorsAreLive(l, txs, rows, slot);
    SameHolds(ApplyAll(l, txs).utxo[u.id], u, n);
  }

  lemma HoldsSomething(u: Utxo, n: string)
    requires Holds(u, n)
    ensures u.assets != []
  {
  }

  // ---------- The main theorem ----------

  /** Each name of a surviving output ends with the record made from that output, however often it is listed. */
  lemma {:induction false} NamedSaved(lib: Lib, db: Db, us: seq<Utxo>, blockMints: MintMap, slot: nat, u: Utxo, i: nat)
    requires TablesOk(lib, db, slot) && Apart(us) && forall v <- us :: Indexable(db.handles, v, slot)
    requires AllHaveMints(db, us, blockMints) && u in us && i < |u.assets| && u.assets[i] != NAMELESS
    ensures var n := u.assets[i].name;
            Find(IndexedAll(lib, db, us, blockMints), n)
              == Some(RecordFor(lib, db, Find(db.handles, n), u, i, blockMints))
    decreases |us|
  {
    hide TablesOk, Apart, HasMints, NamesOf, IndexedHandles, RecordFor, MintsFor, NotDouble, NoDoubles, NamedAssets,
      DistinctAssets;
    var n := u.assets[i].name;
    NamesOfHas(u.assets, n);
    var before, last := us[..|us| - 1], us[|us| - 1];
    FewerApart(us);
    if n !in NamesOf(last.assets) {
      assert us == before + [last];
      NamedSaved(lib, db, before, blockMints, slot, u, i);
      OthersKept(lib, IndexedAll(lib, db, before, blockMints), last, last.assets, MintsFor(db, last, blockMints), n);
    } else {
      SharedIsSame(us, u, last, n);
      KeyedMints(db, u, last, blockMints);
      if Named(before, n) {
        var v :| v in before && n in NamesOf(v.assets);
        SharedIsSame(us, u, v, n);
        KeyedMints(db, u, v, blockMints);
        NamedSaved(lib, db, before, blockMints, slot, v, i);
        SameRecordFor(lib, db, Find(db.handles, n), u, v, i, blockMints);
      } else {
        UnnamedKept(lib, db, before, blockMints, n);
      }
      RecordIsOurs(lib, db, slot, u, i, blockMints);
      SavedAt(lib, db, IndexedAll(lib, db, before, blockMints), blockMints, u, last, i);
    }
  }

  lemma SameRecordFor(lib: Lib, db: Db, existing: Option<Handle>, u: Utxo, v: Utxo, i: nat, blockMints: MintMap)
    requires KeyedOut(u) == KeyedOut(v) && i < |u.assets| && u.assets[i] != NAMELESS
    requires HasMints(MintsFor(db, u, blockMints), NamesOf(u.assets))
    ensures i < |v.assets| && v.assets[i] == u.assets[i] && HasMints(MintsFor(db, v, blockMints), NamesOf(v.assets))
    ensures RecordFor(lib, db, existing, u, i, blockMints) == RecordFor(lib, db, existing, v, i, blockMints)
  {
    hide NewRecord, FirstSlot, NamesOf, KeyedOut, MintsFor;
    KeyedMints(db, u, v, blockMints);
    NamesOfHas(u.assets, u.assets[i].name);
    KeyedRecord(lib, existing, u, v, u.assets[i], FirstSlot(MintsFor(db, u, blockMints)[u.assets[i].name]));
  }

  function RecordFor(lib: Lib, db: Db, existing: Option<Handle>, u: Utxo, i: nat, blockMints: MintMap): Handle
    requires i < |u.assets| && u.assets[i] != NAMELESS && HasMints(MintsFor(db, u, blockMints), NamesOf(u.assets))
  {
    NamesOfHas(u.assets, u.assets[i].name);
    NewRecord(lib, existing, u, u.assets[i], FirstSlot(MintsFor(db, u, blockMints)[u.assets[i].name]))
  }

  lemma RecordPoints(lib: Lib, db: Db, slot: nat, u: Utxo, i: nat, blockMints: MintMap)
    requires TablesOk(lib, db, slot) && Indexable(db.handles, u, slot)
    requires HasMints(MintsFor(db, u, blockMints), NamesOf(u.assets))
    requires i < |u.assets| && u.assets[i] != NAMELESS
    ensures PointsAt(RecordFor(lib, db, Find(db.handles, u.assets[i].name), u, i, blockMints), u)
  {
    hide TablesOk, FirstSlot, MintsFor, NotDouble, NewRecord, RecordOk;
    var n := u.assets[i].name;
    NamesOfHas(u.assets, n);
    if n in db.handles { TablesRecord(lib, db, slot, n); }
    RecordFollowsOutput(lib, Find(db.handles, n), u, u.assets[i], FirstSlot(MintsFor(db, u, blockMints)[n]));
  }

  /** So it ends at that output. */
  lemma NamedPoints(lib: Lib, db: Db, us: seq<Utxo>, blockMints: MintMap, slot: nat, u: Utxo, n: string)
    requires TablesOk(lib, db, slot) && Apart(us) && (forall v <- us :: Indexable(db.handles, v, slot))
    requires AllHaveMints(db, us, blockMints) && u in us && n in NamesOf(u.assets)
    ensures var handles := IndexedAll(lib, db, us, blockMints); n in handles && PointsAt(handles[n], u)
  {
    hide TablesOk, HasMints, NamesOf, IndexedAll, RecordFor, PointsAt, MintsFor, NoDoubles, NamedAssets, DistinctAssets;
    NamesOfHas(u.assets, n);
    var i :| 0 <= i < |u.assets| && u.assets[i] != NAMELESS && u.assets[i].name == n;
    NamedSaved(lib, db, us, blockMints, slot, u, i);
    RecordPoints(lib, db, slot, u, i, blockMints);
  }

  /** The last output saves this record of an output that it lists again, or lists first. */
  lemma SavedAt(lib: Lib, db: Db, handles: map<string, Handle>, blockMints: MintMap, u: Utxo, last: Utxo, i: nat)
    requires DistinctAssets(u.assets) && HasMints(MintsFor(db, u, blockMints), NamesOf(u.assets))
    requires i < |u.assets| && u.assets[i] != NAMELESS && KeyedOut(u) == KeyedOut(last)
    requires var n := u.assets[i].name; var h := RecordFor(lib, db, Find(db.handles, n), u, i, blockMints);
             && RecordFor(lib, db, Some(h), u, i, blockMints) == h
             && (Find(handles, n) == Find(db.handles, n) || Find(handles, n) == Some(h))
    ensures var n := u.assets[i].name;
            Find(IndexedHandles(lib, handles, last, last.assets, MintsFor(db, last, blockMints)), n)
              == Some(RecordFor(lib, db, Find(db.handles, n), u, i, blockMints))
  {
    hide FirstSlot, MintsFor, IndexedHandles, NewRecord, KeyedOut;
    var n := u.assets[i].name;
    NamesOfHas(u.assets, n);
    KeyedMints(db, u, last, blockMints);
    NamesSaved(lib, handles, last, last.assets, MintsFor(db, last, blockMints), i);
    KeyedRecord(lib, Find(handles, n), u, last, u.assets[i], FirstSlot(MintsFor(db, u, blockMints)[n]));
  }

  lemma TablesRecord(lib: Lib, db: Db, slot: nat, n: string)
    requires TablesOk(lib, db, slot) && n in db.handles
    ensures RecordOk(lib, db.handles[n], slot) && db.handles[n].name == n && IndexAgreement.Derived(lib, db.handles[n])
  {
    hide RecordOk;
    IndexedName(lib, db, n);
  }

  lemma {:induction false} PutAllIs(t: Table, us: seq<Utxo>, id: OutRef)
    ensures (exists u <- us :: u.id == id) ==>
              id in PutAll(t, us) && PutAll(t, us)[id] in us && PutAll(t, us)[id].id == id
    ensures (forall u <- us :: u.id != id) ==>
              (id in PutAll(t, us) <==> id in t) && (id in t ==> PutAll(t, us)[id] == t[id])
    decreases |us|
  {
    if us != [] {
      assert us == us[..|us| - 1] + [us[|us| - 1]];
      PutAllIs(t, us[..|us| - 1], id);
    }
  }

  /** A table as far as listings fix it. */
  function KeyedTable(t: Table): Table {
    map id | id in t :: KeyedOut(t[id])
  }

  /**
   What is left of the UTXO table when the spent outputs are gone; to the letter, if the rows are the ledger's
   transactions to the letter.
   */
  lemma UtxosFollow(l: Ledger, txs: seq<Tx>, rows: seq<Tx>, slot: nat, t: Table)
    requires BlockOf(l, txs, rows, slot) && KeyedTable(t) == KeyedTable(HandleOutputs(l.utxo))
    ensures var after := PutAll(t, SurvivorsOf(rows)) - SpentAll(rows);
            && KeyedTable(after) == KeyedTable(HandleOutputs(ApplyAll(l, txs).utxo))
            && (t == HandleOutputs(l.utxo) && (forall r <- rows :: r in txs) ==>
                after == HandleOutputs(ApplyAll(l, txs).utxo))
  {
    hide Makes, Sound, ValidAll, SpentAll, CreatedAll, HandleOutputs, PutAll, KeyedOut, KeyedTx, ApplyAll, SurvivorsOf,
      KeyedTable, TxSet;
    var was, will := HandleOutputs(l.utxo), HandleOutputs(ApplyAll(l, txs).utxo);
    var after := PutAll(t, SurvivorsOf(rows)) - SpentAll(rows);
    forall id: OutRef ensures SameEntry(after, will, id) {
      EntryFollows(l, txs, rows, slot, t, id);
    }
    EntriesMakeTables(after, will);
    if t == was && forall r <- rows :: r in txs {
      forall id: OutRef ensures (id in after <==> id in will) && (id in after ==> after[id] == will[id]) {
        EntryFollows(l, txs, rows, slot, t, id);
      }
    }
  }

  predicate SameEntry(a: Table, b: Table, id: OutRef) {
    (id in a <==> id in b) && (id in a ==> KeyedOut(a[id]) == KeyedOut(b[id]))
  }

  lemma EntriesMakeTables(a: Table, b: Table)
    ensures KeyedTable(a) == KeyedTable(b) <==> forall id: OutRef :: SameEntry(a, b, id)
  {
    hide KeyedOut;
    if KeyedTable(a) == KeyedTable(b) {
      forall id: OutRef ensures SameEntry(a, b, id) {
        assert id in KeyedTable(a) <==> id in a;
        assert id in KeyedTable(b) <==> id in b;
        if id in a { assert KeyedTable(a)[id] == KeyedOut(a[id]); }
      }
    }
    if forall id: OutRef :: SameEntry(a, b, id) {
      forall id: OutRef
        ensures (id in KeyedTable(a) <==> id in KeyedTable(b)) && (id in a ==> KeyedTable(a)[id] == KeyedTable(b)[id])
      {
        assert SameEntry(a, b, id);
      }
    }
  }

  lemma EntryFollows(l: Ledger, txs: seq<Tx>, rows: seq<Tx>, slot: nat, t: Table, id: OutRef)
    requires BlockOf(l, txs, rows, slot) && KeyedTable(t) == KeyedTable(HandleOutputs(l.utxo))
    ensures var after, will := PutAll(t, SurvivorsOf(rows)) - SpentAll(rows), HandleOutputs(ApplyAll(l, txs).utxo);
            && SameEntry(after, will, id)
            && (t == HandleOutputs(l.utxo) && (forall r <- rows :: r in txs) && id in after ==> after[id] == will[id])
  {
    hide Makes, Sound, ValidAll, SpentAll, CreatedAll, PutAll, KeyedOut, KeyedTx, SurvivorsOf, KeyedTable, TxSet,
      ApplyAll;
    var us := SurvivorsOf(rows);
    SurvivorsAreLive(l, txs, rows, slot);
    SameSpends(txs, rows);
    NetForm(l, txs);
    PutAllIs(t, us, id);
    EntriesMakeTables(t, HandleOutputs(l.utxo));
    assert SameEntry(t, HandleOutputs(l.utxo), id);
    if exists u <- us :: u.id == id {
      var u := PutAll(t, us)[id];
      SurvivorIsThere(l, txs, rows, slot, u);
      if forall r <- rows :: r in txs { MakesInMore(rows, txs, u); }
    } else {
      UnlistedIsAbsent(l, txs, rows, slot, id);
    }
  }

  lemma UnlistedIsAbsent(l: Ledger, txs: seq<Tx>, rows: seq<Tx>, slot: nat, id: OutRef)
    requires BlockOf(l, txs, rows, slot) && forall u <- SurvivorsOf(rows) :: u.id != id
    ensures id in CreatedAll(txs) ==> id !in HandleOutputs(ApplyAll(l, txs).utxo) && id !in l.utxo
  {
    hide Sound, ValidAll, CreatedAll, KeyedOut, TxSet, ApplyAll, SurvivorsOf;
    if id in CreatedAll(txs) {
      NewIsAbsent(l, txs, id);
      if id in HandleOutputs(ApplyAll(l, txs).utxo) { var u := LiveIsListed(l, txs, rows, slot, id); }
    }
  }

  lemma LiveIsListed(l: Ledger, txs: seq<Tx>, rows: seq<Tx>, slot: nat, id: OutRef) returns (u: Utxo)
    requires BlockOf(l, txs, rows, slot) && id in CreatedAll(txs)
    requires id in ApplyAll(l, txs).utxo && ApplyAll(l, txs).utxo[id].assets != []
    ensures u in SurvivorsOf(rows) && u.id == id && KeyedOut(u) == KeyedOut(ApplyAll(l, txs).utxo[id])
  {
    hide Sound, ValidAll, CreatedAll, KeyedOut, TxSet, ApplyAll, SurvivorsOf;
    SurvivorsAreLive(l, txs, rows, slot);
    assert Survives(rows, ApplyAll(l, txs).utxo[id]);
    u :| u in SurvivorsOf(rows) && u.id == id && KeyedOut(u) == KeyedOut(ApplyAll(l, txs).utxo[id]);
  }

  lemma SurvivorIsThere(l: Ledger, txs: seq<Tx>, rows: seq<Tx>, slot: nat, u: Utxo)
    requires BlockOf(l, txs, rows, slot) && u in SurvivorsOf(rows)
    ensures u.id !in SpentAll(rows) && u.id in HandleOutputs(ApplyAll(l, txs).utxo)
  {
    hide Makes, Sound, ValidAll, SpentAll, CreatedAll, KeyedOut, TxSet, ApplyAll;
    SurvivorsAreLive(l, txs, rows, slot);
    BuildUtxosHave(rows);
    SurvivingAre(BuildUtxos(rows), SpentAll(rows));
    MakesHolds(rows, u);
    SameHolds(u, ApplyAll(l, txs).utxo[u.id], "");
  }

  lemma MakesInMore(rows: seq<Tx>, txs: seq<Tx>, u: Utxo)
    requires Makes(rows, u) && forall r <- rows :: r in txs
    ensures Makes(txs, u)
  {
    hide OutputAt;
  }

  lemma NewIsAbsent(l: Ledger, txs: seq<Tx>, id: OutRef)
    requires Sound(l) && ValidAll(l, txs) && id in CreatedAll(txs)
    ensures id !in l.utxo
  {
    hide HandleOutputs, ValidAll;
    BuiltIsCreated(l, txs);
  }

  /** The handle table after the block, if what the burns left is known. */
  lemma HandlesFollowAfter(lib: Lib, was: map<string, Handle>, db: Db, l: Ledger, txs: seq<Tx>, rows: seq<Tx>,
                           slot: nat)
    requires BlockOf(l, txs, rows, slot) && HandlesFollow(was, l) && TablesOk(lib, db, slot)
    requires forall n: string :: Find(db.handles, n) == if BurnsAny(txs, n) then None else Find(was, n)
    requires AllHaveMints(db, SurvivorsOf(rows), BlockMints(BuildUtxos(rows)))
    requires Apart(SurvivorsOf(rows)) && forall u <- SurvivorsOf(rows) :: Indexable(db.handles, u, slot)
    ensures HandlesFollow(IndexedAll(lib, db, SurvivorsOf(rows), BlockMints(BuildUtxos(rows))), ApplyAll(l, txs))
  {
    hide TablesOk, Indexable, HasMints, NamesOf, IndexedAll, PointsAt, ValidAll, DistinctIds, SurvivorsOf, BlockMints,
      BuildUtxos, AllHaveMints, Makes, Holds, CreatedAll, ApplyAll, Apart, BurnsAny, HandlesFollow;
    var us, bm, l' := SurvivorsOf(rows), BlockMints(BuildUtxos(rows)), ApplyAll(l, txs);
    var after := IndexedAll(lib, db, us, bm);
    SurvivorsAreLive(l, txs, rows, slot);
    forall n: string, id: OutRef | Holder(l', n, id) ensures n in after && PointsAt(after[n], l'.utxo[id]) {
      HolderStays(lib, was, db, l, txs, rows, slot, n, id);
    }
    forall n: string | n in after ensures Held(l', n) {
      if Named(us, n) {
        var u :| u in us && n in NamesOf(u.assets);
        SurvivorIsHolder(l, txs, rows, slot, u, n);
        HolderHolds(l', n, u.id);
      } else {
        UnnamedKept(lib, db, us, bm, n);
        NamesHeld(was, l, n);
        if !Held(l', n) { GoneIsBurned(l, txs, n); }
      }
    }
    Following(after, l');
  }

  lemma NamesHeld(handles: map<string, Handle>, l: Ledger, n: string)
    requires HandlesFollow(handles, l)
    ensures n in handles <==> Held(l, n)
  {
  }

  lemma Following(handles: map<string, Handle>, l: Ledger)
    requires forall n: string, id: OutRef | Holder(l, n, id) :: n in handles && PointsAt(handles[n], l.utxo[id])
    requires forall n: string | n in handles :: Held(l, n)
    ensures HandlesFollow(handles, l)
  {
    hide Holder, PointsAt;
  }

  lemma HolderHolds(l: Ledger, n: string, id: OutRef)
    requires Holder(l, n, id)
    ensures Held(l, n)
  {
  }

  lemma SamePoints(h: Handle, u: Utxo, v: Utxo)
    requires KeyedOut(u) == KeyedOut(v)
    ensures PointsAt(h, u) <==> PointsAt(h, v)
  {
    SameOutFields(u, v);
  }

  lemma HolderStays(lib: Lib, was: map<string, Handle>, db: Db, l: Ledger, txs: seq<Tx>, rows: seq<Tx>, slot: nat,
                    n: string, id: OutRef)
    requires BlockOf(l, txs, rows, slot) && HandlesFollow(was, l) && TablesOk(lib, db, slot)
    requires Find(db.handles, n) == if BurnsAny(txs, n) then None else Find(was, n)
    requires AllHaveMints(db, SurvivorsOf(rows), BlockMints(BuildUtxos(rows)))
    requires Apart(SurvivorsOf(rows)) && forall u <- SurvivorsOf(rows) :: Indexable(db.handles, u, slot)
    requires Holder(ApplyAll(l, txs), n, id)
    ensures var after := IndexedAll(lib, db, SurvivorsOf(rows), BlockMints(BuildUtxos(rows)));
            n in after && PointsAt(after[n], ApplyAll(l, txs).utxo[id])
  {
    hide TablesOk, Indexable, HasMints, NamesOf, IndexedAll, PointsAt, ValidAll, DistinctIds, SurvivorsOf, BlockMints,
      BuildUtxos, AllHaveMints, Makes, Holds, CreatedAll, ApplyAll, Apart, BurnsAny, SpentAll, KeyedOut, TxSet;
    var us, bm, l' := SurvivorsOf(rows), BlockMints(BuildUtxos(rows)), ApplyAll(l, txs);
    SurvivorsAreLive(l, txs, rows, slot);
    if id in CreatedAll(txs) {
      HoldsSomething(l'.utxo[id], n);
      var u := LiveIsListed(l, txs, rows, slot, id);
      SameHolds(u, l'.utxo[id], n);
      HoldsIsNamed(u, n);
      NamedPoints(lib, db, us, bm, slot, u, n);
      SamePoints(IndexedAll(lib, db, us, bm)[n], u, l'.utxo[id]);
    } else {
      UntouchedIsUnburned(l, txs, n, id);
      NetForm(l, txs);
      NotNamed(l, txs, rows, slot, n, id);
      UnnamedKept(lib, db, us, bm, n);
    }
  }

  lemma NotNamed(l: Ledger, txs: seq<Tx>, rows: seq<Tx>, slot: nat, n: string, id: OutRef)
    requires BlockOf(l, txs, rows, slot) && Holder(ApplyAll(l, txs), n, id) && id !in CreatedAll(txs)
    ensures !Named(SurvivorsOf(rows), n)
  {
    hide ValidAll, SurvivorsOf, Makes, NamesOf, ApplyAll, CreatedAll, Holds, KeyedOut, TxSet;
    SurvivorsAreLive(l, txs, rows, slot);
    BlockStaysSound(l, txs);
    forall u <- SurvivorsOf(rows) ensures n !in NamesOf(u.assets) {
      if n in NamesOf(u.assets) { SurvivorIsHolder(l, txs, rows, slot, u, n); }
    }
  }

  function AfterBurns(lib: Lib, db: Db, rows: seq<Tx>): Db {
    Exec(lib, db, Burn(BurnNames(AllMinted(rows)))).value
  }

  function AfterMints(lib: Lib, db: Db, rows: seq<Tx>): Db {
    AddMint(AfterBurns(lib, db, rows), BlockMints(BuildUtxos(rows)))
  }

  /** The block runs its outputs after two writes that cannot fail, and three more such writes follow. */
  lemma BlockSplits(lib: Lib, db: Db, block: Block, rows: seq<Tx>, tip: Tip)
    ensures var mid := Run(lib, AfterMints(lib, db, rows),
                           IndexWrites(SurvivorsOf(rows), BlockMints(BuildUtxos(rows))));
            var r := ProcessBlock(lib, db, block, rows, tip);
            && (r.Some? <==> mid.Some?)
            && (r.Some? ==>
                  && r.value.handles == mid.value.handles && r.value.handleRoot == mid.value.handleRoot
                     && r.value.sets == mid.value.sets
                  && r.value.slots == mid.value.slots && r.value.holderCount == mid.value.holderCount
                     && r.value.mint == mid.value.mint
                  && r.value.utxos == mid.value.utxos - SpentAll(rows)
                     && r.value.utxoSlot == mid.value.utxoSlot - SpentAll(rows)
                  && r.value.cursor == Some(Cursor(block.id, block.slot, tip.hash, tip.slot))
                  && r.value.scanned ==
                       if block.id == "" then mid.value.scanned else mid.value.scanned[block.id := block.slot])
  {
    hide RemoveHandles, AddMint, IndexOutput, BuildUtxos, BlockMints, BurnNames, AllMinted, SpentAll, Surviving,
      IndexWrites;
    var mints := BlockMints(BuildUtxos(rows));
    var a, b := [Burn(BurnNames(AllMinted(rows))), AddMints(mints)], IndexWrites(SurvivorsOf(rows), mints);
    var c := [DropUtxos(SpentAll(rows)), SetCursor(Cursor(block.id, block.slot, tip.hash, tip.slot)), Record(block)];
    RunConcat(lib, db, a + b, c);
    RunConcat(lib, db, a, b);
    assert a[..1] == [a[0]] && a[..1][..0] == [];
    assert Run(lib, db, a[..1]) == Some(AfterBurns(lib, db, rows));
    var mid := Run(lib, AfterMints(lib, db, rows), b);
    if mid.Some? {
      assert c[..1] == [c[0]] && c[..2] == [c[0], c[1]] && c[..2][..1] == [c[0]] && c[..1][..0] == [];
      assert Run(lib, mid.value, c[..1]) == Exec(lib, mid.value, c[0]);
    }
  }

  /** Before the outputs are indexed, the tables agree and every name that will be held has minting data. */
  lemma ReadyForOutputs(lib: Lib, db: Db, l: Ledger, txs: seq<Tx>, rows: seq<Tx>, was: nat, slot: nat)
    requires Follows(lib, db, l, was) && BlockOf(l, txs, rows, slot) && was <= slot
    ensures var d := AfterMints(lib, db, rows);
            && TablesOk(lib, d, slot) && d.utxos == db.utxos && d.utxoSlot == db.utxoSlot && d.cursor == db.cursor
               && d.scanned == db.scanned
            && (forall n: string :: Find(d.handles, n) == if BurnsAny(txs, n) then None else Find(db.handles, n))
            && (forall n: string | Held(l, n) || MintsAny(txs, n) :: MintsOf(d.mint, n) != {})
            && (forall u <- SurvivorsOf(rows) :: Indexable(d.handles, u, slot))
  {
    hide TablesOk, BuildUtxos, BlockMints, BurnNames, AllMinted, RemoveHandles, SurvivorsOf, Indexable, BurnsAny,
      MintsAny, ValidAll, DistinctIds, PointsAt, Sound, Canons, MintsOf, Held;
    BurnWrite(lib, db, l, txs, rows, was, slot);
    var d1, mints := AfterBurns(lib, db, rows), BlockMints(BuildUtxos(rows));
    MintWrite(lib, d1, mints, slot);
    var d := AfterMints(lib, db, rows);
    assert d.handles == d1.handles;
    forall n: string | Held(l, n) || MintsAny(txs, n) ensures MintsOf(d.mint, n) != {} {
      MintsAdded(d1, mints, n);
      MintedNames(l, txs, rows, slot, n);
    }
    TablesNames(lib, db, was);
    LeftHandles(db, d, l, txs);
    forall u <- SurvivorsOf(rows) ensures Indexable(d.handles, u, slot) {
      SurvivorIndexable(l, txs, rows, slot, d.handles, u);
    }
  }

  lemma LeftHandles(db: Db, d: Db, l: Ledger, txs: seq<Tx>)
    requires HandlesFollow(db.handles, l) && forall n <- db.handles :: Names(db.handles[n].asset, n)
    requires forall n: string :: Find(d.handles, n) == if BurnsAny(txs, n) then None else Find(db.handles, n)
    ensures forall n <- d.handles :: Held(l, n) && !BurnsAny(txs, n) && Names(d.handles[n].asset, n)
  {
    hide Held, BurnsAny, PointsAt, Names;
    forall n <- d.handles ensures Held(l, n) && !BurnsAny(txs, n) && Names(d.handles[n].asset, n) {
      assert Find(d.handles, n) == Some(d.handles[n]);
    }
  }

  lemma MintsStayKnown(lib: Lib, d: Db, after: Db, l: Ledger, txs: seq<Tx>)
    requires Sound(l) && ValidAll(l, txs) && HandlesFollow(after.handles, ApplyAll(l, txs)) && after.mint == d.mint
    requires forall n: string | Held(l, n) || MintsAny(txs, n) :: MintsOf(d.mint, n) != {}
    ensures NamesHaveMints(after)
  {
    hide Sound, ValidAll, ApplyAll, PointsAt, Held, MintsAny, BurnsAny;
    forall n <- after.handles ensures MintsOf(after.mint, n) != {} {
      if !Held(l, n) { NewIsMinted(l, txs, n); }
    }
  }

  /**
   A valid block goes through exactly when no surviving output mixes fresh and old names, and then the
   tables follow the ledger after the block and the cursor is the block. If the rows are the ledger's
   transactions to the letter, so are the UTXO tables.
   */
  lemma BlockFollows(lib: Lib, db: Db, l: Ledger, txs: seq<Tx>, rows: seq<Tx>, was: nat, block: Block, tip: Tip)
    requires Follows(lib, db, l, was) && BlockOf(l, txs, rows, block.slot) && was <= block.slot
    ensures var r := ProcessBlock(lib, db, block, rows, tip);
            && (r.Some? <==> !Mixes(l, txs))
            && (r.Some? ==> Follows(lib, r.value, ApplyAll(l, txs), block.slot)
                            && r.value.cursor == Some(Cursor(block.id, block.slot, tip.hash, tip.slot)))
            && (r.Some? && db.utxos == HandleOutputs(l.utxo) && (forall t <- rows :: t in txs) ==>
                r.value.utxos == HandleOutputs(ApplyAll(l, txs).utxo))
  {
    hide TablesOk, BuildUtxos, BlockMints, SurvivorsOf, Indexable, BurnsAny, MintsAny, ValidAll, PointsAt, Sound,
      MintsOf, HandlesFollow, Mixes, ProcessBlock, AfterMints, ApplyAll, IndexWrites, IndexedAll, AllHaveMints, Apart,
      HandleOutputs, SpentAll, SlotsOf, PutAll, Run, Held, KeyedTable, TxSet;
    var d := AfterMints(lib, db, rows);
    var us, mints := SurvivorsOf(rows), BlockMints(BuildUtxos(rows));
    ReadyForOutputs(lib, db, l, txs, rows, was, block.slot);
    SurvivorsApart(l, txs, rows, block.slot);
    OutputsKeepTables(lib, d, us, mints, block.slot);
    GoesThrough(l, txs, rows, block.slot, d);
    BlockSplits(lib, db, block, rows, tip);
    var mid := Run(lib, d, IndexWrites(us, mints));
    var r := ProcessBlock(lib, db, block, rows, tip);
    if r.Some? {
      HandlesFollowAfter(lib, db.handles, d, l, txs, rows, block.slot);
      TablesDepend(lib, mid.value, r.value, block.slot);
      MintsStayKnown(lib, d, r.value, l, txs);
      UtxosFollow(l, txs, rows, block.slot, db.utxos);
      SlotsWithout(mid.value.utxos, SpentAll(rows));
    }
  }

  lemma SlotsWithout(t: Table, gone: set<OutRef>)
    ensures SlotsOf(t - gone) == SlotsOf(t) - gone
  {
  }

  // ---------- Whole chains ----------

  /** A processed block: the chain's transactions in order, and how the provider listed them. */
  datatype Link = Link(block: Block, txs: seq<Tx>, rows: seq<Tx>, tip: Tip)

  const EMPTY := Db(map[], {}, map[], map[], {}, map[], map[], map[], None, map[])

  function LedgerAfter(chain: seq<Link>): Ledger {
    if chain == [] then GENESIS else ApplyAll(LedgerAfter(chain[..|chain| - 1]), chain[|chain| - 1].txs)
  }

  function LastSlot(chain: seq<Link>): nat {
    if chain == [] then 0 else chain[|chain| - 1].block.slot
  }

  ghost predicate ValidChain(chain: seq<Link>) {
    chain == [] ||
    (var before, last := chain[..|chain| - 1], chain[|chain| - 1];
     ValidChain(before) && BlockOf(LedgerAfter(before), last.txs, last.rows, last.block.slot)
         && LastSlot(before) <= last.block.slot)
  }

  ghost predicate NeverMixes(chain: seq<Link>) {
    chain == [] || (NeverMixes(chain[..|chain| - 1])
                    && !Mixes(LedgerAfter(chain[..|chain| - 1]), chain[|chain| - 1].txs))
  }

  function ProcessChain(lib: Lib, chain: seq<Link>): Option<Db> {
    if chain == [] then Some(EMPTY)
    else
      match ProcessChain(lib, chain[..|chain| - 1])
      case None => None
      case Some(db) => var c := chain[|chain| - 1]; BlockIndexer.ProcessBlock(lib, db, c.block, c.rows, c.tip)
  }

  lemma EmptyFollows(lib: Lib)
    ensures Follows(lib, EMPTY, GENESIS, 0)
  {
    hide IndexAgreement.OwnKey;
    forall a: string ensures CountOk(EMPTY, a) && HolderSet(EMPTY.sets, a) == Owned(EMPTY.handles, a) {}
  }

  /**
   From genesis over any valid chain, every block goes through exactly when none mixes, and then the
   tables are the ledger's, to the letter if the providers' metadata are.
   */
  lemma {:induction false} ChainFollows(lib: Lib, chain: seq<Link>)
    requires ValidChain(chain)
    ensures var r := ProcessChain(lib, chain);
            && (r.Some? <==> NeverMixes(chain))
            && (r.Some? ==> Follows(lib, r.value, LedgerAfter(chain), LastSlot(chain)))
            && (r.Some? && (forall c <- chain, t <- c.rows :: t in c.txs) ==>
                r.value.utxos == HandleOutputs(LedgerAfter(chain).utxo))
    decreases |chain|
  {
    hide Follows, BlockOf, Mixes, BlockIndexer.ProcessBlock, ApplyAll;
    assert forall c <- chain[..if chain == [] then 0 else |chain| - 1] :: c in chain;
    if chain == [] {
      EmptyFollows(lib);
    } else {
      var before, c := chain[..|chain| - 1], chain[|chain| - 1];
      ChainFollows(lib, before);
      var r := ProcessChain(lib, before);
      if r.Some? {
        BlockFollows(lib, r.value, LedgerAfter(before), c.txs, c.rows, LastSlot(before), c.block, c.tip);
      }
    }
  }

  /** Two runs that followed the same ledger stored the same outputs, and handles at the same outputs. */
  lemma FollowingIsUnique(lib: Lib, a: Db, b: Db, l: Ledger, slot: nat)
    requires Follows(lib, a, l, slot) && Follows(lib, b, l, slot)
    ensures a.handles.Keys == b.handles.Keys && a.utxoSlot == b.utxoSlot
    ensures KeyedTable(a.utxos) == KeyedTable(b.utxos)
    ensures forall n <- a.handles ::
              a.handles[n].utxo == b.handles[n].utxo && a.handles[n].address == b.handles[n].address
                                     && a.handles[n].holder == b.handles[n].holder
    ensures a.holderCount == b.holderCount
  {
    hide TablesOk, HandleOutputs, SlotsOf, PointsAt, Holds, KeyedTable;
    KeyedSlots(a.utxos, b.utxos);
    forall n: string ensures n in a.handles <==> n in b.handles { assert n in a.handles <==> Held(l, n); }
    forall n <- a.handles
      ensures a.handles[n].utxo == b.handles[n].utxo && a.handles[n].address == b.handles[n].address
      ensures a.handles[n].holder == b.handles[n].holder
    {
      var id: OutRef :| Holder(l, n, id);
      PointsTogether(a.handles[n], b.handles[n], l.utxo[id]);
      TablesRecord(lib, a, slot, n);
      TablesRecord(lib, b, slot, n);
    }
    forall h: string ensures Find(a.holderCount, h) == Find(b.holderCount, h) { SameCount(lib, a, b, slot, h); }
    assert forall h: string :: h in a.holderCount <==> Find(a.holderCount, h).Some?;
  }

  lemma KeyedSlots(a: Table, b: Table)
    requires KeyedTable(a) == KeyedTable(b)
    ensures SlotsOf(a) == SlotsOf(b)
  {
    EntriesMakeTables(a, b);
    forall id: OutRef ensures (id in a <==> id in b) && (id in a ==> a[id].slot == b[id].slot) {
      assert SameEntry(a, b, id);
      if id in a { SameHolds(a[id], b[id], ""); }
    }
  }

  lemma PointsTogether(a: Handle, b: Handle, u: Utxo)
    requires PointsAt(a, u) && PointsAt(b, u)
    ensures a.utxo == b.utxo && a.address == b.address
  {
  }

  lemma SameCount(lib: Lib, a: Db, b: Db, slot: nat, h: string)
    requires TablesOk(lib, a, slot) && TablesOk(lib, b, slot) && a.handles.Keys == b.handles.Keys
    requires forall n <- a.handles :: a.handles[n].holder == b.handles[n].holder
    ensures Find(a.holderCount, h) == Find(b.holderCount, h)
  {
    hide HolderSet, IndexAgreement.IndexOk, StakeOk, RecordsOk;
    assert CountOk(a, h) && CountOk(b, h);
    assert HolderSet(a.sets, h) == Owned(a.handles, h) && HolderSet(b.sets, h) == Owned(b.handles, h);
    assert Owned(a.handles, h) == Owned(b.handles, h);
  }
}
