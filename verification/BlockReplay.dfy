/**
 Stopping between any two writes of a block, any number of times, and processing it again gives the handle, UTXO
 and mint tables of one uninterrupted run: a second pass leaves the records it finds as they are.
 */
module BlockReplay {
  import opened BlockFacts
  import opened BlockIndexer
  import opened BlockRefinement
  import opened HandleTables
  import opened HolderCounts
  import opened Ledger
  import opened NetUtxo
  import opened OutputIndexing
  import opened TableInvariants
  import opened Wrappers

  /** What one uninterrupted run indexes the outputs from, and the handle table it ends with. */
  function Goal(lib: Lib, db: Db, rows: seq<Tx>): map<string, Handle> {
    IndexedAll(lib, AfterMints(lib, db, rows), SurvivorsOf(rows), BlockMints(BuildUtxos(rows)))
  }

  predicate SurvivorId(rows: seq<Tx>, id: OutRef) {
    exists u <- SurvivorsOf(rows) :: u.id == id
  }

  /** A name's entry after some writes of the block: as before, burned, or final. */
  ghost predicate EntryOk(was: Option<Handle>, now: Option<Handle>, goal: Option<Handle>, burned: bool, named: bool) {
    now == was || (burned && now.None?) || (named && now == goal)
  }

  function LookupOut(t: Table, id: OutRef): Option<Utxo> {
    if id in t then Some(t[id]) else None
  }

  /** A state that some writes of this block, and of earlier interrupted passes over it, led to. */
  ghost predicate Partial(lib: Lib, db: Db, txs: seq<Tx>, rows: seq<Tx>, slot: nat, d: Db) {
    && TablesOk(lib, d, slot) && d.utxoSlot == SlotsOf(d.utxos)
    && (forall n: string ::
          EntryOk(Find(db.handles, n), Find(d.handles, n), Find(Goal(lib, db, rows), n), BurnsAny(txs, n),
                  Named(SurvivorsOf(rows), n)))
    && (forall id: OutRef | id !in SpentAll(rows) && !SurvivorId(rows, id) ::
        LookupOut(d.utxos, id) == LookupOut(db.utxos, id))
    && (d.mint == db.mint || d.mint == AddMint(db, BlockMints(BuildUtxos(rows))).mint)
  }

  /** The setting: a block that would go through. */
  ghost predicate Setting(lib: Lib, db: Db, l: Ledger, txs: seq<Tx>, rows: seq<Tx>, was: nat, slot: nat) {
    Follows(lib, db, l, was) && BlockOf(l, txs, rows, slot) && was <= slot && !Mixes(l, txs)
  }

  lemma StartIsPartial(lib: Lib, db: Db, l: Ledger, txs: seq<Tx>, rows: seq<Tx>, was: nat, slot: nat)
    requires Setting(lib, db, l, txs, rows, was, slot)
    ensures Partial(lib, db, txs, rows, slot, db)
  {
    hide TablesOk, Goal, BurnsAny, Named, SlotsOf, SurvivorId, SpentAll, BlockOf, HandlesFollow, Mixes;
    LaterSlot(lib, db, was, slot);
  }

  // ---------- The burns again ----------

  lemma {:induction false} BurnAgain(lib: Lib, db: Db, l: Ledger, txs: seq<Tx>, rows: seq<Tx>, was: nat, slot: nat,
                                     d: Db)
    requires Setting(lib, db, l, txs, rows, was, slot) && Partial(lib, db, txs, rows, slot, d)
    ensures var after := AfterBurns(lib, d, rows);
            && TablesOk(lib, after, slot) && SameRest(d, after)
            && forall n: string :: Find(after.handles, n) == if BurnsAny(txs, n) then None else Find(d.handles, n)
  {
    hide TablesOk, BurnNames, HandleNames, Distinct, StoredIn, RemoveHandles, BurnsAny, ValidAll, DistinctIds,
      StoredHandles, Mixes, Follows, AllMinted;
    var names := BurnNames(AllMinted(rows));
    BurnNamesAre(AllMinted(rows), "");
    TablesNames(lib, d, slot);
    StoredHandlesAre(d, names);
    BurnsKeepTables(lib, d, StoredHandles(d, names), slot);
    forall n: string
      ensures n in HandleNames(StoredHandles(d, names)) <==> n in d.handles && BurnsAny(txs, n)
    {
      if n in d.handles {
        NeverUnnamed(lib, db, l, txs, rows, was, slot, d, n);
        BurnedNames(rows, n);
        SameBurns(txs, rows, n);
      }
    }
  }

  lemma NeverUnnamed(lib: Lib, db: Db, l: Ledger, txs: seq<Tx>, rows: seq<Tx>, was: nat, slot: nat, d: Db, n: string)
    requires Setting(lib, db, l, txs, rows, was, slot) && Partial(lib, db, txs, rows, slot, d) && n in d.handles
    ensures n != ""
  {
    hide TablesOk, Goal, BurnsAny, SlotsOf, SurvivorId, SpentAll, ValidAll, DistinctIds, PointsAt, Mixes, Holder,
      SurvivorsOf, NamesHaveMints, NamesOf;
    if n in db.handles {
      HeldIsNamed(l, n);
    } else {
      assert Named(SurvivorsOf(rows), n);
      var u :| u in SurvivorsOf(rows) && n in NamesOf(u.assets);
      SurvivorIsHolder(l, txs, rows, slot, u, n);
      HolderHolds(ApplyAll(l, txs), n, u.id);
      BlockStaysSound(l, txs);
      HeldIsNamed(ApplyAll(l, txs), n);
    }
  }

  // ---------- Records are found again ----------

  /** The second state differs from the first only where names already have their final entry. */
  ghost predicate Resumed(e: Db, f: Db, us: seq<Utxo>, goal: map<string, Handle>) {
    f.mint == e.mint &&
    forall n: string ::
        Find(f.handles, n) == Find(e.handles, n) || (Named(us, n) && Find(f.handles, n) == Find(goal, n))
  }

  /** The outputs are ready to be indexed from this state. */
  ghost predicate Ready(lib: Lib, e: Db, us: seq<Utxo>, bm: MintMap, slot: nat) {
    TablesOk(lib, e, slot) && Apart(us) && (forall u <- us :: Indexable(e.handles, u, slot)) && AllHaveMints(e, us, bm)
  }

  lemma FirstEntry(lib: Lib, e: Db, us: seq<Utxo>, bm: MintMap, slot: nat, u: Utxo, i: nat)
    requires Ready(lib, e, us, bm, slot) && u in us && i < |u.assets| && u.assets[i] != NAMELESS
    ensures var n := u.assets[i].name; var h := RecordFor(lib, e, Find(e.handles, n), u, i, bm);
            && Find(IndexedAll(lib, e, us, bm), n) == Some(h)
            && RecordFor(lib, e, Some(h), u, i, bm) == h && NotDouble(Some(h), u)
  {
    hide TablesOk, IndexedAll, MintsFor, NotDouble, RecordFor, Apart, HasMints, NamesOf;
    NamedSaved(lib, e, us, bm, slot, u, i);
    RecordIsOurs(lib, e, slot, u, i, bm);
  }

  lemma SameRecord(lib: Lib, e: Db, f: Db, existing: Option<Handle>, u: Utxo, i: nat, bm: MintMap)
    requires e.mint == f.mint && i < |u.assets| && u.assets[i] != NAMELESS
    requires HasMints(MintsFor(e, u, bm), NamesOf(u.assets))
    ensures HasMints(MintsFor(f, u, bm), NamesOf(u.assets))
    ensures RecordFor(lib, f, existing, u, i, bm) == RecordFor(lib, e, existing, u, i, bm)
  {
    hide HasMints, NewRecord, FirstSlot, NamesOf;
    SameMints(e, f, u, bm);
  }

  /** A resumed state is ready too. */
  lemma ReadyAgain(lib: Lib, e: Db, f: Db, us: seq<Utxo>, bm: MintMap, slot: nat)
    requires Ready(lib, e, us, bm, slot) && TablesOk(lib, f, slot) && Resumed(e, f, us, IndexedAll(lib, e, us, bm))
    ensures Ready(lib, f, us, bm, slot)
  {
    hide TablesOk, IndexedAll, NamesOf, HasMints, MintsFor, NotDouble, Apart, Named, RecordFor;
    forall u <- us ensures Indexable(f.handles, u, slot) && HasMints(MintsFor(f, u, bm), NamesOf(u.assets)) {
      SameMints(e, f, u, bm);
      assert Indexable(e.handles, u, slot);
      forall n <- NamesOf(u.assets) ensures NotDouble(Find(f.handles, n), u) {
        NamesOfHas(u.assets, n);
        var i :| 0 <= i < |u.assets| && u.assets[i] != NAMELESS && u.assets[i].name == n;
        FirstEntry(lib, e, us, bm, slot, u, i);
      }
    }
  }

  /** Indexing some of the outputs from a resumed state gives their names the final entries. */
  lemma EntriesAgain(lib: Lib, e: Db, f: Db, us: seq<Utxo>, some: seq<Utxo>, bm: MintMap, slot: nat, n: string)
    requires Ready(lib, e, us, bm, slot) && Ready(lib, f, some, bm, slot) && some <= us
    requires Resumed(e, f, us, IndexedAll(lib, e, us, bm))
    ensures Find(IndexedAll(lib, f, some, bm), n) ==
              if Named(some, n) then Find(IndexedAll(lib, e, us, bm), n) else Find(f.handles, n)
  {
    hide TablesOk, IndexedAll, NamesOf, HasMints, MintsFor, NotDouble, Apart, RecordFor, Indexable;
    if Named(some, n) {
      var u :| u in some && n in NamesOf(u.assets);
      NamesOfHas(u.assets, n);
      var i :| 0 <= i < |u.assets| && u.assets[i] != NAMELESS && u.assets[i].name == n;
      FirstEntry(lib, e, us, bm, slot, u, i);
      FirstEntry(lib, f, some, bm, slot, u, i);
      SameRecord(lib, e, f, Find(f.handles, n), u, i, bm);
    } else {
      UnnamedKept(lib, f, some, bm, n);
    }
  }

  // ---------- One pass, stopped anywhere ----------

  lemma MintsTwice(db: Db, d: Db, mints: MintMap)
    requires d.mint == db.mint || d.mint == AddMint(db, mints).mint
    ensures AddMint(d, mints).mint == AddMint(db, mints).mint
  {
    hide Canons;
    var once := AddMint(db, mints).mint;
    forall n <- once ensures MintsOf(once, n) + Canons(MintsOf(mints, n)) == MintsOf(once, n) {}
  }

  /** After the first two writes of a pass from a partial state. */
  lemma ReadyToResume(lib: Lib, db: Db, l: Ledger, txs: seq<Tx>, rows: seq<Tx>, was: nat, slot: nat, d: Db)
    requires Setting(lib, db, l, txs, rows, was, slot) && Partial(lib, db, txs, rows, slot, d)
    ensures var e, f := AfterMints(lib, db, rows), AfterMints(lib, d, rows);
            var us, bm := SurvivorsOf(rows), BlockMints(BuildUtxos(rows));
            && Ready(lib, e, us, bm, slot) && Ready(lib, f, us, bm, slot) && Resumed(e, f, us, Goal(lib, db, rows))
            && f.utxos == d.utxos && f.utxoSlot == d.utxoSlot
            && (forall n: string :: Find(f.handles, n) == if BurnsAny(txs, n) then None else Find(d.handles, n))
  {
    hide TablesOk, BurnsAny, SlotsOf, ValidAll, DistinctIds, Mixes, SurvivorsOf, IndexedAll, Indexable, Apart,
      AllHaveMints, BlockMints, BuildUtxos, AddMint, AfterBurns, SpentAll, SurvivorId, HandlesFollow, NamesHaveMints,
      MintsAny, Held, MintsOf, Sound;
    var e, f := AfterMints(lib, db, rows), AfterMints(lib, d, rows);
    var us, bm := SurvivorsOf(rows), BlockMints(BuildUtxos(rows));
    ReadyForOutputs(lib, db, l, txs, rows, was, slot);
    SurvivorsApart(l, txs, rows, slot);
    GoesThrough(l, txs, rows, slot, e);
    BurnAgain(lib, db, l, txs, rows, was, slot, d);
    StartIsPartial(lib, db, l, txs, rows, was, slot);
    BurnAgain(lib, db, l, txs, rows, was, slot, db);
    MintWrite(lib, AfterBurns(lib, d, rows), bm, slot);
    AddMintOnly(db, AfterBurns(lib, db, rows), bm);
    AddMintOnly(d, AfterBurns(lib, d, rows), bm);
    MintsTwice(db, d, bm);
    assert Resumed(e, f, us, Goal(lib, db, rows));
    ReadyAgain(lib, e, f, us, bm, slot);
  }

  lemma AddMintOnly(d: Db, after: Db, mints: MintMap)
    requires after.mint == d.mint
    ensures AddMint(after, mints).mint == AddMint(d, mints).mint && AddMint(after, mints).handles == after.handles
    ensures AddMint(after, mints).utxos == after.utxos && AddMint(after, mints).utxoSlot == after.utxoSlot
  {
  }

  /** The state after a burn, and after the minting data. */
  lemma FirstWritesArePartial(lib: Lib, db: Db, l: Ledger, txs: seq<Tx>, rows: seq<Tx>, was: nat, slot: nat, d: Db)
    requires Setting(lib, db, l, txs, rows, was, slot) && Partial(lib, db, txs, rows, slot, d)
    ensures Partial(lib, db, txs, rows, slot, AfterBurns(lib, d, rows))
  {
    hide TablesOk, BurnsAny, SlotsOf, Goal, Setting, SurvivorsOf, AfterBurns, SpentAll, SurvivorId, Named, AddMint,
      BlockMints, BuildUtxos;
    BurnAgain(lib, db, l, txs, rows, was, slot, d);
  }

  /** Some outputs put into the table, for ids that neither survive nor are spent. */
  lemma PutOthers(t: Table, us: seq<Utxo>, some: seq<Utxo>, id: OutRef)
    requires some <= us && forall u <- us :: u.id != id
    ensures LookupOut(PutAll(t, some), id) == LookupOut(t, id)
    decreases |some|
  {
    if some != [] {
      assert some[|some| - 1] in us;
      PutOthers(t, us, some[..|some| - 1], id);
    }
  }

  lemma SomeReady(lib: Lib, e: Db, us: seq<Utxo>, some: seq<Utxo>, bm: MintMap, slot: nat)
    requires Ready(lib, e, us, bm, slot) && some <= us
    ensures Ready(lib, e, some, bm, slot)
  {
    hide TablesOk, Indexable, HasMints, NamesOf;
    assert forall u <- some :: u in us;
  }

  lemma SomeNamed(us: seq<Utxo>, some: seq<Utxo>, n: string)
    requires some <= us && Named(some, n)
    ensures Named(us, n)
  {
    hide NamesOf;
  }

  /** The state after some of the outputs. */
  lemma OutputsArePartial(lib: Lib, db: Db, l: Ledger, txs: seq<Tx>, rows: seq<Tx>, was: nat, slot: nat, d: Db,
                          some: seq<Utxo>)
    requires Setting(lib, db, l, txs, rows, was, slot) && Partial(lib, db, txs, rows, slot, d)
    requires some <= SurvivorsOf(rows)
    ensures var bm := BlockMints(BuildUtxos(rows)); var f := AfterMints(lib, d, rows);
            var r := Run(lib, f, IndexWrites(some, bm));
            && r.Some? && Partial(lib, db, txs, rows, slot, r.value)
            && r.value.mint == AfterMints(lib, db, rows).mint && r.value.utxos == PutAll(d.utxos, some)
            && (some == SurvivorsOf(rows) ==> r.value.handles == Goal(lib, db, rows))
  {
    hide TablesOk, BurnsAny, SlotsOf, ValidAll, DistinctIds, Mixes, SurvivorsOf, IndexedAll, Indexable, Apart,
      BlockMints, BuildUtxos, AddMint, AfterBurns, SpentAll, HandlesFollow, NamesHaveMints, MintsAny, Held, Sound,
      Setting, AfterMints, HasMints, Run, NamesOf, PutAll;
    var e, f := AfterMints(lib, db, rows), AfterMints(lib, d, rows);
    var us, bm := SurvivorsOf(rows), BlockMints(BuildUtxos(rows));
    ReadyToResume(lib, db, l, txs, rows, was, slot, d);
    SomeReady(lib, f, us, some, bm, slot);
    OutputsKeepTables(lib, f, some, bm, slot);
    var r := Run(lib, f, IndexWrites(some, bm)).value;
    MintOf(lib, db, l, txs, rows, was, slot);
    forall n: string
      ensures EntryOk(Find(db.handles, n), Find(r.handles, n), Find(Goal(lib, db, rows), n), BurnsAny(txs, n),
                      Named(us, n))
      ensures some == us ==> Find(r.handles, n) == Find(Goal(lib, db, rows), n)
    {
      EntriesAgain(lib, e, f, us, some, bm, slot, n);
      if Named(some, n) { SomeNamed(us, some, n); }
      assert EntryOk(Find(db.handles, n), Find(d.handles, n), Find(Goal(lib, db, rows), n), BurnsAny(txs, n),
                     Named(us, n));
      if some == us && !Named(us, n) { UnnamedKept(lib, e, us, bm, n); }
    }
    forall id: OutRef | id !in SpentAll(rows) && !SurvivorId(rows, id)
      ensures LookupOut(r.utxos, id) == LookupOut(db.utxos, id)
    {
      PutOthers(d.utxos, us, some, id);
    }
    if some == us { SameMaps(r.handles, Goal(lib, db, rows)); }
  }

  lemma SameMaps(a: map<string, Handle>, b: map<string, Handle>)
    requires forall n: string :: Find(a, n) == Find(b, n)
    ensures a == b
  {
    forall n: string ensures n in a <==> n in b { assert Find(a, n) == Find(b, n); }
    forall n <- a ensures a[n] == b[n] { assert Find(a, n) == Find(b, n); }
  }

  lemma MintOf(lib: Lib, db: Db, l: Ledger, txs: seq<Tx>, rows: seq<Tx>, was: nat, slot: nat)
    requires Setting(lib, db, l, txs, rows, was, slot)
    ensures AfterMints(lib, db, rows).mint == AddMint(db, BlockMints(BuildUtxos(rows))).mint
  {
    hide TablesOk, BurnsAny, AfterBurns, AddMint, BlockMints, BuildUtxos, Setting, Partial;
    StartIsPartial(lib, db, l, txs, rows, was, slot);
    BurnAgain(lib, db, l, txs, rows, was, slot, db);
    AddMintOnly(db, AfterBurns(lib, db, rows), BlockMints(BuildUtxos(rows)));
  }

  lemma DroppedIsPartial(lib: Lib, db: Db, txs: seq<Tx>, rows: seq<Tx>, slot: nat, d: Db, cursor: Option<Cursor>,
                         scanned: map<string, nat>)
    requires Partial(lib, db, txs, rows, slot, d)
    ensures Partial(lib, db, txs, rows, slot,
                    d.(utxos := d.utxos - SpentAll(rows), utxoSlot := d.utxoSlot - SpentAll(rows),
                       cursor := cursor, scanned := scanned))
  {
    hide TablesOk, BurnsAny, SlotsOf, SurvivorsOf, SpentAll, SurvivorId, Goal, Named, AddMint, BlockMints, BuildUtxos;
    var after := d.(utxos := d.utxos - SpentAll(rows), utxoSlot := d.utxoSlot - SpentAll(rows),
                    cursor := cursor, scanned := scanned);
    TablesDepend(lib, d, after, slot);
    SlotsWithout(d.utxos, SpentAll(rows));
  }

  lemma {:induction false} PutAllAgain(t: Table, other: Table, us: seq<Utxo>, id: OutRef)
    ensures (exists u <- us :: u.id == id) ==> LookupOut(PutAll(t, us), id) == LookupOut(PutAll(other, us), id)
    ensures (forall u <- us :: u.id != id) ==> LookupOut(PutAll(t, us), id) == LookupOut(t, id)
    decreases |us|
  {
    if us != [] {
      assert us == us[..|us| - 1] + [us[|us| - 1]];
      PutAllAgain(t, other, us[..|us| - 1], id);
    }
  }

  lemma FinalUtxos(t: Table, other: Table, us: seq<Utxo>, spent: set<OutRef>)
    requires forall id: OutRef | id !in spent && (forall u <- us :: u.id != id) ::
               LookupOut(t, id) == LookupOut(other, id)
    ensures PutAll(t, us) - spent == PutAll(other, us) - spent
  {
    hide PutAll;
    var a, b := PutAll(t, us) - spent, PutAll(other, us) - spent;
    forall id: OutRef ensures (id in a <==> id in b) && (id in a ==> a[id] == b[id]) {
      PutAllAgain(t, other, us, id);
      PutAllAgain(other, t, us, id);
      if id !in spent && (forall u <- us :: u.id != id) { assert LookupOut(t, id) == LookupOut(other, id); }
      assert LookupOut(PutAll(t, us), id) == LookupOut(PutAll(other, us), id) || id in spent;
    }
  }

  lemma {:induction false} IndexWritesPrefix(us: seq<Utxo>, bm: MintMap, j: nat)
    requires j <= |us|
    ensures |IndexWrites(us, bm)| == |us| && IndexWrites(us, bm)[..j] == IndexWrites(us[..j], bm)
    decreases |us|
  {
    if j < |us| {
      IndexWritesPrefix(us[..|us| - 1], bm, j);
      assert us[..|us| - 1][..j] == us[..j];
    } else {
      assert us[..j] == us;
      if us != [] { IndexWritesPrefix(us[..|us| - 1], bm, j - 1); }
    }
  }

  function WriteCount(rows: seq<Tx>): nat {
    |SurvivorsOf(rows)| + 5
  }

  lemma CountWrites(block: Block, rows: seq<Tx>, tip: Tip)
    ensures |Writes(block, rows, tip)| == WriteCount(rows)
  {
    hide BuildUtxos, BlockMints, BurnNames, AllMinted, SpentAll, Surviving, IndexWrites;
    IndexWritesPrefix(SurvivorsOf(rows), BlockMints(BuildUtxos(rows)), 0);
  }

  /** A pass stopped after the burns, or before. */
  lemma EarlyStop(lib: Lib, d: Db, block: Block, rows: seq<Tx>, tip: Tip)
    ensures |Writes(block, rows, tip)| >= 2
    ensures Run(lib, d, Writes(block, rows, tip)[..0]) == Some(d)
    ensures Run(lib, d, Writes(block, rows, tip)[..1]) == Some(AfterBurns(lib, d, rows))
  {
    hide RemoveHandles, AddMint, IndexOutput, BuildUtxos, BlockMints, BurnNames, AllMinted, SpentAll, Surviving,
      IndexWrites;
    var ws := Writes(block, rows, tip);
    assert ws[..1] == [ws[0]] && ws[..1][..0] == [];
  }

  /** A pass stopped among the outputs. */
  lemma MiddleStop(lib: Lib, d: Db, block: Block, rows: seq<Tx>, tip: Tip, j: nat)
    requires j <= |SurvivorsOf(rows)|
    ensures j + 2 <= |Writes(block, rows, tip)|
    ensures Run(lib, d, Writes(block, rows, tip)[..j + 2])
              == Run(lib, AfterMints(lib, d, rows), IndexWrites(SurvivorsOf(rows)[..j], BlockMints(BuildUtxos(rows))))
  {
    hide RemoveHandles, AddMint, IndexOutput, BuildUtxos, BlockMints, BurnNames, AllMinted, SpentAll, Surviving,
      IndexWrites;
    var us, bm := SurvivorsOf(rows), BlockMints(BuildUtxos(rows));
    var a := [Burn(BurnNames(AllMinted(rows))), AddMints(bm)];
    CountWrites(block, rows, tip);
    IndexWritesPrefix(us, bm, j);
    assert Writes(block, rows, tip)[..j + 2] == a + IndexWrites(us, bm)[..j];
    RunConcat(lib, d, a, IndexWrites(us[..j], bm));
    assert a[..1] == [a[0]] && a[..1][..0] == [];
    assert Run(lib, d, a[..1]) == Some(AfterBurns(lib, d, rows));
  }

  /** A pass stopped after the spent outputs were dropped. */
  lemma LateStop(lib: Lib, d: Db, block: Block, rows: seq<Tx>, tip: Tip, j: nat)
    requires 1 <= j <= 3
    requires Run(lib, AfterMints(lib, d, rows), IndexWrites(SurvivorsOf(rows), BlockMints(BuildUtxos(rows)))).Some?
    ensures |SurvivorsOf(rows)| + 2 + j <= |Writes(block, rows, tip)|
    ensures var mid := Run(lib, AfterMints(lib, d, rows),
                           IndexWrites(SurvivorsOf(rows), BlockMints(BuildUtxos(rows)))).value;
            var r := Run(lib, d, Writes(block, rows, tip)[..|SurvivorsOf(rows)| + 2 + j]);
            && r.Some?
            && r.value == mid.(utxos := mid.utxos - SpentAll(rows), utxoSlot := mid.utxoSlot - SpentAll(rows),
                               cursor := r.value.cursor, scanned := r.value.scanned)
  {
    hide BuildUtxos, BlockMints, SpentAll, SurvivorsOf, IndexWrites, AfterMints, Run, Writes;
    var us := SurvivorsOf(rows);
    var ws := Writes(block, rows, tip);
    MiddleStop(lib, d, block, rows, tip, |us|);
    assert us[..|us|] == us;
    TailSplits(block, rows, tip, j);
    RunConcat(lib, d, ws[..|us| + 2], TailOf(block, rows, tip)[..j]);
    TailRuns(lib, Run(lib, d, ws[..|us| + 2]).value, TailOf(block, rows, tip), j);
  }

  function TailOf(block: Block, rows: seq<Tx>, tip: Tip): seq<Write> {
    [DropUtxos(SpentAll(rows)), SetCursor(Cursor(block.id, block.slot, tip.hash, tip.slot)), Record(block)]
  }

  lemma TailSplits(block: Block, rows: seq<Tx>, tip: Tip, j: nat)
    requires j <= 3
    ensures var ws, n := Writes(block, rows, tip), |SurvivorsOf(rows)|;
            |ws| == n + 5 && ws[..n + 2 + j] == ws[..n + 2] + TailOf(block, rows, tip)[..j]
  {
    hide BuildUtxos, BlockMints, BurnNames, AllMinted, SpentAll, Surviving, IndexWrites;
    var ws, n := Writes(block, rows, tip), |SurvivorsOf(rows)|;
    CountWrites(block, rows, tip);
    assert ws[n + 2..] == TailOf(block, rows, tip);
  }

  lemma TailRuns(lib: Lib, mid: Db, c: seq<Write>, j: nat)
    requires 1 <= j <= |c| == 3 && c[0].DropUtxos? && c[1].SetCursor? && c[2].Record?
    ensures var r := Run(lib, mid, c[..j]);
            r.Some? && r.value == mid.(utxos := mid.utxos - c[0].ids, utxoSlot := mid.utxoSlot - c[0].ids,
                                       cursor := r.value.cursor, scanned := r.value.scanned)
  {
    assert c[..1] == [c[0]] && c[..2] == [c[0], c[1]] && c[..3] == [c[0], c[1], c[2]];
    assert c[..2][..1] == c[..1] && c[..3][..2] == c[..2] && c[..1][..0] == [];
    assert Run(lib, mid, c[..1]) == Exec(lib, mid, c[0]);
    if j >= 2 { assert Run(lib, mid, c[..2]) == Exec(lib, Run(lib, mid, c[..1]).value, c[1]); }
  }

  /** The tables a whole run ends with. */
  ghost predicate Done(lib: Lib, db: Db, rows: seq<Tx>, d: Db) {
    && d.handles == Goal(lib, db, rows) && d.mint == AfterMints(lib, db, rows).mint
    && d.utxos == PutAll(db.utxos, SurvivorsOf(rows)) - SpentAll(rows) && d.utxoSlot == SlotsOf(d.utxos)
  }

  /** Any part of a pass from a partial state succeeds and ends in one; past the outputs it is done. */
  lemma PassKeepsPartial(lib: Lib, db: Db, l: Ledger, txs: seq<Tx>, rows: seq<Tx>, was: nat, block: Block,
                         tip: Tip, d: Db, k: nat)
    requires Setting(lib, db, l, txs, rows, was, block.slot) && Partial(lib, db, txs, rows, block.slot, d)
    requires k <= |Writes(block, rows, tip)|
    ensures var r := Run(lib, d, Writes(block, rows, tip)[..k]);
            && r.Some? && Partial(lib, db, txs, rows, block.slot, r.value)
            && (k > |SurvivorsOf(rows)| + 2 ==> Done(lib, db, rows, r.value))
  {
    hide BuildUtxos, BlockMints, SpentAll, SurvivorsOf, IndexWrites, AfterMints, AfterBurns, Run, Writes, Partial,
      Setting, PutAll, SlotsOf, Goal;
    var us := SurvivorsOf(rows);
    CountWrites(block, rows, tip);
    EarlyStop(lib, d, block, rows, tip);
    if k == 0 {
    } else if k == 1 {
      FirstWritesArePartial(lib, db, l, txs, rows, was, block.slot, d);
    } else if k <= |us| + 2 {
      MiddleStop(lib, d, block, rows, tip, k - 2);
      OutputsArePartial(lib, db, l, txs, rows, was, block.slot, d, us[..k - 2]);
    } else {
      LatePass(lib, db, l, txs, rows, was, block, tip, d, k - 2 - |us|);
    }
  }

  lemma LatePass(lib: Lib, db: Db, l: Ledger, txs: seq<Tx>, rows: seq<Tx>, was: nat, block: Block, tip: Tip, d: Db,
                 j: nat)
    requires Setting(lib, db, l, txs, rows, was, block.slot) && Partial(lib, db, txs, rows, block.slot, d)
    requires 1 <= j <= 3
    ensures |SurvivorsOf(rows)| + 2 + j <= |Writes(block, rows, tip)|
    ensures var r := Run(lib, d, Writes(block, rows, tip)[..|SurvivorsOf(rows)| + 2 + j]);
            r.Some? && Partial(lib, db, txs, rows, block.slot, r.value) && Done(lib, db, rows, r.value)
  {
    hide BuildUtxos, BlockMints, SpentAll, SurvivorsOf, IndexWrites, AfterMints, Run, Writes, Partial, Setting, PutAll,
      SlotsOf, Goal;
    var us := SurvivorsOf(rows);
    OutputsArePartial(lib, db, l, txs, rows, was, block.slot, d, us);
    LateStop(lib, d, block, rows, tip, j);
    var mid := Run(lib, AfterMints(lib, d, rows), IndexWrites(us, BlockMints(BuildUtxos(rows)))).value;
    var r := Run(lib, d, Writes(block, rows, tip)[..|us| + 2 + j]).value;
    DroppedIsPartial(lib, db, txs, rows, block.slot, mid, r.cursor, r.scanned);
    DoneUtxos(lib, db, l, txs, rows, was, block.slot, d);
    PartialSlots(lib, db, txs, rows, block.slot, r);
  }

  lemma PartialSlots(lib: Lib, db: Db, txs: seq<Tx>, rows: seq<Tx>, slot: nat, d: Db)
    requires Partial(lib, db, txs, rows, slot, d)
    ensures d.utxoSlot == SlotsOf(d.utxos)
  {
  }

  lemma DoneUtxos(lib: Lib, db: Db, l: Ledger, txs: seq<Tx>, rows: seq<Tx>, was: nat, slot: nat, d: Db)
    requires Setting(lib, db, l, txs, rows, was, slot) && Partial(lib, db, txs, rows, slot, d)
    ensures PutAll(d.utxos, SurvivorsOf(rows)) - SpentAll(rows) == PutAll(db.utxos, SurvivorsOf(rows)) - SpentAll(rows)
  {
    hide TablesOk, BurnsAny, SlotsOf, SurvivorsOf, SpentAll, Goal, Named, AddMint, BlockMints, BuildUtxos, BlockOf,
      Follows, Mixes, PutAll, Makes, CreatedAll, ApplyAll;
    SurvivorsAreLive(l, txs, rows, slot);
    FinalUtxos(d.utxos, db.utxos, SurvivorsOf(rows), SpentAll(rows));
  }

  // ---------- The block listed again ----------

  lemma SurvivorToo(rows: seq<Tx>, other: seq<Tx>, u: Utxo) returns (v: Utxo)
    requires TxSet(rows) == TxSet(other) && u in SurvivorsOf(rows)
    ensures v in SurvivorsOf(other) && KeyedOut(v) == KeyedOut(u)
  {
    hide BuildUtxos, Surviving, SpentAll, KeyedOut, TxSet, Makes;
    BuildUtxosHave(rows);
    BuildUtxosHave(other);
    SurvivingAre(BuildUtxos(rows), SpentAll(rows));
    SurvivingAre(BuildUtxos(other), SpentAll(other));
    SameSpends(rows, other);
    v := MakesToo(rows, other, u);
    SameHolds(u, v, "");
  }

  lemma SameSurvivors(rows: seq<Tx>, other: seq<Tx>, n: string, id: OutRef)
    requires TxSet(rows) == TxSet(other)
    ensures Named(SurvivorsOf(rows), n) ==> Named(SurvivorsOf(other), n)
    ensures SurvivorId(rows, id) ==> SurvivorId(other, id)
  {
    hide SurvivorsOf, KeyedOut, NamesOf, TxSet;
    if Named(SurvivorsOf(rows), n) {
      var u :| u in SurvivorsOf(rows) && n in NamesOf(u.assets);
      var v := SurvivorToo(rows, other, u);
      SameHolds(u, v, n);
    }
    if SurvivorId(rows, id) {
      var u :| u in SurvivorsOf(rows) && u.id == id;
      var v := SurvivorToo(rows, other, u);
      SameHolds(u, v, n);
    }
  }

  /** The minting data are the same members, because they are stored with sorted keys. */
  lemma CanonToo(rows: seq<Tx>, other: seq<Tx>, n: string, d: MintData)
    requires TxSet(rows) == TxSet(other) && d in Canons(MintsOf(BlockMints(BuildUtxos(rows)), n))
    ensures d in Canons(MintsOf(BlockMints(BuildUtxos(other)), n))
  {
    hide BuildUtxos, BlockMints, MintsOf, NamesOf, TxSet, Makes, KeyedOut;
    var us, vs := BuildUtxos(rows), BuildUtxos(other);
    BuildUtxosHave(rows);
    BuildUtxosHave(other);
    BlockMintsAre(us, n);
    BlockMintsAre(vs, n);
    var m :| m in MintsOf(BlockMints(us), n) && Canon(m) == d;
    var u :| u in us && n in NamesOf(u.mint) && m == MintData(u.slot, u.metadata, u.id.tx);
    var v := MakesToo(rows, other, u);
    SameHolds(u, v, n);
    SameCanon(u, v);
    assert MintData(v.slot, v.metadata, v.id.tx) in MintsOf(BlockMints(vs), n);
  }

  lemma SameCanon(u: Utxo, v: Utxo)
    requires KeyedOut(u) == KeyedOut(v)
    ensures Canon(MintData(u.slot, u.metadata, u.id.tx)) == Canon(MintData(v.slot, v.metadata, v.id.tx))
  {
    SameOutFields(u, v);
    assert KeyedOut(u).metadata == KeyedOut(v).metadata;
  }

  lemma CanonsToo(rows: seq<Tx>, other: seq<Tx>, n: string)
    requires TxSet(rows) == TxSet(other)
    ensures Canons(MintsOf(BlockMints(BuildUtxos(rows)), n)) == Canons(MintsOf(BlockMints(BuildUtxos(other)), n))
  {
    hide Canons, TxSet, BlockMints, MintsOf, BuildUtxos;
    var a, b := Canons(MintsOf(BlockMints(BuildUtxos(rows)), n)), Canons(MintsOf(BlockMints(BuildUtxos(other)), n));
    forall d: MintData ensures d in a <==> d in b {
      if d in a { CanonToo(rows, other, n, d); }
      if d in b { CanonToo(other, rows, n, d); }
    }
  }

  lemma MintsByCanons(db: Db, a: MintMap, b: MintMap)
    requires forall n: string :: Canons(MintsOf(a, n)) == Canons(MintsOf(b, n))
    ensures AddMint(db, a) == AddMint(db, b)
  {
    hide Canons;
    var x, y := AddMint(db, a).mint, AddMint(db, b).mint;
    forall n: string ensures (n in x <==> n in y) && (n in x ==> x[n] == y[n]) {
      MintsAdded(db, a, n);
      MintsAdded(db, b, n);
      assert Canons(MintsOf(a, n)) == Canons(MintsOf(b, n));
    }
    assert x == y;
  }

  lemma MintsToo(db: Db, rows: seq<Tx>, other: seq<Tx>)
    requires TxSet(rows) == TxSet(other)
    ensures AddMint(db, BlockMints(BuildUtxos(rows))) == AddMint(db, BlockMints(BuildUtxos(other)))
  {
    hide Canons, TxSet, BlockMints, MintsOf, BuildUtxos, AddMint;
    forall n: string
      ensures Canons(MintsOf(BlockMints(BuildUtxos(rows)), n)) == Canons(MintsOf(BlockMints(BuildUtxos(other)), n))
    {
      CanonsToo(rows, other, n);
    }
    MintsByCanons(db, BlockMints(BuildUtxos(rows)), BlockMints(BuildUtxos(other)));
  }

  lemma SlotsByCanons(a: set<MintData>, b: set<MintData>)
    requires Canons(a) == Canons(b) && a != {} && b != {}
    ensures FirstSlot(a) == FirstSlot(b)
  {
    hide FirstSlot;
    SlotsWithin(a, b);
    SlotsWithin(b, a);
  }

  lemma SlotsWithin(a: set<MintData>, b: set<MintData>)
    requires Canons(a) == Canons(b)
    ensures Slots(a) <= Slots(b)
  {
    forall s <- Slots(a) ensures s in Slots(b) {
      var m :| m in a && m.createdSlot == s;
      assert Canon(m) in Canons(b);
      var k :| k in b && Canon(k) == Canon(m);
      assert k.createdSlot == Canon(k).createdSlot;
    }
  }

  /** The record of a name does not depend on which listing its output comes from. */
  lemma RecordToo(lib: Lib, e: Db, f: Db, existing: Option<Handle>, u: Utxo, v: Utxo, i: nat, bm: MintMap, cm: MintMap)
    requires e.mint == f.mint && KeyedOut(u) == KeyedOut(v) && i < |u.assets| && u.assets[i] != NAMELESS
    requires Canons(MintsOf(bm, u.assets[i].name)) == Canons(MintsOf(cm, u.assets[i].name))
    requires HasMints(MintsFor(e, u, bm), NamesOf(u.assets)) && HasMints(MintsFor(f, v, cm), NamesOf(v.assets))
    ensures i < |v.assets| && v.assets[i] == u.assets[i]
    ensures RecordFor(lib, e, existing, u, i, bm) == RecordFor(lib, f, existing, v, i, cm)
  {
    hide NewRecord, FirstSlot, KeyedOut, Canons, NamesOf;
    SameHolds(u, v, "");
    var n := u.assets[i].name;
    NamesOfHas(u.assets, n);
    SlotsByCanons(MintsFor(e, u, bm)[n], MintsFor(f, v, cm)[n]);
    KeyedRecord(lib, existing, u, v, u.assets[i], FirstSlot(MintsFor(e, u, bm)[n]));
  }

  /** Both listings of the block, from the same tables. */
  ghost predicate Settings(lib: Lib, db: Db, l: Ledger, txs: seq<Tx>, rows: seq<Tx>, other: seq<Tx>, was: nat,
                           slot: nat) {
    Setting(lib, db, l, txs, rows, was, slot) && Setting(lib, db, l, txs, other, was, slot)
  }

  lemma GoalEntryToo(lib: Lib, db: Db, l: Ledger, txs: seq<Tx>, rows: seq<Tx>, other: seq<Tx>, was: nat, slot: nat,
                     n: string)
    requires Settings(lib, db, l, txs, rows, other, was, slot)
    ensures Find(Goal(lib, db, rows), n) == Find(Goal(lib, db, other), n)
  {
    hide TablesOk, BurnsAny, ValidAll, Mixes, SurvivorsOf, IndexedAll, Indexable, Apart, AllHaveMints, BlockMints,
      BuildUtxos, AddMint, AfterMints, HandlesFollow, NamesHaveMints, Sound, KeyedTable, TxSet, KeyedOut, RecordFor,
      NamesOf, MintsOf, Canons, MintsFor, Partial, HasMints;
    var e, f := AfterMints(lib, db, rows), AfterMints(lib, db, other);
    var us, vs := SurvivorsOf(rows), SurvivorsOf(other);
    var bm, cm := BlockMints(BuildUtxos(rows)), BlockMints(BuildUtxos(other));
    ReadyAtStart(lib, db, l, txs, rows, was, slot);
    ReadyAtStart(lib, db, l, txs, other, was, slot);
    MintsToo(db, rows, other);
    SameSurvivors(other, rows, n, OutRef("", 0));
    if Named(us, n) {
      var u :| u in us && n in NamesOf(u.assets);
      var v := SurvivorToo(rows, other, u);
      NamesOfHas(u.assets, n);
      var i :| 0 <= i < |u.assets| && u.assets[i] != NAMELESS && u.assets[i].name == n;
      SameHolds(u, v, n);
      FirstEntry(lib, e, us, bm, slot, u, i);
      FirstEntry(lib, f, vs, cm, slot, v, i);
      CanonsToo(rows, other, n);
      ReadyMints(lib, e, us, bm, slot, u);
      ReadyMints(lib, f, vs, cm, slot, v);
      RecordToo(lib, e, f, Find(e.handles, n), u, v, i, bm, cm);
    } else {
      UnnamedKept(lib, e, us, bm, n);
      UnnamedKept(lib, f, vs, cm, n);
    }
  }

  lemma ReadyMints(lib: Lib, e: Db, us: seq<Utxo>, bm: MintMap, slot: nat, u: Utxo)
    requires Ready(lib, e, us, bm, slot) && u in us
    ensures HasMints(MintsFor(e, u, bm), NamesOf(u.assets))
  {
    hide HasMints, NamesOf, MintsFor, TablesOk, Apart, Indexable;
  }

  lemma ReadyAtStart(lib: Lib, db: Db, l: Ledger, txs: seq<Tx>, rows: seq<Tx>, was: nat, slot: nat)
    requires Setting(lib, db, l, txs, rows, was, slot)
    ensures var e := AfterMints(lib, db, rows);
            && Ready(lib, e, SurvivorsOf(rows), BlockMints(BuildUtxos(rows)), slot)
            && e.mint == AddMint(db, BlockMints(BuildUtxos(rows))).mint
            && forall n: string :: Find(e.handles, n) == if BurnsAny(txs, n) then None else Find(db.handles, n)
  {
    hide Setting, Partial, Ready, BurnsAny, AddMint, AfterMints, SurvivorsOf, BlockMints, BuildUtxos, Resumed;
    StartIsPartial(lib, db, l, txs, rows, was, slot);
    ReadyToResume(lib, db, l, txs, rows, was, slot, db);
    MintOf(lib, db, l, txs, rows, was, slot);
  }

  /** One run over either listing ends with the same handles. */
  lemma GoalToo(lib: Lib, db: Db, l: Ledger, txs: seq<Tx>, rows: seq<Tx>, other: seq<Tx>, was: nat, slot: nat)
    requires Settings(lib, db, l, txs, rows, other, was, slot)
    ensures Goal(lib, db, rows) == Goal(lib, db, other)
  {
    hide Goal, Settings;
    forall n: string ensures Find(Goal(lib, db, rows), n) == Find(Goal(lib, db, other), n) {
      GoalEntryToo(lib, db, l, txs, rows, other, was, slot, n);
    }
    SameMaps(Goal(lib, db, rows), Goal(lib, db, other));
  }

  /** What some passes left is a partial state for every listing of the block. */
  lemma PartialToo(lib: Lib, db: Db, l: Ledger, txs: seq<Tx>, rows: seq<Tx>, other: seq<Tx>, was: nat, slot: nat, d: Db)
    requires Settings(lib, db, l, txs, rows, other, was, slot) && Partial(lib, db, txs, rows, slot, d)
    ensures Partial(lib, db, txs, other, slot, d)
  {
    hide TablesOk, Goal, BurnsAny, Named, SlotsOf, SurvivorId, SpentAll, HandlesFollow, Mixes, SurvivorsOf, AddMint,
      BlockMints, BuildUtxos, TxSet, Follows;
    GoalToo(lib, db, l, txs, rows, other, was, slot);
    MintsToo(db, rows, other);
    SameSpends(rows, other);
    forall n: string, id: OutRef
      ensures Named(SurvivorsOf(rows), n) <==> Named(SurvivorsOf(other), n)
      ensures SurvivorId(rows, id) <==> SurvivorId(other, id)
    {
      SameSurvivors(rows, other, n, id);
      SameSurvivors(other, rows, n, id);
    }
    forall n: string
      ensures EntryOk(Find(db.handles, n), Find(d.handles, n), Find(Goal(lib, db, other), n), BurnsAny(txs, n),
                      Named(SurvivorsOf(other), n))
    {
      SameSurvivors(rows, other, n, OutRef("", 0));
      SameSurvivors(other, rows, n, OutRef("", 0));
    }
    forall id: OutRef | id !in SpentAll(other) && !SurvivorId(other, id)
      ensures LookupOut(d.utxos, id) == LookupOut(db.utxos, id)
    {
      SameSurvivors(rows, other, "", id);
    }
  }

  // ---------- The theorem ----------

  /**
   A pass over the block that stopped after so many writes. Each pass fetches the block anew: the tip may have
   moved, and rows and metadata keys may come in another order.
   */
  datatype Attempt = Attempt(stop: nat, tip: Tip, rows: seq<Tx>)

  function Interrupted(lib: Lib, db: Db, block: Block, attempts: seq<Attempt>): Option<Db> {
    if attempts == [] then Some(db)
    else
      match Interrupted(lib, db, block, attempts[..|attempts| - 1])
      case None => None
      case Some(d) =>
        var a := attempts[|attempts| - 1];
        var ws := Writes(block, a.rows, a.tip);
        Run(lib, d, if a.stop <= |ws| then ws[..a.stop] else ws)
  }

  lemma {:induction false} InterruptedIsPartial(lib: Lib, db: Db, l: Ledger, txs: seq<Tx>, rows: seq<Tx>, was: nat,
        block: Block, attempts: seq<Attempt>)
    requires Setting(lib, db, l, txs, rows, was, block.slot)
    requires forall a <- attempts :: TxSet(a.rows) == TxSet(txs)
    ensures var r := Interrupted(lib, db, block, attempts);
            r.Some? && Partial(lib, db, txs, rows, block.slot, r.value)
    decreases |attempts|
  {
    hide Partial, Run, Writes, SurvivorsOf, Done, Follows, Mixes, ValidAll, Sound, TxSet;
    if attempts == [] {
      StartIsPartial(lib, db, l, txs, rows, was, block.slot);
    } else {
      var before, a := attempts[..|attempts| - 1], attempts[|attempts| - 1];
      assert a in attempts && forall b <- before :: b in attempts;
      InterruptedIsPartial(lib, db, l, txs, rows, was, block, before);
      var d := Interrupted(lib, db, block, before).value;
      var ws := Writes(block, a.rows, a.tip);
      assert ws[..|ws|] == ws;
      OnePass(lib, db, l, txs, rows, a.rows, was, block, a.tip, d, if a.stop <= |ws| then a.stop else |ws|);
    }
  }

  /** Part of a pass over one listing, between partial states for another. */
  lemma OnePass(lib: Lib, db: Db, l: Ledger, txs: seq<Tx>, rows: seq<Tx>, listed: seq<Tx>, was: nat, block: Block,
                tip: Tip, d: Db, k: nat)
    requires Settings(lib, db, l, txs, rows, listed, was, block.slot) && Partial(lib, db, txs, rows, block.slot, d)
    requires k <= |Writes(block, listed, tip)|
    ensures var r := Run(lib, d, Writes(block, listed, tip)[..k]);
            && r.Some? && Partial(lib, db, txs, rows, block.slot, r.value)
            && (k > |SurvivorsOf(listed)| + 2 ==> Done(lib, db, listed, r.value))
  {
    hide Partial, Run, Writes, SurvivorsOf, Done, Setting;
    PartialToo(lib, db, l, txs, rows, listed, was, block.slot, d);
    PassKeepsPartial(lib, db, l, txs, listed, was, block, tip, d, k);
    PartialToo(lib, db, l, txs, listed, rows, was, block.slot, Run(lib, d, Writes(block, listed, tip)[..k]).value);
  }

  /**
   However often processing a block was cut short, and wherever, and however each pass was given its rows, one
   more whole pass ends with the same handles, outputs, slots and minting data as a single run over the rows
   of that pass, with every index in agreement.
   */
  lemma ReplayIsOneRun(lib: Lib, db: Db, l: Ledger, txs: seq<Tx>, rows: seq<Tx>, was: nat, block: Block, tip: Tip,
                       attempts: seq<Attempt>)
    requires Follows(lib, db, l, was) && BlockOf(l, txs, rows, block.slot) && was <= block.slot && !Mixes(l, txs)
    requires forall a <- attempts :: TxSet(a.rows) == TxSet(txs)
    ensures var cut := Interrupted(lib, db, block, attempts);
            && cut.Some?
            && var again := ProcessBlock(lib, cut.value, block, rows, tip);
               var once := ProcessBlock(lib, db, block, rows, tip);
               && again.Some? && once.Some?
               && again.value.handles == once.value.handles && again.value.mint == once.value.mint
               && again.value.utxos == once.value.utxos && again.value.utxoSlot == once.value.utxoSlot
               && again.value.cursor == once.value.cursor && TablesOk(lib, again.value, block.slot)
  {
    hide Partial, Run, SurvivorsOf, Goal, AfterMints, SpentAll, PutAll, SlotsOf, TablesOk, Follows, BlockOf, Mixes,
      Interrupted, Writes, IndexWrites, TxSet;
    InterruptedIsPartial(lib, db, l, txs, rows, was, block, attempts);
    StartIsPartial(lib, db, l, txs, rows, was, block.slot);
    var cut := Interrupted(lib, db, block, attempts).value;
    var ws := Writes(block, rows, tip);
    CountWrites(block, rows, tip);
    assert ws[..|ws|] == ws;
    PassKeepsPartial(lib, db, l, txs, rows, was, block, tip, cut, |ws|);
    PassKeepsPartial(lib, db, l, txs, rows, was, block, tip, db, |ws|);
    BlockSplits(lib, cut, block, rows, tip);
    BlockSplits(lib, db, block, rows, tip);
    PartialTables(lib, db, txs, rows, block.slot, ProcessBlock(lib, cut, block, rows, tip).value);
  }

  /**
   The order of the rows, their repetition and the key order of their metadata make no difference: any two
   listings of the block go through or raise alike, and leave the same handles, counts, slots and minting data,
   and the same outputs up to that key order.
   */
  lemma AnyListing(lib: Lib, db: Db, l: Ledger, txs: seq<Tx>, rows: seq<Tx>, other: seq<Tx>, was: nat, block: Block,
                   tip: Tip)
    requires Follows(lib, db, l, was) && BlockOf(l, txs, rows, block.slot) && was <= block.slot
    requires TxSet(other) == TxSet(txs)
    ensures var a := ProcessBlock(lib, db, block, rows, tip); var b := ProcessBlock(lib, db, block, other, tip);
            && (a.Some? <==> b.Some?)
            && (a.Some? ==>
                  && a.value.handles == b.value.handles && a.value.mint == b.value.mint
                  && a.value.holderCount == b.value.holderCount && a.value.utxoSlot == b.value.utxoSlot
                  && KeyedTable(a.value.utxos) == KeyedTable(b.value.utxos))
  {
    hide Partial, Run, SurvivorsOf, Goal, AfterMints, SpentAll, PutAll, SlotsOf, TablesOk, Follows, Mixes, Writes,
      TxSet, KeyedTable, ApplyAll, AddMint, BlockMints, BuildUtxos;
    BlockFollows(lib, db, l, txs, rows, was, block, tip);
    BlockFollows(lib, db, l, txs, other, was, block, tip);
    if !Mixes(l, txs) {
      var v, w := Writes(block, rows, tip), Writes(block, other, tip);
      CountWrites(block, rows, tip);
      CountWrites(block, other, tip);
      assert v[..|v|] == v && w[..|w|] == w;
      StartIsPartial(lib, db, l, txs, rows, was, block.slot);
      StartIsPartial(lib, db, l, txs, other, was, block.slot);
      PassKeepsPartial(lib, db, l, txs, rows, was, block, tip, db, |v|);
      PassKeepsPartial(lib, db, l, txs, other, was, block, tip, db, |w|);
      GoalToo(lib, db, l, txs, rows, other, was, block.slot);
      MintOf(lib, db, l, txs, rows, was, block.slot);
      MintOf(lib, db, l, txs, other, was, block.slot);
      MintsToo(db, rows, other);
      FollowingIsUnique(lib, ProcessBlock(lib, db, block, rows, tip).value,
                        ProcessBlock(lib, db, block, other, tip).value, ApplyAll(l, txs), block.slot);
    }
  }

  lemma PartialTables(lib: Lib, db: Db, txs: seq<Tx>, rows: seq<Tx>, slot: nat, d: Db)
    requires Partial(lib, db, txs, rows, slot, d)
    ensures TablesOk(lib, d, slot)
  {
  }
}
