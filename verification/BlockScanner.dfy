/**
 `processScannerBlock` and the repository methods it calls, pipeline by pipeline
 (lambdas/scanner.app.ts:1144-1203, repositories/handlesRepository.ts:526-642), proved to issue exactly
 the writes of BlockIndexer.

 Reads that a batch will need are made in pipelines of their own before it: the handles to burn, the
 minting data of an output that mints nothing, an output's stored handles and the holder sets.
 */
module BlockScanner {
  import opened BlockIndexer
  import opened BlockRefinement
  import opened BlockReplay
  import CanonicalJson
  import opened HandleRepository
  import opened HandleStore
  import opened HandleTables
  import opened Ledger
  import opened Wrappers

  // ---------- Reading the block ----------

  method CollectMinted(rows: seq<Tx>) returns (minted: seq<Mint>)
    ensures minted == AllMinted(rows)
  {
    minted := [];
    for i := 0 to |rows|
      invariant minted == AllMinted(rows[..i])
    {
      assert rows[..i + 1][..i] == rows[..i];
      minted := minted + rows[i].minted;
    }
    assert rows[..|rows|] == rows;
  }

  method CollectBurns(minted: seq<Mint>) returns (names: seq<string>)
    ensures names == BurnNames(minted)
  {
    names := [];
    for i := 0 to |minted|
      invariant names == BurnNames(minted[..i])
    {
      assert minted[..i + 1][..i] == minted[..i];
      if minted[i].quantity < 0 && minted[i].asset.name !in names {
        names := names + [minted[i].asset.name];
      }
    }
    assert minted[..|minted|] == minted;
  }

  function IdSet(ids: seq<OutRef>): set<OutRef> {
    set r | r in ids
  }

  method CollectSpent(rows: seq<Tx>) returns (ids: seq<OutRef>)
    ensures IdSet(ids) == SpentAll(rows)
  {
    ids := [];
    for i := 0 to |rows|
      invariant IdSet(ids) == SpentAll(rows[..i])
    {
      assert rows[..i + 1][..i] == rows[..i];
      assert IdSet(ids + rows[i].inputs) == IdSet(ids) + Spent(rows[i]);
      ids := ids + rows[i].inputs;
    }
    assert rows[..|rows|] == rows;
  }

  method OutputsWithHandles(tx: Tx) returns (us: seq<Utxo>)
    ensures us == OutputsUpTo(tx, |tx.outputs|)
  {
    us := [];
    for i := 0 to |tx.outputs|
      invariant us == OutputsUpTo(tx, i)
    {
      if tx.outputs[i].assets != [] { us := us + [OutputAt(tx, i)]; }
    }
  }

  /** The stable partition that the comparator of the sort amounts to. */
  method OwnersFirst(us: seq<Utxo>) returns (sorted: seq<Utxo>)
    ensures sorted == Pick(us, true) + Pick(us, false)
  {
    hide Has222;
    var first, last := [], [];
    for i := 0 to |us|
      invariant first == Pick(us[..i], true) && last == Pick(us[..i], false)
    {
      assert us[..i + 1][..i] == us[..i];
      if Has222(us[i]) { first := first + [us[i]]; } else { last := last + [us[i]]; }
    }
    assert us[..|us|] == us;
    sorted := first + last;
  }

  method BuildUTxOsFromTxs(rows: seq<Tx>) returns (us: seq<Utxo>)
    ensures us == BuildUtxos(rows)
  {
    hide Pick, OutputsUpTo;
    us := [];
    for i := 0 to |rows|
      invariant us == OutputsOf(rows[..i])
    {
      assert rows[..i + 1][..i] == rows[..i];
      var more := OutputsWithHandles(rows[i]);
      us := us + more;
    }
    assert rows[..|rows|] == rows;
    us := OwnersFirst(us);
  }

  method BuildMintData(us: seq<Utxo>) returns (m: MintMap)
    ensures m == BlockMints(us)
  {
    hide AddMintsOf;
    m := map[];
    for i := 0 to |us|
      invariant m == BlockMints(us[..i])
    {
      assert us[..i + 1][..i] == us[..i];
      m := AddMintedOf(m, us[i]);
    }
    assert us[..|us|] == us;
  }

  method AddMintedOf(m: MintMap, u: Utxo) returns (r: MintMap)
    ensures r == AddMintsOf(m, u, u.mint)
  {
    r := m;
    for j := 0 to |u.mint|
      invariant r == AddMintsOf(m, u, u.mint[..j])
    {
      assert u.mint[..j + 1][..j] == u.mint[..j];
      var a := u.mint[j];
      if a != NAMELESS {
        r := r[a.name := (if a.name in r then r[a.name] else {}) + {MintData(u.slot, u.metadata, u.id.tx)}];
      }
    }
    assert u.mint[..|u.mint|] == u.mint;
  }

  method KeepSurvivors(us: seq<Utxo>, spent: set<OutRef>) returns (kept: seq<Utxo>)
    ensures kept == Surviving(us, spent)
  {
    kept := [];
    for i := 0 to |us|
      invariant kept == Surviving(us[..i], spent)
    {
      assert us[..i + 1][..i] == us[..i];
      if us[i].id !in spent { kept := kept + [us[i]]; }
    }
    assert us[..|us|] == us;
  }

  // ---------- The pipelines ----------

  lemma AddMintIs(db: Db, m: MintMap, n: string)
    ensures AddMint(db, m) == db.(mint := AddMint(db, m).mint)
    ensures n in AddMint(db, m).mint <==> n in db.mint || MintsOf(m, n) != {}
    ensures n in AddMint(db, m).mint ==> AddMint(db, m).mint[n] == MintsOf(db.mint, n) + Canons(MintsOf(m, n))
  {
  }

  lemma CanonsGrow(ms: set<MintData>, d: MintData)
    ensures Canons(ms + {d}) == Canons(ms) + {Canon(d)} && Canons({}) == {}
  {
  }

  /** One more member queued. */
  lemma AddMintStep(db: Db, done: MintMap, n: string, d: MintData)
    ensures AddMint(db, done[n := MintsOf(done, n) + {d}]) == Effect(AddMint(db, done), AddMintMember(n, Canon(d)))
  {
    hide AddMint, Canons, Canon;
    var more := done[n := MintsOf(done, n) + {d}];
    var was := AddMint(db, done).mint;
    var a, b := AddMint(db, more).mint, was[n := (if n in was then was[n] else {}) + {Canon(d)}];
    AddMintIs(db, more, n);
    AddMintIs(db, done, n);
    CanonsGrow(MintsOf(done, n), d);
    forall k: string ensures (k in a <==> k in b) && (k in a ==> a[k] == b[k]) {
      AddMintIs(db, more, k);
      AddMintIs(db, done, k);
    }
    assert a == b;
  }

  lemma SameMintsAdded(db: Db, a: MintMap, b: MintMap)
    requires forall n: string :: MintsOf(a, n) == MintsOf(b, n)
    ensures AddMint(db, a) == AddMint(db, b)
  {
    hide AddMint, Canons, MintsOf;
    var x, y := AddMint(db, a).mint, AddMint(db, b).mint;
    forall n: string ensures (n in x <==> n in y) && (n in x ==> x[n] == y[n]) {
      AddMintIs(db, a, n);
      AddMintIs(db, b, n);
    }
    AddMintIs(db, a, "");
    AddMintIs(db, b, "");
    assert x == y;
  }

  lemma NoneYet(db: Db, done: MintMap, n: string)
    requires MintsOf(done, n) == {}
    ensures AddMint(db, done[n := {}]) == AddMint(db, done)
  {
    SameMintsAdded(db, done[n := {}], done);
  }

  lemma OneMoreMember(db: Db, done: MintMap, n: string, taken: set<MintData>, d: MintData)
    ensures AddMint(db, done[n := taken + {d}]) == Effect(AddMint(db, done[n := taken]), AddMintMember(n, Canon(d)))
  {
    hide AddMint, Effect, Canon;
    AddMintStep(db, done[n := taken], n, d);
    assert done[n := taken][n := taken + {d}] == done[n := taken + {d}];
  }

  lemma NoMints(db: Db)
    ensures AddMint(db, map[]) == db
  {
    hide AddMint, Canons;
    var x := AddMint(db, map[]).mint;
    AddMintIs(db, map[], "");
    forall n: string ensures (n in x <==> n in db.mint) && (n in x ==> x[n] == db.mint[n]) {
      AddMintIs(db, map[], n);
      CanonsGrow({}, MintData(0, CanonicalJson.Scalar(""), ""));
    }
    assert x == db.mint;
  }

  class Scanner {
    const repo: Repository

    constructor (repo: Repository)
      ensures this.repo == repo
    {
      this.repo := repo;
    }

    ghost predicate Idle()
      reads repo.store
    {
      repo.store.Valid() && !repo.store.active
    }

    /** The handles to burn, read in one pipeline of their own. */
    method ReadStored(names: seq<string>) returns (hs: seq<Handle>)
      requires Idle()
      modifies repo.store
      ensures Idle() && repo.store.live == old(repo.store.live) && hs == StoredHandles(repo.store.live, names)
    {
      hide Effects, Answers;
      var store := repo.store;
      var entered := store.Begin();
      for i := 0 to |names|
        invariant store.Valid() && store.active && store.live == old(store.live)
        invariant |store.queue| == i && forall k | 0 <= k < i :: store.queue[k] == GetHandle(names[k])
      {
        var r := store.Read(GetHandle(names[i]));
      }
      ghost var asks := store.queue;
      ReadsAnswer(store.live, asks);
      var replies := store.Flush();
      hs := [];
      for i := 0 to |names|
        invariant hs == StoredHandles(store.live, names[..i])
        invariant store.live == old(store.live)
      {
        assert names[..i + 1][..i] == names[..i];
        assert replies[i] == Answer(store.live, GetHandle(names[i]));
        if replies[i].h.Some? { hs := hs + [replies[i].h.value]; }
      }
      assert names[..|names|] == names;
    }

    method BurnAll(hs: seq<Handle>)
      requires Idle()
      modifies repo.store
      ensures Idle() && repo.store.live == RemoveHandles(repo.lib, Open(old(repo.store.live)), hs).db
    {
      hide Effects, HandleTables.RemoveHandle;
      var store := repo.store;
      IdleIsSettled(store.live);
      var entered := store.Begin();
      for i := 0 to |hs|
        invariant store.Valid() && store.active && store.live == old(store.live)
        invariant store.AsBatch() == RemoveHandles(repo.lib, Open(old(store.live)), hs[..i])
      {
        assert hs[..i + 1][..i] == hs[..i];
        repo.RemoveHandle(hs[i]);
      }
      assert hs[..|hs|] == hs;
      var replies := store.Flush();
    }

    method AddMintMembers(n: string, ms: set<MintData>, ghost done: MintMap, ghost db: Db)
      requires repo.store.Valid() && repo.store.active && repo.store.Settled() == AddMint(db, done)
      requires MintsOf(done, n) == {}
      modifies repo.store`live, repo.store`queue
      ensures repo.store.Valid() && repo.store.live == old(repo.store.live)
      ensures repo.store.Settled() == AddMint(db, done[n := ms])
    {
      hide Effects, Effect, AddMint, Canon, MintsOf;
      var store := repo.store;
      var left, taken := ms, {};
      NoneYet(db, done, n);
      while left != {}
        invariant taken + left == ms && store.Settled() == AddMint(db, done[n := taken])
        invariant store.Valid() && store.active && store.live == old(store.live)
        decreases |left|
      {
        var d :| d in left;
        store.Write(AddMintMember(n, Canon(d)));
        OneMoreMember(db, done, n, taken, d);
        left, taken := left - {d}, taken + {d};
      }
    }

    /** The block's minting data, one member per datum. */
    method AddMintData(m: MintMap)
      requires Idle()
      modifies repo.store
      ensures Idle() && repo.store.live == AddMint(old(repo.store.live), m)
    {
      hide Effects, Effect, AddMint;
      var store := repo.store;
      ghost var db := store.live;
      NoMints(db);
      IdleIsSettled(db);
      var entered := store.Begin();
      var left := m.Keys;
      ghost var done: MintMap := map[];
      while left != {}
        invariant left <= m.Keys && done.Keys <= m.Keys - left
        invariant forall n <- m.Keys - left :: MintsOf(done, n) == m[n]
        invariant store.Valid() && store.active && store.live == db && store.Settled() == AddMint(db, done)
        decreases |left|
      {
        var n :| n in left;
        AddMintMembers(n, m[n], done, db);
        done := done[n := m[n]];
        left := left - {n};
      }
      SameMintsAdded(db, done, m);
      var replies := store.Flush();
    }

    method RemoveUTxOs(ids: seq<OutRef>)
      requires Idle()
      modifies repo.store
      ensures Idle()
      ensures var gone := IdSet(ids);
              repo.store.live == old(repo.store.live).(utxos := old(repo.store.live).utxos - gone,
                                                       utxoSlot := old(repo.store.live).utxoSlot - gone)
    {
      hide Effects;
      var store := repo.store;
      ghost var db := store.live;
      IdleIsSettled(db);
      var entered := store.Begin();
      for i := 0 to |ids|
        invariant store.Valid() && store.active && store.live == db
        invariant var gone := IdSet(ids[..i]);
                  store.Settled() == db.(utxos := db.utxos - gone, utxoSlot := db.utxoSlot - gone)
      {
        ghost var gone := IdSet(ids[..i]);
        assert IdSet(ids[..i + 1]) == gone + {ids[i]};
        assert db.utxos - (gone + {ids[i]}) == db.utxos - gone - {ids[i]};
        assert db.utxoSlot - (gone + {ids[i]}) == db.utxoSlot - gone - {ids[i]};
        store.Write(ZRemUtxo(ids[i]));
        store.Write(DelUtxo(ids[i]));
      }
      assert ids[..|ids|] == ids;
      var replies := store.Flush();
    }

    /** The minting data of an output's names, read in one pipeline. */
    method ReadMints(assets: seq<Asset>) returns (m: MintMap)
      requires Idle()
      modifies repo.store
      ensures Idle() && repo.store.live == old(repo.store.live) && m == StoredMints(repo.store.live, assets)
    {
      hide Effects, Answers;
      var store := repo.store;
      var entered := store.Begin();
      for i := 0 to |assets|
        invariant store.Valid() && store.active && store.live == old(store.live)
        invariant |store.queue| == i && forall k | 0 <= k < i :: store.queue[k] == GetMints(assets[k].name)
      {
        var r := store.Read(GetMints(assets[i].name));
      }
      ReadsAnswer(store.live, store.queue);
      var replies := store.Flush();
      m := map[];
      for i := 0 to |assets|
        invariant m == StoredMints(store.live, assets[..i])
        invariant Idle() && store.live == old(store.live)
      {
        assert replies[i] == Answer(store.live, GetMints(assets[i].name));
        StoredMintsGrow(store.live, assets, i);
        m := m[assets[i].name := replies[i].ms];
      }
      assert assets[..|assets|] == assets;
    }

    /** The handles and holder sets that the batch will need, read before it. */
    method ReadNamed(u: Utxo) returns (names: seq<string>, replies: seq<Reply>)
      requires Idle()
      modifies repo.store
      ensures Idle() && repo.store.live == old(repo.store.live) && Listed(names) == NamesOf(u.assets)
      ensures |replies| == 2 * |names|
      ensures forall k | 0 <= k < |names| ::
                replies[2 * k] == SetIs(Members(repo.store.live.sets, HeldBy(repo.lib.holderOf(u.address)))) &&
                replies[2 * k + 1] == HandleIs(Find(repo.store.live.handles, names[k]))
    {
      hide Effects, Answers, Members, NamesOf;
      var store := repo.store;
      var entered := store.Begin();
      names := [];
      NothingListed();
      for i := 0 to |u.assets|
        invariant store.Valid() && store.active && store.live == old(store.live)
        invariant Listed(names) == NamesOf(u.assets[..i]) && |store.queue| == 2 * |names|
        invariant forall c <- store.queue :: IsRead(c)
        invariant forall k | 0 <= k < |names| ::
                    store.queue[2 * k] == GetSet(HeldBy(repo.lib.holderOf(u.address)))
                        && store.queue[2 * k + 1] == GetHandle(names[k])
      {
        ListedGrow(names, u.assets, i);
        if u.assets[i] != NAMELESS {
          var r := store.Read(GetSet(HeldBy(repo.lib.holderOf(u.address))));
          r := store.Read(GetHandle(u.assets[i].name));
          names := names + [u.assets[i].name];
        }
      }
      assert u.assets[..|u.assets|] == u.assets;
      ghost var cs := store.queue;
      ReadsAnswer(store.live, cs);
      replies := store.Flush();
      forall k | 0 <= k < |names|
        ensures replies[2 * k] == Answer(store.live, cs[2 * k])
        ensures replies[2 * k + 1] == Answer(store.live, cs[2 * k + 1])
      {
      }
    }

    method ReadHolders(others: seq<string>, known: map<string, set<string>>) returns (holders: map<string, set<string>>)
      requires Idle() && Listed(others) !! known.Keys
      modifies repo.store
      ensures Idle() && repo.store.live == old(repo.store.live)
      ensures holders == known + HolderSets(repo.store.live, Listed(others))
    {
      hide Effects, Answers, Members;
      var store := repo.store;
      holders := known;
      if others == [] { return; }
      var entered := store.Begin();
      for i := 0 to |others|
        invariant store.Valid() && store.active && store.live == old(store.live)
        invariant |store.queue| == i && forall k | 0 <= k < i :: store.queue[k] == GetSet(HeldBy(others[k]))
      {
        var r := store.Read(GetSet(HeldBy(others[i])));
      }
      ReadsAnswer(store.live, store.queue);
      var replies := store.Flush();
      for i := 0 to |others|
        invariant holders == known + HolderSets(store.live, Listed(others[..i]))
        invariant Idle() && store.live == old(store.live)
      {
        assert replies[i] == Answer(store.live, GetSet(HeldBy(others[i])));
        HolderSetsGrow(store.live, known, others, i);
        holders := holders[others[i] := replies[i].s];
      }
      assert others[..|others|] == others;
    }

    /** The caller's maps for one output. */
    method BuildIndexInfo(u: Utxo) returns (maps: CallerMaps)
      requires Idle()
      modifies repo.store
      ensures Idle() && repo.store.live == old(repo.store.live) && fresh(maps)
      ensures maps.Value() == BuildMaps(repo.lib, repo.store.live, u)
    {
      hide Members, NamesOf, BuildMaps;
      var db := repo.store.live;
      var a := repo.lib.holderOf(u.address);
      var names, replies := ReadNamed(u);
      var handles: map<string, Handle>, holders: map<string, set<string>> := map[], map[];
      for i := 0 to |names|
        invariant handles == HandlesOf(db, Listed(names[..i])) && holders == HolderSets(db, if i == 0 then {} else {a})
        invariant Idle() && repo.store.live == db
      {
        assert replies[2 * i] == SetIs(Members(db.sets, HeldBy(a)))
            && replies[2 * i + 1] == HandleIs(Find(db.handles, names[i]));
        HandlesGrow(db, names, i);
        holders := holders[a := replies[2 * i].s];
        if replies[2 * i + 1].h.Some? { handles := handles[names[i] := replies[2 * i + 1].h.value]; }
      }
      assert names[..|names|] == names;
      var others := OtherHolders(names, handles, holders);
      MapsAreBuilt(repo.lib, db, u, names, others);
      holders := ReadHolders(others, holders);
      maps := new CallerMaps(Maps(handles, holders));
    }

    /**
     One surviving output: its reads, then one batch. An exception inside drops the whole batch, so the
     store is either as the output leaves it or untouched.
     */
    method AddUTxOWithMintingData(u: Utxo, blockMints: MintMap) returns (ok: bool)
      requires Idle()
      modifies repo.store
      ensures Idle()
      ensures var r := IndexOutput(repo.lib, old(repo.store.live), u, blockMints);
              (ok <==> r.Some?) && repo.store.live == if ok then r.value else old(repo.store.live)
    {
      hide Effects, IndexAssets, BuildMaps, StoredMints;
      var store := repo.store;
      var mints := blockMints;
      if u.mint == [] { mints := ReadMints(u.assets); }
      var maps := BuildIndexInfo(u);
      IdleIsSettled(store.live);
      var entered := store.Begin();
      repo.AddUTxO(u);
      ok := repo.UpdateHandleIndexes(u, mints, maps);
      if ok {
        var replies := store.Flush();
      } else {
        store.Abandon();
      }
    }

    /** The cursor is one command, written after every table; the scanned-block entry follows it. */
    method Finish(block: Block, tip: Tip)
      requires Idle()
      modifies repo.store
      ensures Idle()
      ensures repo.store.live == old(repo.store.live).(
                cursor := Some(Cursor(block.id, block.slot, tip.hash, tip.slot)),
                scanned := if block.id == "" then old(repo.store.live).scanned
                    else old(repo.store.live).scanned[block.id := block.slot])
    {
      hide Effects;
      var store := repo.store;
      IdleIsSettled(store.live);
      store.Write(HSetCursor(Cursor(block.id, block.slot, tip.hash, tip.slot)));
      IdleIsSettled(store.live);
      if block.id != "" { store.Write(ZAddScanned(block.id, block.slot)); }
      IdleIsSettled(store.live);
    }

    /**
     The block's writes, in order. When an output raises, the store is left after some of them: the
     state that processing the block again starts from.
     */
    method ProcessScannerBlock(block: Block, rows: seq<Tx>, tip: Tip) returns (ok: bool)
      requires Idle()
      modifies repo.store
      ensures Idle()
      ensures var r := ProcessBlock(repo.lib, old(repo.store.live), block, rows, tip);
              (ok <==> r.Some?) && (ok ==> repo.store.live == r.value)
      ensures !ok ==> exists k | 0 <= k <= |Writes(block, rows, tip)| ::
                        Run(repo.lib, old(repo.store.live), Writes(block, rows, tip)[..k]) == Some(repo.store.live)
    {
      hide Effects, RemoveHandles, AddMint, IndexOutput, BuildUtxos, BlockMints, BurnNames, AllMinted, SpentAll,
        Surviving, ProcessBlock, Writes, StoredHandles;
      var store := repo.store;
      ghost var db := store.live;
      var us := BuildUTxOsFromTxs(rows);
      var minted := CollectMinted(rows);
      var names := CollectBurns(minted);
      var burned := ReadStored(names);
      BurnAll(burned);
      var ids := CollectSpent(rows);
      var mints := BuildMintData(us);
      AddMintData(mints);
      var kept := KeepSurvivors(us, IdSet(ids));
      assert store.live == AfterMints(repo.lib, db, rows);
      BlockSplits(repo.lib, db, block, rows, tip);
      for i := 0 to |kept|
        invariant Idle()
        invariant Run(repo.lib, AfterMints(repo.lib, db, rows), IndexWrites(kept[..i], mints)) == Some(store.live)
      {
        assert kept[..i + 1][..i] == kept[..i];
        ok := AddUTxOWithMintingData(kept[i], mints);
        NextWrite(repo.lib, AfterMints(repo.lib, db, rows), kept, mints, i);
        if !ok {
          MiddleStop(repo.lib, db, block, rows, tip, i);
          return;
        }
      }
      assert kept[..|kept|] == kept;
      if ids != [] { RemoveUTxOs(ids); }
      Finish(block, tip);
      ok := true;
    }
  }

  function Listed(names: seq<string>): set<string> {
    set n | n in names
  }

  lemma NothingListed()
    ensures Listed([]) == {} == NamesOf([])
  {
  }

  lemma ListedGrow(names: seq<string>, assets: seq<Asset>, i: nat)
    requires i < |assets| && Listed(names) == NamesOf(assets[..i])
    ensures NamesOf(assets[..i + 1]) ==
              if assets[i] == NAMELESS then Listed(names) else Listed(names + [assets[i].name])
  {
    assert assets[..i + 1] == assets[..i] + [assets[i]];
    NamesOfSnoc(assets[..i], assets[i]);
    assert Listed(names + [assets[i].name]) == Listed(names) + {assets[i].name};
  }

  lemma NamesOfSnoc(assets: seq<Asset>, a: Asset)
    ensures NamesOf(assets + [a]) == NamesOf(assets) + (if a == NAMELESS then {} else {a.name})
  {
    forall x | x in assets + [a] ensures x in assets || x == a {}
    forall n <- NamesOf(assets) ensures n in NamesOf(assets + [a]) {
      var x :| x in assets && x != NAMELESS && x.name == n;
      assert x in assets + [a];
    }
    if a != NAMELESS { assert a in assets + [a]; }
  }

  lemma StoredMintsGrow(db: Db, assets: seq<Asset>, i: nat)
    requires i < |assets|
    ensures StoredMints(db, assets[..i + 1]) ==
              StoredMints(db, assets[..i])[assets[i].name := MintsOf(db.mint, assets[i].name)]
  {
    assert assets[..i + 1] == assets[..i] + [assets[i]];
  }

  function HolderSets(db: Db, holders: set<string>): map<string, set<string>> {
    map a | a in holders :: Members(db.sets, HeldBy(a))
  }

  function HandlesOf(db: Db, names: set<string>): map<string, Handle> {
    map n | n in names && n in db.handles :: db.handles[n]
  }

  lemma HolderSetsGrow(db: Db, known: map<string, set<string>>, others: seq<string>, i: nat)
    requires i < |others|
    ensures known + HolderSets(db, Listed(others[..i + 1])) ==
              (known + HolderSets(db, Listed(others[..i])))[others[i] := Members(db.sets, HeldBy(others[i]))]
  {
    assert others[..i + 1] == others[..i] + [others[i]];
    assert Listed(others[..i + 1]) == Listed(others[..i]) + {others[i]};
  }

  lemma HandlesGrow(db: Db, names: seq<string>, i: nat)
    requires i < |names|
    ensures HandlesOf(db, Listed(names[..i + 1])) ==
              if names[i] in db.handles then HandlesOf(db, Listed(names[..i]))[names[i] := db.handles[names[i]]]
              else HandlesOf(db, Listed(names[..i]))
  {
    assert names[..i + 1] == names[..i] + [names[i]];
    assert Listed(names[..i + 1]) == Listed(names[..i]) + {names[i]};
  }

  /** The holders of the stored handles that are not in the map yet. */
  predicate IsOther(names: set<string>, handles: map<string, Handle>, holders: map<string, set<string>>, a: string) {
    a != "" && a !in holders && exists n <- names :: n in handles && handles[n].holder == a
  }

  method OtherHolders(names: seq<string>, handles: map<string, Handle>, holders: map<string,
                      set<string>>) returns (others: seq<string>)
    ensures forall a: string :: a in others <==> IsOther(Listed(names), handles, holders, a)
  {
    others := [];
    for i := 0 to |names|
      invariant forall a: string :: a in others <==> IsOther(Listed(names[..i]), handles, holders, a)
    {
      assert names[..i + 1] == names[..i] + [names[i]];
      assert Listed(names[..i + 1]) == Listed(names[..i]) + {names[i]};
      if names[i] in handles {
        var a := handles[names[i]].holder;
        if a != "" && a !in holders && a !in others { others := others + [a]; }
      }
    }
    assert names[..|names|] == names;
  }

  lemma MapsAreBuilt(lib: Lib, db: Db, u: Utxo, names: seq<string>, others: seq<string>)
    requires Listed(names) == NamesOf(u.assets)
    requires var a := lib.holderOf(u.address);
             forall x: string :: x in others <==>
               IsOther(Listed(names), HandlesOf(db, Listed(names)), HolderSets(db, if |names| == 0 then {} else {a}), x)
    ensures var first := HolderSets(db, if |names| == 0 then {} else {lib.holderOf(u.address)});
            Listed(others) !! first.Keys &&
            Maps(HandlesOf(db, Listed(names)), first + HolderSets(db, Listed(others))) == BuildMaps(lib, db, u)
  {
    hide Members, NamesOf;
    var a := lib.holderOf(u.address);
    var handles := HandlesOf(db, Listed(names));
    var first := HolderSets(db, if |names| == 0 then {} else {a});
    assert NamesOf(u.assets) == {} <==> |names| == 0 by { if |names| > 0 { assert names[0] in Listed(names); } }
    var built := BuildMaps(lib, db, u);
    assert handles == built.handles;
    forall x: string ensures x in (first + HolderSets(db, Listed(others))) <==> x in built.holders {
      if |names| > 0 && x != a { assert x in others <==> IsOther(Listed(names), handles, first, x); }
    }
  }

  /** One more output in the run, or the end of it. */
  lemma NextWrite(lib: Lib, db: Db, us: seq<Utxo>, mints: MintMap, i: nat)
    requires i < |us| && Run(lib, db, IndexWrites(us[..i], mints)).Some?
    ensures var d := Run(lib, db, IndexWrites(us[..i], mints)).value;
            && Run(lib, db, IndexWrites(us[..i + 1], mints)) == IndexOutput(lib, d, us[i], mints)
            && (IndexOutput(lib, d, us[i], mints).None? ==> Run(lib, db, IndexWrites(us, mints)).None?)
  {
    hide IndexOutput;
    assert us[..i + 1][..i] == us[..i];
    var ws := IndexWrites(us[..i + 1], mints);
    assert ws[..|ws| - 1] == IndexWrites(us[..i], mints);
    IndexWritesPrefix(us, mints, i + 1);
    var all := IndexWrites(us, mints);
    assert all == all[..i + 1] + all[i + 1..];
    RunConcat(lib, db, all[..i + 1], all[i + 1..]);
  }
}
