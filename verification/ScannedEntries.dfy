/**
 The cursor and the scanned-block entries over passes cut anywhere (lambdas/scanner.app.ts:1195-1202): the entry
 is the last write of a block and the cursor the one before it.
 */
module ScannedEntries {
  import opened BlockIndexer
  import opened BlockRefinement
  import opened ChainExamples
  import opened HandleTables
  import IndexAgreement
  import opened Ledger
  import OutputIndexing
  import TableInvariants
  import opened Wrappers

  // ---------- What leaves both alone ----------

  predicate SameProgress(db: Db, other: Db) {
    other.cursor == db.cursor && other.scanned == db.scanned
  }

  lemma AssetKeepsProgress(lib: Lib, b: Batch, maps: Maps, u: Utxo, asset: Asset, mints: MintMap)
    ensures var r := IndexAsset(lib, b, maps, u, asset, mints);
            r.Some? ==> SameProgress(b.db, r.value.0.db) && r.value.0.db.mint == b.db.mint
  {
    hide JoinHolder, Move, Save, FirstSlot, Updated;
    if asset != NAMELESS && asset.name in mints && mints[asset.name] != {} {
      var existing := Find(maps.handles, asset.name);
      var h := OutputIndexing.NewRecord(lib, existing, u, asset, FirstSlot(mints[asset.name]));
      OutputIndexing.PlacedFrame(lib, b, maps, existing, h.holder, asset.name);
      IndexAgreement.SavedRest(lib, OutputIndexing.Placed(lib, b, maps, existing, h.holder, asset.name).0.db, h,
                               existing);
    }
  }

  lemma {:induction false} AssetsKeepProgress(lib: Lib, b: Batch, maps: Maps, u: Utxo, assets: seq<Asset>,
        mints: MintMap)
    ensures var r := IndexAssets(lib, b, maps, u, assets, mints);
            r.Some? ==> SameProgress(b.db, r.value.0.db) && r.value.0.db.mint == b.db.mint
    decreases |assets|
  {
    hide IndexAsset;
    if assets != [] {
      var r := IndexAssets(lib, b, maps, u, assets[..|assets| - 1], mints);
      AssetsKeepProgress(lib, b, maps, u, assets[..|assets| - 1], mints);
      if r.Some? { AssetKeepsProgress(lib, r.value.0, r.value.1, u, assets[|assets| - 1], mints); }
    }
  }

  lemma {:induction false} BurnsKeepProgress(lib: Lib, b: Batch, hs: seq<Handle>)
    ensures SameProgress(b.db, RemoveHandles(lib, b, hs).db) && RemoveHandles(lib, b, hs).db.mint == b.db.mint
    decreases |hs|
  {
    hide RemoveHandle;
    if hs != [] {
      BurnsKeepProgress(lib, b, hs[..|hs| - 1]);
      TableInvariants.RemovedRest(lib, RemoveHandles(lib, b, hs[..|hs| - 1]), hs[|hs| - 1]);
    }
  }

  lemma WriteKeepsProgress(lib: Lib, db: Db, w: Write)
    ensures var r := Exec(lib, db, w);
            r.Some? ==>
              && (!w.SetCursor? && !w.Record? ==> SameProgress(db, r.value))
              && (!w.AddMints? ==> r.value.mint == db.mint)
  {
    hide RemoveHandles, IndexAssets, StoredHandles, BuildMaps;
    match w
    case Burn(names) => BurnsKeepProgress(lib, Open(db), StoredHandles(db, names));
    case IndexUtxo(u, blockMints) =>
      AssetsKeepProgress(lib, Batch(db.sets, AddUtxo(db, u), map[]), BuildMaps(lib, db, u), u, u.assets,
                         if u.mint != [] then blockMints else StoredMints(db, u.assets));
    case _ =>
  }

  lemma {:induction false} RunKeepsProgress(lib: Lib, db: Db, ws: seq<Write>)
    requires forall w <- ws :: !w.SetCursor? && !w.Record?
    ensures var r := Run(lib, db, ws); r.Some? ==> SameProgress(db, r.value)
    decreases |ws|
  {
    hide Exec;
    if ws != [] {
      var before := ws[..|ws| - 1];
      assert ws[|ws| - 1] in ws && forall w <- before :: w in ws;
      RunKeepsProgress(lib, db, before);
      if Run(lib, db, before).Some? { WriteKeepsProgress(lib, Run(lib, db, before).value, ws[|ws| - 1]); }
    }
  }

  // ---------- One pass ----------

  function CursorOf(block: Block, tip: Tip): Cursor {
    Cursor(block.id, block.slot, tip.hash, tip.slot)
  }

  lemma {:induction false} OnlyIndexWrites(us: seq<Utxo>, mints: MintMap)
    ensures forall w <- IndexWrites(us, mints) :: w.IndexUtxo?
  {
    if us != [] { OnlyIndexWrites(us[..|us| - 1], mints); }
  }

  lemma LastTwoWrites(block: Block, rows: seq<Tx>, tip: Tip)
    ensures var ws := Writes(block, rows, tip); var n := |ws|;
            && n >= 2 && ws[n - 1] == Record(block) && ws[n - 2] == SetCursor(CursorOf(block, tip))
            && forall w <- ws[..n - 2] :: !w.SetCursor? && !w.Record?
  {
    hide BuildUtxos, BlockMints, BurnNames, AllMinted, SpentAll, Surviving, IndexWrites;
    var mints := BlockMints(BuildUtxos(rows));
    var index := IndexWrites(SurvivorsOf(rows), mints);
    OnlyIndexWrites(SurvivorsOf(rows), mints);
    var ws := Writes(block, rows, tip);
    assert ws[..|ws| - 2] == [Burn(BurnNames(AllMinted(rows))), AddMints(mints)] + index + [DropUtxos(SpentAll(rows))];
  }

  /** The cursor is set by the write before the last, and the entry by the last. */
  lemma PassProgress(lib: Lib, db: Db, block: Block, rows: seq<Tx>, tip: Tip, k: nat)
    requires k <= |Writes(block, rows, tip)|
    ensures var n := |Writes(block, rows, tip)|; var r := Run(lib, db, Writes(block, rows, tip)[..k]);
            r.Some? ==>
              && r.value.cursor == (if k + 1 >= n then Some(CursorOf(block, tip)) else db.cursor)
              && r.value.scanned == if k == n && block.id != "" then db.scanned[block.id := block.slot] else db.scanned
  {
    hide Writes;
    LastTwoWrites(block, rows, tip);
    var ws := Writes(block, rows, tip);
    CutRun(lib, db, ws, k);
  }

  lemma CutRun(lib: Lib, db: Db, ws: seq<Write>, k: nat)
    requires 2 <= |ws| && k <= |ws| && ws[|ws| - 1].Record? && ws[|ws| - 2].SetCursor?
    requires forall w <- ws[..|ws| - 2] :: !w.SetCursor? && !w.Record?
    ensures var n, r, block := |ws|, Run(lib, db, ws[..k]), ws[|ws| - 1].block;
            r.Some? ==>
              && r.value.cursor == (if k + 1 >= n then Some(ws[n - 2].cursor) else db.cursor)
              && r.value.scanned == if k == n && block.id != "" then db.scanned[block.id := block.slot] else db.scanned
  {
    hide Exec, Run;
    var n := |ws|;
    if k + 2 <= n {
      assert forall w <- ws[..k] :: w in ws[..n - 2];
      RunKeepsProgress(lib, db, ws[..k]);
    } else {
      RunKeepsProgress(lib, db, ws[..n - 2]);
      OneMoreWrite(lib, db, ws, n - 1);
      OneMoreWrite(lib, db, ws, n);
      var d := Run(lib, db, ws[..n - 2]);
      if d.Some? { LastExecs(lib, d.value, ws[n - 2], ws[n - 1]); }
    }
  }

  lemma OneMoreWrite(lib: Lib, db: Db, ws: seq<Write>, k: nat)
    requires 0 < k <= |ws|
    ensures Run(lib, db, ws[..k]) ==
              match Run(lib, db, ws[..k - 1]) case None => None case Some(d) => Exec(lib, d, ws[k - 1])
  {
    hide Exec;
    assert ws[..k][..k - 1] == ws[..k - 1];
  }

  lemma LastExecs(lib: Lib, d: Db, a: Write, b: Write)
    requires a.SetCursor? && b.Record?
    ensures var e := d.(cursor := Some(a.cursor));
            && Exec(lib, d, a) == Some(e)
            && Exec(lib, e, b)
                 == Some(if b.block.id == "" then e else e.(scanned := e.scanned[b.block.id := b.block.slot]))
  {
  }

  /** Any part of a pass that goes through goes through. */
  lemma {:induction false} PartRuns(lib: Lib, db: Db, ws: seq<Write>, k: nat)
    requires Run(lib, db, ws).Some? && k <= |ws|
    ensures Run(lib, db, ws[..k]).Some?
    decreases |ws|
  {
    hide Exec;
    if k < |ws| {
      PartRuns(lib, db, ws[..|ws| - 1], k);
      assert ws[..|ws| - 1][..k] == ws[..k];
    } else {
      assert ws[..k] == ws;
    }
  }

  /**
   A pass over a new block, stopped after any of its writes: the cursor says processed and the entry is
   missing exactly when it stopped between the last two, and then nothing else is missing.
   */
  lemma EntryIsMissing(lib: Lib, db: Db, block: Block, rows: seq<Tx>, tip: Tip, k: nat)
    requires ProcessBlock(lib, db, block, rows, tip).Some? && k <= |Writes(block, rows, tip)|
    requires block.id != "" && block.id !in db.scanned && db.cursor != Some(CursorOf(block, tip))
    ensures var n := |Writes(block, rows, tip)|; var r := Run(lib, db, Writes(block, rows, tip)[..k]);
            && r.Some?
            && (r.value.cursor == Some(CursorOf(block, tip)) <==> k + 1 >= n)
            && (block.id in r.value.scanned <==> k == n)
            && (k + 1 == n ==>
                  ProcessBlock(lib, db, block, rows, tip).value ==
                      r.value.(scanned := r.value.scanned[block.id := block.slot]))
  {
    hide Writes, Exec;
    var ws := Writes(block, rows, tip);
    PartRuns(lib, db, ws, k);
    PassProgress(lib, db, block, rows, tip, k);
    LastTwoWrites(block, rows, tip);
    assert ws[..|ws|] == ws;
    LastWrite(lib, Run(lib, db, ws[..|ws| - 1]), block);
  }

  lemma LastWrite(lib: Lib, r: Option<Db>, block: Block)
    ensures r.Some? && block.id != "" ==>
              Exec(lib, r.value, Record(block)) == Some(r.value.(scanned := r.value.scanned[block.id := block.slot]))
  {
  }

  // ---------- Any passes ----------

  /** A pass over a block, stopped after so many of its writes. */
  datatype Pass = Pass(block: Block, rows: seq<Tx>, tip: Tip, stop: nat)

  function PassWrites(p: Pass): seq<Write> {
    var ws := Writes(p.block, p.rows, p.tip);
    if p.stop <= |ws| then ws[..p.stop] else ws
  }

  /** The state after a history of passes; a pass that raises is one that stopped before the write that raised. */
  function Passes(lib: Lib, db: Db, ps: seq<Pass>): Option<Db> {
    if ps == [] then Some(db)
    else
      match Passes(lib, db, ps[..|ps| - 1])
      case None => None
      case Some(d) => Run(lib, d, PassWrites(ps[|ps| - 1]))
  }

  predicate Finishes(p: Pass) {
    p.stop >= |Writes(p.block, p.rows, p.tip)|
  }

  /** The cursor that the last pass to get so far has left. */
  function LastCursor(was: Option<Cursor>, ps: seq<Pass>): Option<Cursor> {
    if ps == [] then was
    else
      var p := ps[|ps| - 1];
      if p.stop + 1 >= |Writes(p.block, p.rows, p.tip)| then Some(CursorOf(p.block, p.tip))
      else LastCursor(was, ps[..|ps| - 1])
  }

  /** Over any history a block has an entry exactly when some pass over it ran to its end, or it had one before. */
  lemma {:induction false} EntriesOfHistory(lib: Lib, db: Db, ps: seq<Pass>, id: string)
    requires id != ""
    ensures var r := Passes(lib, db, ps);
            r.Some? ==>
              && (id in r.value.scanned <==> id in db.scanned || exists p <- ps :: p.block.id == id && Finishes(p))
              && r.value.cursor == LastCursor(db.cursor, ps)
    decreases |ps|
  {
    hide Writes, Run;
    if ps != [] {
      var before, p := ps[..|ps| - 1], ps[|ps| - 1];
      assert ps == before + [p];
      EntriesOfHistory(lib, db, before, id);
      var d := Passes(lib, db, before);
      if d.Some? {
        var ws := Writes(p.block, p.rows, p.tip);
        assert ws[..|ws|] == ws;
        PassProgress(lib, d.value, p.block, p.rows, p.tip, if p.stop <= |ws| then p.stop else |ws|);
      }
    }
  }

  /** Whatever blocks are processed next, and however often they are cut short, none of them supplies the entry. */
  lemma NothingSuppliesTheEntry(lib: Lib, db: Db, block: Block, rows: seq<Tx>, tip: Tip, later: seq<Pass>)
    requires ProcessBlock(lib, db, block, rows, tip).Some? && block.id != "" && block.id !in db.scanned
    requires forall p <- later :: p.block.id != block.id
    ensures var stopped := Run(lib, db, Writes(block, rows, tip)[..|Writes(block, rows, tip)| - 1]);
            && stopped.Some? && stopped.value.cursor == Some(CursorOf(block, tip))
            && var r := Passes(lib, stopped.value, later); r.Some? ==> block.id !in r.value.scanned
  {
    hide Writes, Exec, Passes, Run;
    var ws := Writes(block, rows, tip);
    LastTwoWrites(block, rows, tip);
    PartRuns(lib, db, ws, |ws| - 1);
    PassProgress(lib, db, block, rows, tip, |ws| - 1);
    EntriesOfHistory(lib, Run(lib, db, ws[..|ws| - 1]).value, later, block.id);
  }

  // ---------- A concrete block ----------

  /** The first block of the example chain, stopped before its last write: processed, without an entry. */
  lemma ExampleWithoutEntry(lib: Lib)
    ensures |Writes(BLOCKS[0].block, BLOCKS[0].rows, TIP)| > 0
    ensures var ws := Writes(BLOCKS[0].block, BLOCKS[0].rows, TIP); var r := Run(lib, EMPTY, ws[..|ws| - 1]);
            && r.Some? && r.value.cursor == Some(Cursor("b0", 1, "tip", 9)) && "b0" !in r.value.scanned
            && ProcessChain(lib, BLOCKS[..1]) == Some(r.value.(scanned := map["b0" := 1]))
  {
    hide Writes, Exec, Run, BlockIndexer.ProcessBlock;
    IndexerStops(lib);
    var c := BLOCKS[0];
    assert BLOCKS[..1] == [c] && [c][..0] == [];
    assert ProcessChain(lib, [c]) == BlockIndexer.ProcessBlock(lib, EMPTY, c.block, c.rows, c.tip);
    var ws := Writes(c.block, c.rows, c.tip);
    LastTwoWrites(c.block, c.rows, c.tip);
    EntryIsMissing(lib, EMPTY, c.block, c.rows, c.tip, |ws| - 1);
    PassProgress(lib, EMPTY, c.block, c.rows, c.tip, |ws| - 1);
    assert map[][c.block.id := c.block.slot] == map["b0" := 1];
  }
}
