/**
 Any history of passes along a chain, each over the block after the cursor, fetched anew and cut anywhere:
 whenever the cursor has moved, the tables are the ledger's.
 */
module CutChains {
  import opened BlockFacts
  import opened BlockIndexer
  import opened BlockRefinement
  import opened BlockReplay
  import opened HandleTables
  import opened Ledger
  import opened ScannedEntries
  import opened TableInvariants

  /** The pass got as far as setting the cursor. */
  predicate Advances(p: Pass) {
    p.stop + 1 >= |Writes(p.block, p.rows, p.tip)|
  }

  function Advanced(ps: seq<Pass>): nat {
    if ps == [] then 0 else Advanced(ps[..|ps| - 1]) + if Advances(ps[|ps| - 1]) then 1 else 0
  }

  /** How many blocks some pass was over. */
  function Reached(ps: seq<Pass>): nat {
    if ps == [] then 0 else Advanced(ps[..|ps| - 1]) + 1
  }

  /** Each pass is over the block after the cursor, listed in whatever way. */
  ghost predicate Along(chain: seq<Link>, ps: seq<Pass>) {
    ps == [] ||
    (var before, p := ps[..|ps| - 1], ps[|ps| - 1];
     && Along(chain, before) && Advanced(before) < |chain|
     && p.block == chain[Advanced(before)].block && TxSet(p.rows) == TxSet(chain[Advanced(before)].txs))
  }

  // ---------- A mixed block is never finished ----------

  lemma {:induction false} AssetsRaise(lib: Lib, b: Batch, maps: Maps, u: Utxo, assets: seq<Asset>, mints: MintMap,
                                      a: Asset)
    requires a in assets && a != NAMELESS && MintsOf(mints, a.name) == {}
    ensures IndexAssets(lib, b, maps, u, assets, mints).None?
    decreases |assets|
  {
    hide JoinHolder, Move, Save, FirstSlot, Updated;
    assert assets == assets[..|assets| - 1] + [assets[|assets| - 1]];
    if a != assets[|assets| - 1] { AssetsRaise(lib, b, maps, u, assets[..|assets| - 1], mints, a); }
  }

  lemma OutputRaises(lib: Lib, d: Db, u: Utxo, blockMints: MintMap, n: string)
    requires u.mint != [] && Holds(u, n) && MintsOf(blockMints, n) == {}
    ensures IndexOutput(lib, d, u, blockMints).None?
  {
    hide IndexAssets;
    var a :| a in u.assets && Names(a, n);
    AssetsRaise(lib, Batch(d.sets, AddUtxo(d, u), map[]), BuildMaps(lib, d, u), u, u.assets, blockMints, a);
  }

  lemma {:induction false} OutputsRaise(lib: Lib, d: Db, us: seq<Utxo>, blockMints: MintMap, u: Utxo, n: string)
    requires u in us && u.mint != [] && Holds(u, n) && MintsOf(blockMints, n) == {}
    ensures Run(lib, d, IndexWrites(us, blockMints)).None?
    decreases |us|
  {
    hide IndexOutput, Holds;
    var before, last := us[..|us| - 1], us[|us| - 1];
    assert us == before + [last];
    var ws := IndexWrites(us, blockMints);
    assert ws[..|ws| - 1] == IndexWrites(before, blockMints) && ws[|ws| - 1] == IndexUtxo(last, blockMints);
    if u == last {
      if Run(lib, d, IndexWrites(before, blockMints)).Some? {
        OutputRaises(lib, Run(lib, d, IndexWrites(before, blockMints)).value, u, blockMints, n);
      }
    } else {
      OutputsRaise(lib, d, before, blockMints, u, n);
    }
  }

  /** From any tables at all, a pass over a mixed block raises before it gets to the cursor. */
  lemma MixedRaises(lib: Lib, d: Db, l: Ledger, txs: seq<Tx>, rows: seq<Tx>, block: Block, tip: Tip, k: nat)
    requires BlockOf(l, txs, rows, block.slot) && Mixes(l, txs)
    requires k <= |Writes(block, rows, tip)| <= k + 1
    ensures Run(lib, d, Writes(block, rows, tip)[..k]).None?
  {
    hide BuildUtxos, BlockMints, SurvivorsOf, IndexWrites, AfterMints, Run, Writes, BlockOf, Mixes, MintsAny, Holds;
    var us, bm := SurvivorsOf(rows), BlockMints(BuildUtxos(rows));
    CountWrites(block, rows, tip);
    MiddleStop(lib, d, block, rows, tip, |us|);
    assert us[..|us|] == us;
    var u, n := MixedSurvives(l, txs, rows, block.slot);
    MintedNames(l, txs, rows, block.slot, n);
    OutputsRaise(lib, AfterMints(lib, d, rows), us, bm, u, n);
    var ws := Writes(block, rows, tip);
    assert ws[..k][..|us| + 2] == ws[..|us| + 2];
    if Run(lib, d, ws[..k]).Some? { PartRuns(lib, d, ws[..k], |us| + 2); }
  }

  // ---------- Between two blocks ----------

  /** Following depends on these tables only. */
  lemma FollowsToo(lib: Lib, a: Db, b: Db, l: Ledger, slot: nat)
    requires Follows(lib, a, l, slot) && TablesOk(lib, b, slot)
    requires b.handles == a.handles && b.mint == a.mint && b.utxos == a.utxos && b.utxoSlot == a.utxoSlot
    ensures Follows(lib, b, l, slot)
  {
    hide TablesOk, HandlesFollow, KeyedTable, SlotsOf;
  }

  /** Once the cursor is set, the tables are those of the ledger after the block. */
  lemma FinishedFollows(lib: Lib, was: Db, l: Ledger, c: Link, listed: seq<Tx>, slot: nat, tip: Tip, d: Db)
    requires Follows(lib, was, l, slot) && BlockOf(l, c.txs, listed, c.block.slot) && slot <= c.block.slot
    requires !Mixes(l, c.txs)
    requires Done(lib, was, listed, d) && TablesOk(lib, d, c.block.slot)
    ensures Follows(lib, d, ApplyAll(l, c.txs), c.block.slot)
  {
    hide TablesOk, Follows, BlockOf, Mixes, Writes, Run, SurvivorsOf, Goal, AfterMints, SpentAll, PutAll, SlotsOf,
      Partial, ApplyAll;
    var ws := Writes(c.block, listed, tip);
    CountWrites(c.block, listed, tip);
    assert ws[..|ws|] == ws;
    StartIsPartial(lib, was, l, c.txs, listed, slot, c.block.slot);
    PassKeepsPartial(lib, was, l, c.txs, listed, slot, c.block, tip, was, |ws|);
    BlockFollows(lib, was, l, c.txs, listed, slot, c.block, tip);
    FollowsToo(lib, Run(lib, was, ws).value, d, ApplyAll(l, c.txs), c.block.slot);
  }

  /**
   Where a history stands: at tables that follow the ledger, or in the middle of the next block, or, if that
   block is mixed, before it for good.
   */
  ghost predicate Stands(lib: Lib, chain: seq<Link>, n: nat, d: Db)
    requires n <= |chain|
  {
    var l, slot := LedgerAfter(chain[..n]), LastSlot(chain[..n]);
    || Follows(lib, d, l, slot)
    || (n < |chain| && Mixes(l, chain[n].txs))
    || (n < |chain| && exists was: Db ::
          Follows(lib, was, l, slot) && Partial(lib, was, chain[n].txs, chain[n].rows, chain[n].block.slot, d))
  }

  lemma {:induction false} BlockAt(chain: seq<Link>, n: nat)
    requires ValidChain(chain) && n < |chain|
    ensures var l, c := LedgerAfter(chain[..n]), chain[n];
            && BlockOf(l, c.txs, c.rows, c.block.slot) && LastSlot(chain[..n]) <= c.block.slot
            && LedgerAfter(chain[..n + 1]) == ApplyAll(l, c.txs) && LastSlot(chain[..n + 1]) == c.block.slot
            && (NeverMixes(chain[..n + 1]) <==> NeverMixes(chain[..n]) && !Mixes(l, c.txs))
    decreases |chain|
  {
    hide BlockOf, Mixes, ApplyAll;
    assert chain[..n + 1][..n] == chain[..n];
    if n + 1 == |chain| {
      assert chain[..n + 1] == chain;
    } else {
      var before := chain[..|chain| - 1];
      BlockAt(before, n);
      assert before[..n] == chain[..n] && before[..n + 1] == chain[..n + 1];
    }
  }

  /** One more pass, over a block that is not mixed. */
  lemma PassStands(lib: Lib, chain: seq<Link>, n: nat, d: Db, p: Pass)
    requires ValidChain(chain) && n < |chain| && Stands(lib, chain, n, d)
    requires p.block == chain[n].block && TxSet(p.rows) == TxSet(chain[n].txs)
    requires !Mixes(LedgerAfter(chain[..n]), chain[n].txs)
    ensures var r := Run(lib, d, PassWrites(p));
            && r.Some? && (!Advances(p) ==> Stands(lib, chain, n, r.value))
            && (Advances(p) ==> Follows(lib, r.value, LedgerAfter(chain[..n + 1]), LastSlot(chain[..n + 1])))
  {
    hide TablesOk, Follows, Mixes, Writes, Run, Goal, AfterMints, Partial, ApplyAll, LedgerAfter, LastSlot, TxSet, Done,
      ValidAll, Sound;
    BlockAt(chain, n);
    var l, slot, c := LedgerAfter(chain[..n]), LastSlot(chain[..n]), chain[n];
    var was := d;
    if Follows(lib, d, l, slot) {
      StartIsPartial(lib, d, l, c.txs, c.rows, slot, c.block.slot);
    } else {
      was :| Follows(lib, was, l, slot) && Partial(lib, was, c.txs, c.rows, c.block.slot, d);
    }
    var ws := Writes(p.block, p.rows, p.tip);
    var k := if p.stop <= |ws| then p.stop else |ws|;
    assert ws[..|ws|] == ws;
    CountWrites(p.block, p.rows, p.tip);
    OnePass(lib, was, l, c.txs, c.rows, p.rows, slot, c.block, p.tip, d, k);
    if Advances(p) {
      PartialTables(lib, was, c.txs, c.rows, c.block.slot, Run(lib, d, ws[..k]).value);
      FinishedFollows(lib, was, l, c, p.rows, slot, p.tip, Run(lib, d, ws[..k]).value);
    }
  }

  /** A pass over a mixed block does not get to the cursor. */
  lemma MixedStops(lib: Lib, chain: seq<Link>, n: nat, d: Db, p: Pass)
    requires ValidChain(chain) && n < |chain| && Advances(p)
    requires p.block == chain[n].block && TxSet(p.rows) == TxSet(chain[n].txs)
    requires Mixes(LedgerAfter(chain[..n]), chain[n].txs)
    ensures Run(lib, d, PassWrites(p)).None?
  {
    hide Mixes, Writes, Run, LedgerAfter, TxSet, ValidAll, Sound;
    BlockAt(chain, n);
    var ws := Writes(p.block, p.rows, p.tip);
    var k := if p.stop <= |ws| then p.stop else |ws|;
    assert ws[..|ws|] == ws;
    MixedRaises(lib, d, LedgerAfter(chain[..n]), chain[n].txs, p.rows, p.block, p.tip, k);
  }

  /**
   Over any history of passes along a valid chain: it goes through if no block that it has reached mixes; if it
   goes through, no block that it has finished mixes; and whenever the last pass has moved the cursor, the
   tables are those of the ledger after exactly the blocks that the cursor has passed.
   */
  lemma {:induction false} HistoryFollows(lib: Lib, chain: seq<Link>, ps: seq<Pass>)
    requires ValidChain(chain) && Along(chain, ps)
    ensures Advanced(ps) <= Reached(ps) <= |chain|
    ensures var n := Advanced(ps); var r := Passes(lib, EMPTY, ps);
            && (NeverMixes(chain[..Reached(ps)]) ==> r.Some?)
            && (r.Some? ==> NeverMixes(chain[..n]) && Stands(lib, chain, n, r.value))
            && (r.Some? && (ps == [] || Advances(ps[|ps| - 1])) ==>
                Follows(lib, r.value, LedgerAfter(chain[..n]), LastSlot(chain[..n])))
    decreases |ps|
  {
    hide Follows, Mixes, Writes, Run, LedgerAfter, LastSlot, TxSet, Advances, PassWrites, Stands, ValidChain;
    if ps == [] {
      NothingPassed(lib, chain);
    } else {
      var before, p := ps[..|ps| - 1], ps[|ps| - 1];
      var n := Advanced(before);
      HistoryFollows(lib, chain, before);
      BlockAt(chain, n);
      if NeverMixes(chain[..n + 1]) { FewerMix(chain, Reached(before), n + 1); }
      var d := Passes(lib, EMPTY, before);
      if d.Some? { NextPass(lib, chain, n, d.value, p); }
    }
  }

  lemma NextPass(lib: Lib, chain: seq<Link>, n: nat, d: Db, p: Pass)
    requires ValidChain(chain) && n < |chain| && Stands(lib, chain, n, d)
    requires p.block == chain[n].block && TxSet(p.rows) == TxSet(chain[n].txs)
    ensures var r := Run(lib, d, PassWrites(p)); var m := if Advances(p) then n + 1 else n;
            && (!Mixes(LedgerAfter(chain[..n]), chain[n].txs) ==> r.Some?)
            && (r.Some? && Advances(p) ==> !Mixes(LedgerAfter(chain[..n]), chain[n].txs))
            && (r.Some? ==> Stands(lib, chain, m, r.value))
            && (r.Some? && Advances(p) ==> Follows(lib, r.value, LedgerAfter(chain[..m]), LastSlot(chain[..m])))
  {
    hide Follows, Mixes, Writes, Run, LedgerAfter, LastSlot, TxSet, Advances, PassWrites, Partial, ValidChain;
    if Mixes(LedgerAfter(chain[..n]), chain[n].txs) {
      if Advances(p) { MixedStops(lib, chain, n, d, p); }
    } else {
      PassStands(lib, chain, n, d, p);
    }
  }

  lemma NothingPassed(lib: Lib, chain: seq<Link>)
    ensures NeverMixes(chain[..0]) && Stands(lib, chain, 0, EMPTY)
    ensures Follows(lib, EMPTY, LedgerAfter(chain[..0]), LastSlot(chain[..0]))
  {
    hide Follows;
    EmptyFollows(lib);
  }

  lemma {:induction false} FewerMix(chain: seq<Link>, few: nat, many: nat)
    requires few <= many <= |chain| && NeverMixes(chain[..many])
    ensures NeverMixes(chain[..few])
    decreases many
  {
    hide Mixes, LedgerAfter;
    if few < many {
      assert chain[..many][..many - 1] == chain[..many - 1];
      FewerMix(chain, few, many - 1);
    }
  }
}
