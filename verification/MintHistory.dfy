/**
 The minting data: over any history of passes MINT holds one datum for every transaction that minted the
 name, with its slot, its hash and its metadata with sorted keys, and nothing else.
 */
module MintHistory {
  import opened BlockFacts
  import opened BlockIndexer
  import opened BlockRefinement
  import CanonicalJson
  import opened CutChains
  import opened HandleTables
  import opened Ledger
  import opened ScannedEntries

  /** Some output of the transaction holds a token of that name which the transaction does not burn but names. */
  ghost predicate MintsInto(t: Tx, n: string) {
    exists o <- t.outputs, a <- o.assets, m <- t.minted ::
      a == m.asset && m.quantity >= 0 && a != NAMELESS && a.name == n
  }

  function DatumOf(t: Tx): MintData {
    MintData(t.slot, CanonicalJson.SortKeys(t.metadata), t.id)
  }

  ghost predicate DatumIn(rows: seq<Tx>, n: string, d: MintData) {
    exists t <- rows :: MintsInto(t, n) && d == DatumOf(t)
  }

  // ---------- One block ----------

  lemma MintOfOutput(t: Tx, i: nat, n: string)
    requires i < |t.outputs| && n in NamesOf(OutputAt(t, i).mint)
    ensures MintsInto(t, n) && OutputAt(t, i).assets != []
  {
    var a :| a in OutputAt(t, i).mint && a != NAMELESS && a.name == n;
    WithinIs(t.outputs[i].assets, MintedAssets(t.minted), a);
    MintedAssetsAre(t.minted, a);
    assert t.outputs[i] in t.outputs;
  }

  lemma OutputOfMint(t: Tx, n: string) returns (i: nat)
    requires MintsInto(t, n)
    ensures i < |t.outputs| && n in NamesOf(OutputAt(t, i).mint)
  {
    var o, a, m :| o in t.outputs && a in o.assets && m in t.minted && a == m.asset && m.quantity >= 0
                   && a != NAMELESS && a.name == n;
    i :| i < |t.outputs| && t.outputs[i] == o;
    WithinIs(t.outputs[i].assets, MintedAssets(t.minted), a);
    MintedAssetsAre(t.minted, a);
  }

  lemma BlockData(rows: seq<Tx>, n: string, d: MintData)
    ensures d in Canons(MintsOf(BlockMints(BuildUtxos(rows)), n)) <==> DatumIn(rows, n, d)
  {
    hide BuildUtxos, BlockMints, MintsOf, NamesOf, MintsInto;
    var us := BuildUtxos(rows);
    BuildUtxosHave(rows);
    BlockMintsAre(us, n);
    if d in Canons(MintsOf(BlockMints(us), n)) {
      var m :| m in MintsOf(BlockMints(us), n) && Canon(m) == d;
      var u :| u in us && n in NamesOf(u.mint) && m == MintData(u.slot, u.metadata, u.id.tx);
      var t, i :| t in rows && 0 <= i < |t.outputs| && u == OutputAt(t, i) && u.assets != [];
      MintOfOutput(t, i, n);
      assert d == DatumOf(t);
    }
    if DatumIn(rows, n, d) {
      var t :| t in rows && MintsInto(t, n) && d == DatumOf(t);
      var i := OutputOfMint(t, n);
      MintOfOutput(t, i, n);
      var u := OutputAt(t, i);
      assert Makes(rows, u);
      assert Canon(MintData(u.slot, u.metadata, u.id.tx)) == d;
    }
  }

  // ---------- Any passes ----------

  /** The first writes of a pass are the burns and the minting data. */
  lemma MintWrites(block: Block, rows: seq<Tx>, tip: Tip)
    ensures var ws := Writes(block, rows, tip);
            && |ws| > 2 && ws[1] == AddMints(BlockMints(BuildUtxos(rows)))
            && forall i | 0 <= i < |ws| && i != 1 :: !ws[i].AddMints?
  {
    hide BuildUtxos, BlockMints, BurnNames, AllMinted, SpentAll, Surviving, IndexWrites;
    var mints := BlockMints(BuildUtxos(rows));
    var index := IndexWrites(SurvivorsOf(rows), mints);
    OnlyIndexWrites(SurvivorsOf(rows), mints);
    var ws := Writes(block, rows, tip);
    forall i | 0 <= i < |ws| && i != 1 ensures !ws[i].AddMints? {
      if 2 <= i < |index| + 2 { assert ws[i] == index[i - 2] && index[i - 2] in index; }
    }
  }

  lemma {:induction false} MintsOfPass(lib: Lib, db: Db, block: Block, rows: seq<Tx>, tip: Tip, k: nat, n: string)
    requires k <= |Writes(block, rows, tip)|
    ensures var r := Run(lib, db, Writes(block, rows, tip)[..k]);
            r.Some? ==>
              MintsOf(r.value.mint, n) == MintsOf(db.mint, n) +
                                          if k < 2 then {} else Canons(MintsOf(BlockMints(BuildUtxos(rows)), n))
    decreases k
  {
    hide Writes, Exec, MintsOf, Canons, BlockMints, BuildUtxos;
    var ws := Writes(block, rows, tip);
    if k > 0 {
      MintsOfPass(lib, db, block, rows, tip, k - 1, n);
      OneMoreWrite(lib, db, ws, k);
      MintWrites(block, rows, tip);
      var d := Run(lib, db, ws[..k - 1]);
      if d.Some? {
        WriteKeepsProgress(lib, d.value, ws[k - 1]);
        if k == 2 { MintsWritten(lib, d.value, BlockMints(BuildUtxos(rows)), n); }
      }
    }
  }

  lemma MintsWritten(lib: Lib, db: Db, mints: MintMap, n: string)
    ensures Exec(lib, db, AddMints(mints)).Some?
    ensures MintsOf(Exec(lib, db, AddMints(mints)).value.mint, n) == MintsOf(db.mint, n) + Canons(MintsOf(mints, n))
  {
    hide Canons;
    MintsAdded(db, mints, n);
  }

  /** What the passes that got past their second write have added. */
  ghost predicate AddedBy(ps: seq<Pass>, n: string, d: MintData) {
    exists p <- ps :: p.stop >= 2 && DatumIn(p.rows, n, d)
  }

  lemma {:induction false} MintsOfHistory(lib: Lib, db: Db, ps: seq<Pass>, n: string, d: MintData)
    ensures var r := Passes(lib, db, ps);
            r.Some? ==> (d in MintsOf(r.value.mint, n) <==> d in MintsOf(db.mint, n) || AddedBy(ps, n, d))
    decreases |ps|
  {
    hide Writes, Run, MintsOf, DatumIn, Canons, BlockMints, BuildUtxos;
    if ps != [] {
      var before, p := ps[..|ps| - 1], ps[|ps| - 1];
      assert ps == before + [p];
      MintsOfHistory(lib, db, before, n, d);
      var was := Passes(lib, db, before);
      if was.Some? {
        var ws := Writes(p.block, p.rows, p.tip);
        assert ws[..|ws|] == ws;
        var k := if p.stop <= |ws| then p.stop else |ws|;
        MintsOfPass(lib, was.value, p.block, p.rows, p.tip, k, n);
        MintWrites(p.block, p.rows, p.tip);
        BlockData(p.rows, n, d);
      }
    }
  }

  // ---------- Along a valid chain ----------

  lemma ValidMints(l: Ledger, t: Tx, n: string)
    requires Valid(l, t)
    ensures MintsInto(t, n) <==> Mints(t, n)
  {
    hide Leaves, Enters, SameTokens, Created;
    if MintsInto(t, n) {
      var o, a, m :| o in t.outputs && a in o.assets && m in t.minted && a == m.asset && m.quantity >= 0
                     && a != NAMELESS && a.name == n;
      assert m.quantity != 0;
    }
    if Mints(t, n) {
      MintIsInOutput(l, t, n);
      var i :| 0 <= i < |t.outputs| && n in NamesOf(OutputAt(t, i).mint);
      MintOfOutput(t, i, n);
    }
  }

  /** The data of a block do not depend on how it is listed. */
  lemma SameData(rows: seq<Tx>, txs: seq<Tx>, n: string, d: MintData)
    requires TxSet(rows) == TxSet(txs) && DatumIn(rows, n, d)
    ensures DatumIn(txs, n, d)
  {
    hide MintsInto;
    var t :| t in rows && MintsInto(t, n) && d == DatumOf(t);
    assert KeyedTx(t) in TxSet(txs);
    var u :| u in txs && KeyedTx(u) == KeyedTx(t);
    assert u.outputs == KeyedTx(u).outputs == t.outputs && u.minted == KeyedTx(u).minted == t.minted;
    assert DatumOf(u) == MintData(KeyedTx(u).slot, KeyedTx(u).metadata, KeyedTx(u).id) == d;
    assert MintsInto(u, n) by { SameMintsInto(t, u, n); }
  }

  lemma SameMintsInto(t: Tx, u: Tx, n: string)
    requires t.outputs == u.outputs && t.minted == u.minted
    ensures MintsInto(t, n) <==> MintsInto(u, n)
  {
  }

  /** The data of every mint of the name in these blocks. */
  ghost predicate MintedIn(chain: seq<Link>, n: string, d: MintData) {
    exists c <- chain :: MintedBy(c.txs, n, d)
  }

  ghost predicate MintedBy(txs: seq<Tx>, n: string, d: MintData) {
    exists t <- txs :: Mints(t, n) && d == DatumOf(t)
  }

  lemma BlockMintsThat(l: Ledger, txs: seq<Tx>, rows: seq<Tx>, slot: nat, n: string, d: MintData, listed: seq<Tx>)
    requires BlockOf(l, txs, rows, slot) && TxSet(listed) == TxSet(txs)
    ensures DatumIn(listed, n, d) <==> MintedBy(txs, n, d)
  {
    hide Valid, MintsInto, Mints, TxSet;
    if DatumIn(listed, n, d) { SameData(listed, txs, n, d); }
    forall t <- txs ensures MintsInto(t, n) <==> Mints(t, n) {
      EachIsValid(l, txs, t);
      var m: Ledger :| Valid(m, t);
      ValidMints(m, t, n);
    }
    if MintedBy(txs, n, d) { SameData(txs, listed, n, d); }
  }

  lemma {:induction false} DataAlong(chain: seq<Link>, ps: seq<Pass>, n: string, d: MintData)
    requires ValidChain(chain) && Along(chain, ps)
    ensures Advanced(ps) <= Reached(ps) <= |chain|
    ensures AddedBy(ps, n, d) ==> MintedIn(chain[..Reached(ps)], n, d)
    ensures MintedIn(chain[..Advanced(ps)], n, d) ==> AddedBy(ps, n, d)
    decreases |ps|
  {
    hide ValidChain, DatumIn, MintedIn, AddedBy, BlockOf, TxSet, Writes, LedgerAfter, LastSlot, NeverMixes;
    if ps == [] {
      NoData(n, d);
      assert chain[..0] == [];
    } else {
      var before, p := ps[..|ps| - 1], ps[|ps| - 1];
      var k := Advanced(before);
      DataAlong(chain, before, n, d);
      BlockAt(chain, k);
      MintWrites(p.block, p.rows, p.tip);
      LastTwoWrites(p.block, p.rows, p.tip);
      BlockMintsThat(LedgerAfter(chain[..k]), chain[k].txs, chain[k].rows, chain[k].block.slot, n, d, p.rows);
      MoreAdded(ps, n, d);
      MoreMinted(chain, k, n, d);
      FewerMinted(chain, Reached(before), k + 1, n, d);
    }
  }

  lemma NoData(n: string, d: MintData)
    ensures !MintedIn([], n, d) && !AddedBy([], n, d)
  {
  }

  lemma MoreAdded(ps: seq<Pass>, n: string, d: MintData)
    requires ps != []
    ensures var p := ps[|ps| - 1];
            AddedBy(ps, n, d) <==> AddedBy(ps[..|ps| - 1], n, d) || (p.stop >= 2 && DatumIn(p.rows, n, d))
  {
    hide DatumIn;
    assert ps == ps[..|ps| - 1] + [ps[|ps| - 1]];
  }

  lemma MoreMinted(chain: seq<Link>, k: nat, n: string, d: MintData)
    requires k < |chain|
    ensures MintedIn(chain[..k + 1], n, d) <==> MintedIn(chain[..k], n, d) || MintedBy(chain[k].txs, n, d)
  {
    hide MintedBy;
    assert chain[..k + 1] == chain[..k] + [chain[k]];
  }

  lemma FewerMinted(chain: seq<Link>, few: nat, many: nat, n: string, d: MintData)
    requires few <= many <= |chain|
    ensures MintedIn(chain[..few], n, d) ==> MintedIn(chain[..many], n, d)
  {
    hide MintedBy;
    assert forall c <- chain[..few] :: c in chain[..many];
  }

  /**
   Over any history of passes along a valid chain MINT has, for each name, the data of all its mints in the
   blocks that the cursor has passed, and of none but the blocks that were reached: where the last pass has
   moved the cursor, exactly those of the blocks passed.
   */
  lemma MintsFollow(lib: Lib, chain: seq<Link>, ps: seq<Pass>, n: string, d: MintData)
    requires ValidChain(chain) && Along(chain, ps)
    ensures Advanced(ps) <= Reached(ps) <= |chain|
    ensures var r := Passes(lib, EMPTY, ps);
            r.Some? ==>
              && (MintedIn(chain[..Advanced(ps)], n, d) ==> d in MintsOf(r.value.mint, n))
              && (d in MintsOf(r.value.mint, n) ==> MintedIn(chain[..Reached(ps)], n, d))
              && (ps == [] || Advances(ps[|ps| - 1]) ==> Reached(ps) == Advanced(ps))
  {
    hide Passes, Along, ValidChain, AddedBy, MintedIn;
    DataAlong(chain, ps, n, d);
    MintsOfHistory(lib, EMPTY, ps, n, d);
  }
}
