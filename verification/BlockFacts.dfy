/**
 What the lists that the indexer reads off a block contain, in the ledger's terms.

 The burned names are those some transaction burns, the built outputs are the handle outputs of the
 block, each once, and the minting data of a name are those of the outputs that mint it. The order in
 which a provider lists the transactions plays no part in any of these.
 */
module BlockFacts {
  import opened BlockIndexer
  import opened CanonicalJson
  import opened HandleTables
  import opened HolderCounts
  import opened Ledger
  import opened NetUtxo
  import opened Sequences
  import opened TableInvariants

  // ---------- Burns ----------

  lemma {:induction false} BurnNamesAre(ms: seq<Mint>, n: string)
    ensures Once(BurnNames(ms)) && (n in BurnNames(ms) <==> exists m <- ms :: m.quantity < 0 && m.asset.name == n)
  {
    if ms != [] {
      var before, m := ms[..|ms| - 1], ms[|ms| - 1];
      assert ms == before + [m];
      BurnNamesAre(before, n);
      BurnNamesAre(before, m.asset.name);
    }
  }

  lemma {:induction false} MintedAre(rows: seq<Tx>, m: Mint)
    ensures m in AllMinted(rows) <==> exists t <- rows :: m in t.minted
  {
    if rows != [] {
      assert rows == rows[..|rows| - 1] + [rows[|rows| - 1]];
      MintedAre(rows[..|rows| - 1], m);
    }
  }

  lemma BurnedNames(rows: seq<Tx>, n: string)
    requires n != ""
    ensures n in BurnNames(AllMinted(rows)) <==> BurnsAny(rows, n)
  {
    BurnNamesAre(AllMinted(rows), n);
    if n in BurnNames(AllMinted(rows)) {
      var m :| m in AllMinted(rows) && m.quantity < 0 && m.asset.name == n;
      MintedAre(rows, m);
      var t :| t in rows && m in t.minted;
      assert Burns(t, n);
    }
    if BurnsAny(rows, n) {
      var t :| t in rows && Burns(t, n);
      var m :| m in t.minted && m.quantity < 0 && Names(m.asset, n);
      MintedAre(rows, m);
    }
  }

  lemma {:induction false} StoredHandlesAre(db: Db, names: seq<string>)
    requires Once(names) && forall n <- db.handles :: db.handles[n].name == n
    ensures Distinct(StoredHandles(db, names)) && StoredIn(db.handles, StoredHandles(db, names))
    ensures forall n: string :: n in HandleNames(StoredHandles(db, names)) <==> n in names && n in db.handles
    decreases |names|
  {
    hide HandleNames;
    if names == [] {
      NoNames();
    } else {
      var before, n := names[..|names| - 1], names[|names| - 1];
      assert names == before + [n];
      StoredHandlesAre(db, before);
      if n in db.handles {
        NamesGrow(StoredHandles(db, names));
        assert StoredHandles(db, names)[..|StoredHandles(db, names)| - 1] == StoredHandles(db, before);
        forall i | 0 <= i < |StoredHandles(db, before)| ensures StoredHandles(db, before)[i].name != n {
          InHandleNames(StoredHandles(db, before), i);
        }
      } else {
        assert StoredHandles(db, names) == StoredHandles(db, before);
      }
    }
  }

  lemma InHandleNames(hs: seq<Handle>, i: nat)
    requires i < |hs|
    ensures hs[i].name in HandleNames(hs)
  {
    assert hs[i] in hs;
  }

  // ---------- Built outputs ----------

  predicate DistinctOutputs(us: seq<Utxo>) {
    forall i, j | 0 <= i < j < |us| :: us[i].id != us[j].id
  }

  /** An output with handle assets of one of these transactions. */
  ghost predicate Makes(rows: seq<Tx>, u: Utxo) {
    exists t <- rows, i | 0 <= i < |t.outputs| :: u == OutputAt(t, i) && u.assets != []
  }

  lemma {:induction false} OutputsUpToAre(tx: Tx, n: nat)
    requires n <= |tx.outputs|
    ensures forall u: Utxo :: u in OutputsUpTo(tx, n) <==>
              exists i | 0 <= i < n :: u == OutputAt(tx, i) && u.assets != []
    ensures DistinctOutputs(OutputsUpTo(tx, n))
  {
    if n > 0 { OutputsUpToAre(tx, n - 1); }
  }

  lemma {:induction false} OutputsOfAre(rows: seq<Tx>)
    ensures forall u: Utxo :: u in OutputsOf(rows) <==> Makes(rows, u)
    decreases |rows|
  {
    hide OutputAt;
    if rows != [] {
      assert rows == rows[..|rows| - 1] + [rows[|rows| - 1]];
      OutputsOfAre(rows[..|rows| - 1]);
      OutputsUpToAre(rows[|rows| - 1], |rows[|rows| - 1].outputs|);
    }
  }

  lemma {:induction false} OutputsOfOnce(rows: seq<Tx>)
    requires DistinctIds(rows)
    ensures DistinctOutputs(OutputsOf(rows))
    decreases |rows|
  {
    hide OutputAt;
    if rows != [] {
      var before, t := rows[..|rows| - 1], rows[|rows| - 1];
      OutputsOfOnce(before);
      OutputsOfAre(before);
      OutputsUpToAre(t, |t.outputs|);
      forall u, v | u in OutputsOf(before) && v in OutputsUpTo(t, |t.outputs|) ensures u.id != v.id {
        OutputsApart(rows, u, v);
      }
    }
  }

  lemma OutputIsCreated(t: Tx, i: nat)
    requires i < |t.outputs|
    ensures OutputAt(t, i).id in Created(t) && Created(t)[OutputAt(t, i).id] == OutputAt(t, i)
  {
    assert OutputAt(t, i).id == OutRef(t.id, i);
  }

  lemma OutputsApart(rows: seq<Tx>, u: Utxo, v: Utxo)
    requires rows != [] && DistinctIds(rows) && Makes(rows[..|rows| - 1], u) && Makes([rows[|rows| - 1]], v)
    ensures u.id != v.id
  {
    hide OutputAt, Created;
    var before, t := rows[..|rows| - 1], rows[|rows| - 1];
    var s, i :| s in before && 0 <= i < |s.outputs| && u == OutputAt(s, i) && u.assets != [];
    var k :| 0 <= k < |before| && before[k] == s;
    var x, j :| x in [t] && 0 <= j < |x.outputs| && v == OutputAt(x, j) && v.assets != [];
    OutputIsCreated(s, i);
    OutputIsCreated(t, j);
    assert Created(rows[k]).Keys !! Created(rows[|rows| - 1]).Keys;
  }

  lemma {:induction false} PickHas(us: seq<Utxo>, want: bool, u: Utxo)
    ensures u in Pick(us, want) <==> u in us && Has222(u) == want
  {
    hide Has222;
    if us != [] {
      assert us == us[..|us| - 1] + [us[|us| - 1]];
      PickHas(us[..|us| - 1], want, u);
    }
  }

  lemma {:induction false} PickIs(us: seq<Utxo>, want: bool)
    requires DistinctOutputs(us)
    ensures forall u: Utxo :: u in Pick(us, want) <==> u in us && Has222(u) == want
    ensures DistinctOutputs(Pick(us, want))
    decreases |us|
  {
    hide Has222;
    forall u: Utxo ensures u in Pick(us, want) <==> u in us && Has222(u) == want { PickHas(us, want, u); }
    if us != [] {
      var before, u := us[..|us| - 1], us[|us| - 1];
      PickIs(before, want);
      forall v <- Pick(before, want) ensures v.id != u.id {
        PickHas(before, want, v);
        var i :| 0 <= i < |us| - 1 && us[i] == v;
      }
      DistinctSnoc(Pick(before, want), u);
    }
  }

  lemma DistinctSnoc(us: seq<Utxo>, u: Utxo)
    requires DistinctOutputs(us) && forall v <- us :: v.id != u.id
    ensures DistinctOutputs(us + [u])
  {
  }

  /** The built list holds the block's handle outputs, and no output twice unless a transaction is listed twice. */
  lemma BuildUtxosAre(rows: seq<Tx>)
    requires DistinctIds(rows)
    ensures forall u: Utxo :: u in BuildUtxos(rows) <==> Makes(rows, u)
    ensures DistinctOutputs(BuildUtxos(rows))
  {
    hide Has222, Makes, DistinctIds, OutputsOf;
    BuildUtxosHave(rows);
    OutputsOfAre(rows);
    OutputsOfOnce(rows);
    PickIs(OutputsOf(rows), true);
    PickIs(OutputsOf(rows), false);
    PartsApart(OutputsOf(rows));
  }

  lemma BuildUtxosHave(rows: seq<Tx>)
    ensures forall u: Utxo :: u in BuildUtxos(rows) <==> Makes(rows, u)
  {
    hide Has222, Makes, OutputsOf;
    OutputsOfAre(rows);
    forall u: Utxo ensures u in BuildUtxos(rows) <==> u in OutputsOf(rows) {
      PickHas(OutputsOf(rows), true, u);
      PickHas(OutputsOf(rows), false, u);
    }
  }

  lemma PartsApart(us: seq<Utxo>)
    requires DistinctOutputs(us) && DistinctOutputs(Pick(us, true)) && DistinctOutputs(Pick(us, false))
    requires forall u: Utxo :: u in Pick(us, true) <==> u in us && Has222(u)
    requires forall u: Utxo :: u in Pick(us, false) <==> u in us && !Has222(u)
    ensures DistinctOutputs(Pick(us, true) + Pick(us, false))
  {
    hide Has222;
    forall u, v | u in Pick(us, true) && v in Pick(us, false) ensures u.id != v.id {
      var i :| 0 <= i < |us| && us[i] == u;
      var j :| 0 <= j < |us| && us[j] == v;
    }
  }

  lemma {:induction false} SurvivingAre(us: seq<Utxo>, spent: set<OutRef>)
    ensures forall u: Utxo :: u in Surviving(us, spent) <==> u in us && u.id !in spent
    decreases |us|
  {
    if us != [] {
      assert us == us[..|us| - 1] + [us[|us| - 1]];
      SurvivingAre(us[..|us| - 1], spent);
    }
  }

  // ---------- One block, listed in different ways ----------

  /** A transaction, or an output, as far as a listing fixes it: metadata in canonical key order. */
  function KeyedTx(t: Tx): Tx {
    t.(metadata := SortKeys(t.metadata))
  }

  function KeyedOut(u: Utxo): Utxo {
    u.(metadata := SortKeys(u.metadata))
  }

  /** What a listing says, whatever the order of its rows, their repetition and the key order of their metadata. */
  function TxSet(rows: seq<Tx>): set<Tx> {
    set t <- rows :: KeyedTx(t)
  }

  lemma ListedToo(rows: seq<Tx>, txs: seq<Tx>, t: Tx) returns (s: Tx)
    requires TxSet(rows) == TxSet(txs) && t in rows
    ensures s in txs && KeyedTx(s) == KeyedTx(t)
  {
    hide KeyedTx;
    assert KeyedTx(t) in TxSet(rows);
    s :| s in txs && KeyedTx(s) == KeyedTx(t);
  }

  /** Metadata that differ in key order only, at any depth, make no other listing. */
  lemma KeyOrderIsForgotten(t: Tx, metadata: Json)
    requires WellFormed(t.metadata) && WellFormed(metadata) && Same(t.metadata, metadata)
    ensures KeyedTx(t.(metadata := metadata)) == KeyedTx(t)
  {
    SameStripped(t.metadata, metadata);
    SortForgetsOrder(t.metadata, metadata);
  }

  lemma KeyedOutputs(t: Tx, s: Tx, i: nat)
    requires KeyedTx(t) == KeyedTx(s) && i < |t.outputs|
    ensures i < |s.outputs| && KeyedOut(OutputAt(t, i)) == KeyedOut(OutputAt(s, i))
  {
    assert KeyedTx(t).outputs == t.outputs && KeyedTx(s).outputs == s.outputs;
    assert KeyedTx(t).minted == t.minted && KeyedTx(s).minted == s.minted;
    assert KeyedTx(t).id == t.id && KeyedTx(t).slot == t.slot && KeyedTx(s).id == s.id && KeyedTx(s).slot == s.slot;
  }

  lemma SameFields(t: Tx, s: Tx)
    requires KeyedTx(t) == KeyedTx(s)
    ensures t.inputs == s.inputs && t.minted == s.minted && t.id == s.id && t.slot == s.slot
  {
    assert KeyedTx(t).inputs == t.inputs && KeyedTx(s).inputs == s.inputs;
    assert KeyedTx(t).minted == t.minted && KeyedTx(s).minted == s.minted;
    assert KeyedTx(t).id == t.id && KeyedTx(t).slot == t.slot && KeyedTx(s).id == s.id && KeyedTx(s).slot == s.slot;
  }

  lemma MakesToo(rows: seq<Tx>, txs: seq<Tx>, u: Utxo) returns (v: Utxo)
    requires TxSet(rows) == TxSet(txs) && Makes(rows, u)
    ensures Makes(txs, v) && KeyedOut(v) == KeyedOut(u)
  {
    hide OutputAt, KeyedTx;
    var t, i :| t in rows && 0 <= i < |t.outputs| && u == OutputAt(t, i) && u.assets != [];
    var s := ListedToo(rows, txs, t);
    KeyedOutputs(t, s, i);
    v := OutputAt(s, i);
    SameOutFields(u, v);
  }

  lemma SameOutFields(u: Utxo, v: Utxo)
    requires KeyedOut(u) == KeyedOut(v)
    ensures v == u.(metadata := v.metadata)
  {
    assert KeyedOut(u).(metadata := v.metadata) == u.(metadata := v.metadata);
    assert KeyedOut(v).(metadata := v.metadata) == v;
  }

  lemma SameBurns(txs: seq<Tx>, rows: seq<Tx>, n: string)
    requires TxSet(rows) == TxSet(txs)
    ensures BurnsAny(rows, n) <==> BurnsAny(txs, n)
  {
    hide KeyedTx;
    if t :| t in rows && Burns(t, n) {
      var s := ListedToo(rows, txs, t);
      SameFields(t, s);
      assert Burns(s, n);
    }
    if t :| t in txs && Burns(t, n) {
      var s := ListedToo(txs, rows, t);
      SameFields(t, s);
      assert Burns(s, n);
    }
  }

  lemma SameSpends(txs: seq<Tx>, rows: seq<Tx>)
    requires TxSet(rows) == TxSet(txs)
    ensures SpentAll(rows) <= SpentAll(txs) <= SpentAll(rows)
  {
    SpendsWithin(txs, rows);
    SpendsWithin(rows, txs);
  }

  lemma SpendsWithin(txs: seq<Tx>, rows: seq<Tx>)
    requires TxSet(rows) == TxSet(txs)
    ensures SpentAll(rows) <= SpentAll(txs)
  {
    hide KeyedTx, SpentAll;
    forall id <- SpentAll(rows) ensures id in SpentAll(txs) {
      SpentSomewhere(rows, id);
      SpentSomewhere(txs, id);
      var k :| 0 <= k < |rows| && id in Spent(rows[k]);
      var s := ListedToo(rows, txs, rows[k]);
      SameFields(rows[k], s);
      var j :| 0 <= j < |txs| && txs[j] == s;
      assert id in Spent(txs[j]);
    }
  }

  // ---------- Minting data ----------

  lemma {:induction false} AddMintsOfAre(m: MintMap, u: Utxo, assets: seq<Asset>, n: string)
    ensures MintsOf(AddMintsOf(m, u, assets), n) ==
              MintsOf(m, n) + (if n in NamesOf(assets) then {MintData(u.slot, u.metadata, u.id.tx)} else {})
  {
    if assets != [] {
      assert assets == assets[..|assets| - 1] + [assets[|assets| - 1]];
      AddMintsOfAre(m, u, assets[..|assets| - 1], n);
    }
  }

  lemma {:induction false} BlockMintsAre(us: seq<Utxo>, n: string)
    ensures forall d: MintData :: d in MintsOf(BlockMints(us), n) <==>
              exists u <- us :: n in NamesOf(u.mint) && d == MintData(u.slot, u.metadata, u.id.tx)
  {
    hide AddMintsOf, NamesOf;
    if us != [] {
      assert us == us[..|us| - 1] + [us[|us| - 1]];
      BlockMintsAre(us[..|us| - 1], n);
      AddMintsOfAre(BlockMints(us[..|us| - 1]), us[|us| - 1], us[|us| - 1].mint, n);
    }
  }

  lemma MintsAdded(db: Db, mints: MintMap, n: string)
    ensures MintsOf(AddMint(db, mints).mint, n) == MintsOf(db.mint, n) + Canons(MintsOf(mints, n))
    ensures Canons(MintsOf(mints, n)) == {} <==> MintsOf(mints, n) == {}
  {
    if d :| d in MintsOf(mints, n) { assert Canon(d) in Canons(MintsOf(mints, n)); }
  }
}
