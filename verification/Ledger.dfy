/**
 A UTxO ledger restricted to owner tokens: who holds which handle name. This is the chain's side of
 the refinement: nothing here comes from the indexer.
 */
module Ledger {
  import opened CanonicalJson

  datatype OutRef = OutRef(tx: string, index: nat)

  /** An owner token: the legacy form, or the CIP-67 form with label 222. */
  datatype Asset = Legacy(name: string) | Owner222(name: string)

  const NAMELESS := Legacy("")

  datatype Mint = Mint(asset: Asset, quantity: int)

  datatype Output = Output(address: string, lovelace: nat, assets: seq<Asset>)

  datatype Tx = Tx(id: string, slot: nat, inputs: seq<OutRef>, outputs: seq<Output>, minted: seq<Mint>, metadata: Json)

  /** An output with what the indexer keeps of its transaction. */
  datatype Utxo = Utxo(id: OutRef, slot: nat, address: string, lovelace: nat, assets: seq<Asset>, mint: seq<Asset>,
                       metadata: Json)

  predicate Names(a: Asset, n: string) {
    a != NAMELESS && a.name == n
  }

  predicate Holds(u: Utxo, n: string) {
    exists a <- u.assets :: Names(a, n)
  }

  predicate Mints(tx: Tx, n: string) {
    exists m <- tx.minted :: m.quantity > 0 && Names(m.asset, n)
  }

  predicate Burns(tx: Tx, n: string) {
    exists m <- tx.minted :: m.quantity < 0 && Names(m.asset, n)
  }

  /** The assets a transaction does not burn, in its mint field's order. */
  function MintedAssets(minted: seq<Mint>): seq<Asset> {
    if minted == [] then []
    else
      MintedAssets(minted[..|minted| - 1]) +
      if minted[|minted| - 1].quantity < 0 then [] else [minted[|minted| - 1].asset]
  }

  function Within(assets: seq<Asset>, among: seq<Asset>): seq<Asset> {
    if assets == [] then []
    else Within(assets[..|assets| - 1], among) + if assets[|assets| - 1] in among then [assets[|assets| - 1]] else []
  }

  function OutputAt(tx: Tx, i: nat): Utxo
    requires i < |tx.outputs|
  {
    var o := tx.outputs[i];
    Utxo(OutRef(tx.id, i), tx.slot, o.address, o.lovelace, o.assets, Within(o.assets, MintedAssets(tx.minted)),
         tx.metadata)
  }

  function Created(tx: Tx): map<OutRef, Utxo> {
    map i | 0 <= i < |tx.outputs| :: OutRef(tx.id, i) := OutputAt(tx, i)
  }

  function Spent(tx: Tx): set<OutRef> {
    set r <- tx.inputs
  }

  /** `used` holds every output id that ever existed. */
  datatype Ledger = Ledger(utxo: map<OutRef, Utxo>, used: set<OutRef>)

  predicate Holder(l: Ledger, n: string, id: OutRef) {
    id in l.utxo && Holds(l.utxo[id], n)
  }

  ghost predicate Held(l: Ledger, n: string) {
    exists id: OutRef :: Holder(l, n, id)
  }

  /** The token of `n` comes in with one of the inputs. */
  predicate Enters(l: Ledger, tx: Tx, n: string) {
    exists r <- tx.inputs :: Holder(l, n, r)
  }

  predicate Leaves(tx: Tx, n: string) {
    exists i | 0 <= i < |tx.outputs| :: Holds(OutputAt(tx, i), n)
  }

  /** One unit per name: no name twice in an output or in two outputs, and a minted name's token is the minted one. */
  ghost predicate OneUnit(tx: Tx) {
    && (forall i, j, n: string | 0 <= i < |tx.outputs| && 0 <= j < |tx.outputs| && Holds(OutputAt(tx, i), n)
        && Holds(OutputAt(tx, j), n) :: i == j)
    && (forall o <- tx.outputs, i, j | 0 <= i < j < |o.assets| :: o.assets[i].name != o.assets[j].name)
    && (forall o <- tx.outputs, a <- o.assets :: a != Owner222(""))
    && (forall m <- tx.minted :: m.quantity != 0)
    && (forall m <- tx.minted, o <- tx.outputs, a <- o.assets | m.quantity > 0 && a.name == m.asset.name ::
        a == m.asset)
  }

  ghost predicate Valid(l: Ledger, tx: Tx) {
    && (forall r <- tx.inputs :: r in l.utxo)
    && Created(tx).Keys !! l.used
    && OneUnit(tx)
    && (forall n: string :: Leaves(tx, n) <==> (Enters(l, tx, n) && !Burns(tx, n)) || Mints(tx, n))
    && (forall n: string :: Burns(tx, n) ==> Enters(l, tx, n))
    // a name that is held is minted again only where its token is burned, as when a legacy token is upgraded
    && (forall n: string :: Mints(tx, n) && Held(l, n) ==> Burns(tx, n))
    && (forall i, j | 0 <= i < j < |tx.inputs| :: tx.inputs[i] != tx.inputs[j])
    && SameTokens(l, tx)
  }

  /** A name that passes through keeps its token. */
  ghost predicate SameTokens(l: Ledger, tx: Tx) {
    forall r <- tx.inputs, o <- tx.outputs, b <- o.assets | Holder(l, b.name, r) && b != NAMELESS
        && !Mints(tx, b.name) :: b in l.utxo[r].assets
  }

  function Apply(l: Ledger, tx: Tx): Ledger {
    Ledger((l.utxo - Spent(tx)) + Created(tx), l.used + Created(tx).Keys)
  }

  function ApplyAll(l: Ledger, txs: seq<Tx>): Ledger {
    if txs == [] then l else Apply(ApplyAll(l, txs[..|txs| - 1]), txs[|txs| - 1])
  }

  ghost predicate ValidAll(l: Ledger, txs: seq<Tx>) {
    txs == [] || (ValidAll(l, txs[..|txs| - 1]) && Valid(ApplyAll(l, txs[..|txs| - 1]), txs[|txs| - 1]))
  }

  /**
   Every name has at most one holder, ids label their outputs, no token is unnamed, and live outputs were once
   created.
   */
  ghost predicate Sound(l: Ledger) {
    && (forall n: string, a: OutRef, b: OutRef :: Holder(l, n, a) && Holder(l, n, b) ==> a == b)
    && l.utxo.Keys <= l.used
    && (forall id <- l.utxo :: l.utxo[id].id == id && Owner222("") !in l.utxo[id].assets)
  }

  // ---------- The block as a whole ----------

  function SpentAll(txs: seq<Tx>): set<OutRef> {
    if txs == [] then {} else SpentAll(txs[..|txs| - 1]) + Spent(txs[|txs| - 1])
  }

  function CreatedAll(txs: seq<Tx>): map<OutRef, Utxo> {
    if txs == [] then map[] else CreatedAll(txs[..|txs| - 1]) + Created(txs[|txs| - 1])
  }

  predicate BurnsAny(txs: seq<Tx>, n: string) {
    exists t <- txs :: Burns(t, n)
  }

  predicate MintsAny(txs: seq<Tx>, n: string) {
    exists t <- txs :: Mints(t, n)
  }

  lemma CreatedIsHolder(tx: Tx, n: string, id: OutRef)
    requires id in Created(tx) && Holds(Created(tx)[id], n)
    ensures Leaves(tx, n)
  {
    var i :| 0 <= i < |tx.outputs| && OutRef(tx.id, i) == id;
    assert Created(tx)[id] == OutputAt(tx, i);
  }

  /** Any holder after a transaction is an untouched one, or a new output of a name that left it. */
  lemma HolderAfter(l: Ledger, tx: Tx, n: string, id: OutRef)
    requires Sound(l) && Valid(l, tx) && Holder(Apply(l, tx), n, id)
    ensures if id in Created(tx) then Leaves(tx, n) && Holds(Created(tx)[id], n)
            else Holder(l, n, id) && id !in Spent(tx)
  {
    if id in Created(tx) { CreatedIsHolder(tx, n, id); }
  }

  lemma StaysSound(l: Ledger, tx: Tx)
    requires Sound(l) && Valid(l, tx)
    ensures Sound(Apply(l, tx))
  {
    var l' := Apply(l, tx);
    forall n: string, a: OutRef, b: OutRef | Holder(l', n, a) && Holder(l', n, b) ensures a == b {
      HolderAfter(l, tx, n, a);
      HolderAfter(l, tx, n, b);
      if a in Created(tx) && b in Created(tx) {
        var i :| 0 <= i < |tx.outputs| && OutRef(tx.id, i) == a;
        var j :| 0 <= j < |tx.outputs| && OutRef(tx.id, j) == b;
        assert Holds(OutputAt(tx, i), n) && Holds(OutputAt(tx, j), n);
      } else if a in Created(tx) {
        OnlyOneSide(l, tx, n, b);
      } else if b in Created(tx) {
        OnlyOneSide(l, tx, n, a);
      }
    }
    forall id <- l'.utxo ensures l'.utxo[id].id == id && Owner222("") !in l'.utxo[id].assets {
      if id in Created(tx) {
        var i :| 0 <= i < |tx.outputs| && OutRef(tx.id, i) == id;
      }
    }
  }

  /** A name that leaves a transaction has no untouched holder. */
  lemma OnlyOneSide(l: Ledger, tx: Tx, n: string, id: OutRef)
    requires Sound(l) && Valid(l, tx) && Leaves(tx, n) && Holder(l, n, id)
    ensures id in Spent(tx)
  {
    assert Held(l, n);
    var r :| r in tx.inputs && Holder(l, n, r);
  }

  lemma {:induction false} BlockStaysSound(l: Ledger, txs: seq<Tx>)
    requires Sound(l) && ValidAll(l, txs)
    ensures Sound(ApplyAll(l, txs)) && ApplyAll(l, txs).used == l.used + CreatedAll(txs).Keys
    decreases |txs|
  {
    if txs != [] {
      BlockStaysSound(l, txs[..|txs| - 1]);
      StaysSound(ApplyAll(l, txs[..|txs| - 1]), txs[|txs| - 1]);
    }
  }

  /** Net effect: a block removes what it spends and adds what it creates and does not spend. */
  lemma {:induction false} NetForm(l: Ledger, txs: seq<Tx>)
    requires Sound(l) && ValidAll(l, txs)
    ensures ApplyAll(l, txs).utxo == (l.utxo + CreatedAll(txs)) - SpentAll(txs)
    ensures SpentAll(txs) <= ApplyAll(l, txs).used
    decreases |txs|
  {
    if txs != [] {
      var before, tx := txs[..|txs| - 1], txs[|txs| - 1];
      NetForm(l, before);
      BlockStaysSound(l, before);
      var m := ApplyAll(l, before);
      CreatedIsFresh(m, tx, SpentAll(before));
      MapAlgebra(l.utxo, CreatedAll(before), SpentAll(before), Created(tx), Spent(tx));
    }
  }

  lemma CreatedIsFresh(m: Ledger, tx: Tx, spent: set<OutRef>)
    requires Sound(m) && Valid(m, tx) && spent <= m.used
    ensures (spent + Spent(tx)) !! Created(tx).Keys && spent + Spent(tx) <= Apply(m, tx).used
  {
    assert Spent(tx) <= m.used;
  }

  lemma MapAlgebra<K, V>(m: map<K, V>, c: map<K, V>, s: set<K>, d: map<K, V>, t: set<K>)
    requires (s + t) !! d.Keys
    ensures (((m + c) - s) - t) + d == (m + (c + d)) - (s + t)
  {
  }

  /** Two stretches one after the other. */
  lemma {:induction false} ValidConcat(l: Ledger, a: seq<Tx>, b: seq<Tx>)
    ensures ApplyAll(l, a + b) == ApplyAll(ApplyAll(l, a), b)
    ensures ValidAll(l, a + b) <==> ValidAll(l, a) && ValidAll(ApplyAll(l, a), b)
    decreases |b|
  {
    hide Valid, Apply;
    if b == [] {
      assert a + b == a;
    } else {
      ValidConcat(l, a, b[..|b| - 1]);
      assert (a + b)[..|a + b| - 1] == a + b[..|b| - 1];
    }
  }

  // ---------- What a block does to one name ----------

  /** An output that survives a block untouched holds only names the block does not burn. */
  lemma {:induction false} UntouchedIsUnburned(l: Ledger, txs: seq<Tx>, n: string, id: OutRef)
    requires Sound(l) && ValidAll(l, txs) && Holder(ApplyAll(l, txs), n, id) && id !in CreatedAll(txs)
    ensures Holder(l, n, id) && !BurnsAny(txs, n)
    decreases |txs|
  {
    if txs != [] {
      var before, tx := txs[..|txs| - 1], txs[|txs| - 1];
      var m := ApplyAll(l, before);
      BlockStaysSound(l, before);
      HolderAfter(m, tx, n, id);
      UntouchedIsUnburned(l, before, n, id);
      if Burns(tx, n) { BurnedHolderIsSpent(m, tx, n, id); }
    }
  }

  lemma BurnedHolderIsSpent(m: Ledger, tx: Tx, n: string, id: OutRef)
    requires Sound(m) && Valid(m, tx) && Burns(tx, n) && Holder(m, n, id)
    ensures id in Spent(tx)
  {
    assert Enters(m, tx, n);
    var r :| r in tx.inputs && Holder(m, n, r);
  }

  /** A name held before and not after was burned. */
  lemma {:induction false} GoneIsBurned(l: Ledger, txs: seq<Tx>, n: string)
    requires Sound(l) && ValidAll(l, txs) && Held(l, n) && !Held(ApplyAll(l, txs), n)
    ensures BurnsAny(txs, n)
    decreases |txs|
  {
    if txs != [] {
      var before, tx := txs[..|txs| - 1], txs[|txs| - 1];
      var m := ApplyAll(l, before);
      BlockStaysSound(l, before);
      if Held(m, n) {
        GoneIsBurnedOnce(m, tx, n);
      } else {
        GoneIsBurned(l, before, n);
        var t :| t in before && Burns(t, n);
        assert t in txs;
      }
    }
  }

  lemma GoneIsBurnedOnce(m: Ledger, tx: Tx, n: string)
    requires Sound(m) && Valid(m, tx) && Held(m, n) && !Held(Apply(m, tx), n)
    ensures Burns(tx, n)
  {
    var id :| Holder(m, n, id);
    if id !in Spent(tx) {
      assert id !in Created(tx);
      assert Holder(Apply(m, tx), n, id);
    } else {
      assert Enters(m, tx, n);
      if Leaves(tx, n) { LeavesIsHeld(m, tx, n); }
    }
  }

  lemma LeavesIsHeld(m: Ledger, tx: Tx, n: string)
    requires Leaves(tx, n)
    ensures Held(Apply(m, tx), n)
  {
    var i :| 0 <= i < |tx.outputs| && Holds(OutputAt(tx, i), n);
    assert OutRef(tx.id, i) in Created(tx);
    assert Holder(Apply(m, tx), n, OutRef(tx.id, i));
  }

  /** A name minted in the block while it was held had been burned in it, before or by the same transaction. */
  lemma {:induction false} RemintIsBurned(l: Ledger, txs: seq<Tx>, n: string)
    requires Sound(l) && ValidAll(l, txs) && Held(l, n) && MintsAny(txs, n)
    ensures BurnsAny(txs, n)
    decreases |txs|
  {
    var before, tx := txs[..|txs| - 1], txs[|txs| - 1];
    if Mints(tx, n) && Held(ApplyAll(l, before), n) {
      assert tx in txs;
    } else if Mints(tx, n) {
      GoneIsBurned(l, before, n);
      var t :| t in before && Burns(t, n);
      assert t in txs;
    } else {
      var t :| t in txs && Mints(t, n);
      assert t in before;
      RemintIsBurned(l, before, n);
      var b :| b in before && Burns(b, n);
      assert b in txs;
    }
  }

  /** A name that is held afterwards, and was absent before or burned meanwhile, was minted in the block. */
  lemma {:induction false} NewIsMinted(l: Ledger, txs: seq<Tx>, n: string)
    requires Sound(l) && ValidAll(l, txs) && Held(ApplyAll(l, txs), n) && (!Held(l, n) || BurnsAny(txs, n))
    ensures MintsAny(txs, n)
    decreases |txs|
  {
    hide Sound, Valid, Mints, Burns;
    if txs != [] {
      var before, tx := txs[..|txs| - 1], txs[|txs| - 1];
      var m := ApplyAll(l, before);
      BlockStaysSound(l, before);
      if !Mints(tx, n) {
        NotMintedWasHeld(m, tx, n);
        BurnedEarlier(txs, n);
        NewIsMinted(l, before, n);
        MintedLater(txs, n);
      }
    }
  }

  lemma BurnedEarlier(txs: seq<Tx>, n: string)
    requires txs != [] && !Burns(txs[|txs| - 1], n)
    ensures BurnsAny(txs, n) ==> BurnsAny(txs[..|txs| - 1], n)
  {
    if t :| t in txs && Burns(t, n) { assert t in txs[..|txs| - 1]; }
  }

  lemma MintedLater(txs: seq<Tx>, n: string)
    requires txs != [] && MintsAny(txs[..|txs| - 1], n)
    ensures MintsAny(txs, n)
  {
    var t :| t in txs[..|txs| - 1] && Mints(t, n);
    assert t in txs;
  }

  lemma NotMintedWasHeld(m: Ledger, tx: Tx, n: string)
    requires Sound(m) && Valid(m, tx) && Held(Apply(m, tx), n) && !Mints(tx, n)
    ensures Held(m, n) && !Burns(tx, n)
  {
    var id :| Holder(Apply(m, tx), n, id);
    HolderAfter(m, tx, n, id);
    if id in Created(tx) {
      assert Enters(m, tx, n);
      var r :| r in tx.inputs && Holder(m, n, r);
    } else if Burns(tx, n) {
      BurnedHolderIsSpent(m, tx, n, id);
    }
  }
}
