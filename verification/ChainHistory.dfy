/**
 Where an output came from and where it went, over a whole chain.

 An output is live at a point of the chain exactly when it was created before and not spent before;
 every input was created by an earlier transaction and is spent by no other. The ancestry walk of the
 repair reader relies on these.
 */
module ChainHistory {
  import opened Ledger
  import opened NetUtxo

  /** A valid chain: transaction ids are unique and slots never fall. */
  ghost predicate Chain(txs: seq<Tx>) {
    && ValidAll(GENESIS, txs)
    && (forall i, j | 0 <= i < j < |txs| :: txs[i].id != txs[j].id && txs[i].slot <= txs[j].slot)
  }

  function At(txs: seq<Tx>, k: nat): Ledger
    requires k <= |txs|
  {
    ApplyAll(GENESIS, txs[..k])
  }

  lemma {:induction false} PrefixValid(txs: seq<Tx>, k: nat)
    requires ValidAll(GENESIS, txs) && k <= |txs|
    ensures ValidAll(GENESIS, txs[..k]) && Sound(At(txs, k))
    ensures k < |txs| ==> Valid(At(txs, k), txs[k]) && At(txs, k + 1) == Apply(At(txs, k), txs[k])
    decreases |txs|
  {
    hide Valid, Sound, Apply;
    GenesisIsSound();
    if k == |txs| {
      assert txs[..k] == txs;
      BlockStaysSound(GENESIS, txs);
    } else {
      var before := txs[..|txs| - 1];
      PrefixValid(before, k);
      assert before[..k] == txs[..k];
      if k == |txs| - 1 {
        assert txs[..k + 1] == txs && txs[..k] == before;
      } else {
        assert before[..k + 1] == txs[..k + 1];
      }
    }
  }

  lemma GenesisIsSound()
    ensures Sound(GENESIS)
  {
  }

  /** Created before `k` and not spent before `k`. */
  ghost predicate LiveAt(txs: seq<Tx>, k: nat, id: OutRef)
    requires k <= |txs|
  {
    (exists i | 0 <= i < k :: id in Created(txs[i])) && forall i | 0 <= i < k :: id !in Spent(txs[i])
  }

  /** The ledger's live outputs are those created and never spent. */
  lemma {:induction false} LiveMeansLive(txs: seq<Tx>, k: nat, id: OutRef)
    requires Chain(txs) && k <= |txs|
    ensures id in At(txs, k).utxo <==> LiveAt(txs, k, id)
    ensures forall i | 0 <= i < k && id in At(txs, k).utxo && id in Created(txs[i]) ::
              At(txs, k).utxo[id] == Created(txs[i])[id]
    ensures forall i | 0 <= i < k && id in Created(txs[i]) :: id in At(txs, k).used
    decreases k
  {
    hide ValidAll, Sound, Valid, Created, Spent;
    PrefixValid(txs, k);
    if k > 0 {
      PrefixValid(txs, k - 1);
      LiveMeansLive(txs, k - 1, id);
      NewIsFresh(At(txs, k - 1), txs[k - 1], id);
      if id in Created(txs[k - 1]) { NeverSpentBefore(txs, k - 1, id); }
    }
  }

  lemma NewIsFresh(l: Ledger, tx: Tx, id: OutRef)
    requires Sound(l) && Valid(l, tx)
    ensures id in Created(tx) ==> id !in l.used && id !in l.utxo && id !in Spent(tx)
  {
    assert forall r <- tx.inputs :: r in l.utxo;
  }

  /** An id that is still unused was never spent. */
  lemma NeverSpentBefore(txs: seq<Tx>, k: nat, id: OutRef)
    requires Chain(txs) && k <= |txs| && id !in At(txs, k).used
    ensures forall i | 0 <= i < k :: id !in Spent(txs[i])
    decreases k
  {
    hide ValidAll, Sound, Valid, Created, Spent;
    if k > 0 {
      PrefixValid(txs, k - 1);
      NeverSpentBefore(txs, k - 1, id);
      SpentIsUsed(At(txs, k - 1), txs[k - 1], id);
    }
  }

  lemma SpentIsUsed(l: Ledger, tx: Tx, id: OutRef)
    requires Sound(l) && Valid(l, tx)
    ensures id in Spent(tx) ==> id in l.used && id in l.utxo
  {
    assert l.utxo.Keys <= l.used;
  }

  /** Every input was created by an earlier transaction and is spent by no other. */
  lemma InputHistory(txs: seq<Tx>, k: nat, id: OutRef)
    requires Chain(txs) && k < |txs| && id in Spent(txs[k])
    ensures LiveAt(txs, k, id) && id in At(txs, k).utxo
    ensures forall i | 0 <= i < |txs| && id in Spent(txs[i]) :: i == k
  {
    hide ValidAll, Sound, Valid, Created, Spent;
    PrefixValid(txs, k);
    SpentIsUsed(At(txs, k), txs[k], id);
    LiveMeansLive(txs, k, id);
    forall i | 0 <= i < |txs| && id in Spent(txs[i]) ensures i == k {
      PrefixValid(txs, i);
      SpentIsUsed(At(txs, i), txs[i], id);
      LiveMeansLive(txs, i, id);
    }
  }

  /** An output is created once. */
  lemma CreatedOnce(txs: seq<Tx>, i: nat, j: nat, id: OutRef)
    requires Chain(txs) && i < |txs| && j < |txs| && id in Created(txs[i]) && id in Created(txs[j])
    ensures i == j && id.tx == txs[i].id
  {
  }
}
