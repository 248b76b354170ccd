/**
 Concrete states for the index lemmas with a condition.

 What is left behind, and what is lost, where the condition fails
 (repositories/handlesRepository.ts:933-937, 1207-1286, 1497-1528).

 The library functions stay arbitrary.
 */
module IndexExamples {
  import opened BlockRefinement
  import opened HandleTables
  import opened HolderCounts
  import opened IndexAgreement
  import opened Ledger
  import opened Wrappers

  /** A fresh handle as the program builds it, at an address and with an OG number. */
  function Fresh(lib: Lib, name: string, og: nat, address: string): Handle {
    Handle(name, Legacy(name), lib.rarity(name), lib.characters(name), lib.numericModifiers(name), |name|, og,
           "handle", false, address, lib.holderOf(address), 1, Some(OutRef("t0", 0)), 1, 1, 1)
  }

  function SavedAlone(lib: Lib, h: Handle): Db {
    Save(lib, EMPTY, h, None)
  }

  lemma AloneIsIndexed(lib: Lib, h: Handle)
    ensures IndexOk(lib, SavedAlone(lib, h)) && Find(SavedAlone(lib, h).handles, h.name) == Some(h)
    ensures forall k: Bucket :: (k, h.name) in SavedAlone(lib, h).sets <==> SaveKey(lib, h, k)
  {
    hide Save, OwnKey;
    SavedRest(lib, EMPTY, h, None);
    forall k: Bucket, n: string
      ensures (k, n) in SavedAlone(lib, h).sets <==> n == h.name && SaveKey(lib, h, k)
    {
      SavedPair(lib, EMPTY, h, None, k, n);
    }
  }

  /** Number 2, saved into empty tables and burned: the handle is gone and its OG entry is not. */
  lemma OgEntryStays(lib: Lib)
    ensures var h := Fresh(lib, "a", 2, "addr"); var after := RemoveHandle(lib, Open(SavedAlone(lib, h)), h).db;
            "a" !in after.handles && (Og(1), "a") in after.sets
  {
    hide Save, Forget, LeaveHolder, SavedAlone;
    var h := Fresh(lib, "a", 2, "addr");
    var b := Open(SavedAlone(lib, h));
    AloneIsIndexed(lib, h);
    RemovedHandles(lib, b, h);
    ForgottenPair(lib, b.db, h, Og(1), "a");
    LeavePair(lib, b.(db := Forget(lib, b.db, h)), h.holder, "a", 0, Og(1), "a");
  }

  /** An address without a payment key: the entry under the undefined key stays. */
  lemma PaymentKeyEntryStays(lib: Lib)
    requires lib.paymentKey("script").None?
    ensures var h := Fresh(lib, "a", 0, "script"); var after := RemoveHandle(lib, Open(SavedAlone(lib, h)), h).db;
            "a" !in after.handles && (PaymentKey(None), "a") in after.sets
  {
    hide Save, Forget, LeaveHolder, SavedAlone;
    var h := Fresh(lib, "a", 0, "script");
    var b := Open(SavedAlone(lib, h));
    AloneIsIndexed(lib, h);
    RemovedHandles(lib, b, h);
    ForgottenPair(lib, b.db, h, PaymentKey(None), "a");
    LeavePair(lib, b.(db := Forget(lib, b.db, h)), h.holder, "a", 0, PaymentKey(None), "a");
  }

  /** Saving over a handle of another rarity leaves the name in the old bucket. */
  lemma OldRarityStays(lib: Lib)
    ensures var h := Fresh(lib, "a", 0, "addr").(rarity := "rare"); var other := h.(rarity := "common");
            var after := Save(lib, SavedAlone(lib, h), other, Some(h));
            after.handles["a"].rarity == "common" && (Rarity("rare"), "a") in after.sets
  {
    hide Save, SavedAlone;
    var h := Fresh(lib, "a", 0, "addr").(rarity := "rare");
    AloneIsIndexed(lib, h);
    SavedRest(lib, SavedAlone(lib, h), h.(rarity := "common"), Some(h));
    SavedPair(lib, SavedAlone(lib, h), h.(rarity := "common"), Some(h), Rarity("rare"), "a");
  }

  /** A holder of "x" only, with the right count. */
  const ONE_HELD := EMPTY.(sets := {(HeldBy("holder"), "x")}, holderCount := map["holder" := 1])

  /** Burning in a batch a handle that names this holder without being in its set takes "x" from it. */
  lemma OthersAreLost(lib: Lib)
    ensures var h := Fresh(lib, "y", 0, "addr").(holder := "holder");
            var after := RemoveHandle(lib, Open(ONE_HELD), h).db;
            && CountOk(ONE_HELD, "holder") && HolderSet(ONE_HELD.sets, "holder") == {"x"}
            && HolderSet(after.sets, "holder") == {} && "holder" !in after.holderCount
  {
    hide LeaveHolder, Save, BurnRemoves;
    var h := Fresh(lib, "y", 0, "addr").(holder := "holder");
    assert HolderSet(ONE_HELD.sets, "holder") == {"x"} by { InHolderSet(ONE_HELD.sets, "holder", "x"); }
    ForgetKeepsHolders(lib, ONE_HELD, h, "holder");
    var c := Open(ONE_HELD).(db := Forget(lib, ONE_HELD, h));
    LeaveCount(lib, c, "holder", "y", 0);
    LeaveSet(lib, c, "holder", "y", 0, "holder");
  }
}
