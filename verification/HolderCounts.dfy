/**
 HOLDER_COUNT against the HOLDER sets (repositories/handlesRepository.ts:1491-1536,
 stores/redis/index.ts:93-100, 444-465).

 Inside a batch no set can be read: the size before the batch less the removals queued since decides, or the
 caller's map of the holder when there is one.
 */
module HolderCounts {
  import opened HandleTables
  import IndexAgreement
  import opened Wrappers

  function HolderSet(sets: Sets, a: string): set<string> {
    Members(sets, HeldBy(a))
  }

  lemma InHolderSet(sets: Sets, a: string, n: string)
    ensures n in HolderSet(sets, a) <==> (HeldBy(a), n) in sets
  {
    if (HeldBy(a), n) in sets {
      var p := (HeldBy(a), n);
      assert p in sets && p.0 == HeldBy(a) && p.1 == n;
    }
  }

  /** The count is the size of the set, and absent exactly when the set is empty. */
  predicate CountOk(db: Db, a: string) {
    var size := |HolderSet(db.sets, a)|;
    if size == 0 then a !in db.holderCount else a in db.holderCount && db.holderCount[a] == size
  }

  /** What the server still shows of the holder is what will be left plus what the queue removes. */
  predicate Tracked(b: Batch, a: string) {
    HolderSet(b.db.sets, a) <= HolderSet(b.live, a)
        && |HolderSet(b.live, a)| == |HolderSet(b.db.sets, a)| + Pending(b, a)
  }

  /** Nothing about this holder changed between two states of a batch. */
  predicate SameHolder(b: Batch, c: Batch, a: string) {
    && HolderSet(c.db.sets, a) == HolderSet(b.db.sets, a) && HolderSet(c.live, a) == HolderSet(b.live, a)
    && Pending(c, a) == Pending(b, a) && Find(c.db.holderCount, a) == Find(b.db.holderCount, a)
  }

  lemma SameCarries(b: Batch, c: Batch, a: string)
    requires SameHolder(b, c, a)
    ensures Tracked(c, a) <==> Tracked(b, a)
    ensures CountOk(c.db, a) <==> CountOk(b.db, a)
  {
    hide HolderSet, Pending;
    assert a in c.db.holderCount <==> a in b.db.holderCount;
  }

  lemma SetsAgree(s: Sets, t: Sets, a: string)
    requires forall n: string :: (HeldBy(a), n) in s <==> (HeldBy(a), n) in t
    ensures HolderSet(s, a) == HolderSet(t, a)
  {
    forall n: string ensures n in HolderSet(s, a) <==> n in HolderSet(t, a) {
      InHolderSet(s, a, n);
      InHolderSet(t, a, n);
    }
  }

  lemma SaveKeepsHolders(lib: Lib, db: Db, h: Handle, previous: Option<Handle>, a: string)
    ensures HolderSet(Save(lib, db, h, previous).sets, a) == HolderSet(db.sets, a)
  {
    hide Save;
    forall n: string ensures (HeldBy(a), n) in Save(lib, db, h, previous).sets <==> (HeldBy(a), n) in db.sets {
      IndexAgreement.SavedPair(lib, db, h, previous, HeldBy(a), n);
    }
    SetsAgree(Save(lib, db, h, previous).sets, db.sets, a);
  }

  lemma ForgetKeepsHolders(lib: Lib, db: Db, h: Handle, a: string)
    ensures HolderSet(Forget(lib, db, h).sets, a) == HolderSet(db.sets, a)
  {
    hide Forget;
    forall n: string ensures (HeldBy(a), n) in Forget(lib, db, h).sets <==> (HeldBy(a), n) in db.sets {
      IndexAgreement.ForgottenPair(lib, db, h, HeldBy(a), n);
    }
    SetsAgree(Forget(lib, db, h).sets, db.sets, a);
  }

  // ---------- One removal ----------

  /** The number that `_removeHandleFromHolder` decides on. */
  function Left(b: Batch, holder: string, known: nat): int {
    if known > 0 then known else |HolderSet(b.live, holder)| - (Pending(b, holder) + 1)
  }

  lemma LeaveCount(lib: Lib, b: Batch, holder: string, name: string, known: nat)
    ensures var after := LeaveHolder(lib, b, holder, name, known); var left := Left(b, holder, known);
            && after.live == b.live && Pending(after, holder) == Pending(b, holder) + 1
            && after.db.holderCount == (if left > 0 then b.db.holderCount[holder := left]
                                        else b.db.holderCount - {holder})
            && forall a: string | a != holder :: Pending(after, a) == Pending(b, a)
  {
    hide Members, StakePair, WithoutBucket;
  }

  lemma LeaveSet(lib: Lib, b: Batch, holder: string, name: string, known: nat, a: string)
    ensures HolderSet(LeaveHolder(lib, b, holder, name, known).db.sets, a) ==
              if a != holder then HolderSet(b.db.sets, a)
              else if Left(b, holder, known) > 0 then HolderSet(b.db.sets, a) - {name} else {}
  {
    hide LeaveHolder, HolderSet, Left;
    LeaveCount(lib, b, holder, name, known);
    var after := LeaveHolder(lib, b, holder, name, known).db;
    forall n: string
      ensures n in HolderSet(after.sets, a) <==>
                n in HolderSet(b.db.sets, a) && !(a == holder && (n == name || Left(b, holder, known) <= 0))
    {
      InHolderSet(after.sets, a, n);
      InHolderSet(b.db.sets, a, n);
      IndexAgreement.LeavePair(lib, b, holder, name, known, HeldBy(a), n);
    }
  }

  lemma LeaveSparesOthers(lib: Lib, b: Batch, holder: string, name: string, known: nat, a: string)
    requires a != holder
    ensures SameHolder(b, LeaveHolder(lib, b, holder, name, known), a)
  {
    hide LeaveHolder, HolderSet, Left, Pending;
    LeaveCount(lib, b, holder, name, known);
    LeaveSet(lib, b, holder, name, known, a);
  }

  /** Whether the caller's map or the size before the batch decides, the holder ends up right. */
  lemma LeaveKeepsCount(lib: Lib, b: Batch, holder: string, name: string, known: nat)
    requires Tracked(b, holder) && name in HolderSet(b.db.sets, holder)
    requires known == 0 || known == |HolderSet(b.db.sets, holder)| - 1
    ensures var after := LeaveHolder(lib, b, holder, name, known);
            && Tracked(after, holder) && CountOk(after.db, holder)
            && HolderSet(after.db.sets, holder) == HolderSet(b.db.sets, holder) - {name}
  {
    hide LeaveHolder, HolderSet, Pending;
    LeaveCount(lib, b, holder, name, known);
    LeaveSet(lib, b, holder, name, known, holder);
    var was := HolderSet(b.db.sets, holder);
    assert |was - {name}| == |was| - 1;
    assert was - {name} == {} <==> |was| == 1;
  }

  // ---------- A batch of burns ----------

  function BurnedOf(hs: seq<Handle>, a: string): set<string> {
    set h <- hs | h.holder == a :: h.name
  }

  ghost predicate Distinct(hs: seq<Handle>) {
    forall i, j | 0 <= i < j < |hs| :: hs[i].name != hs[j].name
  }

  /** One burn inside a batch. */
  lemma BurnKeepsCount(lib: Lib, b: Batch, h: Handle, a: string)
    requires h.amount <= 1 && Tracked(b, a) && CountOk(b.db, a) && (a == h.holder ==> h.name in HolderSet(b.db.sets, a))
    ensures var after := RemoveHandle(lib, b, h);
            && Tracked(after, a) && CountOk(after.db, a)
            && HolderSet(after.db.sets, a) == HolderSet(b.db.sets, a) - if h.holder == a then {h.name} else {}
  {
    hide LeaveHolder, HolderSet, Save, BurnRemoves;
    ForgetKeepsHolders(lib, b.db, h, a);
    var c := b.(db := Forget(lib, b.db, h));
    SameCarries(b, c, a);
    if a == h.holder {
      LeaveKeepsCount(lib, c, a, h.name, 0);
    } else {
      LeaveSparesOthers(lib, c, h.holder, h.name, 0, a);
      SameCarries(c, LeaveHolder(lib, c, h.holder, h.name, 0), a);
    }
  }

  lemma BurnedGrows(hs: seq<Handle>, a: string)
    requires hs != []
    ensures var h := hs[|hs| - 1];
            BurnedOf(hs, a) == BurnedOf(hs[..|hs| - 1], a) + if h.holder == a then {h.name} else {}
  {
    assert hs == hs[..|hs| - 1] + [hs[|hs| - 1]];
  }

  /**
   A batch that burns distinct names, each in its holder's set, leaves every holder with exactly the
   names it did not burn and the count that goes with them.
   */
  lemma {:induction false} BurnsKeepCounts(lib: Lib, db: Db, hs: seq<Handle>, a: string)
    requires CountOk(db, a) && Distinct(hs)
    requires forall h <- hs :: h.amount <= 1 && h.name in HolderSet(db.sets, h.holder)
    ensures var after := RemoveHandles(lib, Open(db), hs);
            && Tracked(after, a) && CountOk(after.db, a)
               && HolderSet(after.db.sets, a) == HolderSet(db.sets, a) - BurnedOf(hs, a)
  {
    hide RemoveHandle, HolderSet, Tracked, CountOk, BurnedOf;
    if hs == [] {
      BurnNothing(db, a);
    } else {
      var before, h := hs[..|hs| - 1], hs[|hs| - 1];
      BurnsKeepCounts(lib, db, before, a);
      BurnedGrows(hs, a);
      assert h in hs;
      if h.name in BurnedOf(before, a) { BurnedBefore(before, a, h.name); }
      BurnKeepsCount(lib, RemoveHandles(lib, Open(db), before), h, a);
    }
  }

  lemma BurnNothing(db: Db, a: string)
    ensures Tracked(Open(db), a) && BurnedOf([], a) == {}
  {
  }

  lemma BurnedBefore(hs: seq<Handle>, a: string, n: string)
    requires n in BurnedOf(hs, a)
    ensures exists i | 0 <= i < |hs| :: hs[i].name == n
  {
  }

  /**
   Membership is needed: burning one handle leaves its holder with exactly the other names, rightly
   counted, if and only if the name was in the holder's set or the set was empty.
   */
  lemma BurnNeedsMembership(lib: Lib, db: Db, h: Handle)
    requires h.amount <= 1 && CountOk(db, h.holder)
    ensures var was, after := HolderSet(db.sets, h.holder), RemoveHandle(lib, Open(db), h).db;
            (CountOk(after, h.holder) && HolderSet(after.sets, h.holder) == was - {h.name}) <==>
                (h.name in was || was == {})
  {
    hide LeaveHolder, HolderSet, Save, BurnRemoves;
    ForgetKeepsHolders(lib, db, h, h.holder);
    var c := Open(db).(db := Forget(lib, db, h));
    LeaveCount(lib, c, h.holder, h.name, 0);
    LeaveSet(lib, c, h.holder, h.name, 0, h.holder);
    var was := HolderSet(db.sets, h.holder);
    if h.name in was { assert |was - {h.name}| == |was| - 1; } else { assert was - {h.name} == was; }
  }

  /** Outside a batch the set is read after the removal, and the count is right whether or not the name was in it. */
  lemma BurnNowKeepsCount(lib: Lib, db: Db, h: Handle)
    requires h.amount <= 1
    ensures var was, after := HolderSet(db.sets, h.holder), RemoveHandleNow(lib, db, h);
            CountOk(after, h.holder) && HolderSet(after.sets, h.holder) == was - {h.name}
  {
    hide LeaveHolder, Members, Save, BurnRemoves, Left;
    ForgetKeepsHolders(lib, db, h, h.holder);
    var d := Forget(lib, db, h);
    var kept := HolderSet(d.sets, h.holder) - {h.name};
    LeaveCount(lib, Open(d), h.holder, h.name, |kept|);
    LeaveSet(lib, Open(d), h.holder, h.name, |kept|, h.holder);
    FewLeft(HolderSet(d.sets, h.holder), h.name);
    LeftInOne(d, h.holder, |kept|);
  }

  lemma LeftInOne(d: Db, a: string, known: nat)
    ensures Left(Open(d), a, known) == if known > 0 then known else |HolderSet(d.sets, a)| - 1
  {
  }

  lemma FewLeft(s: set<string>, n: string)
    ensures s - {n} == {} ==> |s| <= 1
  {
    if s - {n} == {} { assert s <= {n}; assert s == {} || s == {n}; }
  }
}
