/**
 The secondary indexes agree with the stored handles after any saves and removals, written at once
 or queued in batches.

 Those indexes are the ones that describe the handle itself. The OG and payment-key indexes are not part
 of the agreement; what a burn leaves in them is at the end.
 */
module IndexAgreement {
  import opened HandleTables
  import opened Wrappers

  // ---------- Buckets that describe the handle ----------

  predicate Own(b: Bucket) {
    b.Rarity? || b.Character? || b.NumericModifier? || b.Length? || b.HandleType? || b.Personalized? || b.Address?
        || b.Subhandle?
  }

  /** The handle has this key. */
  predicate OwnKey(lib: Lib, h: Handle, b: Bucket) {
    match b
    case Rarity(s) => s == h.rarity
    case Character(s) => s == h.characters
    case NumericModifier(s) => s == h.numericModifiers
    case Length(n) => n == h.length
    case HandleType(t) => t == h.handleType
    case Personalized(p) => p == h.personalized
    case Address(a) => a == h.address
    case Subhandle(r) => lib.root(h.name) == Some(r)
    case _ => false
  }

  predicate SaveKey(lib: Lib, h: Handle, b: Bucket) {
    match b
    case Og(n) => n == Flag(h.ogNumber > 0)
    case PaymentKey(k) => k == lib.paymentKey(h.address)
    case StakeHash(x) => lib.stakeHash(h.holder) == Some(x)
    case _ => OwnKey(lib, h, b)
  }

  predicate SaveClears(lib: Lib, h: Handle, previous: Option<Handle>, b: Bucket) {
    match b
    case Og(n) => n == Flag(h.ogNumber == 0)
    case Personalized(p) => p != h.personalized
    case Address(a) => previous.Some? && a == previous.value.address
    case PaymentKey(k) => previous.Some? && k.Some? && k == lib.paymentKey(previous.value.address)
    case HandleType(t) => previous.Some? && t == previous.value.handleType != h.handleType
    case _ => false
  }

  predicate BurnClears(lib: Lib, h: Handle, b: Bucket) {
    match b
    case Og(n) => n == h.ogNumber
    case Personalized(_) => true
    case PaymentKey(k) => k.Some? && k == lib.paymentKey(h.address)
    case _ => OwnKey(lib, h, b)
  }

  lemma OwnPair(lib: Lib, h: Handle, b: Bucket, n: string)
    ensures (b, n) in OwnPairs(lib, h) <==> n == h.name && OwnKey(lib, h, b)
  {
  }

  lemma SavedPair(lib: Lib, db: Db, h: Handle, previous: Option<Handle>, b: Bucket, n: string)
    ensures (b, n) in Save(lib, db, h, previous).sets <==>
              (n == h.name && SaveKey(lib, h, b))
              || ((b, n) in db.sets && !(n == h.name && SaveClears(lib, h, previous, b)))
  {
    OwnPair(lib, h, b, n);
  }

  lemma ForgottenPair(lib: Lib, db: Db, h: Handle, b: Bucket, n: string)
    ensures (b, n) in Forget(lib, db, h).sets <==> (b, n) in db.sets && !(n == h.name && BurnClears(lib, h, b))
  {
    OwnPair(lib, h, b, n);
  }

  /** A name is in a bucket exactly when its stored handle has that key; its SLOT score is its updated slot. */
  ghost predicate IndexOk(lib: Lib, db: Db) {
    && (forall n <- db.handles :: db.handles[n].name == n)
    && (forall b: Bucket, n: string | Own(b) :: (b, n) in db.sets <==> n in db.handles && OwnKey(lib, db.handles[n], b))
    && db.slots.Keys == db.handles.Keys && (forall n <- db.handles :: db.slots[n] == db.handles[n].updatedSlot)
    && db.handleRoot == db.handles.Keys
  }

  predicate SameShape(h: Handle, o: Handle) {
    h.rarity == o.rarity && h.characters == o.characters && h.numericModifiers == o.numericModifiers
        && h.length == o.length
  }

  lemma SavedRest(lib: Lib, db: Db, h: Handle, previous: Option<Handle>)
    ensures var after := Save(lib, db, h, previous);
            && after.handles == db.handles[h.name := h] && after.slots == db.slots[h.name := h.updatedSlot]
            && after.handleRoot == db.handleRoot + {h.name} && after.holderCount == db.holderCount
            && after.utxos == db.utxos && after.utxoSlot == db.utxoSlot && after.mint == db.mint
            && after.cursor == db.cursor && after.scanned == db.scanned
  {
  }

  /**
   Saving a handle over the stored one keeps the indexes right exactly when rarity, characters,
   numeric modifiers and length are unchanged: `save` never clears the old bucket of those four.
   */
  lemma SaveKeepsAgreement(lib: Lib, db: Db, h: Handle)
    requires IndexOk(lib, db)
    ensures IndexOk(lib, Save(lib, db, h, Find(db.handles, h.name))) <==>
              (h.name in db.handles ==> SameShape(h, db.handles[h.name]))
  {
    hide IndexOk, SameShape;
    if h.name in db.handles && !SameShape(h, db.handles[h.name]) {
      NewShapeLeavesOrphan(lib, db, h);
    } else {
      SameShapeAgrees(lib, db, h);
    }
  }

  lemma NewShapeLeavesOrphan(lib: Lib, db: Db, h: Handle)
    requires IndexOk(lib, db) && h.name in db.handles && !SameShape(h, db.handles[h.name])
    ensures !IndexOk(lib, Save(lib, db, h, Find(db.handles, h.name)))
  {
    hide Save;
    var previous := Find(db.handles, h.name);
    var o := db.handles[h.name];
    SavedRest(lib, db, h, previous);
    SavedPair(lib, db, h, previous, Rarity(o.rarity), h.name);
    SavedPair(lib, db, h, previous, Character(o.characters), h.name);
    SavedPair(lib, db, h, previous, NumericModifier(o.numericModifiers), h.name);
    SavedPair(lib, db, h, previous, Length(o.length), h.name);
    var b :=
      if h.rarity != o.rarity then Rarity(o.rarity)
      else if h.characters != o.characters then Character(o.characters)
      else if h.numericModifiers != o.numericModifiers then NumericModifier(o.numericModifiers)
      else Length(o.length);
    assert (b, h.name) in db.sets;
    assert (b, h.name) in Save(lib, db, h, previous).sets && !OwnKey(lib, h, b);
  }

  lemma SameShapeAgrees(lib: Lib, db: Db, h: Handle)
    requires IndexOk(lib, db) && (h.name in db.handles ==> SameShape(h, db.handles[h.name]))
    ensures IndexOk(lib, Save(lib, db, h, Find(db.handles, h.name)))
  {
    hide Save;
    var previous := Find(db.handles, h.name);
    var after := Save(lib, db, h, previous);
    SavedRest(lib, db, h, previous);
    forall b: Bucket, n: string | Own(b)
      ensures (b, n) in after.sets <==> n in after.handles && OwnKey(lib, after.handles[n], b)
    {
      SavedPair(lib, db, h, previous, b, n);
    }
  }

  lemma ForgetKeepsAgreement(lib: Lib, db: Db, h: Handle)
    requires IndexOk(lib, db) && Find(db.handles, h.name) == Some(h)
    ensures IndexOk(lib, Forget(lib, db, h))
  {
    var after := Forget(lib, db, h);
    forall b: Bucket, n: string | Own(b)
      ensures (b, n) in after.sets <==> n in after.handles && OwnKey(lib, after.handles[n], b)
    {
      ForgottenPair(lib, db, h, b, n);
    }
  }

  // ---------- Holders ----------

  lemma StakeMember(lib: Lib, holder: string, name: string, k: Bucket, n: string)
    ensures (k, n) in StakePair(lib, holder, name) <==> n == name && k.StakeHash? && lib.stakeHash(holder) == Some(k.h)
  {
  }

  lemma BucketMember(sets: Sets, b: Bucket, k: Bucket, n: string)
    ensures (k, n) in WithoutBucket(sets, b) <==> (k, n) in sets && k != b
  {
  }

  /** Removing a name from a holder touches only the holder, default and stake-hash buckets. */
  lemma LeaveFrame(lib: Lib, b: Batch, holder: string, name: string, known: nat)
    ensures var after := LeaveHolder(lib, b, holder, name, known).db;
            after == b.db.(sets := after.sets, holderCount := after.holderCount)
  {
    hide StakePair, WithoutBucket, Members, Pending;
  }

  lemma LeavePair(lib: Lib, b: Batch, holder: string, name: string, known: nat, k: Bucket, n: string)
    ensures var after := LeaveHolder(lib, b, holder, name, known).db;
            (k, n) in after.sets <==>
              (k, n) in b.db.sets && !(n == name && (k == HeldBy(holder) || k == DefaultHandle(holder)))
              && !(n == name && k.StakeHash? && lib.stakeHash(holder) == Some(k.h))
              && !(k == HeldBy(holder) && holder !in after.holderCount)
  {
    hide LeaveHolder, StakePair, WithoutBucket;
    var left := b.db.sets - {(HeldBy(holder), name), (DefaultHandle(holder), name)};
    LeaveSets(lib, b, holder, name, known);
    StakeMember(lib, holder, name, k, n);
    BucketMember(left, HeldBy(holder), k, n);
  }

  lemma LeaveSets(lib: Lib, b: Batch, holder: string, name: string, known: nat)
    ensures var after := LeaveHolder(lib, b, holder, name, known).db;
            var left := b.db.sets - {(HeldBy(holder), name), (DefaultHandle(holder), name)};
            after.sets == (if holder in after.holderCount then left else WithoutBucket(left, HeldBy(holder))) -
                StakePair(lib, holder, name)
  {
    hide StakePair, WithoutBucket, Members, Pending;
    var after := LeaveHolder(lib, b, holder, name, known).db;
    assert after.holderCount == b.db.holderCount - {holder} || holder in after.holderCount;
  }

  lemma LeaveKeepsAgreement(lib: Lib, b: Batch, holder: string, name: string, known: nat)
    requires IndexOk(lib, b.db)
    ensures IndexOk(lib, LeaveHolder(lib, b, holder, name, known).db)
  {
    hide LeaveHolder;
    var after := LeaveHolder(lib, b, holder, name, known).db;
    LeaveFrame(lib, b, holder, name, known);
    forall k: Bucket, n: string | Own(k)
      ensures (k, n) in after.sets <==> n in after.handles && OwnKey(lib, after.handles[n], k)
    {
      LeavePair(lib, b, holder, name, known, k, n);
    }
  }

  /** Removing a stored handle, whole or one unit of it, keeps the indexes right. */
  lemma RemoveKeepsAgreement(lib: Lib, b: Batch, h: Handle)
    requires IndexOk(lib, b.db) && Find(b.db.handles, h.name) == Some(h)
    ensures IndexOk(lib, RemoveHandle(lib, b, h).db)
  {
    hide Save, Forget, LeaveHolder, IndexOk;
    if h.amount - 1 <= 0 {
      ForgetKeepsAgreement(lib, b.db, h);
      LeaveKeepsAgreement(lib, b.(db := Forget(lib, b.db, h)), h.holder, h.name, 0);
    } else {
      SaveKeepsAgreement(lib, b.db, h.(amount := h.amount - 1));
    }
  }

  lemma RemoveNowKeepsAgreement(lib: Lib, db: Db, h: Handle)
    requires IndexOk(lib, db) && Find(db.handles, h.name) == Some(h)
    ensures var after := RemoveHandleNow(lib, db, h);
            && IndexOk(lib, after)
            && after.handles ==
                 if h.amount - 1 <= 0 then db.handles - {h.name} else db.handles[h.name := h.(amount := h.amount - 1)]
  {
    hide Save, LeaveHolder, IndexOk, Members, BurnRemoves;
    if h.amount - 1 <= 0 {
      var d := Forget(lib, db, h);
      var known := |Members(d.sets, HeldBy(h.holder)) - {h.name}|;
      ForgetKeepsAgreement(lib, db, h);
      LeaveKeepsAgreement(lib, Open(d), h.holder, h.name, known);
      LeaveFrame(lib, Open(d), h.holder, h.name, known);
    } else {
      SaveKeepsAgreement(lib, db, h.(amount := h.amount - 1));
      SavedRest(lib, db, h.(amount := h.amount - 1), Some(h));
    }
  }

  // ---------- Any sequence of edits ----------

  /**
   One step of a run of edits; `Flush` sends the queue, and between two of them everything is one
   batch. A removal outside any batch is `RemoveNow`.
   */
  datatype Edit = SaveEdit(handle: Handle) | RemoveEdit(name: string) | RemoveNow(name: string) | Flush

  function ApplyEdit(lib: Lib, b: Batch, e: Edit): Batch {
    match e
    case SaveEdit(h) => b.(db := Save(lib, b.db, h, Find(b.db.handles, h.name)))
    case RemoveEdit(n) => if n in b.db.handles then RemoveHandle(lib, b, b.db.handles[n]) else b
    case RemoveNow(n) => Open(if n in b.db.handles then RemoveHandleNow(lib, b.db, b.db.handles[n]) else b.db)
    case Flush => Open(b.db)
  }

  function ApplyEdits(lib: Lib, b: Batch, es: seq<Edit>): Batch {
    if es == [] then b else ApplyEdit(lib, ApplyEdits(lib, b, es[..|es| - 1]), es[|es| - 1])
  }

  /** The four fields that the name determines for good. */
  predicate Lasting(lib: Lib, h: Handle) {
    h.rarity == lib.rarity(h.name) && h.characters == lib.characters(h.name)
    && h.numericModifiers == lib.numericModifiers(h.name) && h.length == |h.name|
  }

  ghost predicate AllLasting(lib: Lib, db: Db) {
    forall n <- db.handles :: Lasting(lib, db.handles[n])
  }

  /** Everything that an owner token's record takes from its name: a subhandle is one whose name has a root. */
  predicate Derived(lib: Lib, h: Handle) {
    && Lasting(lib, h) && h.ogNumber == lib.ogNumber(h.name) && !h.personalized
    && h.handleType == match lib.root(h.name) case Some(_) => "nft_subhandle" case None => "handle"
  }

  ghost predicate AllDerived(lib: Lib, db: Db) {
    forall n <- db.handles :: Derived(lib, db.handles[n])
  }

  lemma EditKeepsAgreement(lib: Lib, b: Batch, e: Edit)
    requires IndexOk(lib, b.db) && AllLasting(lib, b.db) && (e.SaveEdit? ==> Lasting(lib, e.handle))
    ensures IndexOk(lib, ApplyEdit(lib, b, e).db) && AllLasting(lib, ApplyEdit(lib, b, e).db)
  {
    hide Save, Forget, LeaveHolder;
    match e
    case SaveEdit(h) =>
      SaveKeepsAgreement(lib, b.db, h);
      SavedRest(lib, b.db, h, Find(b.db.handles, h.name));
    case RemoveEdit(n) =>
      if n in b.db.handles {
        var h := b.db.handles[n];
        RemoveKeepsAgreement(lib, b, h);
        RemovedHandles(lib, b, h);
      }
    case RemoveNow(n) =>
      if n in b.db.handles { RemoveNowKeepsAgreement(lib, b.db, b.db.handles[n]); }
    case Flush =>
  }

  lemma RemovedHandles(lib: Lib, b: Batch, h: Handle)
    ensures RemoveHandle(lib, b, h).db.handles ==
              if h.amount - 1 <= 0 then b.db.handles - {h.name} else b.db.handles[h.name := h.(amount := h.amount - 1)]
  {
    hide Save, LeaveHolder;
    LeaveFrame(lib, b.(db := Forget(lib, b.db, h)), h.holder, h.name, 0);
    SavedRest(lib, b.db, h.(amount := h.amount - 1), Some(h));
  }

  /**
   After any sequence of saves and removals, cut into batches anywhere, every index bucket holds
   exactly the names whose stored handle has that key.
   */
  lemma {:induction false} EditsKeepAgreement(lib: Lib, db: Db, es: seq<Edit>)
    requires IndexOk(lib, db) && AllLasting(lib, db) && forall e <- es :: e.SaveEdit? ==> Lasting(lib, e.handle)
    ensures IndexOk(lib, ApplyEdits(lib, Open(db), es).db) && AllLasting(lib, ApplyEdits(lib, Open(db), es).db)
  {
    if es != [] {
      assert es[|es| - 1] in es;
      EditsKeepAgreement(lib, db, es[..|es| - 1]);
      EditKeepsAgreement(lib, ApplyEdits(lib, Open(db), es[..|es| - 1]), es[|es| - 1]);
    }
  }

  /**
   The OG and payment-key indexes are not part of that agreement. A burn leaves the name behind in
   them exactly when the OG number is above 1 or the address has no payment key.
   */
  lemma BurnLeavesNothing(lib: Lib, b: Batch, h: Handle)
    requires IndexOk(lib, b.db) && Find(b.db.handles, h.name) == Some(h) && h.amount <= 1
    requires forall k: Bucket | k.Og? || k.PaymentKey? :: (k, h.name) in b.db.sets <==> SaveKey(lib, h, k)
    ensures (forall k: Bucket | Own(k) || k.Og? || k.PaymentKey? :: (k, h.name) !in RemoveHandle(lib, b, h).db.sets)
              <==> h.ogNumber <= 1 && lib.paymentKey(h.address).Some?
  {
    hide Save, Forget, LeaveHolder;
    var after := RemoveHandle(lib, b, h).db;
    var mid := b.(db := Forget(lib, b.db, h));
    forall k: Bucket | Own(k) || k.Og? || k.PaymentKey?
      ensures (k, h.name) in after.sets <==> (k, h.name) in b.db.sets && !BurnClears(lib, h, k)
    {
      ForgottenPair(lib, b.db, h, k, h.name);
      LeavePair(lib, mid, h.holder, h.name, 0, k, h.name);
    }
    assert (Og(Flag(h.ogNumber > 0)), h.name) in after.sets <==> h.ogNumber > 1;
    assert (PaymentKey(lib.paymentKey(h.address)), h.name) in after.sets <==> lib.paymentKey(h.address).None?;
  }
}
