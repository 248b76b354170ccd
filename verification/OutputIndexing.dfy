/**
 One output's batch: each named token updates its handle, its new and old holder and their counts
 through the caller's maps (repositories/handlesRepository.ts:1008-1205), and every table agrees
 afterwards.

 A name joins the holder of the output's address, leaves its old holder, and its record is saved; the
 three steps are followed one by one and then put together for all assets of the output.
 */
module OutputIndexing {
  import opened BlockIndexer
  import opened HandleTables
  import opened HolderCounts
  import opened IndexAgreement
  import opened Ledger
  import opened TableInvariants
  import opened Wrappers

  // ---------- The record ----------

  /** What `updateHandleIndexes` saves. */
  function NewRecord(lib: Lib, existing: Option<Handle>, u: Utxo, asset: Asset, created: nat): Handle {
    var h := Updated(lib, existing, u, asset, created);
    h.(holder := lib.holderOf(h.address))
  }

  /** The output's token is not taken for a second mint of a stored handle. */
  predicate NotDouble(existing: Option<Handle>, u: Utxo) {
    existing.Some? ==> existing.value.asset !in u.mint || existing.value.utxo == Some(u.id)
  }

  /** The saved record points at the output, whatever was stored before. */
  lemma RecordFollowsOutput(lib: Lib, existing: Option<Handle>, u: Utxo, asset: Asset, created: nat)
    requires asset != NAMELESS && NotDouble(existing, u)
    requires existing.Some? ==>
               RecordOk(lib, existing.value, u.slot) && existing.value.name == asset.name
                   && Derived(lib, existing.value)
    ensures var h := NewRecord(lib, existing, u, asset, created);
            && RecordOk(lib, h, u.slot) && Derived(lib, h) && h.name == asset.name && h.utxo == Some(u.id)
            && h.address == u.address && h.lovelace == u.lovelace && h.updatedSlot == u.slot && h.asset == asset
            && h.holder == lib.holderOf(u.address)
            && (existing.Some? ==> SameShape(h, existing.value) && h.createdSlot == existing.value.createdSlot)
  {
  }

  // ---------- The record over any outputs of one name ----------

  /** A name's token at an output, and the first slot of the minting data it is indexed with. */
  datatype Sighting = Sighting(out: Utxo, asset: Asset, first: nat)

  /** The record after these, in this order, whatever their slots. */
  function Recorded(lib: Lib, seen: seq<Sighting>): Handle
    requires seen != []
  {
    var before, s := seen[..|seen| - 1], seen[|seen| - 1];
    NewRecord(lib, if before == [] then None else Some(Recorded(lib, before)), s.out, s.asset, s.first)
  }

  /** No output has a later slot, and none with that slot came afterwards. */
  ghost predicate Latest(seen: seq<Sighting>, i: nat)
    requires i < |seen|
  {
    forall j | 0 <= j < |seen| ::
      seen[j].out.slot <= seen[i].out.slot && (i < j ==> seen[j].out.slot < seen[i].out.slot)
  }

  function LatestOf(seen: seq<Sighting>): (i: nat)
    requires seen != []
    ensures i < |seen| && Latest(seen, i)
  {
    var k := |seen| - 1;
    if k == 0 then 0
    else
      var b := LatestOf(seen[..k]);
      if seen[k].out.slot < seen[b].out.slot then b else k
  }

  /** The output mints the token that is known at another output, not a newer one. */
  ghost predicate MintsTwice(last: Sighting, s: Sighting) {
    last.asset in s.out.mint && last.out.slot <= s.out.slot && last.out.id != s.out.id
  }

  /** The output mints the token and is older than the one it is known at. */
  ghost predicate MintsLate(last: Sighting, s: Sighting) {
    last.asset in s.out.mint && s.out.slot < last.out.slot
  }

  ghost predicate SecondAt(seen: seq<Sighting>, j: nat) {
    0 < j < |seen| && MintsTwice(seen[LatestOf(seen[..j])], seen[j])
  }

  ghost predicate LateAt(seen: seq<Sighting>, j: nat) {
    0 < j < |seen| && MintsLate(seen[LatestOf(seen[..j])], seen[j])
  }

  ghost function SecondMints(seen: seq<Sighting>): set<nat> {
    set j: nat | j < |seen| && SecondAt(seen, j)
  }

  ghost function LateMints(seen: seq<Sighting>): set<nat> {
    set j: nat | j < |seen| && LateAt(seen, j)
  }

  /** The dates that count as the creation of the name. */
  ghost function Dates(seen: seq<Sighting>): set<nat>
    requires seen != []
  {
    {seen[0].first} + set j <- LateMints(seen) :: seen[j].out.slot
  }

  /**
   Whatever the order of arrival, the record is at the latest output; it has one unit for each second mint, and
   its creation date is the earliest of the first minting datum's and of the mints that came too late to move it.
   */
  lemma {:induction false} RecordIsLatest(lib: Lib, seen: seq<Sighting>, i: nat)
    requires i < |seen| && Latest(seen, i)
    ensures var h, u := Recorded(lib, seen), seen[i].out;
            && h.utxo == Some(u.id) && h.address == u.address && h.lovelace == u.lovelace
            && h.updatedSlot == u.slot && h.holder == lib.holderOf(u.address) && h.asset == seen[i].asset
            && h.name == seen[0].asset.name && Derived(lib, h)
            && h.amount == 1 + |SecondMints(seen)| && Least(Dates(seen), h.createdSlot)
    decreases |seen|
  {
    hide NewRecord, SecondMints, LateMints, Dates, Latest;
    var before, k := seen[..|seen| - 1], |seen| - 1;
    if before == [] {
      FirstRecord(lib, seen, i);
    } else {
      RecordIsLatest(lib, before, LatestOf(before));
      OneMore(seen);
      OneLatest(seen, i, LatestOf(seen));
      assert i == if seen[k].out.slot < seen[LatestOf(before)].out.slot then LatestOf(before) else k;
      NextRecord(lib, Recorded(lib, before), seen[k], Dates(before));
    }
  }

  lemma FirstRecord(lib: Lib, seen: seq<Sighting>, i: nat)
    requires |seen| == 1 && i < |seen|
    ensures var h, s := NewRecord(lib, None, seen[0].out, seen[0].asset, seen[0].first), seen[0];
            && i == 0 && h.utxo == Some(s.out.id) && h.address == s.out.address && h.lovelace == s.out.lovelace
            && h.updatedSlot == s.out.slot && h.holder == lib.holderOf(s.out.address) && h.asset == s.asset
            && h.name == s.asset.name && Derived(lib, h) && h.amount == 1 && h.createdSlot == s.first
    ensures SecondMints(seen) == {} && Dates(seen) == {seen[0].first}
  {
  }

  lemma NextRecord(lib: Lib, h: Handle, s: Sighting, dates: set<nat>)
    requires h.utxo.Some? && h.holder == lib.holderOf(h.address)
    requires Least(dates, h.createdSlot)
    ensures var after, u := NewRecord(lib, Some(h), s.out, s.asset, s.first), s.out; var minted := h.asset in u.mint;
            && after.name == h.name && SameShape(after, h) && (Derived(lib, after) <==> Derived(lib, h))
            && (u.slot < h.updatedSlot ==> after == h.(createdSlot := after.createdSlot))
            && (h.updatedSlot <= u.slot ==>
                  && after.utxo == Some(u.id) && after.address == u.address && after.lovelace == u.lovelace
                  && after.updatedSlot == u.slot && after.holder == lib.holderOf(u.address) && after.asset == s.asset)
            && after.amount == h.amount + (if minted && h.updatedSlot <= u.slot && h.utxo != Some(u.id) then 1 else 0)
            && Least(dates + if minted && u.slot < h.updatedSlot then {u.slot} else {}, after.createdSlot)
  {
  }

  lemma OneLatest(seen: seq<Sighting>, i: nat, j: nat)
    requires i < |seen| && j < |seen| && Latest(seen, i) && Latest(seen, j)
    ensures i == j
  {
    assert seen[i].out.slot <= seen[j].out.slot <= seen[i].out.slot;
  }

  lemma OneMore(seen: seq<Sighting>)
    requires |seen| > 1
    ensures var before, s := seen[..|seen| - 1], seen[|seen| - 1]; var last := seen[LatestOf(before)];
            && |SecondMints(seen)| == |SecondMints(before)| + (if MintsTwice(last, s) then 1 else 0)
            && Dates(seen) == Dates(before) + if MintsLate(last, s) then {s.out.slot} else {}
  {
    hide LatestOf, MintsTwice, MintsLate;
    var k := |seen| - 1;
    var before := seen[..k];
    forall j: nat | j < k
      ensures (SecondAt(seen, j) <==> SecondAt(before, j)) && (LateAt(seen, j) <==> LateAt(before, j))
    {
      assert before[..j] == seen[..j];
    }
    MoreMints(seen);
    MoreDates(seen);
  }

  lemma MoreMints(seen: seq<Sighting>)
    requires |seen| > 1
    requires forall j: nat | j < |seen| - 1 :: SecondAt(seen, j) <==> SecondAt(seen[..|seen| - 1], j)
    ensures |SecondMints(seen)| ==
            |SecondMints(seen[..|seen| - 1])| + if SecondAt(seen, |seen| - 1) then 1 else 0
  {
    hide SecondAt;
    var k := |seen| - 1;
    assert SecondMints(seen) == SecondMints(seen[..k]) + if SecondAt(seen, k) then {k} else {};
  }

  lemma MoreDates(seen: seq<Sighting>)
    requires |seen| > 1
    requires forall j: nat | j < |seen| - 1 :: LateAt(seen, j) <==> LateAt(seen[..|seen| - 1], j)
    ensures var k := |seen| - 1;
            Dates(seen) == Dates(seen[..k]) + if LateAt(seen, k) then {seen[k].out.slot} else {}
  {
    hide LateAt;
    var k := |seen| - 1;
    var before := seen[..k];
    assert LateMints(seen) == LateMints(before) + if LateAt(seen, k) then {k} else {};
    forall j <- LateMints(before) ensures j in LateMints(seen) && before[j] == seen[j] {}
    hide LateMints;
    assert forall d <- Dates(before) :: d in Dates(seen);
  }

  /** Where no two outputs share a slot, the order of arrival does not matter to where the record is. */
  lemma ArrivalOrder(lib: Lib, seen: seq<Sighting>, other: seq<Sighting>)
    requires seen != [] && multiset(seen) == multiset(other)
    requires forall i, j | 0 <= i < j < |seen| :: seen[i].out.slot != seen[j].out.slot
    ensures other != []
    ensures var g, h := Recorded(lib, seen), Recorded(lib, other);
            && g.utxo == h.utxo && g.address == h.address && g.lovelace == h.lovelace && g.asset == h.asset
            && g.updatedSlot == h.updatedSlot && g.holder == h.holder
  {
    assert seen[0] in multiset(other);
    var i, j := LatestOf(seen), LatestOf(other);
    RecordIsLatest(lib, seen, i);
    RecordIsLatest(lib, other, j);
    assert other[j] in multiset(seen) && seen[i] in multiset(other);
  }

  // ---------- Joining the new holder ----------

  lemma JoinPair(b: Batch, maps: Maps, holder: string, name: string, k: Bucket, n: string)
    ensures var after := JoinHolder(b, maps, holder, name).0.db;
            (k, n) in after.sets <==>
              ((k, n) in b.db.sets && !(k == DefaultHandle(holder) && n == name)) || (k == HeldBy(holder) && n == name)
  {
  }

  lemma JoinFrame(b: Batch, maps: Maps, holder: string, name: string)
    ensures var (c, m) := JoinHolder(b, maps, holder, name);
            && c.db == b.db.(sets := c.db.sets, holderCount := c.db.holderCount)
            && c.live == b.live && c.pending == b.pending && m.handles == maps.handles
  {
  }

  lemma JoinSet(b: Batch, maps: Maps, holder: string, name: string, a: string)
    ensures HolderSet(JoinHolder(b, maps, holder, name).0.db.sets, a) ==
              HolderSet(b.db.sets, a) + if a == holder then {name} else {}
  {
    hide JoinHolder, HolderSet;
    var after := JoinHolder(b, maps, holder, name).0.db;
    forall n: string
      ensures n in HolderSet(after.sets, a) <==> n in HolderSet(b.db.sets, a) || (a == holder && n == name)
    {
      InHolderSet(after.sets, a, n);
      InHolderSet(b.db.sets, a, n);
      JoinPair(b, maps, holder, name, HeldBy(a), n);
    }
  }

  /** The caller's maps show the holders as the queue will leave them. */
  ghost predicate MapsOk(b: Batch, maps: Maps) {
    forall a <- maps.holders :: maps.holders[a] == HolderSet(b.db.sets, a)
  }

  lemma JoinCounts(b: Batch, maps: Maps, holder: string, name: string, a: string)
    requires MapsOk(b, maps) && holder in maps.holders && CountOk(b.db, a)
    ensures var (c, m) := JoinHolder(b, maps, holder, name);
            && CountOk(c.db, a) && MapsOk(c, m) && holder in m.holders && (a != holder ==> SameHolder(b, c, a))
  {
    hide HolderSet;
    var (c, m) := JoinHolder(b, maps, holder, name);
    JoinSet(b, maps, holder, name, a);
    JoinSet(b, maps, holder, name, holder);
    assert |HolderSet(b.db.sets, holder) + {name}| > 0;
    forall x <- m.holders ensures m.holders[x] == HolderSet(c.db.sets, x) {
      JoinSet(b, maps, holder, name, x);
    }
  }

  // ---------- Leaving the old holder ----------

  lemma MoveShape(lib: Lib, b: Batch, maps: Maps, holder: string, name: string)
    ensures var known := (if holder in maps.holders then maps.holders[holder] else {}) - {name};
            var (c, m) := Move(lib, b, maps, holder, name);
            && c == LeaveHolder(lib, b, holder, name, |known|) && m.handles == maps.handles
            && (forall a <- m.holders ::
                a in maps.holders && m.holders[a] == if a == holder then known else maps.holders[a])
            && (forall a <- maps.holders :: a in m.holders <==> a != holder || a in c.db.holderCount)
  {
    hide LeaveHolder;
  }

  lemma CountedIsHeld(db: Db, a: string)
    requires CountOk(db, a)
    ensures a in db.holderCount <==> HolderSet(db.sets, a) != {}
  {
    hide HolderSet;
    var held := HolderSet(db.sets, a);
    if x :| x in held { assert |held| == |held - {x}| + 1; }
  }

  lemma MoveCounts(lib: Lib, b: Batch, maps: Maps, holder: string, name: string, a: string)
    requires MapsOk(b, maps) && Tracked(b, holder) && name in HolderSet(b.db.sets, holder) && CountOk(b.db, a)
    ensures var (c, m) := Move(lib, b, maps, holder, name);
            && CountOk(c.db, a) && (a != holder ==> SameHolder(b, c, a)) && Tracked(c, holder)
            && HolderSet(c.db.sets, a) == HolderSet(b.db.sets, a) - (if a == holder then {name} else {})
            && (a in m.holders <==> a in maps.holders && (a == holder ==> HolderSet(c.db.sets, a) != {}))
            && MapsOk(c, m)
  {
    hide LeaveHolder, HolderSet, Move, CountOk, Tracked, SameHolder;
    MoveShape(lib, b, maps, holder, name);
    var was := HolderSet(b.db.sets, holder);
    var known := (if holder in maps.holders then maps.holders[holder] else {}) - {name};
    if holder in maps.holders { assert |was - {name}| == |was| - 1; }
    LeaveKeepsCount(lib, b, holder, name, |known|);
    var (c, m) := Move(lib, b, maps, holder, name);
    if a != holder {
      LeaveSpares(lib, b, holder, name, |known|, a);
      SameCarries(b, c, a);
    } else {
      CountedIsHeld(c.db, a);
    }
    forall x <- m.holders ensures m.holders[x] == HolderSet(c.db.sets, x) {
      if x != holder { LeaveSpares(lib, b, holder, name, |known|, x); }
    }
  }

  lemma LeaveSpares(lib: Lib, b: Batch, holder: string, name: string, known: nat, a: string)
    requires a != holder
    ensures SameHolder(b, LeaveHolder(lib, b, holder, name, known), a)
    ensures HolderSet(LeaveHolder(lib, b, holder, name, known).db.sets, a) == HolderSet(b.db.sets, a)
  {
    hide LeaveHolder, HolderSet;
    LeaveSparesOthers(lib, b, holder, name, known, a);
  }

  // ---------- Both, then the save ----------

  function Placed(lib: Lib, b: Batch, maps: Maps, existing: Option<Handle>, holder: string, name: string): (Batch,
                  Maps) {
    var (b1, maps1) := JoinHolder(b, maps, holder, name);
    if existing.Some? && existing.value.holder != holder
    then Move(lib, b1, maps1, existing.value.holder, name) else (b1, maps1)
  }

  /** The state between two assets of one output, whose holder is `holder`. */
  ghost predicate BatchOk(b: Batch, maps: Maps, holder: string) {
    && MapsOk(b, maps) && holder in maps.holders
    && CountsOk(b.db) && HoldersOk(b.db)
    && forall a: string | a != holder :: Tracked(b, a)
  }

  /** Which names a holder has once the name has been placed. */
  function After(was: set<string>, a: string, holder: string, name: string): set<string> {
    if a == holder then was + {name} else was - {name}
  }

  lemma PlacedHolder(lib: Lib, b: Batch, maps: Maps, existing: Option<Handle>, holder: string, name: string, a: string)
    requires BatchOk(b, maps, holder) && existing == Find(b.db.handles, name)
    ensures var (c, m) := Placed(lib, b, maps, existing, holder, name);
            && CountOk(c.db, a) && (a != holder ==> Tracked(c, a)) && MapsOk(c, m) && holder in m.holders
            && HolderSet(c.db.sets, a) == After(HolderSet(b.db.sets, a), a, holder, name)
  {
    hide JoinHolder, Move, HolderSet, CountOk, Tracked, SameHolder, Owned;
    var (b1, maps1) := JoinHolder(b, maps, holder, name);
    JoinCounts(b, maps, holder, name, a);
    JoinSet(b, maps, holder, name, a);
    if a != holder { SameCarries(b, b1, a); }
    assert HolderSet(b.db.sets, a) == Owned(b.db.handles, a);
    InOwned(b.db.handles, a, name);
    if existing.Some? && existing.value.holder != holder {
      var was := existing.value.holder;
      JoinCounts(b, maps, holder, name, was);
      JoinSet(b, maps, holder, name, was);
      SameCarries(b, b1, was);
      assert HolderSet(b.db.sets, was) == Owned(b.db.handles, was);
      InOwned(b.db.handles, was, name);
      MoveCounts(lib, b1, maps1, was, name, a);
      if a != was { SameCarries(b1, Move(lib, b1, maps1, was, name).0, a); }
      MoveShape(lib, b1, maps1, was, name);
    }
  }

  lemma PlacedFrame(lib: Lib, b: Batch, maps: Maps, existing: Option<Handle>, holder: string, name: string)
    ensures var (c, m) := Placed(lib, b, maps, existing, holder, name);
            c.db == b.db.(sets := c.db.sets, holderCount := c.db.holderCount) && c.live == b.live
                && m.handles == maps.handles
  {
    hide JoinHolder, LeaveHolder, Move;
    var (b1, maps1) := JoinHolder(b, maps, holder, name);
    JoinFrame(b, maps, holder, name);
    if existing.Some? && existing.value.holder != holder {
      MoveShape(lib, b1, maps1, existing.value.holder, name);
      var was := existing.value.holder;
      var known := (if was in maps1.holders then maps1.holders[was] else {}) - {name};
      LeaveFrame(lib, b1, existing.value.holder, name, |known|);
      LeaveCount(lib, b1, existing.value.holder, name, |known|);
    }
  }

  /** Own-key buckets are untouched, and the old holder's stake bucket loses the name. */
  lemma PlacedPair(lib: Lib, b: Batch, maps: Maps, existing: Option<Handle>, holder: string, name: string,
                   k: Bucket, n: string)
    requires Own(k) || k.StakeHash?
    ensures var c := Placed(lib, b, maps, existing, holder, name).0;
            (k, n) in c.db.sets <==>
              (k, n) in b.db.sets && !(k.StakeHash? && n == name && existing.Some? && existing.value.holder != holder
                                       && lib.stakeHash(existing.value.holder) == Some(k.h))
  {
    hide JoinHolder, LeaveHolder, Move;
    var (b1, maps1) := JoinHolder(b, maps, holder, name);
    JoinPair(b, maps, holder, name, k, n);
    if existing.Some? && existing.value.holder != holder {
      MoveShape(lib, b1, maps1, existing.value.holder, name);
      var was := existing.value.holder;
      var known := (if was in maps1.holders then maps1.holders[was] else {}) - {name};
      LeavePair(lib, b1, existing.value.holder, name, |known|, k, n);
    }
  }

  lemma PlacedKeepsIndexes(lib: Lib, b: Batch, maps: Maps, existing: Option<Handle>, holder: string, name: string)
    requires IndexOk(lib, b.db)
    ensures IndexOk(lib, Placed(lib, b, maps, existing, holder, name).0.db)
  {
    hide Placed, OwnKey;
    var c := Placed(lib, b, maps, existing, holder, name).0;
    PlacedFrame(lib, b, maps, existing, holder, name);
    forall k: Bucket, n: string | Own(k)
      ensures (k, n) in c.db.sets <==> n in c.db.handles && OwnKey(lib, c.db.handles[n], k)
    {
      PlacedPair(lib, b, maps, existing, holder, name, k, n);
    }
  }

  lemma OwnedAfter(handles: map<string, Handle>, h: Handle, a: string)
    ensures Owned(handles[h.name := h], a) == After(Owned(handles, a), a, h.holder, h.name)
  {
    forall n: string
      ensures n in Owned(handles[h.name := h], a) <==> n in After(Owned(handles, a), a, h.holder, h.name)
    {
      InOwned(handles[h.name := h], a, n);
      InOwned(handles, a, n);
    }
  }

  /** Placing a name and saving its record over the stored one. */
  function Stored(lib: Lib, b: Batch, maps: Maps, existing: Option<Handle>, h: Handle): (Batch, Maps) {
    var (c, m) := Placed(lib, b, maps, existing, h.holder, h.name);
    (c.(db := Save(lib, c.db, h, existing)), m.(handles := m.handles[h.name := h]))
  }

  lemma StoredKeepsHolders(lib: Lib, b: Batch, maps: Maps, existing: Option<Handle>, h: Handle)
    requires BatchOk(b, maps, h.holder) && existing == Find(b.db.handles, h.name)
    ensures var (c, m) := Stored(lib, b, maps, existing, h); BatchOk(c, m, h.holder)
  {
    hide Placed, Save, HolderSet, Owned, After;
    var (c, m) := Placed(lib, b, maps, existing, h.holder, h.name);
    var (d, w) := Stored(lib, b, maps, existing, h);
    PlacedFrame(lib, b, maps, existing, h.holder, h.name);
    SavedRest(lib, c.db, h, existing);
    forall a: string
      ensures CountOk(d.db, a) && HolderSet(d.db.sets, a) == Owned(d.db.handles, a) && (a != h.holder ==> Tracked(d, a))
      ensures HolderSet(d.db.sets, a) == HolderSet(c.db.sets, a)
    {
      PlacedHolder(lib, b, maps, existing, h.holder, h.name, a);
      SaveKeepsHolders(lib, c.db, h, existing, a);
      OwnedAfter(b.db.handles, h, a);
      assert HolderSet(b.db.sets, a) == Owned(b.db.handles, a);
    }
    PlacedHolder(lib, b, maps, existing, h.holder, h.name, "");
    forall a <- w.holders ensures w.holders[a] == HolderSet(d.db.sets, a) {
      assert m.holders[a] == HolderSet(c.db.sets, a);
    }
  }

  lemma StoredKeepsStake(lib: Lib, b: Batch, maps: Maps, existing: Option<Handle>, h: Handle)
    requires StakeOk(lib, b.db) && existing == Find(b.db.handles, h.name)
    ensures StakeOk(lib, Stored(lib, b, maps, existing, h).0.db)
  {
    hide Placed, Save;
    var c := Placed(lib, b, maps, existing, h.holder, h.name).0;
    var d := Stored(lib, b, maps, existing, h).0;
    PlacedFrame(lib, b, maps, existing, h.holder, h.name);
    SavedRest(lib, c.db, h, existing);
    forall x: string, n: string
      ensures (StakeHash(x), n) in d.db.sets <==> n in d.db.handles && lib.stakeHash(d.db.handles[n].holder) == Some(x)
    {
      PlacedPair(lib, b, maps, existing, h.holder, h.name, StakeHash(x), n);
      SavedPair(lib, c.db, h, existing, StakeHash(x), n);
    }
  }

  lemma StoredKeepsIndexes(lib: Lib, b: Batch, maps: Maps, existing: Option<Handle>, h: Handle)
    requires IndexOk(lib, b.db) && existing == Find(b.db.handles, h.name)
    requires existing.Some? ==> SameShape(h, existing.value)
    ensures var (d, w) := Stored(lib, b, maps, existing, h);
            && IndexOk(lib, d.db) && d.live == b.live && d.db.handles == b.db.handles[h.name := h]
            && d.db.utxos == b.db.utxos && d.db.utxoSlot == b.db.utxoSlot && d.db.mint == b.db.mint
            && d.db.cursor == b.db.cursor && d.db.scanned == b.db.scanned
            && w.handles == maps.handles[h.name := h]
  {
    hide Placed, Save, IndexOk, SameShape;
    var (c, m) := Placed(lib, b, maps, existing, h.holder, h.name);
    PlacedFrame(lib, b, maps, existing, h.holder, h.name);
    PlacedKeepsIndexes(lib, b, maps, existing, h.holder, h.name);
    SaveKeepsAgreement(lib, c.db, h);
    SavedRest(lib, c.db, h, existing);
  }

  // ---------- All assets of an output ----------

  /** The handle table after the assets of one output. */
  function IndexedHandles(lib: Lib, handles: map<string, Handle>, u: Utxo, assets: seq<Asset>,
                          mints: MintMap): map<string, Handle> {
    if assets == [] then handles
    else
      var before, a := IndexedHandles(lib, handles, u, assets[..|assets| - 1], mints), assets[|assets| - 1];
      if a == NAMELESS || MintsOf(mints, a.name) == {} then before
      else before[a.name := NewRecord(lib, Find(before, a.name), u, a, FirstSlot(mints[a.name]))]
  }

  predicate DistinctAssets(assets: seq<Asset>) {
    forall i, j | 0 <= i < j < |assets| :: assets[i].name != assets[j].name
  }

  predicate NamedAssets(assets: seq<Asset>) {
    forall a <- assets :: a != NAMELESS ==> a.name != ""
  }

  lemma {:induction false} OthersKept(lib: Lib, handles: map<string, Handle>, u: Utxo, assets: seq<Asset>,
                                      mints: MintMap, n: string)
    requires n !in NamesOf(assets)
    ensures Find(IndexedHandles(lib, handles, u, assets, mints), n) == Find(handles, n)
  {
    hide NewRecord, FirstSlot, NamesOf;
    if assets != [] {
      NamesOfGrow(assets);
      OthersKept(lib, handles, u, assets[..|assets| - 1], mints, n);
    }
  }

  lemma NamesOfGrow(assets: seq<Asset>)
    requires assets != []
    ensures var a := assets[|assets| - 1];
            NamesOf(assets) == NamesOf(assets[..|assets| - 1]) + (if a == NAMELESS then {} else {a.name})
  {
    assert assets == assets[..|assets| - 1] + [assets[|assets| - 1]];
  }

  lemma NamesOfHas(assets: seq<Asset>, n: string)
    ensures n in NamesOf(assets) <==> exists i | 0 <= i < |assets| :: assets[i] != NAMELESS && assets[i].name == n
  {
  }

  lemma {:induction false} NamesSaved(lib: Lib, handles: map<string, Handle>, u: Utxo, assets: seq<Asset>,
                                      mints: MintMap, i: nat)
    requires DistinctAssets(assets) && i < |assets| && assets[i] != NAMELESS && MintsOf(mints, assets[i].name) != {}
    ensures var n := assets[i].name;
            Find(IndexedHandles(lib, handles, u, assets, mints), n)
              == Some(NewRecord(lib, Find(handles, n), u, assets[i], FirstSlot(mints[n])))
    decreases |assets|
  {
    hide NewRecord, FirstSlot, NamesOf;
    var before := assets[..|assets| - 1];
    if i < |before| {
      NamesSaved(lib, handles, u, before, mints, i);
    } else {
      NamesOfHas(before, assets[i].name);
      OthersKept(lib, handles, u, before, mints, assets[i].name);
    }
  }

  lemma OneAsset(lib: Lib, b: Batch, maps: Maps, u: Utxo, asset: Asset, mints: MintMap)
    requires asset != NAMELESS && asset.name != ""
    requires asset.name in maps.handles ==> maps.handles[asset.name].name == asset.name
    ensures var n := asset.name; var existing := Find(maps.handles, n);
            IndexAsset(lib, b, maps, u, asset, mints) ==
              if MintsOf(mints, n) == {} then None
              else Some(Stored(lib, b, maps, existing, NewRecord(lib, existing, u, asset, FirstSlot(mints[n]))))
  {
    hide JoinHolder, Move, Save, FirstSlot;
  }

  /** Everything a write to the handle tables leaves alone. */
  predicate SameRest(db: Db, other: Db) {
    other.utxos == db.utxos && other.utxoSlot == db.utxoSlot && other.mint == db.mint && other.cursor == db.cursor
        && other.scanned == db.scanned
  }

  lemma StoredKeepsTables(lib: Lib, b: Batch, maps: Maps, u: Utxo, asset: Asset, created: nat)
    requires TablesOk(lib, b.db, u.slot) && BatchOk(b, maps, lib.holderOf(u.address))
    requires asset != NAMELESS && NotDouble(Find(b.db.handles, asset.name), u)
    ensures var h := NewRecord(lib, Find(b.db.handles, asset.name), u, asset, created);
            var (c, m) := Stored(lib, b, maps, Find(b.db.handles, asset.name), h);
            && TablesOk(lib, c.db, u.slot) && BatchOk(c, m, lib.holderOf(u.address)) && SameRest(b.db, c.db)
            && c.db.handles == b.db.handles[asset.name := h] && m.handles == maps.handles[asset.name := h]
  {
    hide Stored, NewRecord, Placed, IndexOk, StakeOk, HoldersOk, CountsOk, MapsOk, Tracked, RecordOk, Derived,
      SameShape;
    var existing := Find(b.db.handles, asset.name);
    var h := NewRecord(lib, existing, u, asset, created);
    if existing.Some? {
      assert RecordOk(lib, b.db.handles[asset.name], u.slot);
      IndexedName(lib, b.db, asset.name);
    }
    RecordFollowsOutput(lib, existing, u, asset, created);
    StoredKeepsHolders(lib, b, maps, existing, h);
    StoredKeepsStake(lib, b, maps, existing, h);
    StoredKeepsIndexes(lib, b, maps, existing, h);
  }

  lemma IndexedName(lib: Lib, db: Db, n: string)
    requires IndexOk(lib, db) && n in db.handles
    ensures db.handles[n].name == n
  {
  }

  ghost predicate MapsAgree(handles: map<string, Handle>, maps: Maps, names: set<string>) {
    forall n <- names :: Find(maps.handles, n) == Find(handles, n)
  }

  ghost predicate NoDoubles(handles: map<string, Handle>, u: Utxo, names: set<string>) {
    forall n <- names :: NotDouble(Find(handles, n), u)
  }

  predicate HasMints(mints: MintMap, names: set<string>) {
    forall n <- names :: MintsOf(mints, n) != {}
  }

  /** One more asset, after the assets before it went through. */
  lemma OneMoreAsset(lib: Lib, b: Batch, maps: Maps, u: Utxo, asset: Asset, mints: MintMap)
    requires TablesOk(lib, b.db, u.slot) && BatchOk(b, maps, lib.holderOf(u.address))
    requires asset != NAMELESS && asset.name != "" && NotDouble(Find(b.db.handles, asset.name), u)
    requires Find(maps.handles, asset.name) == Find(b.db.handles, asset.name)
    ensures var r := IndexAsset(lib, b, maps, u, asset, mints);
            && (r.Some? <==> MintsOf(mints, asset.name) != {})
            && (r.Some? ==>
                  && TablesOk(lib, r.value.0.db, u.slot) && BatchOk(r.value.0, r.value.1, lib.holderOf(u.address))
                  && SameRest(b.db, r.value.0.db)
                  && r.value.0.db.handles == b.db.handles[asset.name :=
                       NewRecord(lib, Find(b.db.handles, asset.name), u, asset, FirstSlot(mints[asset.name]))]
                  && forall n: string | n != asset.name :: Find(r.value.1.handles, n) == Find(maps.handles, n))
  {
    hide Stored, NewRecord, TablesOk, BatchOk, NotDouble, IndexAsset, FirstSlot;
    if asset.name in maps.handles { TablesName(lib, b.db, asset.name, u.slot); }
    OneAsset(lib, b, maps, u, asset, mints);
    if MintsOf(mints, asset.name) != {} {
      StoredKeepsTables(lib, b, maps, u, asset, FirstSlot(mints[asset.name]));
    }
  }

  lemma TablesName(lib: Lib, db: Db, n: string, slot: nat)
    requires TablesOk(lib, db, slot) && n in db.handles
    ensures db.handles[n].name == n
  {
  }

  /**
   The assets of an output go through exactly when each has minting data, and then every table
   agrees and each named handle has the record made from the output.
   */
  lemma {:induction false} AssetsKeepTables(lib: Lib, b: Batch, maps: Maps, u: Utxo, assets: seq<Asset>, mints: MintMap)
    requires TablesOk(lib, b.db, u.slot) && BatchOk(b, maps, lib.holderOf(u.address))
    requires DistinctAssets(assets) && NamedAssets(assets)
    requires MapsAgree(b.db.handles, maps, NamesOf(assets)) && NoDoubles(b.db.handles, u, NamesOf(assets))
    ensures var r := IndexAssets(lib, b, maps, u, assets, mints);
            && (r.Some? <==> HasMints(mints, NamesOf(assets)))
            && (r.Some? ==>
                  && TablesOk(lib, r.value.0.db, u.slot) && BatchOk(r.value.0, r.value.1, lib.holderOf(u.address))
                  && SameRest(b.db, r.value.0.db)
                  && r.value.0.db.handles == IndexedHandles(lib, b.db.handles, u, assets, mints)
                  && forall n: string | n !in NamesOf(assets) :: Find(r.value.1.handles, n) == Find(maps.handles, n))
    decreases |assets|
  {
    hide NewRecord, TablesOk, BatchOk, NotDouble, IndexAsset, FirstSlot, NamesOf, MintsOf, Find;
    if assets == [] {
      NoAssets();
    } else {
      var before, a := assets[..|assets| - 1], assets[|assets| - 1];
      NamesOfGrow(assets);
      assert DistinctAssets(before) && NamedAssets(before);
      AssetsKeepTables(lib, b, maps, u, before, mints);
      var r := IndexAssets(lib, b, maps, u, before, mints);
      if r.Some? && a != NAMELESS {
        LastIsNew(assets);
        OthersKept(lib, b.db.handles, u, before, mints, a.name);
        OneMoreAsset(lib, r.value.0, r.value.1, u, a, mints);
      } else if r.Some? {
        Nameless(lib, r.value.0, r.value.1, u, mints);
      }
    }
  }

  lemma NoAssets()
    ensures NamesOf([]) == {}
  {
  }

  lemma Nameless(lib: Lib, b: Batch, maps: Maps, u: Utxo, mints: MintMap)
    ensures IndexAsset(lib, b, maps, u, NAMELESS, mints) == Some((b, maps))
  {
  }

  lemma LastIsNew(assets: seq<Asset>)
    requires assets != [] && DistinctAssets(assets) && NamedAssets(assets) && assets[|assets| - 1] != NAMELESS
    ensures assets[|assets| - 1].name !in NamesOf(assets[..|assets| - 1]) && assets[|assets| - 1].name != ""
  {
  }

  // ---------- The whole batch ----------

  lemma LaterSlot(lib: Lib, db: Db, slot: nat, later: nat)
    requires TablesOk(lib, db, slot) && slot <= later
    ensures TablesOk(lib, db, later)
  {
    hide IndexOk, StakeOk, HoldersOk, CountsOk, Derived;
    forall n <- db.handles ensures RecordOk(lib, db.handles[n], later) { assert RecordOk(lib, db.handles[n], slot); }
  }

  lemma NothingPending(db: Db, u: Utxo, a: string)
    ensures Tracked(Batch(db.sets, AddUtxo(db, u), map[]), a)
  {
  }

  lemma BuiltMaps(lib: Lib, db: Db, u: Utxo)
    ensures var maps := BuildMaps(lib, db, u); var b := Batch(db.sets, AddUtxo(db, u), map[]);
            && MapsOk(b, maps) && MapsAgree(db.handles, maps, NamesOf(u.assets))
            && (NamesOf(u.assets) != {} ==> lib.holderOf(u.address) in maps.holders)
  {
    hide NamesOf;
    var maps := BuildMaps(lib, db, u);
    forall a <- maps.holders ensures maps.holders[a] == HolderSet(db.sets, a) {}
  }

  lemma BatchOpens(lib: Lib, db: Db, u: Utxo, slot: nat)
    requires TablesOk(lib, db, slot) && slot <= u.slot && NamesOf(u.assets) != {}
    ensures var b := Batch(db.sets, AddUtxo(db, u), map[]);
            TablesOk(lib, b.db, u.slot) && BatchOk(b, BuildMaps(lib, db, u), lib.holderOf(u.address))
  {
    hide IndexOk, StakeOk, HoldersOk, CountsOk, RecordsOk, AllDerived, BuildMaps, MapsOk, Tracked, NamesOf;
    TablesDepend(lib, db, AddUtxo(db, u), slot);
    LaterSlot(lib, AddUtxo(db, u), slot, u.slot);
    BuiltMaps(lib, db, u);
    forall a: string ensures Tracked(Batch(db.sets, AddUtxo(db, u), map[]), a) { NothingPending(db, u, a); }
  }

  lemma {:induction false} AllNameless(lib: Lib, b: Batch, maps: Maps, u: Utxo, assets: seq<Asset>, mints: MintMap)
    requires NamesOf(assets) == {}
    ensures IndexAssets(lib, b, maps, u, assets, mints) == Some((b, maps))
    ensures IndexedHandles(lib, b.db.handles, u, assets, mints) == b.db.handles
  {
    hide NamesOf, IndexAsset, NewRecord;
    if assets != [] {
      NamesOfGrow(assets);
      AllNameless(lib, b, maps, u, assets[..|assets| - 1], mints);
      Nameless(lib, b, maps, u, mints);
    }
  }

  /** The minting data one output is indexed with. */
  function MintsFor(db: Db, u: Utxo, blockMints: MintMap): MintMap {
    if u.mint != [] then blockMints else StoredMints(db, u.assets)
  }

  /**
   One output's batch goes through exactly when each of its names has minting data; then every table
   agrees, the output is stored, and each of its handles has the record made from it.
   */
  lemma OutputKeepsTables(lib: Lib, db: Db, u: Utxo, blockMints: MintMap, slot: nat)
    requires TablesOk(lib, db, slot) && slot <= u.slot
    requires DistinctAssets(u.assets) && NamedAssets(u.assets) && NoDoubles(db.handles, u, NamesOf(u.assets))
    ensures var r := IndexOutput(lib, db, u, blockMints); var mints := MintsFor(db, u, blockMints);
            && (r.Some? <==> HasMints(mints, NamesOf(u.assets)))
            && (r.Some? ==>
                  && TablesOk(lib, r.value, u.slot) && SameRest(AddUtxo(db, u), r.value)
                  && r.value.handles == IndexedHandles(lib, db.handles, u, u.assets, mints))
  {
    hide IndexAssets, IndexedHandles, TablesOk, BatchOk, BuildMaps, MapsAgree, NoDoubles, NamesOf, HasMints,
      DistinctAssets, NamedAssets;
    var b := Batch(db.sets, AddUtxo(db, u), map[]);
    var mints := MintsFor(db, u, blockMints);
    if NamesOf(u.assets) == {} {
      AllNameless(lib, b, BuildMaps(lib, db, u), u, u.assets, mints);
      StoredAlone(lib, db, u, slot);
      NothingNeeded(mints, NamesOf(u.assets));
    } else {
      BatchOpens(lib, db, u, slot);
      BuiltMaps(lib, db, u);
      AssetsKeepTables(lib, b, BuildMaps(lib, db, u), u, u.assets, mints);
    }
  }

  lemma StoredAlone(lib: Lib, db: Db, u: Utxo, slot: nat)
    requires TablesOk(lib, db, slot) && slot <= u.slot
    ensures TablesOk(lib, AddUtxo(db, u), u.slot)
  {
    hide TablesOk;
    TablesDepend(lib, db, AddUtxo(db, u), slot);
    LaterSlot(lib, AddUtxo(db, u), slot, u.slot);
  }

  lemma NothingNeeded(mints: MintMap, names: set<string>)
    requires names == {}
    ensures HasMints(mints, names)
  {
  }
}
