/**
 The indexer's tables and what each repository operation does to them
 (repositories/handlesRepository.ts over stores/redis/index.ts), as net effects: the commands an
 operation issues are in HandleRepository, where they are proved to add up to these functions.
 */
module HandleTables {
  import opened CanonicalJson
  import opened Ledger
  import opened Wrappers

  /** Library functions whose source is elsewhere; nothing is assumed about them. */
  datatype Lib = Lib(
    rarity: string -> string,
    characters: string -> string,
    numericModifiers: string -> string,
    ogNumber: string -> nat,
    root: string -> Option<string>,
    paymentKey: string -> Option<string>,
    holderOf: string -> string,
    stakeHash: string -> Option<string>)

  datatype Handle = Handle(
    name: string, asset: Asset, rarity: string, characters: string, numericModifiers: string, length: nat,
    ogNumber: nat, handleType: string, personalized: bool, address: string, holder: string, lovelace: nat,
    utxo: Option<OutRef>, amount: int, createdSlot: nat, updatedSlot: nat)

  datatype Bucket =
    | Rarity(s: string) | Og(n: nat) | Character(s: string) | NumericModifier(s: string) | Length(n: nat)
    | Address(a: string) | PaymentKey(k: Option<string>) | HandleType(t: string) | Personalized(p: bool)
    | Subhandle(root: string) | HeldBy(a: string) | DefaultHandle(a: string) | StakeHash(h: string)

  type Sets = set<(Bucket, string)>

  datatype MintData = MintData(createdSlot: nat, metadata: Json, txHash: string)
  datatype Cursor = Cursor(hash: string, slot: nat, tipHash: string, tipSlot: nat)

  datatype Db = Db(
    handles: map<string, Handle>, handleRoot: set<string>, utxos: map<OutRef, Utxo>, utxoSlot: map<OutRef, nat>,
    sets: Sets, slots: map<string, nat>, holderCount: map<string, nat>, mint: map<string, set<MintData>>,
    cursor: Option<Cursor>, scanned: map<string, nat>)

  function Members(sets: Sets, b: Bucket): set<string> {
    set p <- sets | p.0 == b :: p.1
  }

  function Find<T>(m: map<string, T>, k: string): Option<T> {
    if k in m then Some(m[k]) else None
  }

  // ---------- save ----------

  function Flag(b: bool): nat {
    if b then 1 else 0
  }

  function StakePair(lib: Lib, holder: string, name: string): Sets {
    match lib.stakeHash(holder)
    case Some(x) => {(StakeHash(x), name)}
    case None => {}
  }

  function RootPair(lib: Lib, name: string): Sets {
    match lib.root(name)
    case Some(r) => {(Subhandle(r), name)}
    case None => {}
  }

  /** The buckets that describe the handle itself. */
  function OwnPairs(lib: Lib, h: Handle): Sets {
    {(Rarity(h.rarity), h.name), (Character(h.characters), h.name), (NumericModifier(h.numericModifiers), h.name),
     (Length(h.length), h.name), (HandleType(h.handleType), h.name), (Personalized(h.personalized), h.name),
     (Address(h.address), h.name)} + RootPair(lib, h.name)
  }

  function SaveAdds(lib: Lib, h: Handle): Sets {
    OwnPairs(lib, h) + {(Og(Flag(h.ogNumber > 0)), h.name), (PaymentKey(lib.paymentKey(h.address)), h.name)} +
        StakePair(lib, h.holder, h.name)
  }

  function PaymentPair(lib: Lib, address: string, name: string): Sets {
    if lib.paymentKey(address).Some? then {(PaymentKey(lib.paymentKey(address)), name)} else {}
  }

  function SaveRemoves(lib: Lib, h: Handle, previous: Option<Handle>): Sets {
    {(Og(Flag(h.ogNumber == 0)), h.name), (Personalized(!h.personalized), h.name)} +
    match previous
    case None => {}
    case Some(o) =>
      {(Address(o.address), h.name)} + PaymentPair(lib, o.address, h.name) +
      if o.handleType != h.handleType then {(HandleType(o.handleType), h.name)} else {}
  }

  function Save(lib: Lib, db: Db, h: Handle, previous: Option<Handle>): Db {
    db.(handles := db.handles[h.name := h], handleRoot := db.handleRoot + {h.name},
        sets := (db.sets - SaveRemoves(lib, h, previous)) + SaveAdds(lib, h),
        slots := db.slots[h.name := h.updatedSlot])
  }

  // ---------- Holders inside one batch ----------

  /**
   A batch under way: `live` are the set indexes as the server still has them, `db` is what the
   server will hold once the queue is applied, `pending` counts the queued removals per holder.
   */
  datatype Batch = Batch(live: Sets, db: Db, pending: map<string, nat>)

  function Pending(b: Batch, holder: string): nat {
    if holder in b.pending then b.pending[holder] else 0
  }

  function WithoutBucket(sets: Sets, b: Bucket): Sets {
    set p <- sets | p.0 != b
  }

  /**
   `_removeHandleFromHolder` with `known` handles left according to the caller's map (0 without one):
   when the map knows of none, the size before the batch less the queued removals decides.
   */
  function LeaveHolder(lib: Lib, b: Batch, holder: string, name: string, known: nat): Batch {
    var pending := b.pending[holder := Pending(b, holder) + 1];
    var left: int := if known > 0 then known else |Members(b.live, HeldBy(holder))| - pending[holder];
    var sets := b.db.sets - {(HeldBy(holder), name), (DefaultHandle(holder), name)};
    var db :=
      if left > 0 then b.db.(sets := sets - StakePair(lib, holder, name),
                             holderCount := b.db.holderCount[holder := left])
      else b.db.(sets := WithoutBucket(sets, HeldBy(holder)) - StakePair(lib, holder, name),
                 holderCount := b.db.holderCount - {holder});
    b.(db := db, pending := pending)
  }

  /** The buckets a burn clears. */
  function BurnRemoves(lib: Lib, h: Handle): Sets {
    OwnPairs(lib, h) + {(Og(h.ogNumber), h.name), (Personalized(false), h.name), (Personalized(true), h.name)} +
    PaymentPair(lib, h.address, h.name)
  }

  function Forget(lib: Lib, db: Db, h: Handle): Db {
    db.(handles := db.handles - {h.name}, handleRoot := db.handleRoot - {h.name}, sets := db.sets - BurnRemoves(lib, h),
        slots := db.slots - {h.name})
  }

  /** `removeHandle` in a batch. */
  function RemoveHandle(lib: Lib, b: Batch, h: Handle): Batch {
    if h.amount - 1 <= 0 then LeaveHolder(lib, b.(db := Forget(lib, b.db, h)), h.holder, h.name, 0)
    else b.(db := Save(lib, b.db, h.(amount := h.amount - 1), Some(h)))
  }

  /** `removeHandle` outside a batch: the holder's set is read after the removal. */
  function RemoveHandleNow(lib: Lib, db: Db, h: Handle): Db {
    if h.amount - 1 <= 0 then
      var d := Forget(lib, db, h);
      LeaveHolder(lib, Open(d), h.holder, h.name, |Members(d.sets, HeldBy(h.holder)) - {h.name}|).db
    else Save(lib, db, h.(amount := h.amount - 1), Some(h))
  }

  function RemoveHandles(lib: Lib, b: Batch, hs: seq<Handle>): Batch {
    if hs == [] then b else RemoveHandle(lib, RemoveHandles(lib, b, hs[..|hs| - 1]), hs[|hs| - 1])
  }

  function Open(db: Db): Batch {
    Batch(db.sets, db, map[])
  }

  // ---------- Updating a handle from an output ----------

  /** The caller's maps: the stored handles and holder sets read before the batch. */
  datatype Maps = Maps(handles: map<string, Handle>, holders: map<string, set<string>>)

  function Build(lib: Lib, asset: Asset, u: Utxo, createdSlot: nat): Handle {
    var n := asset.name;
    Handle(n, asset, lib.rarity(n), lib.characters(n), lib.numericModifiers(n), |n|, lib.ogNumber(n),
           if lib.root(n).Some? then "nft_subhandle" else "handle",
           false, u.address, "", 0, None, 1, createdSlot, u.slot)
  }

  function Min(a: nat, b: nat): nat {
    if a < b then a else b
  }

  /** The owner-token branch of `updateHandleIndexes`. */
  function Updated(lib: Lib, existing: Option<Handle>, u: Utxo, asset: Asset, createdSlot: nat): Handle {
    var base := if existing.Some? then existing.value else Build(lib, asset, u, createdSlot);
    var isMintTx := base.asset in u.mint;
    var dated := if u.slot < base.updatedSlot && isMintTx
                 then base.(createdSlot := Min(base.createdSlot, u.slot)) else base;
    if u.slot >= dated.updatedSlot || dated.utxo.None? then
      var twice := isMintTx && existing.Some? && existing.value.utxo.Some? && existing.value.utxo != Some(u.id);
      dated.(amount := if twice then dated.amount + 1 else dated.amount, updatedSlot := u.slot, asset := asset,
             lovelace := u.lovelace, utxo := Some(u.id), address := u.address)
    else dated
  }

  function Slots(mints: set<MintData>): set<nat> {
    set m <- mints :: m.createdSlot
  }

  /** The smallest creation slot among the minting data. */
  function FirstSlot(mints: set<MintData>): (slot: nat)
    requires mints != {}
    ensures slot in Slots(mints) && forall t <- Slots(mints) :: slot <= t
  {
    var m :| m in mints;
    assert m.createdSlot in Slots(mints);
    LeastExists(Slots(mints));
    var s: nat :| Least(Slots(mints), s);
    s
  }

  predicate Least(s: set<nat>, x: nat) {
    x in s && forall t <- s :: x <= t
  }

  lemma {:induction false} LeastExists(s: set<nat>)
    requires s != {}
    ensures exists x: nat :: Least(s, x)
    decreases s
  {
    var x :| x in s;
    var rest := s - {x};
    if rest != {} {
      LeastExists(rest);
      var y: nat :| Least(rest, y);
      assert forall t <- s :: t == x || t in rest;
      assert Least(s, if x < y then x else y);
    } else {
      assert s == {x};
      assert Least(s, x);
    }
  }

  /** `updateHolder`: the handle joins its holder's set, whose count comes from the caller's map. */
  function JoinHolder(b: Batch, maps: Maps, holder: string, name: string): (Batch, Maps) {
    var members := (if holder in maps.holders then maps.holders[holder] else {}) + {name};
    var sets := (b.db.sets - {(DefaultHandle(holder), name)}) + {(HeldBy(holder), name)};
    (b.(db := b.db.(sets := sets, holderCount := b.db.holderCount[holder := |members|])),
     maps.(holders := maps.holders[holder := members]))
  }

  /** The old holder gives the handle up, in the map and in the batch. */
  function Move(lib: Lib, b: Batch, maps: Maps, holder: string, name: string): (Batch, Maps) {
    var known := (if holder in maps.holders then maps.holders[holder] else {}) - {name};
    var b' := LeaveHolder(lib, b, holder, name, |known|);
    var holders := if holder in maps.holders then maps.holders[holder := known] else maps.holders;
    (b', maps.(holders := if holder in b'.db.holderCount then holders else holders - {holder}))
  }

  /** One asset of `updateHandleIndexes`; None when the program raises. */
  function IndexAsset(lib: Lib, b: Batch, maps: Maps, u: Utxo, asset: Asset, mints: map<string,
                      set<MintData>>): Option<(Batch, Maps)> {
    if asset == NAMELESS then Some((b, maps))
    else
      var name := asset.name;
      if name !in mints || mints[name] == {} then None
      else
        var existing := Find(maps.handles, name);
        if existing.None? && name == "" then None
        else
          var updated := Updated(lib, existing, u, asset, FirstSlot(mints[name]));
          var h := updated.(holder := lib.holderOf(updated.address));
          var (b1, maps1) := JoinHolder(b, maps, h.holder, name);
          var (b2, maps2) :=
            if existing.Some? && existing.value.holder != h.holder
            then Move(lib, b1, maps1, existing.value.holder, name) else (b1, maps1);
          Some((b2.(db := Save(lib, b2.db, h, existing)), maps2.(handles := maps2.handles[name := h])))
  }

  function IndexAssets(lib: Lib, b: Batch, maps: Maps, u: Utxo, assets: seq<Asset>, mints: map<string,
                       set<MintData>>): Option<(Batch, Maps)> {
    if assets == [] then Some((b, maps))
    else
      match IndexAssets(lib, b, maps, u, assets[..|assets| - 1], mints)
      case None => None
      case Some((b', maps')) => IndexAsset(lib, b', maps', u, assets[|assets| - 1], mints)
  }
}
