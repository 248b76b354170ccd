/**
 The resumable snapshot import (`tryPopulateFromS3UTxOs` and `clearNamespace`, stores/redis/index.ts).
 */
module SnapshotImport {
  // An attempt is a list of atomic writes; a crash keeps a prefix of it. `Plan` is that list as a
  // function, `Importer.TryPopulate` is the program's control flow with its chunk loops, proved to
  // perform a prefix of the plan, and the lemmas say what any sequence of attempts leaves behind.

  import opened Sequences
  import opened Wrappers

  const MAX_SETS_PER_PIPE := 1_000

  datatype Utxo = Utxo(id: string, slot: nat, body: string)
  datatype Block = Block(hash: string, slot: nat)
  datatype MintEntry = MintEntry(handle: string, members: seq<string>)
  datatype Snapshot = Snapshot(id: string, slot: nat, minting: seq<MintEntry>, utxos: seq<Utxo>, scanned: seq<Block>)

  /** The four tables of the claim, and the names of every other data key of the namespace. */
  datatype Tables = Tables(
    utxo: map<string, Utxo>, utxoSlot: map<string, nat>, mint: set<(string, string)>, scanned: map<string, nat>,
    others: set<string>)

  datatype DataKey = UtxoKey(id: string) | UtxoSlotKey | MintKey(handle: string) | ScannedKey | OtherKey(name: string)
      | MetricsKey

  /** Hash fields are strings: None is a field that is not a run of digits. */
  datatype Progress = Progress(mdIdx: Option<nat>, utxoIdx: Option<nat>, schema: nat, hash: string, digest: string)
  datatype Metrics = Metrics(schema: nat, blockHash: string, slot: nat)
  datatype Db = Db(tables: Tables, metrics: Option<Metrics>, progress: Option<Progress>)

  /** The stable library sort by slot. */
  function InsertBySlot(u: Utxo, s: seq<Utxo>): seq<Utxo> {
    if s == [] || u.slot <= s[0].slot then [u] + s else [s[0]] + InsertBySlot(u, s[1..])
  }

  function SortBySlot(s: seq<Utxo>): seq<Utxo> {
    if s == [] then [] else InsertBySlot(s[0], SortBySlot(s[1..]))
  }

  function MintChunks(snap: Snapshot): seq<seq<MintEntry>> {
    Chunk(snap.minting, MAX_SETS_PER_PIPE)
  }

  function UtxoChunks(snap: Snapshot): seq<seq<Utxo>> {
    Chunk(SortBySlot(snap.utxos), MAX_SETS_PER_PIPE)
  }

  function BlockChunks(snap: Snapshot): seq<seq<Block>> {
    Chunk(snap.scanned, MAX_SETS_PER_PIPE)
  }

  // ---------- Writes ----------

  datatype Action =
    | Drop(keys: set<DataKey>)
    | AddMint(entries: seq<MintEntry>)
    | AddUtxos(utxos: seq<Utxo>)
    | AddScanned(blocks: seq<Block>)
    | SetProgress(progress: Progress)
    | SetMetrics(metrics: Metrics)
    | DeleteProgress

  function PutMint(mint: set<(string, string)>, entries: seq<MintEntry>): set<(string, string)> {
    mint + set e <- entries, m <- e.members :: (e.handle, m)
  }

  function PutUtxos(table: map<string, Utxo>, us: seq<Utxo>): map<string, Utxo>
    decreases us
  {
    if us == [] then table else PutUtxos(table[us[0].id := us[0]], us[1..])
  }

  function PutSlots(table: map<string, nat>, us: seq<Utxo>): map<string, nat>
    decreases us
  {
    if us == [] then table else PutSlots(table[us[0].id := us[0].slot], us[1..])
  }

  function PutBlocks(table: map<string, nat>, bs: seq<Block>): map<string, nat>
    decreases bs
  {
    if bs == [] then table else PutBlocks(table[bs[0].hash := bs[0].slot], bs[1..])
  }

  function DropKeys(t: Tables, keys: set<DataKey>): Tables {
    Tables(
      map id <- t.utxo | UtxoKey(id) !in keys :: t.utxo[id],
      if UtxoSlotKey in keys then map[] else t.utxoSlot,
      set p <- t.mint | MintKey(p.0) !in keys,
      if ScannedKey in keys then map[] else t.scanned,
      set n <- t.others | OtherKey(n) !in keys)
  }

  function KeysOf(db: Db): set<DataKey> {
    (set id <- db.tables.utxo :: UtxoKey(id)) + (if db.tables.utxoSlot == map[] then {} else {UtxoSlotKey}) +
    (set p <- db.tables.mint :: MintKey(p.0)) + (if db.tables.scanned == map[] then {} else {ScannedKey}) +
    (set n <- db.tables.others :: OtherKey(n)) + (if db.metrics.None? then {} else {MetricsKey})
  }

  /** Names of the handle-index keys the second half of the pipeline may write for a UTxO. */
  type IndexKeys = Utxo -> set<string>

  function Perform(index: IndexKeys, db: Db, a: Action): Db {
    match a
    case Drop(keys) =>
      db.(tables := DropKeys(db.tables, keys), metrics := if MetricsKey in keys then None else db.metrics)
    case AddMint(entries) => db.(tables := db.tables.(mint := PutMint(db.tables.mint, entries)))
    case AddUtxos(us) =>
      db.(tables := db.tables.(utxo := PutUtxos(db.tables.utxo, us), utxoSlot := PutSlots(db.tables.utxoSlot, us),
                               others := db.tables.others + (set u <- us, n <- index(u) :: n)))
    case AddScanned(bs) => db.(tables := db.tables.(scanned := PutBlocks(db.tables.scanned, bs)))
    case SetProgress(p) => db.(progress := Some(p))
    case SetMetrics(m) => db.(metrics := Some(m))
    case DeleteProgress => db.(progress := None)
  }

  function Run(index: IndexKeys, db: Db, actions: seq<Action>): Db {
    if actions == [] then db
    else Perform(index, Run(index, db, actions[..|actions| - 1]), actions[|actions| - 1])
  }

  // ---------- The plan of one attempt ----------

  datatype Response = Found(digest: string) | NotFound | Unavailable

  /**
   What one attempt meets: the answer of the object store, whether its claim wins, what SCAN returns, when it
   stops.
   */
  datatype Attempt = Attempt(response: Response, schema: nat, claimWins: bool, pages: seq<set<DataKey>>, writes: nat)

  /** The bytes behind a digest; equal digests are equal candidates. */
  datatype World = World(candidate: string -> Snapshot, wellShaped: (Snapshot, nat) -> bool, genesis: (string, nat),
                         index: IndexKeys)

  /** `validateSnapshot`: the shape of the envelope, and no output listed twice. */
  predicate Valid(w: World, snap: Snapshot, schema: nat) {
    w.wellShaped(snap, schema) && forall i, j | 0 <= i < j < |snap.utxos| :: snap.utxos[i].id != snap.utxos[j].id
  }

  function Note(md: nat, ut: nat, schema: nat, hash: string, digest: string): Action {
    SetProgress(Progress(Some(md), Some(ut), schema, hash, digest))
  }

  predicate ProgressFits(p: Progress, snap: Snapshot, schema: nat, digest: string) {
    && p.digest == digest && p.hash == snap.id && p.schema == schema
    && p.mdIdx.Some? && p.utxoIdx.Some?
    && p.mdIdx.value <= |MintChunks(snap)| && p.utxoIdx.value <= |UtxoChunks(snap)|
    && (p.utxoIdx.value > 0 ==> p.mdIdx.value == |MintChunks(snap)|)
  }

  /** A resume would be let in: there is no progress note, or it belongs to this snapshot. */
  predicate Resumable(db: Db, snap: Snapshot, schema: nat, digest: string) {
    db.progress.Some? ==> ProgressFits(db.progress.value, snap, schema, digest)
  }

  /** SCAN returns every key that exists during the whole iteration. */
  predicate ScanComplete(db: Db, pages: seq<set<DataKey>>) {
    forall k <- KeysOf(db) :: exists i | 0 <= i < |pages| :: k in pages[i]
  }

  predicate Admitted(w: World, db: Db, a: Attempt) {
    match a.response
    case Unavailable => false
    case NotFound => a.claimWins && db.progress.None? && db.metrics.None? && KeysOf(db) == {}
    case Found(digest) =>
      && Valid(w, w.candidate(digest), a.schema)
      && (db.progress.Some? ==> ProgressFits(db.progress.value, w.candidate(digest), a.schema, digest))
      && a.claimWins
  }

  /** The writes still to do once `md` mint chunks and `ut` UTxO chunks are in. */
  function Rest(snap: Snapshot, schema: nat, digest: string, md: nat, ut: nat): seq<Action>
    requires md <= |MintChunks(snap)| && ut <= |UtxoChunks(snap)|
    decreases |MintChunks(snap)| - md + |UtxoChunks(snap)| - ut
  {
    if md < |MintChunks(snap)| then
      [AddMint(MintChunks(snap)[md]), Note(md + 1, ut, schema, snap.id, digest)] +
          Rest(snap, schema, digest, md + 1, ut)
    else if ut < |UtxoChunks(snap)| then
      [AddUtxos(UtxoChunks(snap)[ut]), Note(md, ut + 1, schema, snap.id, digest)] +
          Rest(snap, schema, digest, md, ut + 1)
    else Blocks(BlockChunks(snap))
  }

  function Blocks(chunks: seq<seq<Block>>): seq<Action> {
    seq(|chunks|, i requires 0 <= i < |chunks| => AddScanned(chunks[i]))
  }

  function Drops(pages: seq<set<DataKey>>): seq<Action> {
    seq(|pages|, i requires 0 <= i < |pages| => Drop(pages[i]))
  }

  function Finish(schema: nat, hash: string, slot: nat): seq<Action> {
    [SetMetrics(Metrics(schema, hash, slot)), DeleteProgress]
  }

  function Plan(w: World, db: Db, a: Attempt): seq<Action> {
    if !Admitted(w, db, a) then []
    else if a.response.NotFound? then Finish(a.schema, w.genesis.0, w.genesis.1)
    else
      var snap, digest := w.candidate(a.response.digest), a.response.digest;
      (if db.progress.Some?
       then Rest(snap, a.schema, digest, db.progress.value.mdIdx.value, db.progress.value.utxoIdx.value)
       else Drops(a.pages) + [Note(0, 0, a.schema, snap.id, digest)] + Rest(snap, a.schema, digest, 0, 0))
      + Finish(a.schema, snap.id, snap.slot)
  }

  /** What an attempt that stops after `a.writes` writes leaves behind. */
  function After(w: World, db: Db, a: Attempt): Db {
    var plan := Plan(w, db, a);
    Run(w.index, db, if a.writes < |plan| then plan[..a.writes] else plan)
  }

  predicate Completes(w: World, db: Db, a: Attempt) {
    Admitted(w, db, a) && a.writes >= |Plan(w, db, a)|
  }

  function AfterAll(w: World, db: Db, attempts: seq<Attempt>): Db {
    if attempts == [] then db
    else After(w, AfterAll(w, db, attempts[..|attempts| - 1]), attempts[|attempts| - 1])
  }

  // ---------- What the tables should hold ----------

  predicate MintHas(t: Tables, entries: seq<MintEntry>) {
    forall e <- entries, m <- e.members :: (e.handle, m) in t.mint
  }

  predicate UtxosHave(t: Tables, us: seq<Utxo>) {
    forall u <- us :: u.id in t.utxo && t.utxo[u.id] == u && u.id in t.utxoSlot && t.utxoSlot[u.id] == u.slot
  }

  predicate Lists(bs: seq<Block>, h: string) {
    exists b <- bs :: b.hash == h
  }

  /** Nothing in the tables is older than the snapshot. */
  ghost predicate Within(w: World, t: Tables, snap: Snapshot) {
    && (forall p <- t.mint :: exists e <- snap.minting :: e.handle == p.0 && p.1 in e.members)
    && (forall id <- t.utxo :: t.utxo[id] in snap.utxos && t.utxo[id].id == id)
    && (forall id <- t.utxoSlot :: exists u <- snap.utxos :: u.id == id && u.slot == t.utxoSlot[id])
    && (forall h <- t.scanned :: Lists(snap.scanned, h))
    && (forall n <- t.others :: exists u <- snap.utxos :: n in w.index(u))
  }

  /** No later entry is for the same block. */
  predicate LastEntry(bs: seq<Block>, i: nat) {
    i < |bs| && forall j | i < j < |bs| :: bs[j].hash != bs[i].hash
  }

  /** Each block that is listed has the slot of its last entry. */
  ghost predicate BlocksHave(table: map<string, nat>, bs: seq<Block>) {
    forall i: nat | LastEntry(bs, i) :: bs[i].hash in table && table[bs[i].hash] == bs[i].slot
  }

  /** The four tables are exactly the snapshot's. */
  ghost predicate Complete(w: World, t: Tables, snap: Snapshot) {
    Within(w, t, snap) && MintHas(t, snap.minting) && UtxosHave(t, snap.utxos) && BlocksHave(t.scanned, snap.scanned)
  }

  /** The tables hold the first `md` mint chunks and the first `ut` UTxO chunks, and nothing older. */
  ghost predicate Partial(w: World, t: Tables, snap: Snapshot, md: nat, ut: nat) {
    && md <= |MintChunks(snap)| && ut <= |UtxoChunks(snap)| && (ut > 0 ==> md == |MintChunks(snap)|)
    && Within(w, t, snap)
    && (forall i | 0 <= i < md :: MintHas(t, MintChunks(snap)[i]))
    && (forall i | 0 <= i < ut :: UtxosHave(t, UtxoChunks(snap)[i]))
  }

  /** Any progress a resume would accept tells the truth about the tables. */
  ghost predicate Honest(w: World, db: Db) {
    db.progress.Some? ==>
      var p := db.progress.value;
      var snap := w.candidate(p.digest);
      ProgressFits(p, snap, p.schema, p.digest) && Valid(w, snap, p.schema) ==>
          Partial(w, db.tables, snap, p.mdIdx.value, p.utxoIdx.value)
  }

  // ---------- Chunks and sorting ----------

  lemma {:induction false} ChunksCover<T>(s: seq<T>, size: nat, x: T)
    requires size > 0
    ensures x in s <==> exists c <- Chunk(s, size) :: x in c
    decreases |s|
  {
    if |s| <= size {
      if s != [] { assert Chunk(s, size)[0] == s; }
    } else {
      ChunksCover(s[size..], size, x);
      assert s == s[..size] + s[size..];
      assert Chunk(s, size)[0] == s[..size] && Chunk(s, size)[1..] == Chunk(s[size..], size);
      if c :| c in Chunk(s[size..], size) && x in c { assert c in Chunk(s, size); }
      if c :| c in Chunk(s, size) && x in c {
        assert c == s[..size] || c in Chunk(s[size..], size);
      }
    }
  }

  lemma {:induction false} InsertKeeps(u: Utxo, s: seq<Utxo>, x: Utxo)
    ensures x in InsertBySlot(u, s) <==> x == u || x in s
  {
    if s != [] && u.slot > s[0].slot {
      InsertKeeps(u, s[1..], x);
      assert s == [s[0]] + s[1..];
    }
  }

  lemma {:induction false} SortKeeps(s: seq<Utxo>, x: Utxo)
    ensures x in SortBySlot(s) <==> x in s
  {
    if s != [] {
      SortKeeps(s[1..], x);
      InsertKeeps(s[0], SortBySlot(s[1..]), x);
      assert s == [s[0]] + s[1..];
    }
  }

  lemma UtxoChunksCover(snap: Snapshot, u: Utxo)
    ensures u in snap.utxos <==> exists c <- UtxoChunks(snap) :: u in c
  {
    SortKeeps(snap.utxos, u);
    ChunksCover(SortBySlot(snap.utxos), MAX_SETS_PER_PIPE, u);
  }

  predicate InSlotOrder(us: seq<Utxo>) {
    forall i, j | 0 <= i < j < |us| :: us[i].slot <= us[j].slot
  }

  /** The outputs of one slot, in their order. */
  function AtSlot(us: seq<Utxo>, slot: nat): seq<Utxo> {
    if us == [] then [] else (if us[0].slot == slot then [us[0]] else []) + AtSlot(us[1..], slot)
  }

  lemma {:induction false} InsertInOrder(u: Utxo, us: seq<Utxo>)
    requires InSlotOrder(us)
    ensures InSlotOrder(InsertBySlot(u, us))
  {
    if us != [] && u.slot > us[0].slot {
      var rest := InsertBySlot(u, us[1..]);
      InsertInOrder(u, us[1..]);
      forall x <- rest ensures us[0].slot <= x.slot { InsertKeeps(u, us[1..], x); }
      FirstInOrder(us[0], rest);
    }
  }

  lemma FirstInOrder(u: Utxo, us: seq<Utxo>)
    requires InSlotOrder(us) && forall x <- us :: u.slot <= x.slot
    ensures InSlotOrder([u] + us)
  {
  }

  lemma {:induction false} InsertAtSlot(u: Utxo, us: seq<Utxo>, slot: nat)
    ensures |InsertBySlot(u, us)| == |us| + 1
    ensures AtSlot(InsertBySlot(u, us), slot) == (if u.slot == slot then [u] else []) + AtSlot(us, slot)
  {
    if us == [] || u.slot <= us[0].slot {
      assert ([u] + us)[1..] == us;
    } else {
      var rest := InsertBySlot(u, us[1..]);
      InsertAtSlot(u, us[1..], slot);
      assert ([us[0]] + rest)[1..] == rest;
    }
  }

  lemma {:induction false} SortIsStable(us: seq<Utxo>, slot: nat)
    ensures InSlotOrder(SortBySlot(us)) && |SortBySlot(us)| == |us|
    ensures AtSlot(SortBySlot(us), slot) == AtSlot(us, slot)
  {
    if us != [] {
      SortIsStable(us[1..], slot);
      InsertInOrder(us[0], SortBySlot(us[1..]));
      InsertAtSlot(us[0], SortBySlot(us[1..]), slot);
    }
  }

  /**
   The outputs go in by slot, those of one slot as the snapshot lists them, a thousand at a time; minting
   data and scanned blocks go in as listed, likewise.
   */
  lemma ChunksAreInOrder(snap: Snapshot)
    ensures InSlotOrder(Joined(UtxoChunks(snap))) && |Joined(UtxoChunks(snap))| == |snap.utxos|
    ensures forall slot: nat :: AtSlot(Joined(UtxoChunks(snap)), slot) == AtSlot(snap.utxos, slot)
    ensures Joined(MintChunks(snap)) == snap.minting && Joined(BlockChunks(snap)) == snap.scanned
    ensures forall i | 0 <= i < |UtxoChunks(snap)| :: 0 < |UtxoChunks(snap)[i]| <= 1000
    ensures forall i | 0 <= i < |UtxoChunks(snap)| - 1 :: |UtxoChunks(snap)[i]| == 1000
    ensures forall i | 0 <= i < |MintChunks(snap)| :: 0 < |MintChunks(snap)[i]| <= 1000
    ensures forall i | 0 <= i < |MintChunks(snap)| - 1 :: |MintChunks(snap)[i]| == 1000
    ensures forall i | 0 <= i < |BlockChunks(snap)| :: 0 < |BlockChunks(snap)[i]| <= 1000
    ensures forall i | 0 <= i < |BlockChunks(snap)| - 1 :: |BlockChunks(snap)[i]| == 1000
  {
    hide Chunk, SortBySlot, AtSlot, InSlotOrder, Joined;
    var sorted := SortBySlot(snap.utxos);
    JoinedChunk(sorted, MAX_SETS_PER_PIPE);
    JoinedChunk(snap.minting, MAX_SETS_PER_PIPE);
    JoinedChunk(snap.scanned, MAX_SETS_PER_PIPE);
    ChunkSizes(sorted, MAX_SETS_PER_PIPE);
    ChunkSizes(snap.minting, MAX_SETS_PER_PIPE);
    ChunkSizes(snap.scanned, MAX_SETS_PER_PIPE);
    forall slot: nat
      ensures InSlotOrder(sorted) && |sorted| == |snap.utxos| && AtSlot(sorted, slot) == AtSlot(snap.utxos, slot)
    {
      SortIsStable(snap.utxos, slot);
    }
    assert InSlotOrder(sorted) && |sorted| == |snap.utxos| by { SortIsStable(snap.utxos, 0); }
  }

  // ---------- Table writes ----------

  lemma {:induction false} PutUtxosAt(table: map<string, Utxo>, us: seq<Utxo>, id: string)
    ensures id in PutUtxos(table, us) <==> id in table || exists u <- us :: u.id == id
    ensures id in PutUtxos(table, us) ==>
              (PutUtxos(table, us)[id] in us && PutUtxos(table, us)[id].id == id)
              || (id in table && PutUtxos(table, us)[id] == table[id] && forall u <- us :: u.id != id)
    decreases us
  {
    if us != [] {
      PutUtxosAt(table[us[0].id := us[0]], us[1..], id);
      assert us == [us[0]] + us[1..];
    }
  }

  lemma {:induction false} PutSlotsAt(table: map<string, nat>, us: seq<Utxo>, id: string)
    ensures id in PutSlots(table, us) <==> id in table || exists u <- us :: u.id == id
    ensures id in PutSlots(table, us) ==>
              (exists u <- us :: u.id == id && u.slot == PutSlots(table, us)[id])
              || (id in table && PutSlots(table, us)[id] == table[id] && forall u <- us :: u.id != id)
    decreases us
  {
    if us != [] {
      PutSlotsAt(table[us[0].id := us[0].slot], us[1..], id);
      assert us == [us[0]] + us[1..];
    }
  }

  lemma {:induction false} PutBlocksAt(table: map<string, nat>, bs: seq<Block>, h: string)
    ensures !Lists(bs, h) ==>
              (h in PutBlocks(table, bs) <==> h in table)
              && (h in table ==> PutBlocks(table, bs)[h] == table[h])
    decreases bs
  {
    if bs != [] {
      assert bs[0] in bs && forall b <- bs[1..] :: b in bs;
      PutBlocksAt(table[bs[0].hash := bs[0].slot], bs[1..], h);
    }
  }

  lemma {:induction false} PutBlocksLast(table: map<string, nat>, bs: seq<Block>, i: nat)
    requires LastEntry(bs, i)
    ensures bs[i].hash in PutBlocks(table, bs) && PutBlocks(table, bs)[bs[i].hash] == bs[i].slot
    decreases bs
  {
    var next := table[bs[0].hash := bs[0].slot];
    if i > 0 {
      PutBlocksLast(next, bs[1..], i - 1);
    } else {
      PutBlocksAt(next, bs[1..], bs[0].hash);
    }
  }

  lemma PutBlocksHave(table: map<string, nat>, bs: seq<Block>)
    ensures BlocksHave(PutBlocks(table, bs), bs)
    ensures forall h <- PutBlocks(table, bs) :: h in table || Lists(bs, h)
  {
    hide PutBlocks, Lists;
    forall i: nat | LastEntry(bs, i)
      ensures bs[i].hash in PutBlocks(table, bs) && PutBlocks(table, bs)[bs[i].hash] == bs[i].slot
    {
      PutBlocksLast(table, bs, i);
    }
    forall h <- PutBlocks(table, bs) ensures h in table || Lists(bs, h) { PutBlocksAt(table, bs, h); }
  }

  lemma {:induction false} LastOf(bs: seq<Block>, h: string) returns (i: nat)
    requires Lists(bs, h)
    ensures LastEntry(bs, i) && bs[i].hash == h
    decreases |bs|
  {
    i := |bs| - 1;
    if bs[i].hash != h {
      var b :| b in bs && b.hash == h;
      assert b in bs[..i];
      i := LastOf(bs[..i], h);
    }
  }

  lemma BlocksAreUnique(a: map<string, nat>, b: map<string, nat>, bs: seq<Block>)
    requires BlocksHave(a, bs) && BlocksHave(b, bs)
    requires (forall h <- a :: Lists(bs, h)) && (forall h <- b :: Lists(bs, h))
    ensures a == b
  {
    hide Lists;
    forall h: string ensures (h in a <==> h in b) && (h in a ==> a[h] == b[h]) {
      if h in a || h in b { var i := LastOf(bs, h); }
    }
    assert a.Keys == b.Keys;
  }

  lemma {:induction false} PutBlocksAppend(table: map<string, nat>, a: seq<Block>, b: seq<Block>)
    ensures PutBlocks(table, a + b) == PutBlocks(PutBlocks(table, a), b)
    decreases a
  {
    if a == [] {
      assert a + b == b;
    } else {
      assert (a + b)[1..] == a[1..] + b;
      PutBlocksAppend(table[a[0].hash := a[0].slot], a[1..], b);
    }
  }

  /**
   Writing every block again over a partly written ledger gives the ledger written once, in which each block
   has the slot of its last entry.
   */
  lemma BlocksConverge(w: World, t: Tables, snap: Snapshot)
    requires Within(w, t, snap)
    ensures BlocksHave(PutBlocks(t.scanned, snap.scanned), snap.scanned)
    ensures PutBlocks(t.scanned, snap.scanned) == PutBlocks(map[], snap.scanned)
  {
    hide BlocksHave, Lists, PutBlocks;
    PutBlocksHave(t.scanned, snap.scanned);
    PutBlocksHave(map[], snap.scanned);
    BlocksAreUnique(PutBlocks(t.scanned, snap.scanned), PutBlocks(map[], snap.scanned), snap.scanned);
  }

  // ---------- Running a plan ----------

  lemma {:induction false} RunAppend(index: IndexKeys, db: Db, a: seq<Action>, b: seq<Action>)
    ensures Run(index, db, a + b) == Run(index, Run(index, db, a), b)
    decreases b
  {
    if b == [] {
      assert a + b == a;
    } else {
      assert (a + b)[..|a + b| - 1] == a + b[..|b| - 1];
      RunAppend(index, db, a, b[..|b| - 1]);
    }
  }

  lemma RunOne(index: IndexKeys, db: Db, a: Action)
    ensures Run(index, db, [a]) == Perform(index, db, a)
  {
    assert [a][..0] == [];
    assert Run(index, db, []) == db;
  }

  lemma MintChunkGoesIn(w: World, db: Db, snap: Snapshot, md: nat, ut: nat)
    requires Partial(w, db.tables, snap, md, ut) && md < |MintChunks(snap)|
    ensures var t := Perform(w.index, db, AddMint(MintChunks(snap)[md])).tables;
            Partial(w, t, snap, md, ut) && Partial(w, t, snap, md + 1, ut)
  {
    var chunk := MintChunks(snap)[md];
    var t := Perform(w.index, db, AddMint(chunk)).tables;
    forall p <- t.mint ensures exists e <- snap.minting :: e.handle == p.0 && p.1 in e.members {
      if p !in db.tables.mint {
        var e :| e in chunk && p.1 in e.members && e.handle == p.0;
        ChunksCover(snap.minting, MAX_SETS_PER_PIPE, e);
      }
    }
  }

  lemma UtxoChunkGoesIn(w: World, db: Db, snap: Snapshot, schema: nat, ut: nat)
    requires Partial(w, db.tables, snap, |MintChunks(snap)|, ut) && ut < |UtxoChunks(snap)| && Valid(w, snap, schema)
    ensures var t := Perform(w.index, db, AddUtxos(UtxoChunks(snap)[ut])).tables;
            Partial(w, t, snap, |MintChunks(snap)|, ut) && Partial(w, t, snap, |MintChunks(snap)|, ut + 1)
  {
    var chunk := UtxoChunks(snap)[ut];
    var t := Perform(w.index, db, AddUtxos(chunk)).tables;
    forall u <- chunk ensures u in snap.utxos { UtxoChunksCover(snap, u); }
    UtxosGoIn(w, db, snap, schema, chunk);
    forall i | 0 <= i < ut ensures UtxosHave(t, UtxoChunks(snap)[i]) {
      forall u <- UtxoChunks(snap)[i] ensures u in snap.utxos { UtxoChunksCover(snap, u); }
      UtxosStay(w, db, snap, schema, chunk, UtxoChunks(snap)[i]);
    }
  }

  lemma UtxosGoIn(w: World, db: Db, snap: Snapshot, schema: nat, chunk: seq<Utxo>)
    requires Within(w, db.tables, snap) && Valid(w, snap, schema) && forall u <- chunk :: u in snap.utxos
    ensures Within(w, Perform(w.index, db, AddUtxos(chunk)).tables, snap)
    ensures UtxosHave(Perform(w.index, db, AddUtxos(chunk)).tables, chunk)
  {
    var t := Perform(w.index, db, AddUtxos(chunk)).tables;
    forall id <- t.utxo ensures t.utxo[id] in snap.utxos && t.utxo[id].id == id {
      PutUtxosAt(db.tables.utxo, chunk, id);
    }
    forall id <- t.utxoSlot ensures exists u <- snap.utxos :: u.id == id && u.slot == t.utxoSlot[id] {
      PutSlotsAt(db.tables.utxoSlot, chunk, id);
    }
    assert Within(w, t, snap);
    assert UtxosHave(t, chunk) by { ChunkIsIn(w, db, snap, schema, chunk); }
  }

  lemma ChunkIsIn(w: World, db: Db, snap: Snapshot, schema: nat, chunk: seq<Utxo>)
    requires Valid(w, snap, schema) && forall u <- chunk :: u in snap.utxos
    ensures UtxosHave(Perform(w.index, db, AddUtxos(chunk)).tables, chunk)
  {
    forall u <- chunk
      ensures var t := Perform(w.index, db, AddUtxos(chunk)).tables;
              u.id in t.utxo && t.utxo[u.id] == u && u.id in t.utxoSlot && t.utxoSlot[u.id] == u.slot
    {
      PutUtxosAt(db.tables.utxo, chunk, u.id);
      PutSlotsAt(db.tables.utxoSlot, chunk, u.id);
    }
  }

  lemma UtxosStay(w: World, db: Db, snap: Snapshot, schema: nat, chunk: seq<Utxo>, us: seq<Utxo>)
    requires Valid(w, snap, schema) && (forall u <- chunk :: u in snap.utxos) && (forall u <- us :: u in snap.utxos)
    requires UtxosHave(db.tables, us)
    ensures UtxosHave(Perform(w.index, db, AddUtxos(chunk)).tables, us)
  {
    forall u <- us
      ensures var t := Perform(w.index, db, AddUtxos(chunk)).tables;
              u.id in t.utxo && t.utxo[u.id] == u && u.id in t.utxoSlot && t.utxoSlot[u.id] == u.slot
    {
      PutUtxosAt(db.tables.utxo, chunk, u.id);
      PutSlotsAt(db.tables.utxoSlot, chunk, u.id);
    }
  }

  lemma {:induction false} JoinedIn<T>(chunks: seq<seq<T>>, x: T)
    ensures x in Joined(chunks) ==> exists c <- chunks :: x in c
  {
    if chunks != [] { JoinedIn(chunks[..|chunks| - 1], x); }
  }

  lemma {:induction false} BlocksRun(w: World, db: Db, chunks: seq<seq<Block>>)
    ensures Run(w.index, db, Blocks(chunks)) ==
              db.(tables := db.tables.(scanned := PutBlocks(db.tables.scanned, Joined(chunks))))
  {
    if chunks != [] {
      var before, last := chunks[..|chunks| - 1], chunks[|chunks| - 1];
      assert Blocks(chunks)[..|chunks| - 1] == Blocks(before);
      BlocksRun(w, db, before);
      PutBlocksAppend(db.tables.scanned, Joined(before), last);
    }
  }

  /** The tail of every plan: the block ledger, whole or cut short. */
  lemma BlocksComplete(w: World, db: Db, snap: Snapshot, k: nat)
    requires Partial(w, db.tables, snap, |MintChunks(snap)|, |UtxoChunks(snap)|) && k <= |BlockChunks(snap)|
    ensures var end := Run(w.index, db, Blocks(BlockChunks(snap))[..k]);
            end.progress == db.progress && end.metrics == db.metrics
            && Partial(w, end.tables, snap, |MintChunks(snap)|, |UtxoChunks(snap)|)
            && (k == |BlockChunks(snap)| ==> Complete(w, end.tables, snap))
  {
    var chunks := BlockChunks(snap);
    assert Blocks(chunks)[..k] == Blocks(chunks[..k]);
    BlocksRun(w, db, chunks[..k]);
    var end := Run(w.index, db, Blocks(chunks[..k]));
    forall h <- end.tables.scanned ensures Lists(snap.scanned, h) {
      PutBlocksHave(db.tables.scanned, Joined(chunks[..k]));
      if h !in db.tables.scanned {
        var b: Block :| b in Joined(chunks[..k]) && b.hash == h;
        JoinedIn(chunks[..k], b);
        var c :| c in chunks[..k] && b in c;
        ChunksCover(snap.scanned, MAX_SETS_PER_PIPE, b);
      }
    }
    if k == |chunks| {
      assert chunks[..k] == chunks;
      JoinedChunk(snap.scanned, MAX_SETS_PER_PIPE);
      BlocksConverge(w, db.tables, snap);
      AllChunksIn(w, end.tables, snap);
    }
  }

  lemma AllChunksIn(w: World, t: Tables, snap: Snapshot)
    requires Partial(w, t, snap, |MintChunks(snap)|, |UtxoChunks(snap)|)
    ensures MintHas(t, snap.minting) && UtxosHave(t, snap.utxos)
  {
    forall e <- snap.minting, m <- e.members ensures (e.handle, m) in t.mint {
      ChunksCover(snap.minting, MAX_SETS_PER_PIPE, e);
      var c :| c in MintChunks(snap) && e in c;
      assert MintHas(t, c);
    }
    forall u <- snap.utxos
      ensures u.id in t.utxo && t.utxo[u.id] == u && u.id in t.utxoSlot && t.utxoSlot[u.id] == u.slot
    {
      UtxoChunksCover(snap, u);
      var c :| c in UtxoChunks(snap) && u in c;
      assert UtxosHave(t, c);
    }
  }

  predicate At(db: Db, snap: Snapshot, schema: nat, digest: string, md: nat, ut: nat) {
    db.progress == Some(Progress(Some(md), Some(ut), schema, snap.id, digest))
  }

  /** One chunk and its progress note. */
  lemma ChunkStep(w: World, db: Db, snap: Snapshot, schema: nat, digest: string, md: nat, ut: nat, k: nat)
    requires Partial(w, db.tables, snap, md, ut) && Valid(w, snap, schema) && At(db, snap, schema, digest, md, ut)
    requires md < |MintChunks(snap)| || ut < |UtxoChunks(snap)|
    requires k <= 2
    ensures var mint := md < |MintChunks(snap)|;
            var md', ut' := if mint then md + 1 else md, if mint then ut else ut + 1;
            var first := if mint then AddMint(MintChunks(snap)[md]) else AddUtxos(UtxoChunks(snap)[ut]);
            var next := Run(w.index, db, [first, Note(md', ut', schema, snap.id, digest)][..k]);
            if k < 2 then Partial(w, next.tables, snap, md, ut) && At(next, snap, schema, digest, md, ut)
            else Partial(w, next.tables, snap, md', ut') && At(next, snap, schema, digest, md', ut')
  {
    var mint := md < |MintChunks(snap)|;
    var first := if mint then AddMint(MintChunks(snap)[md]) else AddUtxos(UtxoChunks(snap)[ut]);
    var note := Note(if mint then md + 1 else md, if mint then ut else ut + 1, schema, snap.id, digest);
    assert [first, note][..0] == [] && [first, note][..1] == [first] && [first, note][..2] == [first, note];
    RunOne(w.index, db, first);
    assert Run(w.index, db, [first, note]) == Perform(w.index, Run(w.index, db, [first]), note);
    if mint { MintChunkGoesIn(w, db, snap, md, ut); } else { UtxoChunkGoesIn(w, db, snap, schema, ut); }
  }

  /** From any honest point on, the remaining writes keep the progress honest at every cut and end complete. */
  lemma {:induction false} RestRuns(w: World, db: Db, snap: Snapshot, schema: nat, digest: string, md: nat,
                                    ut: nat, k: nat)
    requires Partial(w, db.tables, snap, md, ut) && Valid(w, snap, schema) && At(db, snap, schema, digest, md, ut)
    requires w.candidate(digest) == snap && k <= |Rest(snap, schema, digest, md, ut)|
    ensures var next := Run(w.index, db, Rest(snap, schema, digest, md, ut)[..k]);
            && Honest(w, next) && Resumable(next, snap, schema, digest)
            && (k == |Rest(snap, schema, digest, md, ut)| ==> Complete(w, next.tables, snap))
    decreases |MintChunks(snap)| - md + |UtxoChunks(snap)| - ut
  {
    hide Perform, Chunk;
    var rest := Rest(snap, schema, digest, md, ut);
    if md < |MintChunks(snap)| || ut < |UtxoChunks(snap)| {
      var mint := md < |MintChunks(snap)|;
      var md', ut' := if mint then md + 1 else md, if mint then ut else ut + 1;
      ChunkStep(w, db, snap, schema, digest, md, ut, if k < 2 then k else 2);
      if k < 2 {
        assert rest[..k] == rest[..2][..k];
      } else {
        assert rest[..k] == rest[..2] + rest[2..][..k - 2];
        RunAppend(w.index, db, rest[..2], rest[2..][..k - 2]);
        assert rest[2..] == Rest(snap, schema, digest, md', ut');
        assert rest[..2][..2] == rest[..2];
        RestRuns(w, Run(w.index, db, rest[..2]), snap, schema, digest, md', ut', k - 2);
      }
    } else {
      BlocksComplete(w, db, snap, k);
    }
  }

  // ---------- Clearing the namespace ----------

  predicate HasKey(db: Db, k: DataKey) {
    match k
    case UtxoKey(id) => id in db.tables.utxo
    case UtxoSlotKey => db.tables.utxoSlot != map[]
    case MintKey(handle) => exists p <- db.tables.mint :: p.0 == handle
    case ScannedKey => db.tables.scanned != map[]
    case OtherKey(name) => name in db.tables.others
    case MetricsKey => db.metrics.Some?
  }

  lemma KeysOfAre(db: Db, k: DataKey)
    ensures k in KeysOf(db) <==> HasKey(db, k)
  {
    if k.MintKey? && HasKey(db, k) {
      var p :| p in db.tables.mint && p.0 == k.handle;
      assert MintKey(p.0) in KeysOf(db);
    }
  }

  lemma DropIsDifference(w: World, db: Db, keys: set<DataKey>)
    ensures KeysOf(Perform(w.index, db, Drop(keys))) == KeysOf(db) - keys
  {
    hide KeysOf;
    var after := Perform(w.index, db, Drop(keys));
    forall k: DataKey ensures k in KeysOf(after) <==> k in KeysOf(db) - keys {
      KeysOfAre(db, k);
      KeysOfAre(after, k);
      KeyDropped(w, db, keys, k);
    }
  }

  lemma KeyDropped(w: World, db: Db, keys: set<DataKey>, k: DataKey)
    ensures HasKey(Perform(w.index, db, Drop(keys)), k) <==> HasKey(db, k) && k !in keys
  {
    match k
    case MintKey(handle) =>
      if p :| p in db.tables.mint && p.0 == handle && k !in keys { assert p in DropKeys(db.tables, keys).mint; }
    case _ =>
  }

  lemma {:induction false} DropsRun(w: World, db: Db, pages: seq<set<DataKey>>)
    ensures var end := Run(w.index, db, Drops(pages));
            end.progress == db.progress && forall k <- KeysOf(end) ::
                k in KeysOf(db) && forall i | 0 <= i < |pages| :: k !in pages[i]
  {
    hide KeysOf, DropKeys;
    if pages != [] {
      var before, last := pages[..|pages| - 1], pages[|pages| - 1];
      assert Drops(pages)[..|pages| - 1] == Drops(before);
      DropsRun(w, db, before);
      DropIsDifference(w, Run(w.index, db, Drops(before)), last);
      forall k <- KeysOf(Run(w.index, db, Drops(pages))), i | 0 <= i < |pages| ensures k !in pages[i] {
        if i < |before| { assert k !in before[i]; }
      }
    }
  }

  lemma NoKeysNoData(w: World, db: Db, snap: Snapshot)
    requires KeysOf(db) == {}
    ensures Partial(w, db.tables, snap, 0, 0)
  {
    var t := db.tables;
    assert forall id <- t.utxo :: UtxoKey(id) in KeysOf(db);
    assert t.utxoSlot != map[] ==> UtxoSlotKey in KeysOf(db);
    assert forall p <- t.mint :: MintKey(p.0) in KeysOf(db);
    assert t.scanned != map[] ==> ScannedKey in KeysOf(db);
    assert forall n <- t.others :: OtherKey(n) in KeysOf(db);
  }

  /** A first attempt, cut anywhere: while it clears there is no progress to resume from; afterwards it is empty. */
  lemma FreshRuns(w: World, db: Db, a: Attempt, k: nat)
    requires a.response.Found? && db.progress.None? && ScanComplete(db, a.pages)
    requires Valid(w, w.candidate(a.response.digest), a.schema)
    ensures var snap, digest := w.candidate(a.response.digest), a.response.digest;
            var steps := Drops(a.pages) + [Note(0, 0, a.schema, snap.id, digest)] + Rest(snap, a.schema, digest, 0, 0);
            k <= |steps| ==>
              && Honest(w, Run(w.index, db, steps[..k]))
              && Resumable(Run(w.index, db, steps[..k]), snap, a.schema, digest)
              && (k == |steps| ==> Complete(w, Run(w.index, db, steps).tables, snap))
  {
    hide KeysOf, DropKeys, Perform, Rest, Complete, Partial;
    var snap, digest := w.candidate(a.response.digest), a.response.digest;
    var note, rest := Note(0, 0, a.schema, snap.id, digest), Rest(snap, a.schema, digest, 0, 0);
    var steps := Drops(a.pages) + [note] + rest;
    var n := |a.pages|;
    if k <= n {
      assert steps[..k] == Drops(a.pages)[..k] == Drops(a.pages[..k]);
      DropsRun(w, db, a.pages[..k]);
    } else if k <= |steps| {
      assert steps[..k] == (Drops(a.pages) + [note]) + rest[..k - n - 1];
      ClearedRuns(w, db, a);
      RunAppend(w.index, db, Drops(a.pages) + [note], rest[..k - n - 1]);
      RestRuns(w, Run(w.index, db, Drops(a.pages) + [note]), snap, a.schema, digest, 0, 0, k - n - 1);
      if k == |steps| {
        assert rest[..k - n - 1] == rest && steps[..k] == steps;
      }
    }
  }

  lemma ClearedRuns(w: World, db: Db, a: Attempt)
    requires a.response.Found? && ScanComplete(db, a.pages)
    ensures var snap, digest := w.candidate(a.response.digest), a.response.digest;
            var end := Run(w.index, db, Drops(a.pages) + [Note(0, 0, a.schema, snap.id, digest)]);
            Partial(w, end.tables, snap, 0, 0) && At(end, snap, a.schema, digest, 0, 0)
  {
    hide KeysOf, DropKeys;
    var snap, digest := w.candidate(a.response.digest), a.response.digest;
    var note := Note(0, 0, a.schema, snap.id, digest);
    var cleared := Run(w.index, db, Drops(a.pages));
    DropsRun(w, db, a.pages);
    assert forall key: DataKey :: key !in KeysOf(cleared);
    NoKeysNoData(w, cleared, snap);
    RunAppend(w.index, db, Drops(a.pages), [note]);
    RunOne(w.index, cleared, note);
  }

  lemma FinishRuns(w: World, db: Db, steps: seq<Action>, schema: nat, hash: string, slot: nat, k: nat)
    requires |steps| < k <= |steps| + 2
    requires Honest(w, Run(w.index, db, steps))
    ensures var end := Run(w.index, db, (steps + Finish(schema, hash, slot))[..k]);
            Honest(w, end) && end.tables == Run(w.index, db, steps).tables
            && (end.progress == None || end.progress == Run(w.index, db, steps).progress)
            && (k == |steps| + 2 ==> end.progress == None && end.metrics == Some(Metrics(schema, hash, slot)))
  {
    var finish := Finish(schema, hash, slot);
    var mid := Run(w.index, db, steps);
    assert (steps + finish)[..k] == steps + finish[..k - |steps|];
    RunAppend(w.index, db, steps, finish[..k - |steps|]);
    assert finish[..1] == [finish[0]] && finish[..2] == finish;
    RunOne(w.index, mid, finish[0]);
  }

  // ---------- Results ----------

  /**
   One attempt, cut after any number of writes: a refused one writes nothing, every progress note it
   leaves is true, and a completed one leaves exactly the snapshot.
   */
  lemma AttemptKeeps(w: World, db: Db, a: Attempt)
    requires Honest(w, db)
    requires a.response.Found? && db.progress.None? ==> ScanComplete(db, a.pages)
    ensures !Admitted(w, db, a) ==> After(w, db, a) == db
    ensures Honest(w, After(w, db, a))
    ensures Admitted(w, db, a) && a.response.Found? ==>
              Resumable(After(w, db, a), w.candidate(a.response.digest), a.schema, a.response.digest)
    ensures Completes(w, db, a) && a.response.Found? ==>
              var snap := w.candidate(a.response.digest);
              Complete(w, After(w, db, a).tables, snap) && After(w, db, a).progress == None
              && After(w, db, a).metrics == Some(Metrics(a.schema, snap.id, snap.slot))
  {
    if !Admitted(w, db, a) {
      assert Run(w.index, db, []) == db;
    } else if a.response.NotFound? {
      var k := if a.writes < 2 then a.writes else 2;
      assert [] + Finish(a.schema, w.genesis.0, w.genesis.1) == Plan(w, db, a);
      assert Run(w.index, db, []) == db;
      assert Plan(w, db, a)[..2] == Plan(w, db, a) && Plan(w, db, a)[..0] == [];
      if k > 0 { FinishRuns(w, db, [], a.schema, w.genesis.0, w.genesis.1, k); }
    } else {
      FoundAttempt(w, db, a);
    }
  }

  lemma FoundAttempt(w: World, db: Db, a: Attempt)
    requires Honest(w, db) && Admitted(w, db, a) && a.response.Found?
    requires db.progress.None? ==> ScanComplete(db, a.pages)
    ensures Honest(w, After(w, db, a))
    ensures Resumable(After(w, db, a), w.candidate(a.response.digest), a.schema, a.response.digest)
    ensures Completes(w, db, a) ==>
              var snap := w.candidate(a.response.digest);
              Complete(w, After(w, db, a).tables, snap) && After(w, db, a).progress == None
              && After(w, db, a).metrics == Some(Metrics(a.schema, snap.id, snap.slot))
  {
    var snap, digest := w.candidate(a.response.digest), a.response.digest;
    var plan := Plan(w, db, a);
    var steps := plan[..|plan| - 2];
    var k := if a.writes < |plan| then a.writes else |plan|;
    assert plan[..|plan|] == plan;
    var cut := if k <= |steps| then k else |steps|;
    assert steps[..|steps|] == steps;
    if db.progress.Some? {
      var md, ut := db.progress.value.mdIdx.value, db.progress.value.utxoIdx.value;
      assert steps == Rest(snap, a.schema, digest, md, ut);
      RestRuns(w, db, snap, a.schema, digest, md, ut, cut);
    } else {
      assert steps == Drops(a.pages) + [Note(0, 0, a.schema, snap.id, digest)] + Rest(snap, a.schema, digest, 0, 0);
      FreshRuns(w, db, a, cut);
    }
    assert plan == steps + Finish(a.schema, snap.id, snap.slot);
    if k <= |steps| {
      assert plan[..k] == steps[..k];
    } else {
      FinishRuns(w, db, steps, a.schema, snap.id, snap.slot, k);
    }
  }

  /** Without a snapshot the first state is set up exactly in a database that holds nothing, and nothing else is. */
  lemma GenesisOnlyOnNothing(w: World, db: Db, a: Attempt)
    requires a.response.NotFound? && a.writes >= 2
    ensures Completes(w, db, a) <==> a.claimWins && db == Db(Tables(map[], map[], {}, map[], {}), None, None)
    ensures After(w, db, a) ==
            if Completes(w, db, a) then db.(metrics := Some(Metrics(a.schema, w.genesis.0, w.genesis.1))) else db
  {
    NoKeysMeansEmpty(db);
    assert Run(w.index, db, []) == db;
    if Admitted(w, db, a) {
      var plan := Plan(w, db, a);
      assert [] + Finish(a.schema, w.genesis.0, w.genesis.1) == plan && plan[..2] == plan && |plan| == 2;
      assert plan[..1] == [plan[0]];
      RunOne(w.index, db, plan[0]);
      assert Run(w.index, db, plan) == Perform(w.index, Run(w.index, db, plan[..1]), plan[1]);
    }
  }

  lemma NoKeysMeansEmpty(db: Db)
    ensures KeysOf(db) == {} <==> db.tables == Tables(map[], map[], {}, map[], {}) && db.metrics.None?
  {
    if KeysOf(db) == {} {
      assert forall id <- db.tables.utxo :: UtxoKey(id) in KeysOf(db);
      assert forall p <- db.tables.mint :: MintKey(p.0) in KeysOf(db);
      assert forall n <- db.tables.others :: OtherKey(n) in KeysOf(db);
      assert UtxoSlotKey !in KeysOf(db) && ScannedKey !in KeysOf(db) && MetricsKey !in KeysOf(db);
    }
  }

  /** SCAN keeps its promise in every attempt of the sequence that clears. */
  predicate ScansComplete(w: World, db: Db, attempts: seq<Attempt>) {
    forall i | 0 <= i < |attempts| ::
      var before := AfterAll(w, db, attempts[..i]);
      attempts[i].response.Found? && before.progress.None? ==> ScanComplete(before, attempts[i].pages)
  }

  lemma {:induction false} AttemptsStayHonest(w: World, db: Db, attempts: seq<Attempt>)
    requires Honest(w, db) && ScansComplete(w, db, attempts)
    ensures Honest(w, AfterAll(w, db, attempts))
  {
    if attempts != [] {
      var before := attempts[..|attempts| - 1];
      forall i | 0 <= i < |before|
        ensures attempts[..i] == before[..i]
      {
      }
      AttemptsStayHonest(w, db, before);
      AttemptKeeps(w, AfterAll(w, db, before), attempts[|attempts| - 1]);
    }
  }

  /**
   Convergence: after any attempts at all (other snapshots, refusals, crashes at any write), an
   attempt that runs to its end leaves the tables of its snapshot and nothing older.
   */
  lemma ImportConverges(w: World, db: Db, attempts: seq<Attempt>, last: Attempt)
    requires Honest(w, db) && ScansComplete(w, db, attempts + [last])
    requires last.response.Found? && Completes(w, AfterAll(w, db, attempts), last)
    ensures Complete(w, AfterAll(w, db, attempts + [last]).tables, w.candidate(last.response.digest))
    ensures AfterAll(w, db, attempts + [last]).progress == None
  {
    var all := attempts + [last];
    assert all[..|attempts|] == attempts;
    ScansOfPart(w, db, all, |attempts|);
    AttemptsStayHonest(w, db, attempts);
    AttemptKeeps(w, AfterAll(w, db, attempts), last);
  }

  /** The same snapshot throughout, well shaped and with no output listed twice. */
  ghost predicate SameSnapshot(w: World, attempts: seq<Attempt>, digest: string, schema: nat) {
    && (forall a <- attempts :: a.response == Found(digest) && a.schema == schema)
    && w.wellShaped(w.candidate(digest), schema)
    && forall i, j | 0 <= i < j < |w.candidate(digest).utxos| ::
         w.candidate(digest).utxos[i].id != w.candidate(digest).utxos[j].id
  }

  lemma {:induction false} StaysResumable(w: World, db: Db, attempts: seq<Attempt>, digest: string, schema: nat)
    requires Honest(w, db) && db.progress.None? && SameSnapshot(w, attempts, digest, schema)
    requires ScansComplete(w, db, attempts)
    ensures Resumable(AfterAll(w, db, attempts), w.candidate(digest), schema, digest)
    decreases |attempts|
  {
    hide Honest, ProgressFits, ScansComplete, After, Admitted;
    if attempts != [] {
      var before, a := attempts[..|attempts| - 1], attempts[|attempts| - 1];
      assert a in attempts && forall x <- before :: x in attempts;
      ScansOfPart(w, db, attempts, |before|);
      StaysResumable(w, db, before, digest, schema);
      AttemptsStayHonest(w, db, before);
      LastScan(w, db, attempts);
      AttemptKeeps(w, AfterAll(w, db, before), a);
    }
  }

  lemma ScansOfPart(w: World, db: Db, attempts: seq<Attempt>, n: nat)
    requires ScansComplete(w, db, attempts) && n <= |attempts|
    ensures ScansComplete(w, db, attempts[..n])
  {
    hide AfterAll, ScanComplete;
    forall i | 0 <= i < n ensures attempts[..n][..i] == attempts[..i] && attempts[..n][i] == attempts[i] {}
  }

  lemma LastScan(w: World, db: Db, attempts: seq<Attempt>)
    requires ScansComplete(w, db, attempts) && attempts != []
    ensures var before, a := AfterAll(w, db, attempts[..|attempts| - 1]), attempts[|attempts| - 1];
            a.response.Found? && before.progress.None? ==> ScanComplete(before, a.pages)
  {
  }

  /**
   However often the import of one snapshot into a database without a progress note has been cut short, or has
   lost its claim: an attempt that wins its claim is let in, and completes if nothing stops it.
   */
  lemma AttemptsCanResume(w: World, db: Db, attempts: seq<Attempt>, last: Attempt, digest: string, schema: nat)
    requires Honest(w, db) && db.progress.None? && SameSnapshot(w, attempts + [last], digest, schema)
    requires ScansComplete(w, db, attempts + [last]) && last.claimWins
    ensures var before, snap := AfterAll(w, db, attempts), w.candidate(digest);
            && Admitted(w, before, last)
            && (last.writes >= |Plan(w, before, last)| ==> Complete(w, After(w, before, last).tables, snap))
  {
    hide Complete, Honest, ProgressFits, ScansComplete, After, AfterAll;
    var all := attempts + [last];
    assert all[..|attempts|] == attempts && last in all && forall a <- attempts :: a in all;
    ScansOfPart(w, db, all, |attempts|);
    LastScan(w, db, all);
    AttemptsStayHonest(w, db, attempts);
    StaysResumable(w, db, attempts, digest, schema);
    AttemptKeeps(w, AfterAll(w, db, attempts), last);
  }

  /**
   Two completed imports of one snapshot agree on the four tables, so every history ends like an uninterrupted
   one.
   */
  lemma CompleteIsUnique(w: World, t: Tables, u: Tables, snap: Snapshot)
    requires Complete(w, t, snap) && Complete(w, u, snap)
    ensures t.utxo == u.utxo && t.utxoSlot == u.utxoSlot && t.mint == u.mint && t.scanned == u.scanned
  {
    forall id: string
      ensures id in t.utxo <==> id in u.utxo
      ensures id in t.utxo ==> t.utxo[id] == u.utxo[id]
      ensures id in t.utxoSlot <==> id in u.utxoSlot
      ensures id in t.utxoSlot ==> t.utxoSlot[id] == u.utxoSlot[id]
    {
    }
    assert t.utxo.Keys == u.utxo.Keys && t.utxoSlot.Keys == u.utxoSlot.Keys;
    BlocksAreUnique(t.scanned, u.scanned, snap.scanned);
    forall p: (string, string) ensures p in t.mint <==> p in u.mint {
    }
  }

  // ---------- The program's control flow ----------

  lemma RestOfMinting(snap: Snapshot, schema: nat, digest: string, md: nat, ut: nat)
    requires md < |MintChunks(snap)| && ut <= |UtxoChunks(snap)|
    ensures Rest(snap, schema, digest, md, ut) ==
              [AddMint(MintChunks(snap)[md]), Note(md + 1, ut, schema, snap.id, digest)] +
                  Rest(snap, schema, digest, md + 1, ut)
  {
    hide Chunk;
  }

  lemma RestOfUtxos(snap: Snapshot, schema: nat, digest: string, ut: nat)
    requires ut < |UtxoChunks(snap)|
    ensures var md := |MintChunks(snap)|;
            Rest(snap, schema, digest, md, ut) ==
              [AddUtxos(UtxoChunks(snap)[ut]), Note(md, ut + 1, schema, snap.id, digest)] +
                  Rest(snap, schema, digest, md, ut + 1)
  {
    hide Chunk;
  }

  lemma RestOfBlocks(snap: Snapshot, schema: nat, digest: string)
    ensures Rest(snap, schema, digest, |MintChunks(snap)|, |UtxoChunks(snap)|) == Blocks(BlockChunks(snap))
  {
    hide Chunk;
  }

  /** A process that imports; it dies at the write that finds `fuel` used up. */
  class Importer {
    var db: Db
    var fuel: nat

    method Write(w: World, a: Action) returns (alive: bool)
      modifies this
      ensures alive == (old(fuel) > 0)
      ensures alive ==> db == Perform(w.index, old(db), a) && fuel == old(fuel) - 1
      ensures !alive ==> db == old(db) && fuel == 0
    {
      alive := fuel > 0;
      if alive {
        db := Perform(w.index, db, a);
        fuel := fuel - 1;
      }
    }

    /** `done` has been performed out of `plan`. */
    ghost predicate Doing(w: World, start: Db, plan: seq<Action>, done: seq<Action>, writes: nat)
      reads this
    {
      db == Run(w.index, start, done) && fuel + |done| == writes && done <= plan
    }

    /** One planned write; a death leaves what a cut plan leaves. */
    method Next(w: World, a: Action, ghost start: Db, ghost plan: seq<Action>, ghost done: seq<Action>,
                ghost writes: nat) returns (alive: bool)
      requires Doing(w, start, plan, done, writes) && |done| < |plan| && plan[|done|] == a
      modifies this
      ensures alive ==> Doing(w, start, plan, done + [a], writes)
      ensures !alive ==> writes < |plan| && db == Run(w.index, start, plan[..writes])
    {
      alive := Write(w, a);
      if alive {
        assert (done + [a])[..|done|] == done;
      } else {
        assert done == plan[..writes];
      }
    }

    /** The minting chunks, from the first one not yet noted as done. */
    method ImportMinting(w: World, snap: Snapshot, schema: nat, digest: string, md0: nat, ut: nat,
                         ghost start: Db, ghost plan: seq<Action>, ghost done0: seq<Action>, ghost writes: nat)
      returns (alive: bool, ghost done: seq<Action>)
      requires md0 <= |MintChunks(snap)| && ut <= |UtxoChunks(snap)|
      requires Doing(w, start, plan, done0, writes) && done0 + Rest(snap, schema, digest, md0, ut) <= plan
      modifies this
      ensures alive ==>
                done + Rest(snap, schema, digest, |MintChunks(snap)|, ut) == done0 + Rest(snap, schema, digest, md0, ut)
                        && Doing(w, start, plan, done, writes)
      ensures !alive ==> writes < |plan| && db == Run(w.index, start, plan[..writes])
    {
      hide Run, Perform, Rest, Chunk;
      var mdIdx := md0;
      var mintingChunks := MintChunks(snap);
      done := done0;
      while mdIdx < |mintingChunks|
        invariant mdIdx <= |mintingChunks| && Doing(w, start, plan, done, writes)
        invariant done + Rest(snap, schema, digest, mdIdx, ut) == done0 + Rest(snap, schema, digest, md0, ut)
      {
        ghost var rest := Rest(snap, schema, digest, mdIdx, ut);
        RestOfMinting(snap, schema, digest, mdIdx, ut);
        assert (done + rest)[|done|] == rest[0] && (done + rest)[|done| + 1] == rest[1];
        alive := Next(w, AddMint(mintingChunks[mdIdx]), start, plan, done, writes);
        if !alive { return; }
        mdIdx := mdIdx + 1;
        alive := Next(w, Note(mdIdx, ut, schema, snap.id, digest), start, plan, done + [rest[0]], writes);
        if !alive { return; }
        done := done + [rest[0]] + [rest[1]];
      }
      alive := true;
    }

    /** The UTxO chunks, likewise, after the last minting chunk. */
    method ImportUtxos(w: World, snap: Snapshot, schema: nat, digest: string, ut0: nat,
                       ghost start: Db, ghost plan: seq<Action>, ghost done0: seq<Action>, ghost writes: nat)
      returns (alive: bool, ghost done: seq<Action>)
      requires ut0 <= |UtxoChunks(snap)|
      requires Doing(w, start, plan, done0, writes)
      requires done0 + Rest(snap, schema, digest, |MintChunks(snap)|, ut0) <= plan
      modifies this
      ensures alive ==> done + Blocks(BlockChunks(snap)) == done0 + Rest(snap, schema, digest, |MintChunks(snap)|, ut0)
                        && Doing(w, start, plan, done, writes)
      ensures !alive ==> writes < |plan| && db == Run(w.index, start, plan[..writes])
    {
      hide Run, Perform, Rest, Chunk;
      var mdIdx, utxoIdx := |MintChunks(snap)|, ut0;
      var utxoChunks := UtxoChunks(snap);
      done := done0;
      while utxoIdx < |utxoChunks|
        invariant utxoIdx <= |utxoChunks| && Doing(w, start, plan, done, writes)
        invariant done + Rest(snap, schema, digest, mdIdx, utxoIdx) == done0 + Rest(snap, schema, digest, mdIdx, ut0)
      {
        ghost var rest := Rest(snap, schema, digest, mdIdx, utxoIdx);
        RestOfUtxos(snap, schema, digest, utxoIdx);
        assert (done + rest)[|done|] == rest[0] && (done + rest)[|done| + 1] == rest[1];
        alive := Next(w, AddUtxos(utxoChunks[utxoIdx]), start, plan, done, writes);
        if !alive { return; }
        utxoIdx := utxoIdx + 1;
        alive := Next(w, Note(mdIdx, utxoIdx, schema, snap.id, digest), start, plan, done + [rest[0]], writes);
        if !alive { return; }
        done := done + [rest[0]] + [rest[1]];
      }
      RestOfBlocks(snap, schema, digest);
      alive := true;
    }

    method ImportBlocks(w: World, snap: Snapshot, ghost start: Db, ghost plan: seq<Action>,
                        ghost imported: seq<Action>, ghost writes: nat)
      returns (alive: bool)
      requires Doing(w, start, plan, imported, writes) && imported + Blocks(BlockChunks(snap)) <= plan
      modifies this
      ensures alive ==> Doing(w, start, plan, imported + Blocks(BlockChunks(snap)), writes)
      ensures !alive ==> writes < |plan| && db == Run(w.index, start, plan[..writes])
    {
      var chunks := BlockChunks(snap);
      ghost var done := imported;
      for i := 0 to |chunks|
        invariant Doing(w, start, plan, done, writes)
        invariant done == imported + Blocks(chunks)[..i]
      {
        assert (imported + Blocks(chunks))[|done|] == Blocks(chunks)[i];
        alive := Next(w, AddScanned(chunks[i]), start, plan, done, writes);
        if !alive { return; }
        done := done + [AddScanned(chunks[i])];
      }
      assert Blocks(chunks)[..|chunks|] == Blocks(chunks);
      alive := true;
    }

    method ClearNamespace(w: World, pages: seq<set<DataKey>>, ghost start: Db, ghost plan: seq<Action>,
                          ghost writes: nat)
      returns (alive: bool)
      requires Doing(w, start, plan, [], writes) && Drops(pages) <= plan
      modifies this
      ensures alive ==> Doing(w, start, plan, Drops(pages), writes)
      ensures !alive ==> writes < |plan| && db == Run(w.index, start, plan[..writes])
    {
      hide Run, Perform;
      for i := 0 to |pages|
        invariant Doing(w, start, plan, Drops(pages)[..i], writes)
      {
        assert plan[i] == Drops(pages)[i] == Drop(pages[i]);
        alive := Next(w, Drop(pages[i]), start, plan, Drops(pages)[..i], writes);
        if !alive { return; }
        assert Drops(pages)[..i + 1] == Drops(pages)[..i] + [Drop(pages[i])];
      }
      assert Drops(pages)[..|pages|] == Drops(pages);
      alive := true;
    }

    /** Everything between the admission and the final metrics: clearing unless it resumes, then the three tables. */
    method ImportSnapshot(w: World, a: Attempt, ghost start: Db) returns (alive: bool, ghost done: seq<Action>)
      requires Admitted(w, db, a) && a.response.Found? && start == db && fuel == a.writes
      modifies this
      ensures var plan := Plan(w, start, a); var snap := w.candidate(a.response.digest);
              && (alive ==>
                  Doing(w, start, plan, done, a.writes) && plan == done + Finish(a.schema, snap.id, snap.slot))
              && (!alive ==> a.writes < |plan| && db == Run(w.index, start, plan[..a.writes]))
    {
      hide Perform, Rest, Chunk, Finish;
      ghost var plan := Plan(w, db, a);
      assert Run(w.index, start, []) == start;
      done := [];
      var existing := db.progress;
      var snap, digest := w.candidate(a.response.digest), a.response.digest;
      var mdIdx, utxoIdx := 0, 0;
      if existing.Some? {
        mdIdx, utxoIdx := existing.value.mdIdx.value, existing.value.utxoIdx.value;
      } else {
        alive := ClearNamespace(w, a.pages, start, plan, a.writes);
        if !alive { return; }
        alive := Next(w, Note(0, 0, a.schema, snap.id, digest), start, plan, Drops(a.pages), a.writes);
        if !alive { return; }
        done := Drops(a.pages) + [Note(0, 0, a.schema, snap.id, digest)];
      }
      assert plan == done + Rest(snap, a.schema, digest, mdIdx, utxoIdx) + Finish(a.schema, snap.id, snap.slot);
      alive, done := ImportMinting(w, snap, a.schema, digest, mdIdx, utxoIdx, start, plan, done, a.writes);
      if !alive { return; }
      alive, done := ImportUtxos(w, snap, a.schema, digest, utxoIdx, start, plan, done, a.writes);
      if !alive { return; }
      alive := ImportBlocks(w, snap, start, plan, done, a.writes);
      done := done + Blocks(BlockChunks(snap));
    }

    method TryPopulate(w: World, a: Attempt) returns (completed: bool)
      requires fuel == a.writes
      modifies this
      ensures db == After(w, old(db), a)
      ensures completed == Completes(w, old(db), a)
    {
      hide Perform, Rest, Chunk;
      ghost var start := db;
      ghost var plan := Plan(w, db, a);
      assert Run(w.index, start, []) == start && plan[..|plan|] == plan;
      var hash, slot := w.genesis.0, w.genesis.1;
      ghost var done: seq<Action> := [];
      if !Admitted(w, db, a) { return false; }
      if a.response.Found? {
        hash, slot := w.candidate(a.response.digest).id, w.candidate(a.response.digest).slot;
        var alive;
        alive, done := ImportSnapshot(w, a, start);
        if !alive { return false; }
      }
      assert plan == done + Finish(a.schema, hash, slot);
      var alive := Next(w, SetMetrics(Metrics(a.schema, hash, slot)), start, plan, done, a.writes);
      if !alive { return false; }
      alive := Next(w, DeleteProgress, start, plan, done + [SetMetrics(Metrics(a.schema, hash, slot))], a.writes);
      if !alive { return false; }
      assert done + [SetMetrics(Metrics(a.schema, hash, slot))] + [DeleteProgress] == plan;
      return true;
    }
  }
}
