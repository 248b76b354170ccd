/**
 `processScannerBlock` (lambdas/scanner.app.ts:1144-1203) as the list of atomic writes it issues:
 one batch of burns, one of mint data, one per surviving output, one of spent outputs, the cursor
 and the scanned-block entry.
 */
module BlockIndexer {
  import CanonicalJson
  import opened HandleTables
  import opened Ledger
  import opened Wrappers

  datatype Block = Block(id: string, slot: nat)
  datatype Tip = Tip(hash: string, slot: nat)

  // ---------- What is read off the block ----------

  function AllMinted(rows: seq<Tx>): seq<Mint> {
    if rows == [] then [] else AllMinted(rows[..|rows| - 1]) + rows[|rows| - 1].minted
  }

  /** Each burned name once, in the order of first appearance. */
  function BurnNames(minted: seq<Mint>): seq<string> {
    if minted == [] then []
    else
      var names, m := BurnNames(minted[..|minted| - 1]), minted[|minted| - 1];
      if m.quantity < 0 && m.asset.name !in names then names + [m.asset.name] else names
  }

  function OutputsUpTo(tx: Tx, n: nat): seq<Utxo>
    requires n <= |tx.outputs|
  {
    if n == 0 then []
    else OutputsUpTo(tx, n - 1) + if tx.outputs[n - 1].assets != [] then [OutputAt(tx, n - 1)] else []
  }

  function OutputsOf(rows: seq<Tx>): seq<Utxo> {
    if rows == [] then [] else OutputsOf(rows[..|rows| - 1]) + OutputsUpTo(rows[|rows| - 1], |rows[|rows| - 1].outputs|)
  }

  predicate Has222(u: Utxo) {
    exists a <- u.assets :: a.Owner222?
  }

  function Pick(us: seq<Utxo>, want: bool): seq<Utxo> {
    if us == [] then []
    else Pick(us[..|us| - 1], want) + if Has222(us[|us| - 1]) == want then [us[|us| - 1]] else []
  }

  /** The stable sort that puts outputs with a 222 token first. */
  function BuildUtxos(rows: seq<Tx>): seq<Utxo> {
    Pick(OutputsOf(rows), true) + Pick(OutputsOf(rows), false)
  }

  function Surviving(us: seq<Utxo>, spent: set<OutRef>): seq<Utxo> {
    if us == [] then []
    else Surviving(us[..|us| - 1], spent) + if us[|us| - 1].id in spent then [] else [us[|us| - 1]]
  }

  type MintMap = map<string, set<MintData>>

  function AddMintsOf(m: MintMap, u: Utxo, assets: seq<Asset>): MintMap {
    if assets == [] then m
    else
      var m', a := AddMintsOf(m, u, assets[..|assets| - 1]), assets[|assets| - 1];
      if a == NAMELESS then m'
      else m'[a.name := (if a.name in m' then m'[a.name] else {}) + {MintData(u.slot, u.metadata, u.id.tx)}]
  }

  /** The minting data of every built output, spent in the block or not. */
  function BlockMints(us: seq<Utxo>): MintMap {
    if us == [] then map[] else AddMintsOf(BlockMints(us[..|us| - 1]), us[|us| - 1], us[|us| - 1].mint)
  }

  // ---------- The writes ----------

  /** A set member as it is stored: keys sorted at every depth. */
  function Canon(m: MintData): MintData {
    m.(metadata := CanonicalJson.SortKeys(m.metadata))
  }

  function Canons(ms: set<MintData>): set<MintData> {
    set m <- ms :: Canon(m)
  }

  function MintsOf(m: MintMap, n: string): set<MintData> {
    if n in m then m[n] else {}
  }

  function AddMint(db: Db, m: MintMap): Db {
    var added := set n | n in m && m[n] != {};
    db.(mint := map n | n in db.mint.Keys + added :: MintsOf(db.mint, n) + Canons(MintsOf(m, n)))
  }

  function AddUtxo(db: Db, u: Utxo): Db {
    db.(utxos := db.utxos[u.id := u], utxoSlot := db.utxoSlot[u.id := u.slot])
  }

  function NamesOf(assets: seq<Asset>): set<string> {
    set a | a in assets && a != NAMELESS :: a.name
  }

  /** The minting data read from the store for an output that mints nothing. */
  function StoredMints(db: Db, assets: seq<Asset>): MintMap {
    map n | n in (set a | a in assets :: a.name) :: MintsOf(db.mint, n)
  }

  /** The stored handles of the output's names, and the holder sets of its holder and of theirs. */
  function BuildMaps(lib: Lib, db: Db, u: Utxo): Maps {
    var names := NamesOf(u.assets);
    var handles := map n | n in names && n in db.handles :: db.handles[n];
    var holders := (set n | n in handles && handles[n].holder != "" :: handles[n].holder) +
                   if names == {} then {} else {lib.holderOf(u.address)};
    Maps(handles, map a | a in holders :: Members(db.sets, HeldBy(a)))
  }

  /** One batch: the output and the handles it holds. None when the program raises and the queue is dropped. */
  function IndexOutput(lib: Lib, db: Db, u: Utxo, blockMints: MintMap): Option<Db> {
    var mints := if u.mint != [] then blockMints else StoredMints(db, u.assets);
    match IndexAssets(lib, Batch(db.sets, AddUtxo(db, u), map[]), BuildMaps(lib, db, u), u, u.assets, mints)
    case None => None
    case Some((b, _)) => Some(b.db)
  }

  function StoredHandles(db: Db, names: seq<string>): seq<Handle> {
    if names == [] then []
    else
      var n := names[|names| - 1];
      StoredHandles(db, names[..|names| - 1]) + if n in db.handles then [db.handles[n]] else []
  }

  datatype Write =
    | Burn(names: seq<string>) | AddMints(mints: MintMap) | IndexUtxo(u: Utxo, blockMints: MintMap)
    | DropUtxos(ids: set<OutRef>) | SetCursor(cursor: Cursor) | Record(block: Block)

  function Exec(lib: Lib, db: Db, w: Write): Option<Db> {
    match w
    case Burn(names) => Some(RemoveHandles(lib, Open(db), StoredHandles(db, names)).db)
    case AddMints(mints) => Some(AddMint(db, mints))
    case IndexUtxo(u, blockMints) => IndexOutput(lib, db, u, blockMints)
    case DropUtxos(ids) => Some(db.(utxos := db.utxos - ids, utxoSlot := db.utxoSlot - ids))
    case SetCursor(cursor) => Some(db.(cursor := Some(cursor)))
    case Record(block) => Some(if block.id == "" then db else db.(scanned := db.scanned[block.id := block.slot]))
  }

  function IndexWrites(us: seq<Utxo>, blockMints: MintMap): seq<Write> {
    if us == [] then [] else IndexWrites(us[..|us| - 1], blockMints) + [IndexUtxo(us[|us| - 1], blockMints)]
  }

  function Writes(block: Block, rows: seq<Tx>, tip: Tip): seq<Write> {
    var built := BuildUtxos(rows);
    var mints := BlockMints(built);
    [Burn(BurnNames(AllMinted(rows))), AddMints(mints)] + IndexWrites(Surviving(built, SpentAll(rows)), mints) +
    [DropUtxos(SpentAll(rows)), SetCursor(Cursor(block.id, block.slot, tip.hash, tip.slot)), Record(block)]
  }

  function Run(lib: Lib, db: Db, ws: seq<Write>): Option<Db> {
    if ws == [] then Some(db)
    else
      match Run(lib, db, ws[..|ws| - 1])
      case None => None
      case Some(d) => Exec(lib, d, ws[|ws| - 1])
  }

  function ProcessBlock(lib: Lib, db: Db, block: Block, rows: seq<Tx>, tip: Tip): Option<Db> {
    Run(lib, db, Writes(block, rows, tip))
  }

  lemma {:induction false} RunConcat(lib: Lib, db: Db, a: seq<Write>, b: seq<Write>)
    ensures Run(lib, db, a + b) == match Run(lib, db, a) case None => None case Some(d) => Run(lib, d, b)
    decreases |b|
  {
    hide Exec;
    if b == [] {
      assert a + b == a;
    } else {
      RunConcat(lib, db, a, b[..|b| - 1]);
      assert (a + b)[..|a + b| - 1] == a + b[..|b| - 1];
    }
  }
}
