/**
 One scanner invocation (`scan`, lambdas/scanner.app.ts:1280-1443): providers may leave rows out, and a block is
 processed only when everything it holds has been accounted for.
 */
module ScanCoverage {
  import opened Wrappers

  const MAX_BLOCKS_PER_INVOCATION := 720
  const PREFETCH_CHUNK_SIZE := 30

  /** A listed block; None is a missing or malformed transaction count. */
  datatype Listed = Listed(hash: string, slot: nat, confirmations: int, txCount: Option<int>)
  datatype Row = Row(block: string, tx: string)
  datatype TxInfo = TxInfo(tx: string, block: Option<string>)

  /** A processed block with the transactions it was processed with. */
  datatype Done = Done(block: Listed, txs: seq<TxInfo>)

  /** How far the processing of a block gets before the invocation stops, if it does. */
  datatype Progress = Through | PastCursor | BeforeCursor

  /** A pass over a block; the cursor has moved unless it stopped before that write. */
  datatype Tried = Tried(done: Done, progress: Progress)

  /** The providers of one invocation. None is a request that fails for good; the number is the chunk's offset. */
  datatype World = World(
    inTime: nat -> bool,
    blockTxs: (nat, seq<string>) -> Option<seq<Row>>,
    fallbackRows: (nat, seq<string>) -> Option<seq<Row>>,
    txInfo: (nat, seq<string>) -> Option<seq<TxInfo>>,
    oneTx: string -> Option<TxInfo>,
    progress: string -> Progress)

  /** What each block of the chain really holds. */
  type Truth = string -> set<string>

  ghost predicate HonestRows(truth: Truth, rows: seq<Row>) {
    forall r <- rows :: r.tx in truth(r.block)
  }

  ghost predicate HonestInfos(truth: Truth, infos: seq<TxInfo>) {
    forall t <- infos :: t.block.Some? ==> t.tx in truth(t.block.value)
  }

  /** Providers may drop anything; what they say is true. */
  ghost predicate Honest(w: World, truth: Truth) {
    && (forall n: nat, hs: seq<string> :: w.blockTxs(n, hs).Some? ==> HonestRows(truth, w.blockTxs(n, hs).value))
    && (forall n: nat, hs: seq<string> :: w.fallbackRows(n, hs).Some? ==>
        HonestRows(truth, w.fallbackRows(n, hs).value))
    && (forall n: nat, hs: seq<string> :: w.txInfo(n, hs).Some? ==> HonestInfos(truth, w.txInfo(n, hs).value))
    && (forall h: string :: w.oneTx(h).Some? ==> HonestInfos(truth, [w.oneTx(h).value]))
  }

  ghost predicate CountsAreCorrect(truth: Truth, list: seq<Listed>) {
    forall b <- list :: b.txCount.Some? ==> b.txCount.value == |truth(b.hash)|
  }

  // ---------- Grouping ----------

  function TxsOf(rows: seq<Row>, block: string): set<string> {
    if block == "" then {} else set r <- rows | r.block == block && r.tx != "" :: r.tx
  }

  function InfosOf(infos: seq<TxInfo>, block: string): seq<TxInfo> {
    if infos == [] then []
    else InfosOf(infos[..|infos| - 1], block) +
         if infos[|infos| - 1].block == Some(block) && block != "" then [infos[|infos| - 1]] else []
  }

  function At<T>(m: map<string, T>, key: string, default: T): T {
    if key in m then m[key] else default
  }

  method CountDistinctByBlock(rows: seq<Row>) returns (byBlock: map<string, set<string>>)
    ensures forall b: string :: At(byBlock, b, {}) == TxsOf(rows, b)
  {
    byBlock := map[];
    for i := 0 to |rows|
      invariant forall b: string :: At(byBlock, b, {}) == TxsOf(rows[..i], b)
    {
      var row := rows[i];
      ghost var before := byBlock;
      if row.block != "" && row.tx != "" {
        byBlock := byBlock[row.block := At(byBlock, row.block, {}) + {row.tx}];
      }
      assert rows[..i + 1] == rows[..i] + [row];
      forall b: string ensures At(byBlock, b, {}) == TxsOf(rows[..i + 1], b) {
        assert At(before, b, {}) == TxsOf(rows[..i], b);
      }
    }
    assert rows[..|rows|] == rows;
  }

  method GroupByBlock(txList: seq<TxInfo>) returns (byBlock: map<string, seq<TxInfo>>)
    ensures forall b: string :: At(byBlock, b, []) == InfosOf(txList, b)
  {
    byBlock := map[];
    for i := 0 to |txList|
      invariant forall b: string :: At(byBlock, b, []) == InfosOf(txList[..i], b)
    {
      var tx := txList[i];
      ghost var before := byBlock;
      if tx.block.Some? && tx.block.value != "" {
        byBlock := byBlock[tx.block.value := At(byBlock, tx.block.value, []) + [tx]];
      }
      assert txList[..i + 1][..i] == txList[..i];
      forall b: string ensures At(byBlock, b, []) == InfosOf(txList[..i + 1], b) {
        assert At(before, b, []) == InfosOf(txList[..i], b);
      }
    }
    assert txList[..|txList|] == txList;
  }

  /** Distinct hashes in first-seen order. */
  method DistinctTxs(rows: seq<Row>) returns (hashes: seq<string>)
    ensures forall h: string :: h in hashes <==> exists r <- rows :: r.tx == h
    ensures forall i, j | 0 <= i < j < |hashes| :: hashes[i] != hashes[j]
  {
    hashes := [];
    for i := 0 to |rows|
      invariant forall h: string :: h in hashes <==> exists r <- rows[..i] :: r.tx == h
      invariant forall i, j | 0 <= i < j < |hashes| :: hashes[i] != hashes[j]
    {
      assert rows[..i + 1] == rows[..i] + [rows[i]];
      if rows[i].tx !in hashes { hashes := hashes + [rows[i].tx]; }
    }
    assert rows[..|rows|] == rows;
  }

  // ---------- One chunk ----------

  /** What the fetch of a chunk comes to: the distinct transactions expected and the rows received. */
  datatype Fetched = Fetched(expected: map<string, set<string>>, hashes: seq<string>, txList: seq<TxInfo>)

  method FetchChunk(w: World, offset: nat, chunk: seq<Listed>, ghost truth: Truth) returns (r: Option<Fetched>)
    requires Honest(w, truth) && CountsAreCorrect(truth, chunk)
    ensures r.Some? ==> Sound(truth, r.value)
    ensures Helpful(w, truth, chunk) ==> r.Some? && forall b <- chunk :: Covered(r.value, b)
    ensures Unrepeating(w) && r.Some? ==> NoRepeats(r.value.txList)
  {
    var hashes := seq(|chunk|, i requires 0 <= i < |chunk| => chunk[i].hash);
    var first := w.blockTxs(offset, hashes);
    if first.None? { return None; }
    var rows := first.value;
    var counts := CountDistinctByBlock(rows);
    var short: seq<string> := [];
    for i := 0 to |chunk|
      invariant forall h <- short :: exists k | 0 <= k < i :: chunk[k].hash == h
      invariant forall k | 0 <= k < i :: chunk[k].hash in short || !IsShort(rows, chunk[k])
    {
      var b := chunk[i];
      assert At(counts, b.hash, {}) == TxsOf(rows, b.hash);
      if b.txCount.Some? && |At(counts, b.hash, {})| < b.txCount.value { short := short + [b.hash]; }
    }
    if short != [] {
      var kept := KeptRows(rows, short);
      var refetched := w.fallbackRows(offset, short);
      if refetched.None? { return None; }
      ghost var before := rows;
      rows := kept + refetched.value;
      if Helpful(w, truth, chunk) { RefetchCompletes(w, truth, chunk, before, short, offset); }
    }
    if Helpful(w, truth, chunk) { EnumerationIsTruth(w, truth, chunk, rows, short); }
    var expected := CountDistinctByBlock(rows);
    var txHashes := DistinctTxs(rows);
    var infos := w.txInfo(offset, txHashes);
    if infos.None? { return None; }
    var txList := FillMissing(w, txHashes, infos.value, truth);
    if txList.None? { return None; }
    r := Some(Fetched(expected, txHashes, txList.value));
    forall b: string ensures At(expected, b, {}) <= truth(b) {
      assert At(expected, b, {}) == TxsOf(rows, b);
    }
    if Helpful(w, truth, chunk) {
      forall b <- chunk ensures Covered(r.value, b) { HelpCovers(w, truth, chunk, rows, r.value, b); }
    }
  }

  /** Fetch one by one what the batched answer left out. */
  method FillMissing(w: World, txHashes: seq<string>, infos: seq<TxInfo>,
                     ghost truth: Truth) returns (r: Option<seq<TxInfo>>)
    requires Honest(w, truth) && HonestInfos(truth, infos)
    requires forall i, j | 0 <= i < j < |txHashes| :: txHashes[i] != txHashes[j]
    ensures r.Some? && Unrepeating(w) && NoRepeats(infos) ==> NoRepeats(r.value)
    ensures r.Some? ==>
              HonestInfos(truth, r.value) && forall h <- txHashes :: w.oneTx(h).Some? && w.oneTx(h).value.tx == h ==>
                  exists t <- r.value :: t.tx == h
    ensures (forall h <- txHashes :: w.oneTx(h).Some?) ==> r.Some?
    ensures r.Some? && Named(infos) && (forall h: string :: w.oneTx(h).Some? ==> Named([w.oneTx(h).value])) ==>
              Named(r.value)
  {
    var received := set t <- infos :: t.tx;
    var txList := infos;
    for i := 0 to |txHashes|
      invariant HonestInfos(truth, txList) && |txList| >= |infos| && txList[..|infos|] == infos
      invariant forall k | 0 <= k < i :: w.oneTx(txHashes[k]).Some? && w.oneTx(txHashes[k]).value.tx == txHashes[k] ==>
                  exists t <- txList :: t.tx == txHashes[k]
      invariant Named(infos) && (forall h: string :: w.oneTx(h).Some? ==> Named([w.oneTx(h).value])) ==> Named(txList)
      invariant Unrepeating(w) && NoRepeats(infos) ==> NoRepeats(txList)
      invariant Unrepeating(w) ==>
                  forall k | |infos| <= k < |txList| :: txList[k].tx in txHashes[..i] && txList[k].tx !in received
    {
      ghost var before := txList;
      if txHashes[i] !in received {
        var one := w.oneTx(txHashes[i]);
        if one.None? { return None; }
        assert HonestInfos(truth, [one.value]);
        assert one.value in [one.value];
        txList := txList + [one.value];
        assert txList[|before|] == one.value;
      } else {
        var t :| t in infos && t.tx == txHashes[i];
        assert t in txList[..|infos|];
      }
      assert forall t <- before :: t in txList;
    }
    return Some(txList);
  }

  /** The fetch names true transactions only. */
  ghost predicate Sound(truth: Truth, f: Fetched) {
    HonestInfos(truth, f.txList) && forall b: string :: At(f.expected, b, {}) <= truth(b)
  }

  /** Every transaction comes with its block. */
  predicate Named(infos: seq<TxInfo>) {
    forall t <- infos :: t.block.Some?
  }

  /**
   An invocation in which nothing fails: counts are listed, single requests and the fallback
   enumeration are complete, and transactions name their blocks. Batched answers may still be short.
   */
  ghost predicate Helpful(w: World, truth: Truth, list: seq<Listed>) {
    && (forall b <- list :: b.txCount.Some? && b.hash != "" && "" !in truth(b.hash))
    && (forall a: string, b: string, h: string :: h in truth(a) && h in truth(b) ==> a == b)
    && (forall n: nat, hs: seq<string> ::
        w.blockTxs(n, hs).Some? && w.txInfo(n, hs).Some? && Named(w.txInfo(n, hs).value))
    && (forall n: nat, hs: seq<string> ::
        w.fallbackRows(n, hs).Some? && forall b <- hs :: TxsOf(w.fallbackRows(n, hs).value, b) == truth(b))
    && (forall h: string :: w.oneTx(h).Some? && w.oneTx(h).value.tx == h && Named([w.oneTx(h).value]))
  }

  predicate NoRepeats(infos: seq<TxInfo>) {
    forall i, j | 0 <= i < j < |infos| :: infos[i].tx != infos[j].tx
  }

  /** No answer lists a transaction twice, and a single request is answered with what it asked for. */
  ghost predicate Unrepeating(w: World) {
    && (forall n: nat, hs: seq<string> :: w.txInfo(n, hs).Some? ==> NoRepeats(w.txInfo(n, hs).value))
    && (forall h: string :: w.oneTx(h).Some? ==> w.oneTx(h).value.tx == h)
  }

  predicate EachOnce(done: seq<Done>) {
    forall d <- done :: NoRepeats(d.txs)
  }

  lemma {:induction false} InfosOfOnce(infos: seq<TxInfo>, block: string)
    requires NoRepeats(infos)
    ensures NoRepeats(InfosOf(infos, block)) && forall t <- InfosOf(infos, block) :: t in infos
  {
    if infos != [] {
      var before, last := infos[..|infos| - 1], infos[|infos| - 1];
      InfosOfOnce(before, block);
      forall t <- InfosOf(before, block) ensures t.tx != last.tx {
        var k :| 0 <= k < |before| && before[k] == t;
        assert infos[k].tx != infos[|infos| - 1].tx;
      }
    }
  }

  lemma OnceMore(infos: seq<TxInfo>, done: seq<Done>, b: Listed)
    requires NoRepeats(infos) && EachOnce(done)
    ensures EachOnce(done + [Done(b, InfosOf(infos, b.hash))])
  {
    InfosOfOnce(infos, b.hash);
  }

  predicate IsShort(rows: seq<Row>, b: Listed) {
    b.txCount.Some? && |TxsOf(rows, b.hash)| < b.txCount.value
  }

  lemma TxsOfAppend(a: seq<Row>, b: seq<Row>, block: string)
    ensures TxsOf(a + b, block) == TxsOf(a, block) + TxsOf(b, block)
  {
    forall h: string ensures h in TxsOf(a + b, block) <==> h in TxsOf(a, block) + TxsOf(b, block) {
      if block != "" && h != "" {
        assert Row(block, h) in a + b <==> Row(block, h) in a || Row(block, h) in b;
      }
    }
  }

  lemma TxsOfHonest(truth: Truth, rows: seq<Row>, block: string)
    requires HonestRows(truth, rows)
    ensures TxsOf(rows, block) <= truth(block)
  {
  }

  /** Replacing the rows of short blocks leaves no block short. */
  lemma RefetchCompletes(w: World, truth: Truth, chunk: seq<Listed>, rows: seq<Row>, short: seq<string>, offset: nat)
    requires Honest(w, truth) && Helpful(w, truth, chunk) && CountsAreCorrect(truth, chunk) && HonestRows(truth, rows)
    requires forall b <- chunk :: b.hash in short || !IsShort(rows, b)
    ensures var all := KeptRows(rows, short) + w.fallbackRows(offset, short).value;
            HonestRows(truth, all) && forall b <- chunk :: !IsShort(all, b)
  {
    var kept, fetched := KeptRows(rows, short), w.fallbackRows(offset, short).value;
    assert HonestRows(truth, fetched);
    forall b <- chunk ensures !IsShort(kept + fetched, b) { BlockIsComplete(truth, rows, short, fetched, b); }
  }

  lemma BlockIsComplete(truth: Truth, rows: seq<Row>, short: seq<string>, fetched: seq<Row>, b: Listed)
    requires HonestRows(truth, rows) && HonestRows(truth, fetched) && b.txCount == Some(|truth(b.hash)|)
    requires b.hash in short ==> TxsOf(fetched, b.hash) == truth(b.hash)
    requires b.hash in short || !IsShort(rows, b)
    ensures !IsShort(KeptRows(rows, short) + fetched, b)
  {
    var kept := KeptRows(rows, short);
    TxsOfAppend(kept, fetched, b.hash);
    TxsOfHonest(truth, kept, b.hash);
    TxsOfHonest(truth, fetched, b.hash);
    if b.hash in short {
      assert TxsOf(kept + fetched, b.hash) == truth(b.hash);
    } else {
      assert TxsOf(kept, b.hash) == TxsOf(rows, b.hash);
      TxsOfHonest(truth, rows, b.hash);
      SubsetNotSmaller(TxsOf(rows, b.hash), truth(b.hash));
      assert TxsOf(kept + fetched, b.hash) == truth(b.hash);
    }
  }

  lemma EnumerationIsTruth(w: World, truth: Truth, chunk: seq<Listed>, rows: seq<Row>, short: seq<string>)
    requires Helpful(w, truth, chunk) && CountsAreCorrect(truth, chunk) && HonestRows(truth, rows)
    requires forall b <- chunk :: !IsShort(rows, b)
    ensures forall b <- chunk :: TxsOf(rows, b.hash) == truth(b.hash)
  {
    forall b <- chunk ensures TxsOf(rows, b.hash) == truth(b.hash) {
      TxsOfHonest(truth, rows, b.hash);
      SubsetNotSmaller(TxsOf(rows, b.hash), truth(b.hash));
    }
  }

  lemma {:induction false} InfosOfHas(infos: seq<TxInfo>, block: string, t: TxInfo)
    requires t in infos && t.block == Some(block) && block != ""
    ensures t in InfosOf(infos, block)
  {
    if t in infos[..|infos| - 1] { InfosOfHas(infos[..|infos| - 1], block, t); }
  }

  lemma {:induction false} DistinctAreFew(hashes: seq<string>, infos: seq<TxInfo>)
    requires forall i, j | 0 <= i < j < |hashes| :: hashes[i] != hashes[j]
    requires forall h <- hashes :: exists t <- infos :: t.tx == h
    ensures |hashes| <= |infos|
  {
    if hashes != [] {
      var last := hashes[|hashes| - 1];
      assert last in hashes;
      var k :| 0 <= k < |infos| && infos[k].tx == last;
      var rest := infos[..k] + infos[k + 1..];
      var others := hashes[..|hashes| - 1];
      forall i | 0 <= i < |others| ensures exists t <- rest :: t.tx == others[i] {
        assert hashes[i] in hashes && hashes[i] != last;
        var m :| 0 <= m < |infos| && infos[m].tx == hashes[i];
        assert infos[m] == rest[if m < k then m else m - 1];
      }
      DistinctAreFew(others, rest);
    }
  }

  lemma HelpCovers(w: World, truth: Truth, chunk: seq<Listed>, rows: seq<Row>, f: Fetched, b: Listed)
    requires Helpful(w, truth, chunk) && CountsAreCorrect(truth, chunk) && b in chunk && HonestInfos(truth, f.txList)
    requires Named(f.txList)
    requires At(f.expected, b.hash, {}) == TxsOf(rows, b.hash) == truth(b.hash)
    requires forall h: string :: h in f.hashes <==> exists r <- rows :: r.tx == h
    requires forall i, j | 0 <= i < j < |f.hashes| :: f.hashes[i] != f.hashes[j]
    requires forall h <- f.hashes :: exists t <- f.txList :: t.tx == h
    ensures Covered(f, b)
  {
    DistinctAreFew(f.hashes, f.txList);
    forall h <- truth(b.hash) ensures exists t <- InfosOf(f.txList, b.hash) :: t.tx == h {
      assert h in TxsOf(rows, b.hash);
      assert h in f.hashes;
      var t :| t in f.txList && t.tx == h;
      InfosOfHas(f.txList, b.hash, t);
    }
  }

  function KeptRows(rows: seq<Row>, short: seq<string>): (kept: seq<Row>)
    ensures forall r <- kept :: r in rows && r.block !in short
    ensures forall r <- rows :: r.block !in short ==> r in kept
  {
    if rows == [] then []
    else KeptRows(rows[..|rows| - 1], short) + if rows[|rows| - 1].block in short then [] else [rows[|rows| - 1]]
  }

  /** The check before a block is processed. */
  predicate Covered(f: Fetched, b: Listed) {
    var expected := At(f.expected, b.hash, {});
    && b.txCount.Some? && b.txCount.value >= 0 && |expected| == b.txCount.value
    && |f.txList| >= |f.hashes|
    && forall h <- expected :: exists t <- InfosOf(f.txList, b.hash) :: t.tx == h
  }

  /** Processed with all of its transactions and with nothing else. */
  ghost predicate Whole(truth: Truth, d: Done) {
    (set t <- d.txs :: t.tx) == truth(d.block.hash)
  }

  lemma {:induction false} InfosAreOfBlock(infos: seq<TxInfo>, block: string)
    ensures forall t <- InfosOf(infos, block) :: t in infos && t.block == Some(block)
  {
    if infos != [] { InfosAreOfBlock(infos[..|infos| - 1], block); }
  }

  lemma SubsetNotSmaller(a: set<string>, b: set<string>)
    requires a <= b && |a| >= |b|
    ensures a == b
  {
    assert a + (b - a) == b && |b| == |a| + |b - a|;
    assert b - a == {};
  }

  /** Honest providers, a correct count and the check together leave no transaction out. */
  lemma CoveredIsWhole(truth: Truth, f: Fetched, b: Listed)
    requires HonestInfos(truth, f.txList) && At(f.expected, b.hash, {}) <= truth(b.hash)
    requires b.txCount.Some? ==> b.txCount.value == |truth(b.hash)|
    requires Covered(f, b)
    ensures Whole(truth, Done(b, InfosOf(f.txList, b.hash)))
  {
    SubsetNotSmaller(At(f.expected, b.hash, {}), truth(b.hash));
    InfosAreOfBlock(f.txList, b.hash);
  }

  lemma CoveredBlockIsWhole(truth: Truth, chunk: seq<Listed>, f: Fetched, b: Listed)
    requires Sound(truth, f) && CountsAreCorrect(truth, chunk) && b in chunk && Covered(f, b)
    ensures Whole(truth, Done(b, InfosOf(f.txList, b.hash)))
  {
    CoveredIsWhole(truth, f, b);
  }

  // ---------- One invocation ----------

  function Earlier(a: Listed, s: seq<Listed>): seq<Listed> {
    if s == [] || a.confirmations >= s[0].confirmations then [a] + s else [s[0]] + Earlier(a, s[1..])
  }

  /** The stable library sort, most confirmations first. */
  function SortByConfirmations(s: seq<Listed>): seq<Listed> {
    if s == [] then [] else Earlier(s[0], SortByConfirmations(s[1..]))
  }

  // ---------- Passes ----------

  /** The passes that moved the cursor. */
  function Advancing(tried: seq<Tried>): seq<Done> {
    if tried == [] then []
    else
      Advancing(tried[..|tried| - 1]) +
      if tried[|tried| - 1].progress == BeforeCursor then [] else [tried[|tried| - 1].done]
  }

  /** Each pass is over the block after the cursor, with all of its transactions. */
  ghost predicate Tries(truth: Truth, list: seq<Listed>, tried: seq<Tried>) {
    tried == [] ||
    (var before, t := tried[..|tried| - 1], tried[|tried| - 1];
     && Tries(truth, list, before) && |Advancing(before)| < |list|
     && t.done.block == list[|Advancing(before)|] && Whole(truth, t.done))
  }

  lemma NothingTried(truth: Truth, list: seq<Listed>)
    ensures Tries(truth, list, []) && Advancing([]) == []
  {
  }

  /** Passes over the first blocks of a list are passes over the list. */
  lemma {:induction false} TriesMore(truth: Truth, few: seq<Listed>, list: seq<Listed>, tried: seq<Tried>)
    requires Tries(truth, few, tried) && few <= list
    ensures Tries(truth, list, tried)
    decreases |tried|
  {
    hide Whole;
    if tried != [] { TriesMore(truth, few, list, tried[..|tried| - 1]); }
  }

  lemma OneMoreTry(truth: Truth, list: seq<Listed>, tried: seq<Tried>, next: Tried)
    requires Tries(truth, list, tried) && |Advancing(tried)| < |list|
    requires next.done.block == list[|Advancing(tried)|] && Whole(truth, next.done)
    ensures Tries(truth, list, tried + [next])
    ensures Advancing(tried + [next]) == Advancing(tried) + if next.progress == BeforeCursor then [] else [next.done]
  {
    assert (tried + [next])[..|tried + [next]| - 1] == tried;
  }

  /** Passes over the list go on with passes over what comes next. */
  lemma {:induction false} TriesOn(truth: Truth, list: seq<Listed>, before: seq<Tried>, next: seq<Listed>,
                                    added: seq<Tried>)
    requires Tries(truth, list, before) && Tries(truth, next, added)
    requires |Advancing(before)| + |next| <= |list|
    requires next == list[|Advancing(before)|..|Advancing(before)| + |next|]
    ensures Tries(truth, list, before + added) && Advancing(before + added) == Advancing(before) + Advancing(added)
    decreases |added|
  {
    hide Whole;
    if added == [] {
      assert before + added == before;
    } else {
      var fewer, t := added[..|added| - 1], added[|added| - 1];
      TriesOn(truth, list, before, next, fewer);
      OneMoreTry(truth, list, before + fewer, t);
      assert before + added == before + fewer + [t];
    }
  }

  /** Each block was processed with the transactions received for it. */
  predicate HasContents(f: Fetched, chunk: seq<Listed>, done: seq<Done>) {
    |done| <= |chunk| && forall i | 0 <= i < |done| :: done[i].txs == InfosOf(f.txList, chunk[i].hash)
  }

  /** How the loop over a chunk ends after so many blocks. */
  predicate Ended(w: World, f: Fetched, chunk: seq<Listed>, k: nat, ending: Ending) {
    && k <= |chunk|
    && (ending == Finished <==> k == |chunk| && (k > 0 ==> w.progress(chunk[k - 1].hash) == Through))
    && (ending.Paused? ==> k < |chunk| && !Covered(f, chunk[k]) && ending.hash == chunk[k].hash)
    && (ending.Failed? ==>
          || (k < |chunk| && w.progress(chunk[k].hash) == BeforeCursor)
          || (k > 0 && w.progress(chunk[k - 1].hash) == PastCursor))
  }

  lemma EndsAt(w: World, f: Fetched, chunk: seq<Listed>, k: nat)
    requires k <= |chunk|
    ensures k < |chunk| && !Covered(f, chunk[k]) ==> Ended(w, f, chunk, k, Paused(chunk[k].hash))
    ensures k < |chunk| && w.progress(chunk[k].hash) == BeforeCursor ==> Ended(w, f, chunk, k, Failed)
    ensures k < |chunk| && w.progress(chunk[k].hash) == PastCursor ==> Ended(w, f, chunk, k + 1, Failed)
    ensures k == |chunk| && (k > 0 ==> w.progress(chunk[k - 1].hash) == Through) ==> Ended(w, f, chunk, k, Finished)
  {
    hide Covered;
  }

  /**
   From one state of the scanner to a later one: the first blocks of the list were processed, in order and each
   with all of its transactions, by passes over the block after the cursor.
   */
  ghost predicate Went(truth: Truth, list: seq<Listed>, start: seq<Done>, processed: seq<Done>, first: seq<Tried>,
                       tried: seq<Tried>) {
    && start <= processed && Follows(truth, list, processed[|start|..])
    && first <= tried && Tries(truth, list, tried[|first|..])
    && processed[|start|..] == Advancing(tried[|first|..])
  }

  lemma WentNowhere(truth: Truth, list: seq<Listed>, start: seq<Done>, first: seq<Tried>)
    ensures Went(truth, list, start, start, first, first)
  {
    assert start[|start|..] == [] && first[|first|..] == [];
    NothingTried(truth, list);
  }

  /** Going on over what comes next in the list. */
  lemma WentOn(truth: Truth, list: seq<Listed>, start: seq<Done>, processed: seq<Done>, first: seq<Tried>,
               tried: seq<Tried>, next: seq<Listed>, after: seq<Done>, more: seq<Tried>)
    requires Went(truth, list, start, processed, first, tried) && Went(truth, next, processed, after, tried, more)
    requires var k := |processed| - |start|; k + |next| <= |list| && next == list[k..k + |next|]
    ensures Went(truth, list, start, after, first, more)
  {
    hide Whole, Tries, Advancing, Follows;
    NextBlocks(truth, list, processed[|start|..], tried[|first|..], next, after[|processed|..], more[|tried|..]);
    assert after[|start|..] == processed[|start|..] + after[|processed|..];
    assert more[|first|..] == tried[|first|..] + more[|tried|..];
  }

  /** Going over the first blocks of a list is going over the list. */
  lemma WentFurther(truth: Truth, few: seq<Listed>, list: seq<Listed>, start: seq<Done>, processed: seq<Done>,
                    first: seq<Tried>, tried: seq<Tried>)
    requires Went(truth, few, start, processed, first, tried) && few <= list
    ensures Went(truth, list, start, processed, first, tried)
  {
    hide Whole, Advancing;
    TriesMore(truth, few, list, tried[|first|..]);
  }

  /** Where the loop over a chunk stands. */
  ghost predicate InPart(truth: Truth, chunk: seq<Listed>, f: Fetched, start: seq<Done>, processed: seq<Done>,
                         first: seq<Tried>, tried: seq<Tried>) {
    && Went(truth, chunk, start, processed, first, tried)
    && HasContents(f, chunk, processed[|start|..]) && (NoRepeats(f.txList) ==> EachOnce(processed[|start|..]))
  }

  lemma NothingInPart(truth: Truth, chunk: seq<Listed>, f: Fetched, start: seq<Done>, first: seq<Tried>)
    ensures InPart(truth, chunk, f, start, start, first, first)
  {
    assert start[|start|..] == [];
    WentNowhere(truth, chunk, start, first);
  }

  lemma InPartIs(truth: Truth, chunk: seq<Listed>, f: Fetched, start: seq<Done>, processed: seq<Done>,
                 first: seq<Tried>, tried: seq<Tried>)
    requires InPart(truth, chunk, f, start, processed, first, tried)
    ensures Went(truth, chunk, start, processed, first, tried) && |start| <= |processed|
    ensures HasContents(f, chunk, processed[|start|..]) && (NoRepeats(f.txList) ==> EachOnce(processed[|start|..]))
  {
    hide HasContents;
  }

  lemma NextInPart(truth: Truth, chunk: seq<Listed>, f: Fetched, start: seq<Done>, processed: seq<Done>,
                   first: seq<Tried>, tried: seq<Tried>, k: nat, pass: Tried)
    requires InPart(truth, chunk, f, start, processed, first, tried) && |processed| == |start| + k
    requires Sound(truth, f) && CountsAreCorrect(truth, chunk) && k < |chunk| && Covered(f, chunk[k])
    requires pass.done == Done(chunk[k], InfosOf(f.txList, chunk[k].hash))
    ensures InPart(truth, chunk, f, start,
                   if pass.progress == BeforeCursor then processed else processed + [pass.done], first, tried + [pass])
  {
    hide Covered, Whole, InfosOf, Sound, Follows, CountsAreCorrect, Tries, Advancing, EachOnce, NoRepeats;
    var done, passes := processed[|start|..], tried[|first|..];
    CoveredBlockIsWhole(truth, chunk, f, chunk[k]);
    OneMoreTry(truth, chunk, passes, pass);
    OneMoreFollows(truth, chunk, done, pass.done);
    if NoRepeats(f.txList) { OnceMore(f.txList, done, chunk[k]); }
    assert (processed + [pass.done])[|start|..] == done + [pass.done];
    assert (tried + [pass])[|first|..] == passes + [pass];
  }

  datatype Ending = Finished | Paused(hash: string) | Failed

  class Scanner {
    var processed: seq<Done>
    var tried: seq<Tried>

    constructor ()
      ensures processed == [] && tried == []
    {
      processed, tried := [], [];
    }

    /**
     Process the chunk's blocks in order, up to the first that is not covered. A pass that stops after the
     cursor is set has advanced, although the invocation fails.
     */
    method ProcessChunk(w: World, chunk: seq<Listed>, f: Fetched, ghost truth: Truth) returns (ending: Ending)
      requires Sound(truth, f) && CountsAreCorrect(truth, chunk)
      modifies this
      ensures Went(truth, chunk, old(processed), processed, old(tried), tried)
      ensures HasContents(f, chunk, processed[|old(processed)|..])
      ensures NoRepeats(f.txList) ==> EachOnce(processed[|old(processed)|..])
      ensures Ended(w, f, chunk, |processed| - |old(processed)|, ending)
    {
      hide Covered, InfosOf, Sound, CountsAreCorrect, InPart, Ended, Went, HasContents, NoRepeats, EachOnce;
      ghost var start, first := processed, tried;
      NothingInPart(truth, chunk, f, start, first);
      var txInfoByBlock := GroupByBlock(f.txList);
      for k := 0 to |chunk|
        invariant InPart(truth, chunk, f, start, processed, first, tried) && |processed| == |start| + k
        invariant k > 0 ==> w.progress(chunk[k - 1].hash) == Through
      {
        var b := chunk[k];
        EndsAt(w, f, chunk, k);
        InPartIs(truth, chunk, f, start, processed, first, tried);
        if !Covered(f, b) { return Paused(b.hash); }
        var pass := Tried(Done(b, At(txInfoByBlock, b.hash, [])), w.progress(b.hash));
        NextInPart(truth, chunk, f, start, processed, first, tried, k, pass);
        TryBlock(pass);
        InPartIs(truth, chunk, f, start, processed, first, tried);
        if pass.progress != Through { return Failed; }
      }
      InPartIs(truth, chunk, f, start, processed, first, tried);
      EndsAt(w, f, chunk, |chunk|);
      return Finished;
    }

    /** `processScannerBlock` as seen from here. */
    method TryBlock(pass: Tried)
      modifies this
      ensures tried == old(tried) + [pass]
      ensures processed == if pass.progress == BeforeCursor then old(processed) else old(processed) + [pass.done]
    {
      tried := tried + [pass];
      if pass.progress != BeforeCursor { processed := processed + [pass.done]; }
    }

    method ScanChunk(w: World, offset: nat, chunk: seq<Listed>, ghost truth: Truth) returns (ending: Ending)
      requires Honest(w, truth) && CountsAreCorrect(truth, chunk)
      modifies this
      ensures Went(truth, chunk, old(processed), processed, old(tried), tried) && |old(processed)| <= |processed|
      ensures Unrepeating(w) ==> EachOnce(processed[|old(processed)|..])
      ensures ending == Finished ==> |processed| == |old(processed)| + |chunk|
      ensures !w.inTime(offset) ==> ending == Failed && processed == old(processed) && tried == old(tried)
      ensures Helpful(w, truth, chunk) && (forall n: nat :: w.inTime(n))
              && (forall h: string :: w.progress(h) == Through) ==>
                ending == Finished
    {
      hide Went, Honest, Helpful, Covered, CountsAreCorrect, Sound, EachOnce, Unrepeating, NoRepeats, HasContents;
      WentNowhere(truth, chunk, processed, tried);
      NoneYet();
      assert processed[|processed|..] == [];
      if !w.inTime(offset) { return Failed; }
      var f := FetchChunk(w, offset, chunk, truth);
      if f.None? { return Failed; }
      ghost var start, first := processed, tried;
      ending := ProcessChunk(w, chunk, f.value, truth);
      WentSome(truth, chunk, start, processed, first, tried);
      assert ending.Paused? ==>
          chunk[|processed| - |start|] in chunk && !Covered(f.value, chunk[|processed| - |start|]);
    }

    method Scan(w: World, listing: seq<Listed>, ghost truth: Truth) returns (ending: Ending)
      requires Honest(w, truth) && CountsAreCorrect(truth, listing)
      modifies this
      ensures Went(truth, SortByConfirmations(listing), old(processed), processed, old(tried), tried)
      ensures |old(processed)| <= |processed|
      ensures Unrepeating(w) ==> EachOnce(processed[|old(processed)|..])
      ensures ending == Finished ==> |processed| == |old(processed)| + Reach(listing)
      ensures Helpful(w, truth, listing) && (forall n: nat :: w.inTime(n))
              && (forall h: string :: w.progress(h) == Through) ==>
                ending == Finished
    {
      hide Went, Honest, Helpful, Whole, Unrepeating, EachOnce, CountsAreCorrect;
      SortKeepsMembers(listing);
      var blocks := SortByConfirmations(listing);
      if |blocks| > MAX_BLOCKS_PER_INVOCATION { blocks := blocks[..MAX_BLOCKS_PER_INVOCATION]; }
      var blockIndex := 0;
      ghost var start, first := processed, tried;
      WentNowhere(truth, blocks, start, first);
      NoneYet();
      assert processed[|start|..] == [];
      while blockIndex < |blocks|
        invariant 0 <= blockIndex <= |blocks| && |processed| == |start| + blockIndex
        invariant Went(truth, blocks, start, processed, first, tried)
        invariant Unrepeating(w) ==> EachOnce(processed[|start|..])
        decreases |blocks| - blockIndex
      {
        var end := if blockIndex + PREFETCH_CHUNK_SIZE < |blocks| then blockIndex + PREFETCH_CHUNK_SIZE else |blocks|;
        var chunk := blocks[blockIndex..end];
        HelpNarrows(w, truth, listing, chunk);
        ghost var before, passes := processed, tried;
        ending := ScanChunk(w, blockIndex, chunk, truth);
        WentOn(truth, blocks, start, before, first, passes, chunk, processed, tried);
        if Unrepeating(w) { OnceOn(truth, blocks, start, before, processed, first, passes, tried, chunk); }
        if ending != Finished {
          WentFurther(truth, blocks, SortByConfirmations(listing), start, processed, first, tried);
          return;
        }
        blockIndex := end;
      }
      WentFurther(truth, blocks, SortByConfirmations(listing), start, processed, first, tried);
      return Finished;
    }
  }

  lemma WentSome(truth: Truth, list: seq<Listed>, start: seq<Done>, processed: seq<Done>, first: seq<Tried>,
                 tried: seq<Tried>)
    requires Went(truth, list, start, processed, first, tried)
    ensures |start| <= |processed| && |processed| - |start| <= |list|
  {
    hide Whole;
  }

  lemma OnceOn(truth: Truth, list: seq<Listed>, start: seq<Done>, before: seq<Done>, after: seq<Done>,
               first: seq<Tried>, passes: seq<Tried>, tried: seq<Tried>, next: seq<Listed>)
    requires Went(truth, list, start, before, first, passes) && Went(truth, next, before, after, passes, tried)
    requires EachOnce(before[|start|..]) && EachOnce(after[|before|..])
    ensures |start| <= |after| && EachOnce(after[|start|..])
  {
    hide Whole, Tries, Advancing, Follows, EachOnce;
    assert after[|start|..] == before[|start|..] + after[|before|..];
    OnceTogether(before[|start|..], after[|before|..], after[|start|..]);
  }

  /** The processed blocks are the first of the list, in order, each whole. */
  ghost predicate Follows(truth: Truth, list: seq<Listed>, done: seq<Done>) {
    |done| <= |list| && forall i | 0 <= i < |done| :: done[i].block == list[i] && Whole(truth, done[i])
  }

  lemma NothingFollows(truth: Truth, list: seq<Listed>)
    ensures Follows(truth, list, [])
  {
  }

  lemma OneMoreFollows(truth: Truth, list: seq<Listed>, done: seq<Done>, next: Done)
    requires Follows(truth, list, done) && |done| < |list| && next.block == list[|done|] && Whole(truth, next)
    ensures Follows(truth, list, done + [next])
  {
    hide Whole;
  }

  function Reach(listing: seq<Listed>): nat {
    if |listing| > 720 then 720 else |listing|
  }

  lemma HelpNarrows(w: World, truth: Truth, list: seq<Listed>, part: seq<Listed>)
    requires CountsAreCorrect(truth, list) && forall b <- part :: b in list
    ensures CountsAreCorrect(truth, part) && (Helpful(w, truth, list) ==> Helpful(w, truth, part))
  {
  }

  // ---------- The order of the list ----------

  lemma {:induction false} EarlierKeeps(a: Listed, s: seq<Listed>)
    ensures multiset(Earlier(a, s)) == multiset(s) + multiset{a}
  {
    if s != [] && a.confirmations < s[0].confirmations {
      EarlierKeeps(a, s[1..]);
      assert s == [s[0]] + s[1..];
    }
  }

  lemma {:induction false} SortKeepsMultiset(s: seq<Listed>)
    ensures multiset(SortByConfirmations(s)) == multiset(s)
  {
    if s != [] {
      SortKeepsMultiset(s[1..]);
      EarlierKeeps(s[0], SortByConfirmations(s[1..]));
      assert s == [s[0]] + s[1..];
    }
  }

  lemma SortKeepsMembers(s: seq<Listed>)
    ensures |SortByConfirmations(s)| == |s| && forall b <- SortByConfirmations(s) :: b in s
  {
    SortKeepsMultiset(s);
    var sorted := SortByConfirmations(s);
    assert |multiset(sorted)| == |multiset(s)|;
    forall b <- sorted ensures b in s {
      assert b in multiset(sorted);
    }
  }

  predicate Falling(s: seq<Listed>) {
    forall i, j | 0 <= i < j < |s| :: s[i].confirmations >= s[j].confirmations
  }

  lemma {:induction false} SortFalls(s: seq<Listed>)
    ensures Falling(SortByConfirmations(s))
  {
    if s != [] {
      SortFalls(s[1..]);
      EarlierFalls(s[0], SortByConfirmations(s[1..]));
    }
  }

  lemma {:induction false} EarlierFalls(a: Listed, s: seq<Listed>)
    requires Falling(s)
    ensures Falling(Earlier(a, s))
  {
    if s != [] && a.confirmations < s[0].confirmations {
      EarlierFalls(a, s[1..]);
      EarlierKeeps(a, s[1..]);
      var rest := Earlier(a, s[1..]);
      forall b <- rest ensures s[0].confirmations >= b.confirmations {
        assert b in multiset(rest);
      }
    }
  }

  /** Confirmations fall by height, so sorting any arrangement of consecutive blocks gives chain order. */
  lemma {:induction false} SortIsChainOrder(listing: seq<Listed>, segment: seq<Listed>)
    requires multiset(listing) == multiset(segment)
    requires forall i, j | 0 <= i < j < |segment| :: segment[i].confirmations > segment[j].confirmations
    ensures SortByConfirmations(listing) == segment
  {
    SortKeepsMultiset(listing);
    SortFalls(listing);
    FallingIsUnique(SortByConfirmations(listing), segment);
  }

  lemma {:induction false} FallingIsUnique(a: seq<Listed>, b: seq<Listed>)
    requires multiset(a) == multiset(b) && Falling(a)
    requires forall i, j | 0 <= i < j < |b| :: b[i].confirmations > b[j].confirmations
    ensures a == b
  {
    assert |multiset(a)| == |a| && |multiset(b)| == |b|;
    if a != [] {
      SameFirst(a, b);
      WithoutFirst(a);
      WithoutFirst(b);
      FallingIsUnique(a[1..], b[1..]);
      assert a == [a[0]] + a[1..] && b == [b[0]] + b[1..];
    }
  }

  lemma WithoutFirst(s: seq<Listed>)
    requires s != []
    ensures multiset(s[1..]) == multiset(s) - multiset{s[0]}
  {
    assert s == [s[0]] + s[1..];
  }

  lemma SameFirst(a: seq<Listed>, b: seq<Listed>)
    requires a != [] && multiset(a) == multiset(b) && Falling(a)
    requires forall i, j | 0 <= i < j < |b| :: b[i].confirmations > b[j].confirmations
    ensures b != [] && a[0] == b[0]
  {
    assert |multiset(a)| == |a| && |multiset(b)| == |b|;
    assert a[0] in multiset(b) && b[0] in multiset(a);
  }

  // ---------- Many invocations ----------

  /** One invocation: its providers, how many of the next blocks it lists and in which arrangement. */
  datatype Invocation = Invocation(world: World, size: nat, arrange: seq<Listed> -> seq<Listed>)

  function Segment(chain: seq<Listed>, from: nat, size: nat): seq<Listed>
    requires from <= |chain|
  {
    chain[from..if from + size < |chain| then from + size else |chain|]
  }

  /**
   Whatever the providers drop and wherever invocations stop, the processed blocks are a prefix of
   the chain without a gap, and each pass was over the block after the cursor with all of its transactions.
   */
  method RunInvocations(chain: seq<Listed>, runs: seq<Invocation>, ghost truth: Truth)
    returns (processed: seq<Done>, tried: seq<Tried>)
    requires CountsAreCorrect(truth, chain)
    requires forall i, j | 0 <= i < j < |chain| :: chain[i].confirmations > chain[j].confirmations
    requires forall r <- runs :: Honest(r.world, truth)
    requires forall r: Invocation, s: seq<Listed> :: r in runs ==> multiset(r.arrange(s)) == multiset(s)
    ensures Follows(truth, chain, processed)
    ensures Tries(truth, chain, tried) && processed == Advancing(tried)
    ensures (forall r <- runs :: Unrepeating(r.world)) ==> EachOnce(processed)
  {
    hide EachOnce, Unrepeating, Honest, Went, SortByConfirmations;
    NoneYet();
    var scanner := new Scanner();
    WentNowhere(truth, chain, [], []);
    for i := 0 to |runs|
      invariant Went(truth, chain, [], scanner.processed, [], scanner.tried) && |scanner.processed| <= |chain|
      invariant (forall r <- runs :: Unrepeating(r.world)) ==> EachOnce(scanner.processed)
    {
      var from := |scanner.processed|;
      var segment := Segment(chain, from, runs[i].size);
      var listing := runs[i].arrange(segment);
      SortIsChainOrder(listing, segment);
      ListingIsCorrect(truth, chain, segment, listing);
      ghost var before, passes := scanner.processed, scanner.tried;
      var ending := scanner.Scan(runs[i].world, listing, truth);
      WentOn(truth, chain, [], before, [], passes, segment, scanner.processed, scanner.tried);
      WentSome(truth, chain, [], scanner.processed, [], scanner.tried);
      if Unrepeating(runs[i].world) && EachOnce(before) {
        OnceOn(truth, chain, [], before, scanner.processed, [], passes, scanner.tried, segment);
        assert scanner.processed[0..] == scanner.processed;
      }
    }
    processed, tried := scanner.processed, scanner.tried;
    WentAll(truth, chain, processed, tried);
  }

  lemma WentAll(truth: Truth, list: seq<Listed>, processed: seq<Done>, tried: seq<Tried>)
    requires Went(truth, list, [], processed, [], tried)
    ensures Follows(truth, list, processed) && Tries(truth, list, tried) && processed == Advancing(tried)
  {
    hide Whole;
    assert processed[0..] == processed && tried[0..] == tried;
  }

  lemma NoneYet()
    ensures EachOnce([])
  {
  }

  lemma OnceTogether(a: seq<Done>, b: seq<Done>, all: seq<Done>)
    requires EachOnce(a) && EachOnce(b) && all == a + b
    ensures EachOnce(all)
  {
    hide NoRepeats;
  }

  lemma ListingIsCorrect(truth: Truth, chain: seq<Listed>, segment: seq<Listed>, listing: seq<Listed>)
    requires CountsAreCorrect(truth, chain) && (forall b <- segment :: b in chain)
               && multiset(listing) == multiset(segment)
    ensures CountsAreCorrect(truth, listing)
  {
    forall b <- listing ensures b.txCount.Some? ==> b.txCount.value == |truth(b.hash)| {
      assert b in multiset(listing) && b in multiset(segment);
    }
  }

  /** A prefix of the list continued by a prefix of what comes next is a prefix, and so for the passes over it. */
  lemma NextBlocks(truth: Truth, list: seq<Listed>, before: seq<Done>, tried: seq<Tried>, next: seq<Listed>,
                   added: seq<Done>, more: seq<Tried>)
    requires Follows(truth, list, before) && Tries(truth, list, tried) && before == Advancing(tried)
    requires Follows(truth, next, added) && Tries(truth, next, more) && added == Advancing(more)
    requires |before| + |next| <= |list| && next == list[|before|..|before| + |next|]
    ensures Follows(truth, list, before + added)
    ensures Tries(truth, list, tried + more) && before + added == Advancing(tried + more)
  {
    hide Whole, Tries, Advancing;
    TriesOn(truth, list, tried, next, more);
  }
}
