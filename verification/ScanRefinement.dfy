/**
 From what the scanner fetches to what the tables hold: the passes that ScanCoverage makes over any
 invocations are a history along the chain.
 */
module ScanRefinement {
  import opened BlockFacts
  import opened BlockIndexer
  import opened BlockRefinement
  import opened CutChains
  import opened HandleTables
  import opened Ledger
  import S = ScanCoverage
  import opened ScannedEntries

  /** What one pass is given: the contents of each hash, the tip, and after how many writes it stops. */
  datatype Fetch = Fetch(detail: string -> Tx, tip: Tip, stop: nat)

  /** The rows a block is processed with, in the order they were received, repeated ones included. */
  function Contents(detail: string -> Tx, infos: seq<S.TxInfo>): seq<Tx> {
    seq(|infos|, i requires 0 <= i < |infos| => detail(infos[i].tx))
  }

  function PassOf(t: S.Tried, f: Fetch): Pass {
    Pass(Block(t.done.block.hash, t.done.block.slot), Contents(f.detail, t.done.txs), f.tip, f.stop)
  }

  function PassesOf(tried: seq<S.Tried>, fetches: seq<Fetch>): seq<Pass>
    requires |tried| == |fetches|
  {
    if tried == [] then []
    else
      PassesOf(tried[..|tried| - 1], fetches[..|fetches| - 1]) + [PassOf(tried[|tried| - 1], fetches[|fetches| - 1])]
  }

  /** The providers list the chain's blocks, and the truth about each is the ids of its transactions. */
  ghost predicate Lists(truth: S.Truth, list: seq<S.Listed>, chain: seq<Link>) {
    |list| == |chain| &&
    forall i | 0 <= i < |list| ::
      && chain[i].block == Block(list[i].hash, list[i].slot)
      && truth(list[i].hash) == set t <- chain[i].txs :: t.id
  }

  /** The contents are the chain's, up to the key order of metadata. */
  ghost predicate Answers(f: Fetch, chain: seq<Link>) {
    forall c <- chain, t <- c.txs :: KeyedTx(f.detail(t.id)) == KeyedTx(t)
  }

  /** The pass stopped on the side of the cursor on which the scanner saw it stop. */
  predicate StopsThere(t: S.Tried, f: Fetch) {
    t.progress == S.BeforeCursor <==> !Advances(PassOf(t, f))
  }

  /** A fetch for each pass. */
  ghost predicate Fetched(tried: seq<S.Tried>, fetches: seq<Fetch>, chain: seq<Link>) {
    |tried| == |fetches|
    && forall i | 0 <= i < |tried| :: Answers(fetches[i], chain) && StopsThere(tried[i], fetches[i])
  }

  lemma ContentsAreTxs(truth: S.Truth, f: Fetch, chain: seq<Link>, c: Link, d: S.Done)
    requires Answers(f, chain) && c in chain && truth(d.block.hash) == (set t <- c.txs :: t.id) && S.Whole(truth, d)
    ensures TxSet(Contents(f.detail, d.txs)) == TxSet(c.txs)
  {
    hide KeyedTx;
    var rows, ids := Contents(f.detail, d.txs), set i <- d.txs :: i.tx;
    assert ids == set t <- c.txs :: t.id;
    forall r <- rows ensures KeyedTx(r) in TxSet(c.txs) {
      var i :| 0 <= i < |rows| && rows[i] == r;
      assert d.txs[i] in d.txs && d.txs[i].tx in ids;
      var t :| t in c.txs && t.id == d.txs[i].tx;
      assert KeyedTx(r) == KeyedTx(t);
    }
    forall t <- c.txs ensures KeyedTx(t) in TxSet(rows) {
      assert t.id in ids;
      var x :| x in d.txs && x.tx == t.id;
      var i :| 0 <= i < |d.txs| && d.txs[i] == x;
      assert rows[i] in rows && KeyedTx(rows[i]) == KeyedTx(t);
    }
  }

  /** The scanner's passes are a history along the chain, with the cursor where the scanner has it. */
  lemma {:induction false} PassesAreAlong(truth: S.Truth, list: seq<S.Listed>, chain: seq<Link>, tried: seq<S.Tried>,
                                          fetches: seq<Fetch>)
    requires Lists(truth, list, chain) && S.Tries(truth, list, tried) && Fetched(tried, fetches, chain)
    ensures var ps := PassesOf(tried, fetches); Along(chain, ps) && Advanced(ps) == |S.Advancing(tried)|
    decreases |tried|
  {
    hide Answers, S.Whole, TxSet, Advances, Contents;
    if tried != [] {
      var before, t, f := tried[..|tried| - 1], tried[|tried| - 1], fetches[|fetches| - 1];
      PassesAreAlong(truth, list, chain, before, fetches[..|fetches| - 1]);
      var ps := PassesOf(tried, fetches);
      assert ps[..|ps| - 1] == PassesOf(before, fetches[..|fetches| - 1]) && ps[|ps| - 1] == PassOf(t, f);
      var c := chain[|S.Advancing(before)|];
      assert Answers(f, chain) && StopsThere(t, f) && c in chain;
      ContentsAreTxs(truth, f, chain, c, t.done);
    }
  }

  /**
   Whatever the providers drop, repeat or reorder and wherever invocations stop (`ScanCoverage.RunInvocations`),
   stops inside a block included: no block that the cursor has passed mixes, all goes through if none reached
   does, and whenever a pass has moved the cursor the tables are those of the ledger after exactly the
   processed blocks.
   */
  lemma ScannedTablesFollow(lib: Lib, truth: S.Truth, list: seq<S.Listed>, chain: seq<Link>, tried: seq<S.Tried>,
                            fetches: seq<Fetch>)
    requires ValidChain(chain) && Lists(truth, list, chain) && S.Tries(truth, list, tried)
    requires Fetched(tried, fetches, chain)
    ensures |S.Advancing(tried)| <= |chain| && Reached(PassesOf(tried, fetches)) <= |chain|
    ensures var r := Passes(lib, EMPTY, PassesOf(tried, fetches)); var passed := chain[..|S.Advancing(tried)|];
            && (NeverMixes(chain[..Reached(PassesOf(tried, fetches))]) ==> r.Some?)
            && (r.Some? ==> NeverMixes(passed))
            && (r.Some? && (tried == [] || tried[|tried| - 1].progress != S.BeforeCursor) ==>
                Follows(lib, r.value, LedgerAfter(passed), LastSlot(passed)))
  {
    hide Follows, NeverMixes, Passes, LedgerAfter, ValidChain, LastSlot, Lists, S.Tries, Along, Answers, Advances;
    PassesAreAlong(truth, list, chain, tried, fetches);
    var ps := PassesOf(tried, fetches);
    HistoryFollows(lib, chain, ps);
    if tried != [] {
      assert ps[|ps| - 1] == PassOf(tried[|tried| - 1], fetches[|fetches| - 1]);
      assert StopsThere(tried[|tried| - 1], fetches[|fetches| - 1]);
    }
  }
}
