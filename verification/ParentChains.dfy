/**
 Two bounded walks along parent hashes (utils/repairCommonAncestor.ts; `anchoredTip`, utils/koiosRepairReader.ts).
 */
module ParentChains {
  // The common ancestor of two tips, and the check that an observed tip descends from the scanner
  // cursor. A reader may answer differently each time it is asked; results are claimed for consistent ones.

  import opened Wrappers

  datatype Block = Block(hash: string, slot: int, parent: Option<string>)
  datatype Tip = Tip(hash: string, slot: int)

  /** The answer to the n-th read. */
  type Reader = (string, nat) -> Option<Block>

  type Chain = seq<Block>

  datatype Error = InvalidDepth | InvalidTip | Unavailable | Changed | Cycle | TipSlotMismatch | NoCommonAncestor
      | NotADescendant

  ghost predicate Consistent(read: Reader) {
    forall h: string, i: nat, j: nat :: read(h, i) == read(h, j)
  }

  // ---------- Chains ----------

  /** A readable parent chain that starts at `hash`, below `upper`, with strictly falling slots. */
  predicate Linked(read: Reader, hash: string, upper: int, chain: Chain) {
    && (forall i | 0 <= i < |chain| :: read(chain[i].hash, 0) == Some(chain[i]) && chain[i].slot > 0)
    && (chain != [] ==> chain[0].hash == hash && chain[0].slot < upper)
    && (forall i | 0 <= i < |chain| - 1 ::
        chain[i].parent == Some(chain[i + 1].hash) && chain[i + 1].slot < chain[i].slot)
  }

  lemma {:induction false} LinkedIsUnique(read: Reader, hash: string, upper: int, a: Chain, b: Chain, i: nat)
    requires Linked(read, hash, upper, a) && Linked(read, hash, upper, b) && i < |a| && i < |b|
    ensures a[i] == b[i]
  {
    if i > 0 { LinkedIsUnique(read, hash, upper, a, b, i - 1); }
  }

  lemma {:induction false} SlotsFall(read: Reader, hash: string, upper: int, chain: Chain, i: nat, j: nat)
    requires Linked(read, hash, upper, chain) && i < j < |chain|
    ensures chain[j].slot < chain[i].slot
    decreases j
  {
    if i + 1 < j { SlotsFall(read, hash, upper, chain, i, j - 1); }
  }

  lemma ParentIsNext(read: Reader, hash: string, upper: int, chain: Chain, i: nat)
    requires Linked(read, hash, upper, chain) && i + 1 < |chain|
    ensures chain[i].parent == Some(chain[i + 1].hash)
  {
  }

  /** Every block of the chain passes `load`: its parent hash, if any, is not empty. */
  predicate Named(chain: Chain) {
    forall b <- chain :: b.parent != Some("")
  }

  predicate ChainFrom(read: Reader, tip: Tip, chain: Chain) {
    Linked(read, tip.hash, tip.slot + 1, chain) && Named(chain) && (chain != [] ==> chain[0].slot == tip.slot)
  }

  predicate ValidTip(tip: Tip) {
    tip.hash != "" && tip.slot > 0
  }

  predicate IsWindow(read: Reader, tip: Tip, depth: nat, chain: Chain) {
    ChainFrom(read, tip, chain) && chain != [] && |chain| <= depth + 1
    && (|chain| == depth + 1 || chain[|chain| - 1].parent == None)
  }

  /** `b` ends a chain from each tip. */
  ghost predicate Common(read: Reader, oldTip: Tip, newTip: Tip, b: Block) {
    exists o: Chain, n: Chain :: ChainFrom(read, oldTip, o) && ChainFrom(read, newTip, n) && o != [] && n != []
      && o[|o| - 1] == b && n[|n| - 1] == b
  }

  ghost predicate HighestCommon(read: Reader, oldTip: Tip, newTip: Tip, b: Block) {
    Common(read, oldTip, newTip, b) && forall c: Block :: Common(read, oldTip, newTip, c) ==> c.slot <= b.slot
  }

  /** Every block of the old window is readable, and a chain from the new tip reaches one of them within the depth. */
  ghost predicate Meets(read: Reader, oldTip: Tip, newTip: Tip, depth: nat) {
    exists w: Chain, n: Chain :: IsWindow(read, oldTip, depth, w) && ChainFrom(read, newTip, n)
      && n != [] && |n| <= depth + 1 && n[|n| - 1] in w
  }

  // ---------- One more block ----------

  function NextHash(tip: Tip, chain: Chain): Option<string> {
    if chain == [] then Some(tip.hash) else chain[|chain| - 1].parent
  }

  function NextUpper(tip: Tip, chain: Chain): int {
    if chain == [] then tip.slot + 1 else chain[|chain| - 1].slot
  }

  /** The next hash of the walk is read as a block the walk accepts. */
  predicate Extends(read: Reader, tip: Tip, chain: Chain) {
    && NextHash(tip, chain).Some?
    && var b := read(NextHash(tip, chain).value, 0);
       b.Some? && b.value.hash == NextHash(tip, chain).value && 0 < b.value.slot < NextUpper(tip, chain)
       && b.value.parent != Some("") && (chain == [] ==> b.value.slot == tip.slot)
  }

  lemma Extended(read: Reader, tip: Tip, chain: Chain)
    requires ChainFrom(read, tip, chain) && Extends(read, tip, chain)
    ensures ChainFrom(read, tip, chain + [read(NextHash(tip, chain).value, 0).value])
  {
  }

  /** When the walk cannot go on, no chain from the tip is longer. */
  lemma Blocked(read: Reader, tip: Tip, chain: Chain, other: Chain)
    requires ChainFrom(read, tip, chain) && ChainFrom(read, tip, other) && !Extends(read, tip, chain)
    ensures |other| <= |chain| && other == chain[..|other|]
  {
    if |other| > |chain| {
      if chain != [] {
        LinkedIsUnique(read, tip.hash, tip.slot + 1, chain, other, |chain| - 1);
        ParentIsNext(read, tip.hash, tip.slot + 1, other, |chain| - 1);
      }
      assert false;
    }
    PrefixOf(read, tip, chain, other);
  }

  lemma PrefixOf(read: Reader, tip: Tip, chain: Chain, other: Chain)
    requires ChainFrom(read, tip, chain) && ChainFrom(read, tip, other) && |other| <= |chain|
    ensures other == chain[..|other|]
  {
    forall i | 0 <= i < |other| ensures other[i] == chain[i] {
      LinkedIsUnique(read, tip.hash, tip.slot + 1, chain, other, i);
    }
  }

  /** Meeting a hash again means the slots have stopped falling. */
  lemma RevisitDoesNotExtend(read: Reader, tip: Tip, chain: Chain, i: nat)
    requires ChainFrom(read, tip, chain) && i < |chain| && NextHash(tip, chain) == Some(chain[i].hash)
    ensures !Extends(read, tip, chain)
  {
    if i < |chain| - 1 { SlotsFall(read, tip.hash, tip.slot + 1, chain, i, |chain| - 1); }
  }

  /** A walk that could not extend, short of the depth and short of genesis, has no window. */
  lemma NoWindow(read: Reader, tip: Tip, depth: nat, chain: Chain, w: Chain)
    requires ChainFrom(read, tip, chain) && |chain| <= depth && NextHash(tip, chain).Some? && !Extends(read, tip, chain)
    ensures !IsWindow(read, tip, depth, w)
  {
    if IsWindow(read, tip, depth, w) {
      Blocked(read, tip, chain, w);
      if |w| < |chain| { ParentIsNext(read, tip.hash, tip.slot + 1, chain, |w| - 1); }
    }
  }

  /** The first block of the new chain that lies in the old window is the highest common block. */
  lemma FirstHitIsHighest(read: Reader, oldTip: Tip, newTip: Tip, depth: nat, w: Chain, n: Chain)
    requires IsWindow(read, oldTip, depth, w) && ChainFrom(read, newTip, n) && n != []
    requires n[|n| - 1] in w && forall i | 0 <= i < |n| - 1 :: n[i] !in w
    ensures HighestCommon(read, oldTip, newTip, n[|n| - 1])
  {
    hide ChainFrom;
    var b := n[|n| - 1];
    var p :| 0 <= p < |w| && w[p] == b;
    PrefixIsChain(read, oldTip, w, p + 1);
    assert w[..p + 1][|w[..p + 1]| - 1] == b;
    forall c: Block | Common(read, oldTip, newTip, c) ensures c.slot <= b.slot {
      var o', n': Chain :| ChainFrom(read, oldTip, o') && ChainFrom(read, newTip, n') && o' != [] && n' != []
        && o'[|o'| - 1] == c && n'[|n'| - 1] == c;
      if |n'| < |n| {
        PrefixOf(read, newTip, n, n');
        OldBelow(read, oldTip, w, p, o');
      } else {
        NewBelow(read, newTip, n, n');
      }
    }
  }

  lemma PrefixIsChain(read: Reader, tip: Tip, chain: Chain, k: nat)
    requires ChainFrom(read, tip, chain) && k <= |chain|
    ensures ChainFrom(read, tip, chain[..k])
  {
  }

  lemma NewBelow(read: Reader, newTip: Tip, n: Chain, n': Chain)
    requires ChainFrom(read, newTip, n) && ChainFrom(read, newTip, n') && n != [] && |n| <= |n'|
    ensures n'[|n'| - 1].slot <= n[|n| - 1].slot
  {
    PrefixOf(read, newTip, n', n);
    if |n| < |n'| { SlotsFall(read, newTip.hash, newTip.slot + 1, n', |n| - 1, |n'| - 1); }
  }

  /** A chain of the old tip that ends outside the window ends below every block of it. */
  lemma OldBelow(read: Reader, oldTip: Tip, w: Chain, p: nat, o': Chain)
    requires ChainFrom(read, oldTip, w) && p < |w| && ChainFrom(read, oldTip, o') && o' != [] && o'[|o'| - 1] !in w
    ensures o'[|o'| - 1].slot < w[p].slot
  {
    if |o'| <= |w| {
      PrefixOf(read, oldTip, w, o');
      assert false;
    } else {
      PrefixOf(read, oldTip, o', w);
      SlotsFall(read, oldTip.hash, oldTip.slot + 1, o', p, |o'| - 1);
    }
  }

  // ---------- The common ancestor ----------

  class AncestryReader {
    const read: Reader
    var asked: nat
    var cache: map<string, Block>

    constructor (read: Reader)
      ensures this.read == read && cache == map[]
    {
      this.read := read;
      asked := 0;
      cache := map[];
    }

    /** What the cache holds agrees with a consistent reader. */
    ghost predicate Valid()
      reads this
    {
      Consistent(read) ==> forall h <- cache :: read(h, 0) == Some(cache[h])
    }

    method Load(hash: string, upperSlot: int) returns (r: Result<Block, Error>)
      requires Valid()
      modifies this
      ensures Valid() && asked == old(asked) + 1
      ensures cache == match r case Success(b) => old(cache)[hash := b] case Failure(_) => old(cache)
      ensures r.Success? ==>
                && read(hash, old(asked)) == Some(r.value)
                && (hash in old(cache) ==>
                    old(cache)[hash].slot == r.value.slot && old(cache)[hash].parent == r.value.parent)
      ensures Consistent(read) ==>
                r == (match read(hash, 0)
                      case Some(b) =>
                        if b.hash == hash && 0 < b.slot < upperSlot && b.parent != Some("")
                        then Success(b) else Failure(Unavailable)
                      case None => Failure(Unavailable))
    {
      var block := read(hash, asked);
      asked := asked + 1;
      if block.None? { return Failure(Unavailable); }
      var b := block.value;
      if b.hash != hash || b.slot <= 0 || b.slot >= upperSlot || b.parent == Some("") { return Failure(Unavailable); }
      if hash in cache {
        var prior := cache[hash];
        if prior.slot != b.slot || prior.parent != b.parent { return Failure(Changed); }
      }
      cache := cache[hash := b];
      return Success(b);
    }
  }

  /** The window of the old tip, by hash. */
  method WalkOld(tip: Tip, reader: AncestryReader, maxDepth: nat) returns (r: Result<map<string, Block>, Error>,
                 ghost w: Chain)
    requires reader.Valid()
    modifies reader
    ensures reader.Valid()
    ensures Consistent(reader.read) && r.Success? ==>
              IsWindow(reader.read, tip, maxDepth, w) && forall h: string ::
                (h in r.value <==> exists b <- w :: b.hash == h) && (h in r.value ==> r.value[h] in w)
    ensures Consistent(reader.read) && r.Failure? ==> forall v: Chain :: !IsWindow(reader.read, tip, maxDepth, v)
  {
    var previous: map<string, Block> := map[];
    var hash, upper, depth := Some(tip.hash), tip.slot + 1, 0;
    w := [];
    while hash.Some? && depth <= maxDepth
      invariant 0 <= depth <= maxDepth + 1 && reader.Valid()
      invariant Consistent(reader.read) ==>
                  ChainFrom(reader.read, tip, w) && |w| == depth && hash == NextHash(tip, w)
                      && upper == NextUpper(tip, w)
      invariant Consistent(reader.read) ==> forall h: string ::
                  (h in previous <==> exists b <- w :: b.hash == h) && (h in previous ==> previous[h] in w)
      decreases maxDepth + 1 - depth
    {
      var found: Option<Block> := None;
      var error := Cycle;
      if hash.value !in previous {
        var block := reader.Load(hash.value, upper);
        if block.Failure? { error := block.error; }
        else if depth == 0 && block.value.slot != tip.slot { error := TipSlotMismatch; }
        else { found := Some(block.value); }
      }
      if found.None? {
        if Consistent(reader.read) {
          if hash.value in previous {
            var i :| 0 <= i < |w| && w[i].hash == hash.value;
            RevisitDoesNotExtend(reader.read, tip, w, i);
          }
          forall v: Chain ensures !IsWindow(reader.read, tip, maxDepth, v) {
            NoWindow(reader.read, tip, maxDepth, w, v);
          }
        }
        return Failure(error), w;
      }
      if Consistent(reader.read) { Extended(reader.read, tip, w); }
      previous := previous[hash.value := found.value];
      w := w + [found.value];
      hash, upper, depth := found.value.parent, found.value.slot, depth + 1;
    }
    return Success(previous), w;
  }

  /** The first block on the new tip's chain that `previous` holds. */
  method WalkNew(tip: Tip, reader: AncestryReader, maxDepth: nat, previous: map<string, Block>, ghost w: Chain)
    returns (r: Result<Block, Error>, ghost n: Chain)
    requires reader.Valid()
    requires Consistent(reader.read) ==> (forall b <- w :: reader.read(b.hash, 0) == Some(b)) && forall h: string ::
               (h in previous <==> exists b <- w :: b.hash == h) && (h in previous ==> previous[h] in w)
    modifies reader
    ensures reader.Valid()
    ensures Consistent(reader.read) && r.Success? ==>
              ChainFrom(reader.read, tip, n) && n != [] && |n| <= maxDepth + 1 && n[|n| - 1] == r.value && r.value in w
              && forall i | 0 <= i < |n| - 1 :: n[i] !in w
    ensures Consistent(reader.read) && r.Failure? ==>
              forall m: Chain :: ChainFrom(reader.read, tip, m) && m != [] && |m| <= maxDepth + 1 ==> m[|m| - 1] !in w
  {
    var hash, upper, depth := Some(tip.hash), tip.slot + 1, 0;
    var seen: set<string> := {};
    n := [];
    while hash.Some? && depth <= maxDepth
      invariant 0 <= depth <= maxDepth + 1 && reader.Valid()
      invariant Consistent(reader.read) ==>
                  ChainFrom(reader.read, tip, n) && |n| == depth && hash == NextHash(tip, n)
                      && upper == NextUpper(tip, n)
      invariant Consistent(reader.read) ==> forall h: string :: h in seen <==> exists b <- n :: b.hash == h
      invariant Consistent(reader.read) ==> forall b <- n :: b !in w
      decreases maxDepth + 1 - depth
    {
      var found: Option<Block> := None;
      var error := Cycle;
      if hash.value !in seen {
        var block := reader.Load(hash.value, upper);
        if block.Failure? { error := block.error; }
        else if depth == 0 && block.value.slot != tip.slot { error := TipSlotMismatch; }
        else { found := Some(block.value); }
      }
      if found.None? {
        if Consistent(reader.read) {
          if hash.value in seen {
            var i :| 0 <= i < |n| && n[i].hash == hash.value;
            RevisitDoesNotExtend(reader.read, tip, n, i);
          }
          MissesUpTo(reader.read, tip, n, w, maxDepth);
        }
        return Failure(error), n;
      }
      seen := seen + {hash.value};
      if Consistent(reader.read) { Extended(reader.read, tip, n); }
      n := n + [found.value];
      if hash.value in previous { return Success(found.value), n; }
      hash, upper, depth := found.value.parent, found.value.slot, depth + 1;
    }
    if Consistent(reader.read) { MissesUpTo(reader.read, tip, n, w, maxDepth); }
    return Failure(NoCommonAncestor), n;
  }

  lemma MissesUpTo(read: Reader, tip: Tip, n: Chain, w: Chain, maxDepth: nat)
    requires ChainFrom(read, tip, n) && (forall b <- n :: b !in w)
    requires !Extends(read, tip, n) || |n| == maxDepth + 1
    ensures forall m: Chain :: ChainFrom(read, tip, m) && m != [] && |m| <= maxDepth + 1 ==> m[|m| - 1] !in w
  {
    forall m: Chain | ChainFrom(read, tip, m) && m != [] && |m| <= maxDepth + 1 ensures m[|m| - 1] !in w {
      if !Extends(read, tip, n) { Blocked(read, tip, n, m); } else { PrefixOf(read, tip, n, m); }
      assert n[|m| - 1] == m[|m| - 1];
    }
  }

  method RepairCommonAncestor(oldTip: Tip, newTip: Tip, reader: AncestryReader,
                              maxDepth: int) returns (r: Result<Block, Error>)
    requires reader.Valid()
    modifies reader
    ensures maxDepth < 0 || oldTip.hash == "" || newTip.hash == "" || oldTip.slot <= 0 || newTip.slot <= 0 ==>
              r.Failure?
    ensures Consistent(reader.read) && maxDepth >= 0
            && oldTip.hash != "" && newTip.hash != "" && oldTip.slot > 0 && newTip.slot > 0 ==>
              (r.Success? <==> Meets(reader.read, oldTip, newTip, maxDepth))
    ensures Consistent(reader.read) && r.Success? ==> HighestCommon(reader.read, oldTip, newTip, r.value)
  {
    if maxDepth < 0 { return Failure(InvalidDepth); }
    if !ValidTip(oldTip) || !ValidTip(newTip) { return Failure(InvalidTip); }
    var previous, w := WalkOld(oldTip, reader, maxDepth);
    if previous.Failure? { return Failure(previous.error); }
    ghost var n;
    r, n := WalkNew(newTip, reader, maxDepth, previous.value, w);
    if Consistent(reader.read) {
      if r.Success? { FirstHitIsHighest(reader.read, oldTip, newTip, maxDepth, w, n); }
      else if Meets(reader.read, oldTip, newTip, maxDepth) { SameWindow(reader.read, oldTip, newTip, maxDepth, w); }
    }
  }

  lemma SameWindow(read: Reader, oldTip: Tip, newTip: Tip, depth: nat, w: Chain)
    requires IsWindow(read, oldTip, depth, w) && Meets(read, oldTip, newTip, depth)
    ensures exists n: Chain :: ChainFrom(read, newTip, n) && n != [] && |n| <= depth + 1 && n[|n| - 1] in w
  {
    var v, n: Chain :| IsWindow(read, oldTip, depth, v) && ChainFrom(read, newTip, n) && n != [] && |n| <= depth + 1
        && n[|n| - 1] in v;
    if |v| < |w| {
      PrefixOf(read, oldTip, w, v);
      ParentIsNext(read, oldTip.hash, oldTip.slot + 1, w, |v| - 1);
    } else {
      PrefixOf(read, oldTip, v, w);
      if |w| < |v| { ParentIsNext(read, oldTip.hash, oldTip.slot + 1, v, |w| - 1); }
    }
  }

  // ---------- Descent of the tip from the cursor ----------

  const ANCHOR_DEPTH := 64

  /** Blocks the walk steps through: readable, slots falling, every step to a named parent. */
  predicate Path(read: Reader, observed: Tip, chain: Chain) {
    && Linked(read, observed.hash, observed.slot + 1, chain)
    && forall i | 0 <= i < |chain| - 1 :: chain[i].parent != Some("")
  }

  /** A chain of at most 65 blocks leads from the observed tip down to the cursor block. */
  ghost predicate Descends(read: Reader, cursor: Tip, observed: Tip) {
    || observed == cursor
    || exists chain: Chain ::
       Path(read, observed, chain) && chain != [] && |chain| <= 65 && EndsAt(chain, cursor)
  }

  predicate EndsAt(chain: Chain, cursor: Tip) {
    chain != [] && chain[|chain| - 1].hash == cursor.hash && chain[|chain| - 1].slot == cursor.slot
  }

  /** The observed tip is accepted exactly when it descends from the cursor within the depth. */
  method AnchoredTip(cursor: Tip, observed: Tip, read: Reader) returns (r: Result<Tip, Error>)
    requires cursor.hash != "" && cursor.slot > 0
    ensures r.Success? ==> r.value == observed
    ensures Consistent(read) ==> (r.Success? <==> Descends(read, cursor, observed))
  {
    if observed == cursor { return Success(observed); }
    var hash, upperSlot := observed.hash, observed.slot + 1;
    ghost var chain: Chain := [];
    var depth := 0;
    while depth <= ANCHOR_DEPTH
      invariant 0 <= depth <= ANCHOR_DEPTH + 1
      invariant Consistent(read) ==>
                  Path(read, observed, chain) && |chain| == depth && !EndsAt(chain, cursor)
                  && (chain == [] ==> hash == observed.hash && upperSlot == observed.slot + 1)
                  && (chain != [] ==>
                      chain[|chain| - 1].parent == Some(hash) && hash != ""
                          && upperSlot == chain[|chain| - 1].slot > cursor.slot)
      invariant Consistent(read) ==> forall i | 0 <= i < |chain| :: chain[i].slot > cursor.slot
      decreases ANCHOR_DEPTH + 1 - depth
    {
      var row := read(hash, depth);
      if row.None? || row.value.hash != hash || row.value.slot >= upperSlot || row.value.slot < cursor.slot {
        if Consistent(read) { NotBelow(read, cursor, observed, chain, hash, upperSlot); }
        break;
      }
      var block := row.value;
      ghost var longer := chain + [block];
      assert Consistent(read) ==> read(hash, 0) == row && Path(read, observed, longer);
      if hash == cursor.hash && block.slot == cursor.slot {
        assert EndsAt(longer, cursor);
        return Success(observed);
      }
      if block.slot <= cursor.slot || block.parent.None? || block.parent.value == "" {
        if Consistent(read) { StopsAt(read, cursor, observed, longer); }
        break;
      }
      chain := longer;
      hash, upperSlot, depth := block.parent.value, block.slot, depth + 1;
    }
    if Consistent(read) && depth == ANCHOR_DEPTH + 1 { StopsAt(read, cursor, observed, chain); }
    return Failure(NotADescendant);
  }

  lemma NotBelow(read: Reader, cursor: Tip, observed: Tip, chain: Chain, hash: string, upper: int)
    requires Path(read, observed, chain) && !EndsAt(chain, cursor) && observed != cursor && cursor.slot > 0
    requires forall i | 0 <= i < |chain| :: chain[i].slot > cursor.slot
    requires chain == [] ==> hash == observed.hash && upper == observed.slot + 1
    requires chain != [] ==> chain[|chain| - 1].parent == Some(hash) && upper == chain[|chain| - 1].slot
    requires var row := read(hash, 0);
             row.None? || row.value.hash != hash || row.value.slot >= upper || row.value.slot < cursor.slot
    ensures !Descends(read, cursor, observed)
  {
    if Descends(read, cursor, observed) {
      var other: Chain :| Path(read, observed, other) && other != [] && |other| <= ANCHOR_DEPTH + 1
          && EndsAt(other, cursor);
      CursorIsLast(read, cursor, observed, chain, other);
      if chain != [] { LinkedIsUnique(read, observed.hash, observed.slot + 1, chain, other, |chain| - 1); }
      if |chain| < |other| - 1 { SlotsFall(read, observed.hash, observed.slot + 1, other, |chain|, |other| - 1); }
    }
  }

  /** A walked chain above the cursor slot is shorter than any chain that ends at the cursor. */
  lemma CursorIsLast(read: Reader, cursor: Tip, observed: Tip, chain: Chain, other: Chain)
    requires Path(read, observed, chain) && Path(read, observed, other) && EndsAt(other, cursor)
    requires forall i | 0 <= i < |chain| :: chain[i].slot > cursor.slot
    ensures |chain| < |other|
  {
    if |chain| >= |other| {
      LinkedIsUnique(read, observed.hash, observed.slot + 1, chain, other, |other| - 1);
    }
  }

  /** The last walked block is not the cursor, and the walk cannot or may not go below it. */
  lemma StopsAt(read: Reader, cursor: Tip, observed: Tip, chain: Chain)
    requires Path(read, observed, chain) && chain != [] && !EndsAt(chain, cursor) && observed != cursor
    requires forall i | 0 <= i < |chain| - 1 :: chain[i].slot > cursor.slot
    requires var last := chain[|chain| - 1];
             last.slot <= cursor.slot || last.parent.None? || last.parent.value == "" || |chain| == ANCHOR_DEPTH + 1
    ensures !Descends(read, cursor, observed)
  {
    if Descends(read, cursor, observed) {
      var other: Chain :| Path(read, observed, other) && other != [] && |other| <= ANCHOR_DEPTH + 1
          && EndsAt(other, cursor);
      CursorIsLast(read, cursor, observed, chain[..|chain| - 1], other);
      LinkedIsUnique(read, observed.hash, observed.slot + 1, chain, other, |chain| - 1);
      if |chain| < |other| {
        SlotsFall(read, observed.hash, observed.slot + 1, other, |chain| - 1, |other| - 1);
        ParentIsNext(read, observed.hash, observed.slot + 1, other, |chain| - 1);
      }
    }
  }
}
