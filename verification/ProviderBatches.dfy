/**
 Batching of provider requests (lambdas/scanner.app.ts): the greedy split of a hash list under a
 body limit and an item limit, and the request that retries and then splits its batch.
 */
module ProviderBatches {
  import opened Sequences
  import opened Wrappers

  // ---------- Greedy batches ----------

  /** The request body is the text of an object around a list; `quoted` is the text of one item. */
  datatype Limits = Limits(open: string, close: string, quoted: string -> string, maxBodyLength: nat,
                           maxItems: Option<nat>)

  function Listed(l: Limits, batch: seq<string>): string {
    if batch == [] then ""
    else if |batch| == 1 then l.quoted(batch[0])
    else Listed(l, batch[..|batch| - 1]) + "," + l.quoted(batch[|batch| - 1])
  }

  function Body(l: Limits, batch: seq<string>): string {
    l.open + "[" + Listed(l, batch) + "]" + l.close
  }

  predicate Fits(l: Limits, batch: seq<string>) {
    |Body(l, batch)| <= l.maxBodyLength && (l.maxItems.Some? ==> |batch| <= l.maxItems.value)
  }

  /** An order-preserving split into non-empty batches, each within both limits or a single item. */
  predicate IsSplit(l: Limits, list: seq<string>, batches: seq<seq<string>>) {
    Joined(batches) == list && forall b <- batches :: b != [] && (|b| == 1 || Fits(l, b))
  }

  predicate NoRoom(l: Limits, batch: seq<string>, next: seq<string>) {
    next != [] && !Fits(l, batch + [next[0]])
  }

  /** No batch had room for the item after it. */
  predicate IsGreedy(l: Limits, batches: seq<seq<string>>) {
    forall i, j | 0 <= i < |batches| && j == i + 1 < |batches| :: NoRoom(l, batches[i], batches[j])
  }

  method GetKoiosBatches(list: seq<string>, l: Limits) returns (batchedList: seq<seq<string>>)
    ensures IsSplit(l, list, batchedList)
    ensures forall other: seq<seq<string>> :: IsSplit(l, list, other) ==> |batchedList| <= |other|
  {
    hide Body, IsSplit, IsGreedy;
    batchedList := [];
    var batch: seq<string> := [];
    for i := 0 to |list|
      invariant batch == [] <==> i == 0
      invariant batch == [] ==> batchedList == []
      invariant batch != [] ==> IsSplit(l, list[..i], batchedList + [batch]) && IsGreedy(l, batchedList + [batch])
    {
      var item := list[i];
      var nextBatch := batch + [item];
      assert list[..i + 1] == list[..i] + [item];
      var exceedsBodyLimit := |Body(l, nextBatch)| > l.maxBodyLength;
      var exceedsItemLimit := l.maxItems.Some? && |nextBatch| > l.maxItems.value;
      if batch != [] && (exceedsBodyLimit || exceedsItemLimit) {
        BatchCloses(l, list[..i], batchedList, batch, item);
        batchedList := batchedList + [batch];
        batch := [item];
      } else {
        if batch == [] {
          assert list[..i + 1] == [item] && batchedList + [nextBatch] == [[item]];
          FirstBatch(l, item);
        } else {
          BatchGrows(l, list[..i], batchedList, batch, item);
        }
        batch := nextBatch;
      }
    }
    assert list[..|list|] == list;
    if batch != [] { batchedList := batchedList + [batch]; } else { NoBatch(l); }
    forall other: seq<seq<string>> | IsSplit(l, list, other) ensures |batchedList| <= |other| {
      GreedyIsOptimal(l, list, batchedList, other);
    }
  }

  lemma NoBatch(l: Limits)
    ensures IsSplit(l, [], []) && IsGreedy(l, [])
  {
  }

  lemma FirstBatch(l: Limits, item: string)
    ensures IsSplit(l, [item], [[item]]) && IsGreedy(l, [[item]])
  {
    assert [[item]][..0] == [];
  }

  lemma BatchCloses(l: Limits, list: seq<string>, closed: seq<seq<string>>, batch: seq<string>, item: string)
    requires IsSplit(l, list, closed + [batch]) && IsGreedy(l, closed + [batch]) && !Fits(l, batch + [item])
    ensures IsSplit(l, list + [item], closed + [batch] + [[item]]) && IsGreedy(l, closed + [batch] + [[item]])
  {
    var before, after := closed + [batch], closed + [batch] + [[item]];
    assert after[..|before|] == before;
  }

  lemma BatchGrows(l: Limits, list: seq<string>, closed: seq<seq<string>>, batch: seq<string>, item: string)
    requires IsSplit(l, list, closed + [batch]) && IsGreedy(l, closed + [batch]) && batch != []
    requires Fits(l, batch + [item])
    ensures IsSplit(l, list + [item], closed + [batch + [item]]) && IsGreedy(l, closed + [batch + [item]])
  {
    var before, after := closed + [batch], closed + [batch + [item]];
    assert before[..|closed|] == closed == after[..|closed|];
    assert Joined(after) == Joined(closed) + (batch + [item]) == Joined(before) + [item];
    forall b <- after ensures b != [] && (|b| == 1 || Fits(l, b)) {
      assert b in before || b == batch + [item];
    }
    forall i, j | 0 <= i < |after| && j == i + 1 < |after| ensures NoRoom(l, after[i], after[j]) {
      assert NoRoom(l, before[i], before[j]);
      assert after[i] == before[i] && after[j][0] == before[j][0];
    }
  }

  // ---------- Optimality ----------

  /** The length of the list's text is that of its items and the commas between them. */
  function ItemsLength(l: Limits, batch: seq<string>): nat {
    if batch == [] then 0 else ItemsLength(l, batch[..|batch| - 1]) + |l.quoted(batch[|batch| - 1])| + 1
  }

  lemma {:induction false} ListedLength(l: Limits, batch: seq<string>)
    requires batch != []
    ensures |Listed(l, batch)| + 1 == ItemsLength(l, batch)
    decreases |batch|
  {
    if |batch| > 1 { ListedLength(l, batch[..|batch| - 1]); }
  }

  lemma {:induction false} ItemsLengthSplits(l: Limits, a: seq<string>, b: seq<string>)
    ensures ItemsLength(l, a + b) == ItemsLength(l, a) + ItemsLength(l, b)
    decreases |b|
  {
    if b == [] {
      assert a + b == a;
    } else {
      assert (a + b)[..|a + b| - 1] == a + b[..|b| - 1];
      ItemsLengthSplits(l, a, b[..|b| - 1]);
    }
  }

  /** A run of consecutive items of a batch that fits also fits. */
  lemma PartFits(l: Limits, list: seq<string>, a: nat, b: nat, c: nat, d: nat)
    requires a <= b < c <= d <= |list| && Fits(l, list[a..d])
    ensures Fits(l, list[b..c])
  {
    hide Listed;
    assert list[a..d] == list[a..b] + list[b..c] + list[c..d];
    ListedLength(l, list[a..d]);
    ListedLength(l, list[b..c]);
    ItemsLengthSplits(l, list[a..b], list[b..c]);
    ItemsLengthSplits(l, list[a..b] + list[b..c], list[c..d]);
  }

  lemma {:induction false} BatchIsSlice(batches: seq<seq<string>>, k: nat)
    requires k < |batches|
    ensures var start := |Joined(batches[..k])|;
            start + |batches[k]| <= |Joined(batches)| && Joined(batches)[start..start + |batches[k]|] == batches[k]
            && |Joined(batches[..k + 1])| == start + |batches[k]|
    decreases |batches|
  {
    var n := |batches| - 1;
    assert batches[..k + 1][..k] == batches[..k];
    if k < n {
      BatchIsSlice(batches[..n], k);
      assert batches[..n][..k] == batches[..k];
    } else {
      assert batches[..k + 1] == batches;
    }
  }

  /** After any number of batches the greedy split has covered at least as much as any other. */
  lemma {:induction false} GreedyStaysAhead(l: Limits, list: seq<string>, greedy: seq<seq<string>>,
        other: seq<seq<string>>, k: nat)
    requires IsSplit(l, list, greedy) && IsGreedy(l, greedy) && IsSplit(l, list, other)
    requires k <= |greedy| && k <= |other|
    ensures |Joined(greedy[..k])| >= |Joined(other[..k])|
    decreases k
  {
    if k > 0 {
      GreedyStaysAhead(l, list, greedy, other, k - 1);
      BatchIsSlice(greedy, k - 1);
      BatchIsSlice(other, k - 1);
      var a, b := |Joined(greedy[..k - 1])|, |Joined(other[..k - 1])|;
      var g, o := |greedy[k - 1]|, |other[k - 1]|;
      if a + g < b + o { NoneReachesFurther(l, list, greedy, other, k - 1); }
    }
  }

  lemma NextItem(batches: seq<seq<string>>, k: nat)
    requires k + 1 < |batches| && batches[k + 1] != []
    ensures var start, end := |Joined(batches[..k])|, |Joined(batches[..k])| + |batches[k]|;
            end < |Joined(batches)| && Joined(batches)[start..end + 1] == batches[k] + [batches[k + 1][0]]
  {
    BatchIsSlice(batches, k);
    BatchIsSlice(batches, k + 1);
    var all, end := Joined(batches), |Joined(batches[..k])| + |batches[k]|;
    assert all[end] == all[end..end + |batches[k + 1]|][0];
  }

  lemma NoneReachesFurther(l: Limits, list: seq<string>, greedy: seq<seq<string>>, other: seq<seq<string>>, k: nat)
    requires IsSplit(l, list, greedy) && IsGreedy(l, greedy) && IsSplit(l, list, other)
    requires k < |greedy| && k < |other| && |Joined(greedy[..k])| >= |Joined(other[..k])|
    ensures |Joined(greedy[..k])| + |greedy[k]| >= |Joined(other[..k])| + |other[k]|
  {
    hide Joined, Fits;
    var a, b, g, o := |Joined(greedy[..k])|, |Joined(other[..k])|, |greedy[k]|, |other[k]|;
    BatchIsSlice(greedy, k);
    BatchIsSlice(other, k);
    assert greedy[k] in greedy && other[k] in other;
    if k + 1 == |greedy| {
      assert greedy[..k + 1] == greedy;
    } else if a + g < b + o {
      assert NoRoom(l, greedy[k], greedy[k + 1]);
      NextItem(greedy, k);
      PartFits(l, list, b, a, a + g + 1, b + o);
    }
  }

  lemma GreedyIsOptimal(l: Limits, list: seq<string>, greedy: seq<seq<string>>, other: seq<seq<string>>)
    requires IsSplit(l, list, greedy) && IsGreedy(l, greedy) && IsSplit(l, list, other)
    ensures |greedy| <= |other|
  {
    if |other| < |greedy| {
      GreedyStaysAhead(l, list, greedy, other, |other|);
      assert other[..|other|] == other;
      BatchIsSlice(greedy, |other|);
    }
  }

  // ---------- Retry and split ----------

  const MAX_RETRIES := 3

  /** What one request meets; `Deadline` stops it before it is sent. */
  datatype Answer<Row> = Rows(rows: seq<Row>) | Null | Rejected(retriable: bool) | Deadline

  /** The answer to the n-th request, for these hashes. */
  type Provider<!Row> = (nat, seq<string>) -> Answer<Row>

  datatype Leaf<Row> = Leaf(request: nat, hashes: seq<string>, rows: seq<Row>)

  /** A request, sent or stopped by the deadline, and what it asked for. */
  datatype Try = Try(request: nat, hashes: seq<string>)

  /** Outcome, requests sent, the requests whose rows make up the answer, and everything that was tried. */
  datatype Fetched<Row> = Fetched(answer: Option<seq<Row>>, requests: nat, leaves: seq<Leaf<Row>>, log: seq<Try>)

  function Fetch<Row>(p: Provider<Row>, sent: nat, hashes: seq<string>, attempt: nat): Fetched<Row>
    requires attempt <= MAX_RETRIES
    decreases |hashes|, MAX_RETRIES - attempt
  {
    var t := Try(sent, hashes);
    match p(sent, hashes)
    case Deadline => Fetched(None, sent, [], [t])
    case Rows(rows) => Fetched(Some(rows), sent + 1, [Leaf(sent, hashes, rows)], [t])
    case Null => Fetched(Some([]), sent + 1, [Leaf(sent, hashes, [])], [t])
    case Rejected(retriable) =>
      if !retriable then Fetched(None, sent + 1, [], [t])
      else if attempt < MAX_RETRIES then
        var again := Fetch(p, sent + 1, hashes, attempt + 1);
        again.(log := [t] + again.log)
      else if |hashes| <= 1 then Fetched(None, sent + 1, [], [t])
      else
        var midpoint := (|hashes| + 1) / 2;
        var left := Fetch(p, sent + 1, hashes[..midpoint], 0);
        if left.answer.None? then left.(log := [t] + left.log)
        else
          var right := Fetch(p, left.requests, hashes[midpoint..], 0);
          var log := [t] + left.log + right.log;
          if right.answer.None? then right.(log := log)
          else Fetched(Some(left.answer.value + right.answer.value), right.requests, left.leaves + right.leaves, log)
  }

  function LeafRows<Row>(leaves: seq<Leaf<Row>>): seq<Row> {
    if leaves == [] then [] else leaves[0].rows + LeafRows(leaves[1..])
  }

  function LeafHashes<Row>(leaves: seq<Leaf<Row>>): seq<string> {
    if leaves == [] then [] else leaves[0].hashes + LeafHashes(leaves[1..])
  }

  /** The requests still possible from this attempt on. */
  function Budget(count: nat, attempt: nat): int {
    MAX_RETRIES + 1 - attempt + if count <= 1 then 0 else 8 * count - 8
  }

  lemma {:induction false} LeavesAppend<Row>(a: seq<Leaf<Row>>, b: seq<Leaf<Row>>)
    ensures LeafRows(a + b) == LeafRows(a) + LeafRows(b) && LeafHashes(a + b) == LeafHashes(a) + LeafHashes(b)
  {
    if a == [] {
      assert a + b == b;
    } else {
      assert (a + b)[1..] == a[1..] + b;
      LeavesAppend(a[1..], b);
    }
  }

  /** A leaf is a request that was really sent and answered so. */
  predicate Answered<Row(==)>(p: Provider<Row>, leaf: Leaf<Row>) {
    p(leaf.request, leaf.hashes) == Rows(leaf.rows) || (p(leaf.request, leaf.hashes) == Null && leaf.rows == [])
  }

  predicate InOrder<Row>(leaves: seq<Leaf<Row>>, first: nat, end: nat) {
    && (forall i | 0 <= i < |leaves| :: first <= leaves[i].request < end)
    && (forall i, j | 0 <= i < j < |leaves| :: leaves[i].request < leaves[j].request)
  }

  /**
   The call ends within its request budget; a successful answer is the answers of its leaves in
   order, whose batches are the hashes cut into consecutive pieces.
   */
  lemma {:induction false} FetchAnswers<Row>(p: Provider<Row>, sent: nat, hashes: seq<string>, attempt: nat)
    requires attempt <= MAX_RETRIES
    ensures var f := Fetch(p, sent, hashes, attempt);
            && sent <= f.requests <= sent + Budget(|hashes|, attempt)
            && (f.answer.Some? ==> Answers(p, sent, hashes, f))
    decreases |hashes|, MAX_RETRIES - attempt
  {
    hide Answers;
    match p(sent, hashes)
    case Deadline =>
    case Rows(rows) => OneLeaf(p, Leaf(sent, hashes, rows));
    case Null => OneLeaf(p, Leaf(sent, hashes, []));
    case Rejected(retriable) =>
      if retriable && attempt < MAX_RETRIES {
        FetchAnswers(p, sent + 1, hashes, attempt + 1);
        FetchedAgain(p, sent, hashes, attempt);
        SentLater(p, sent, hashes, Fetch(p, sent + 1, hashes, attempt + 1), Fetch(p, sent, hashes, attempt));
      } else if retriable && |hashes| > 1 {
        var midpoint := (|hashes| + 1) / 2;
        var left := Fetch(p, sent + 1, hashes[..midpoint], 0);
        FetchAnswers(p, sent + 1, hashes[..midpoint], 0);
        FetchAnswers(p, left.requests, hashes[midpoint..], 0);
        var right := Fetch(p, left.requests, hashes[midpoint..], 0);
        if left.answer.Some? && right.answer.Some? {
          var log := Fetch(p, sent, hashes, attempt).log;
          HalvesJoin(p, sent, hashes[..midpoint], left, hashes[midpoint..], right, log);
        }
        assert hashes == hashes[..midpoint] + hashes[midpoint..];
      }
  }

  /** `f` is a successful answer to `hashes`, sent from request `first` on. */
  predicate Answers<Row(==)>(p: Provider<Row>, first: nat, hashes: seq<string>, f: Fetched<Row>) {
    && f.answer == Some(LeafRows(f.leaves)) && LeafHashes(f.leaves) == hashes && InOrder(f.leaves, first, f.requests)
    && (forall leaf <- f.leaves :: Answered(p, leaf) && (hashes != [] ==> leaf.hashes != []))
  }

  lemma HalvesJoin<Row>(p: Provider<Row>, sent: nat, a: seq<string>, left: Fetched<Row>, b: seq<string>,
                        right: Fetched<Row>, log: seq<Try>)
    requires a != [] && b != [] && sent < left.requests <= right.requests
    requires Answers(p, sent + 1, a, left) && Answers(p, left.requests, b, right)
    ensures Answers(p, sent, a + b,
                    Fetched(Some(left.answer.value + right.answer.value), right.requests, left.leaves + right.leaves,
                            log))
  {
    LeavesAppend(left.leaves, right.leaves);
  }

  lemma OneLeaf<Row>(p: Provider<Row>, leaf: Leaf<Row>)
    requires Answered(p, leaf)
    ensures Answers(p, leaf.request, leaf.hashes,
                    Fetched(Some(leaf.rows), leaf.request + 1, [leaf], [Try(leaf.request, leaf.hashes)]))
  {
    assert [leaf][1..] == [];
    assert LeafRows([leaf]) == leaf.rows && LeafHashes([leaf]) == leaf.hashes;
    assert leaf.hashes != [] ==> [leaf][0].hashes != [];
  }

  lemma SentLater<Row>(p: Provider<Row>, sent: nat, hashes: seq<string>, again: Fetched<Row>, f: Fetched<Row>)
    requires f == again.(log := f.log)
    ensures Answers(p, sent + 1, hashes, again) ==> Answers(p, sent, hashes, f)
  {
  }

  /** A whole batch of n hashes costs at most 4(2n - 1) requests. */
  lemma RequestBound<Row>(p: Provider<Row>, hashes: seq<string>)
    requires hashes != []
    ensures Fetch(p, 0, hashes, 0).requests <= 4 * (2 * |hashes| - 1)
  {
    FetchAnswers(p, 0, hashes, 0);
  }

  // ---------- When it fails ----------

  /** The deadline came before the request was sent. */
  predicate Stopped<Row>(p: Provider<Row>, t: Try) {
    p(t.request, t.hashes).Deadline?
  }

  predicate Rejects<Row(==)>(p: Provider<Row>, t: Try) {
    p(t.request, t.hashes) == Rejected(true)
  }

  /** The fourth retriable rejection in a row of one batch. */
  predicate Fourth<Row(==)>(p: Provider<Row>, log: seq<Try>, k: nat) {
    && 3 <= k < |log| && log[k - 3].hashes == log[k - 2].hashes == log[k - 1].hashes == log[k].hashes
    && Rejects(p, log[k - 3]) && Rejects(p, log[k - 2]) && Rejects(p, log[k - 1]) && Rejects(p, log[k])
  }

  /** What ends the call without an answer. */
  predicate Fatal<Row(==)>(p: Provider<Row>, log: seq<Try>, k: nat)
    requires k < |log|
  {
    var answer := p(log[k].request, log[k].hashes);
    answer == Deadline || answer == Rejected(false) || (Fourth(p, log, k) && |log[k].hashes| <= 1)
  }

  predicate IsHalf(part: seq<string>, whole: seq<string>) {
    var midpoint := (|whole| + 1) / 2;
    part == whole[..midpoint] || part == whole[midpoint..]
  }

  /** The requests are numbered in order, and nothing follows a fatal one. */
  predicate InSequence<Row(==)>(p: Provider<Row>, log: seq<Try>) {
    forall k, l | 0 <= k && l == k + 1 < |log| :: log[l].request == log[k].request + 1 && !Fatal(p, log, k)
  }

  /** A rejected batch is asked for again, until the fourth time; then its first half is. */
  predicate RetriesThenSplits<Row(==)>(p: Provider<Row>, log: seq<Try>) {
    forall k, l | 0 <= k && l == k + 1 < |log| && Rejects(p, log[k]) ::
      log[l].hashes == if Fourth(p, log, k) then log[k].hashes[..(|log[k].hashes| + 1) / 2] else log[k].hashes
  }

  /** Every other batch is a half of one rejected four times. */
  predicate OnlyHalves<Row(==)>(p: Provider<Row>, log: seq<Try>) {
    forall k, l | 0 <= k && l == k + 1 < |log| :: log[l].hashes == log[k].hashes || SplitOff(p, log, l)
  }

  predicate SplitOff<Row(==)>(p: Provider<Row>, log: seq<Try>, l: nat)
    requires l < |log|
  {
    exists m | 0 <= m < l :: Fourth(p, log, m) && IsHalf(log[l].hashes, log[m].hashes)
  }

  /** The requests so far, none of them for more than the first asked for. */
  ghost predicate LogOf<Row>(p: Provider<Row>, hashes: seq<string>, log: seq<Try>) {
    && log != [] && log[0].hashes == hashes && (forall t <- log :: |t.hashes| <= |hashes|)
    && InSequence(p, log) && RetriesThenSplits(p, log) && OnlyHalves(p, log)
  }

  /** The call failed at its last request or was answered there. */
  ghost predicate WholeLog<Row>(p: Provider<Row>, hashes: seq<string>, log: seq<Try>, answered: bool) {
    && LogOf(p, hashes, log) && (answered <==> !Fatal(p, log, |log| - 1))
    && (answered ==> !Rejects(p, log[|log| - 1]))
  }

  /** Rejections of the second log do not go on with those of the first. */
  predicate Parted<Row(==)>(p: Provider<Row>, a: seq<Try>, b: seq<Try>) {
    a != [] && forall t <- b :: t.hashes != a[|a| - 1].hashes || !Rejects(p, a[|a| - 1])
  }

  lemma FourthOfBoth<Row>(p: Provider<Row>, a: seq<Try>, b: seq<Try>, k: nat)
    requires Parted(p, a, b) && k < |a + b|
    ensures Fourth(p, a + b, k) <==> if k < |a| then Fourth(p, a, k) else Fourth(p, b, k - |a|)
    ensures Fatal(p, a + b, k) <==> if k < |a| then Fatal(p, a, k) else Fatal(p, b, k - |a|)
  {
    hide Rejects;
    if k >= |a| { assert (a + b)[k] == b[k - |a|] && b[k - |a|] in b; }
  }

  lemma LogsJoin<Row>(p: Provider<Row>, hashes: seq<string>, a: seq<Try>, b: seq<Try>)
    requires Parted(p, a, b) && b != [] && InSequence(p, a) && InSequence(p, b)
    requires !Fatal(p, a, |a| - 1) && b[0].request == a[|a| - 1].request + 1
    ensures InSequence(p, a + b)
  {
    hide Fatal, Parted;
    var log := a + b;
    forall k, l | 0 <= k && l == k + 1 < |log| ensures log[l].request == log[k].request + 1 && !Fatal(p, log, k) {
      FourthOfBoth(p, a, b, k);
      if k >= |a| { assert b[k - |a| + 1].request == b[k - |a|].request + 1; }
    }
  }

  lemma RetriesJoin<Row>(p: Provider<Row>, a: seq<Try>, b: seq<Try>)
    requires Parted(p, a, b) && b != [] && RetriesThenSplits(p, a) && RetriesThenSplits(p, b)
    requires Rejects(p, a[|a| - 1]) ==>
               Fourth(p, a, |a| - 1) && b[0].hashes == a[|a| - 1].hashes[..(|a[|a| - 1].hashes| + 1) / 2]
    ensures RetriesThenSplits(p, a + b)
  {
    hide Fourth, Parted, Rejects;
    var log := a + b;
    forall k, l | 0 <= k && l == k + 1 < |log| && Rejects(p, log[k])
      ensures log[l].hashes == if Fourth(p, log, k) then log[k].hashes[..(|log[k].hashes| + 1) / 2] else log[k].hashes
    {
      FourthOfBoth(p, a, b, k);
      if k >= |a| { assert b[k - |a|] == log[k] && b[k - |a| + 1] == log[l]; }
    }
  }

  lemma HalvesOfBoth<Row>(p: Provider<Row>, a: seq<Try>, b: seq<Try>)
    requires Parted(p, a, b) && b != [] && OnlyHalves(p, a) && OnlyHalves(p, b) && SplitOff(p, a + b, |a|)
    ensures OnlyHalves(p, a + b)
  {
    hide Fourth, Parted, IsHalf;
    var log := a + b;
    forall k, l | 0 <= k && l == k + 1 < |log| ensures log[l].hashes == log[k].hashes || SplitOff(p, log, l) {
      if l < |a| && SplitOff(p, a, l) {
        var m :| 0 <= m < l && Fourth(p, a, m) && IsHalf(a[l].hashes, a[m].hashes);
        FourthOfBoth(p, a, b, m);
        assert Fourth(p, log, m) && IsHalf(log[l].hashes, log[m].hashes);
      } else if l > |a| {
        assert log[k] == b[k - |a|] && log[l] == b[l - |a|];
        if SplitOff(p, b, l - |a|) {
          var m :| 0 <= m < l - |a| && Fourth(p, b, m) && IsHalf(b[l - |a|].hashes, b[m].hashes);
          FourthOfBoth(p, a, b, m + |a|);
          assert Fourth(p, log, m + |a|) && IsHalf(log[l].hashes, log[m + |a|].hashes);
        }
      }
    }
  }

  lemma PartFollows<Row>(p: Provider<Row>, hashes: seq<string>, a: seq<Try>, part: seq<string>, b: seq<Try>, m: nat,
                         answered: bool)
    requires LogOf(p, hashes, a) && WholeLog(p, part, b, answered) && |part| <= |hashes|
    requires Parted(p, a, b) && b[0].request == a[|a| - 1].request + 1 && !Fatal(p, a, |a| - 1)
    requires m < |a| && Fourth(p, a, m) && IsHalf(part, a[m].hashes)
    requires Rejects(p, a[|a| - 1]) ==>
               Fourth(p, a, |a| - 1) && part == a[|a| - 1].hashes[..(|a[|a| - 1].hashes| + 1) / 2]
    ensures WholeLog(p, hashes, a + b, answered) && Fourth(p, a + b, m) && (a + b)[m] == a[m]
  {
    hide InSequence, RetriesThenSplits, OnlyHalves, Parted, Fourth, Fatal, IsHalf, Rejects;
    FourthOfBoth(p, a, b, m);
    FourthOfBoth(p, a, b, |a + b| - 1);
    LogsJoin(p, hashes, a, b);
    RetriesJoin(p, a, b);
    assert SplitOff(p, a + b, |a|) by { assert (a + b)[m] == a[m] && (a + b)[|a|] == b[0]; }
    HalvesOfBoth(p, a, b);
  }

  /** So many rejections of one batch, and then the request with this number. */
  ghost predicate Tried<Row>(p: Provider<Row>, sent: nat, hashes: seq<string>, log: seq<Try>) {
    && 0 < |log| <= 4 && |log| <= sent + 1
    && (forall k | 0 <= k < |log| :: log[k] == Try(sent + 1 - |log| + k, hashes))
    && forall k | 0 <= k < |log| - 1 :: Rejects(p, log[k])
  }

  lemma TriedIsLog<Row>(p: Provider<Row>, sent: nat, hashes: seq<string>, log: seq<Try>)
    requires Tried(p, sent, hashes, log)
    ensures LogOf(p, hashes, log)
    ensures Fourth(p, log, |log| - 1) <==> |log| == 4 && Rejects(p, log[|log| - 1])
  {
  }

  /** The call's log, with the rejections before, is whole. */
  ghost predicate Logged<Row>(p: Provider<Row>, hashes: seq<string>, start: seq<Try>, f: Fetched<Row>)
    requires start != []
  {
    && f.log != [] && f.log[0] == start[|start| - 1] && WholeLog(p, hashes, start + f.log[1..], f.answer.Some?)
    && f.requests == f.log[|f.log| - 1].request + if Stopped(p, f.log[|f.log| - 1]) then 0 else 1
  }

  lemma LastTry<Row>(p: Provider<Row>, sent: nat, hashes: seq<string>, start: seq<Try>)
    requires Tried(p, sent, hashes, start) && (!Rejects(p, Try(sent, hashes)) || (|start| == 4 && |hashes| <= 1))
    ensures Logged(p, hashes, start, Fetch(p, sent, hashes, |start| - 1))
  {
    hide LogOf, Fourth;
    TriedIsLog(p, sent, hashes, start);
    assert start + [Try(sent, hashes)][1..] == start;
  }

  lemma FetchedAgain<Row>(p: Provider<Row>, sent: nat, hashes: seq<string>, attempt: nat)
    requires Rejects(p, Try(sent, hashes)) && attempt < 3
    ensures var again := Fetch(p, sent + 1, hashes, attempt + 1);
            Fetch(p, sent, hashes, attempt) == again.(log := [Try(sent, hashes)] + again.log)
  {
  }

  lemma TryAgain<Row>(p: Provider<Row>, sent: nat, hashes: seq<string>, start: seq<Try>)
    requires Tried(p, sent, hashes, start) && Rejects(p, Try(sent, hashes)) && |start| < 4
    requires Logged(p, hashes, start + [Try(sent + 1, hashes)], Fetch(p, sent + 1, hashes, |start|))
    ensures Logged(p, hashes, start, Fetch(p, sent, hashes, |start| - 1))
  {
    hide WholeLog, Fetch, Stopped, Rejects;
    var f, again := Fetch(p, sent, hashes, |start| - 1), Fetch(p, sent + 1, hashes, |start|);
    FetchedAgain(p, sent, hashes, |start| - 1);
    assert f.log[1..] == again.log && f.log[|f.log| - 1] == again.log[|again.log| - 1];
    assert start + f.log[1..] == start + [Try(sent + 1, hashes)] + again.log[1..];
  }

  lemma {:induction false} LogIsWhole<Row>(p: Provider<Row>, sent: nat, hashes: seq<string>, start: seq<Try>)
    requires Tried(p, sent, hashes, start)
    ensures Logged(p, hashes, start, Fetch(p, sent, hashes, |start| - 1))
    decreases |hashes|, 5 - |start|
  {
    hide Logged, Fetch;
    if !Rejects(p, Try(sent, hashes)) || (|start| == 4 && |hashes| <= 1) {
      LastTry(p, sent, hashes, start);
    } else if |start| < 4 {
      LogIsWhole(p, sent + 1, hashes, start + [Try(sent + 1, hashes)]);
      TryAgain(p, sent, hashes, start);
    } else {
      SplitLog(p, sent, hashes, start);
    }
  }

  lemma {:induction false} SplitLog<Row>(p: Provider<Row>, sent: nat, hashes: seq<string>, start: seq<Try>)
    requires |start| == 4 && Tried(p, sent, hashes, start) && Rejects(p, start[3]) && |hashes| > 1
    ensures Logged(p, hashes, start, Fetch(p, sent, hashes, 3))
    decreases |hashes|, 0
  {
    hide Fetch, Logged, WholeLog, Stopped, Fourth;
    assert start[3] == Try(sent, hashes) by { TriedLast(p, sent, hashes, start); }
    var midpoint := (|hashes| + 1) / 2;
    var a, b := hashes[..midpoint], hashes[midpoint..];
    var left := Fetch(p, sent + 1, a, 0);
    Halves(p, sent, hashes);
    LogIsWhole(p, sent + 1, a, [Try(sent + 1, a)]);
    LeftFollows(p, sent, hashes, start, a, left);
    if left.answer.None? {
      LogsAgree(p, hashes, start, left.log, Fetch(p, sent, hashes, 3));
    } else {
      var right := Fetch(p, left.requests, b, 0);
      LogIsWhole(p, left.requests, b, [Try(left.requests, b)]);
      RightFollows(p, hashes, start + left.log, left, b, right);
      assert start + left.log + right.log == start + (left.log + right.log);
      LogsAgree(p, hashes, start, left.log + right.log, Fetch(p, sent, hashes, 3));
    }
  }

  lemma TriedLast<Row>(p: Provider<Row>, sent: nat, hashes: seq<string>, start: seq<Try>)
    requires Tried(p, sent, hashes, start)
    ensures start[|start| - 1] == Try(sent, hashes)
  {
  }

  lemma LogsAgree<Row>(p: Provider<Row>, hashes: seq<string>, start: seq<Try>, log: seq<Try>, f: Fetched<Row>)
    requires start != [] && log != [] && f.log == [start[|start| - 1]] + log
    requires WholeLog(p, hashes, start + log, f.answer.Some?)
    requires f.requests == log[|log| - 1].request + if Stopped(p, log[|log| - 1]) then 0 else 1
    ensures Logged(p, hashes, start, f)
  {
    hide WholeLog, Stopped;
    assert start + f.log[1..] == start + log && f.log[|f.log| - 1] == log[|log| - 1];
  }

  lemma LeftFollows<Row>(p: Provider<Row>, sent: nat, hashes: seq<string>, start: seq<Try>, a: seq<string>,
                         left: Fetched<Row>)
    requires |start| == 4 && Tried(p, sent, hashes, start) && Rejects(p, start[3])
    requires |hashes| > 1 && a == hashes[..(|hashes| + 1) / 2] && Logged(p, a, [Try(sent + 1, a)], left)
    ensures WholeLog(p, hashes, start + left.log, left.answer.Some?) && left.log != []
    ensures Fourth(p, start + left.log, 3) && (start + left.log)[3].hashes == hashes
    ensures var last := left.log[|left.log| - 1]; left.requests == last.request + if Stopped(p, last) then 0 else 1
    ensures left.answer.Some? ==> !Stopped(p, left.log[|left.log| - 1])
  {
    hide Fourth, InSequence, RetriesThenSplits, OnlyHalves;
    TriedIsLog(p, sent, hashes, start);
    assert [Try(sent + 1, a)] + left.log[1..] == left.log;
    PartFollows(p, hashes, start, a, left.log, 3, left.answer.Some?);
  }

  lemma RightFollows<Row>(p: Provider<Row>, hashes: seq<string>, log: seq<Try>, left: Fetched<Row>, b: seq<string>,
                          right: Fetched<Row>)
    requires |hashes| > 1 && b == hashes[(|hashes| + 1) / 2..] && Logged(p, b, [Try(left.requests, b)], right)
    requires |log| > 4 && WholeLog(p, hashes, log, true) && Fourth(p, log, 3) && log[3].hashes == hashes
    requires left.requests == log[|log| - 1].request + 1
    ensures WholeLog(p, hashes, log + right.log, right.answer.Some?) && right.log != []
    ensures var last := right.log[|right.log| - 1]; right.requests == last.request + if Stopped(p, last) then 0 else 1
  {
    hide Fourth, InSequence, RetriesThenSplits, OnlyHalves, Fatal;
    assert [Try(left.requests, b)] + right.log[1..] == right.log;
    PartFollows(p, hashes, log, b, right.log, 3, right.answer.Some?);
  }

  lemma Halves<Row>(p: Provider<Row>, sent: nat, hashes: seq<string>)
    requires |hashes| > 1 && Rejects(p, Try(sent, hashes))
    ensures var midpoint := (|hashes| + 1) / 2;
            var f, left := Fetch(p, sent, hashes, 3), Fetch(p, sent + 1, hashes[..midpoint], 0);
            var right := Fetch(p, left.requests, hashes[midpoint..], 0);
            if left.answer.None? then f == left.(log := [Try(sent, hashes)] + left.log)
            else && f.log == [Try(sent, hashes)] + left.log + right.log && f.requests == right.requests
                 && (f.answer.Some? <==> right.answer.Some?)
  {
  }

  /**
   The call fails exactly when one of its requests meets the deadline, a rejection that is not worth retrying, or
   the fourth rejection in a row of a batch that cannot be split; that request is its last. Before, every
   rejected batch is asked for again until the fourth time, and then by halves.
   */
  lemma FailsExactly<Row>(p: Provider<Row>, sent: nat, hashes: seq<string>)
    ensures var f := Fetch(p, sent, hashes, 0);
            && f.log != [] && f.log[0] == Try(sent, hashes)
            && (f.answer.None? <==> exists k | 0 <= k < |f.log| :: Fatal(p, f.log, k))
            && InSequence(p, f.log) && RetriesThenSplits(p, f.log) && OnlyHalves(p, f.log)
            && f.requests == sent + |f.log| - if Stopped(p, f.log[|f.log| - 1]) then 1 else 0
  {
    hide Fetch, Fatal, RetriesThenSplits, OnlyHalves, Stopped, Rejects;
    var f, first := Fetch(p, sent, hashes, 0), [Try(sent, hashes)];
    LogIsWhole(p, sent, hashes, first);
    assert first + f.log[1..] == f.log;
    NumberedFrom(p, f.log, |f.log| - 1);
    OnlyLastIsFatal(p, f.log);
  }

  lemma OnlyLastIsFatal<Row>(p: Provider<Row>, log: seq<Try>)
    requires log != [] && InSequence(p, log)
    ensures (exists k | 0 <= k < |log| :: Fatal(p, log, k)) <==> Fatal(p, log, |log| - 1)
  {
    hide Fatal;
    forall k | 0 <= k < |log| - 1 ensures !Fatal(p, log, k) {
      assert log[k + 1].request == log[k].request + 1;
    }
  }

  lemma {:induction false} NumberedFrom<Row>(p: Provider<Row>, log: seq<Try>, k: nat)
    requires k < |log| && InSequence(p, log)
    ensures log[k].request == log[0].request + k
  {
    if k > 0 {
      NumberedFrom(p, log, k - 1);
      assert log[k].request == log[k - 1].request + 1;
    }
  }

  predicate FourRejected<Row>(p: Provider<Row>, n: nat, hs: seq<string>) {
    p(n, hs).Rejected? && p(n + 1, hs).Rejected? && p(n + 2, hs).Rejected? && p(n + 3, hs).Rejected?
  }

  /**
   A provider that is within the deadline, rejects only for now, and in any four requests in a row for a batch of
   one hash or none has one that it does not reject, is always answered.
   */
  lemma PatienceSucceeds<Row>(p: Provider<Row>, sent: nat, hashes: seq<string>)
    requires forall n: nat, hs: seq<string> :: p(n, hs) != Deadline && p(n, hs) != Rejected(false)
    requires forall n: nat, hs: seq<string> | |hs| <= 1 ::
               !FourRejected(p, n, hs)
    ensures Fetch(p, sent, hashes, 0).answer.Some?
  {
    hide Fetch, RetriesThenSplits, OnlyHalves;
    var f := Fetch(p, sent, hashes, 0);
    FailsExactly(p, sent, hashes);
    forall k | 0 <= k < |f.log| ensures !Fatal(p, f.log, k) { NotFatal(p, f.log, k); }
  }

  lemma NotFatal<Row>(p: Provider<Row>, log: seq<Try>, k: nat)
    requires k < |log| && InSequence(p, log)
    requires p(log[k].request, log[k].hashes) != Deadline && p(log[k].request, log[k].hashes) != Rejected(false)
    requires forall n: nat, hs: seq<string> | |hs| <= 1 :: !FourRejected(p, n, hs)
    ensures !Fatal(p, log, k)
  {
    NumberedFrom(p, log, k);
    if k >= 3 {
      NumberedFrom(p, log, k - 1);
      NumberedFrom(p, log, k - 2);
      NumberedFrom(p, log, k - 3);
      hide InSequence;
      assert Fourth(p, log, k) ==> FourRejected(p, log[k - 3].request, log[k].hashes);
    }
  }
}
