/**
 The block assembler of the Demeter stream (`consumeCompleteDemeterBlocks`, services/demeter/utxorpc.service.ts).
 */
module DemeterStream {
  // `Committed` describes the blocks handed on without any of the loop's state: cut the stream into
  // runs of events of one block, keep the runs up to the first that is not complete, at its height and
  // below the target. The loop is proved to hand on exactly those, each with the distinct transactions
  // of its run.

  import opened Wrappers

  datatype Ref = Ref(slot: nat, hash: string, height: nat)
  datatype Tip = Tip(slot: nat, hash: string)

  /** What `convertDemeterTx` makes of a transaction: a value, nothing for a failed one, or an exception. */
  datatype Conversion<Tx> = Converted(tx: Tx) | Skipped | Broken

  datatype Action<Tx> = Apply(txHash: string, conversion: Conversion<Tx>) | Undo | Idle

  /** `ref` is None when the event lacks its block reference. */
  datatype Event<Tx> = Event(action: Action<Tx>, ref: Option<Ref>)

  datatype Block<Tx> = Block(ref: Ref, transactions: seq<Tx>)

  datatype Outcome = ReachedTip | MissingReference | RolledBack(ref: Ref) | SkippedHeight | TipMismatch
      | BrokenTransaction | HandlerFailed | EndedEarly

  predicate SameBlock(a: Ref, b: Ref) {
    a.slot == b.slot && a.hash == b.hash
  }

  // ---------- The stream cut into runs ----------

  /** The block reference of event `j` is readable and names the block of event `i`. */
  predicate InRun<Tx>(events: seq<Event<Tx>>, i: nat, j: nat)
    requires i < |events| && j < |events| && events[i].ref.Some?
  {
    events[j].ref.Some? && SameBlock(events[i].ref.value, events[j].ref.value)
  }

  /** The first event from `j` on that is not of the block of event `i`. */
  function RunEnd<Tx>(events: seq<Event<Tx>>, i: nat, j: nat): (end: nat)
    requires i < j <= |events| && events[i].ref.Some?
    ensures j <= end <= |events|
    ensures forall k | j <= k < end :: InRun(events, i, k)
    ensures end < |events| ==> !InRun(events, i, end)
    decreases |events| - j
  {
    if j < |events| && InRun(events, i, j) then RunEnd(events, i, j + 1) else j
  }

  /** Event `k` applies a transaction that no earlier event of its run applied. */
  predicate FirstSeen<Tx>(events: seq<Event<Tx>>, i: nat, k: nat)
    requires i <= k < |events|
  {
    events[k].action.Apply? && forall m | i <= m < k :: events[m].action.Apply? ==>
        events[m].action.txHash != events[k].action.txHash
  }

  predicate Clean<Tx>(events: seq<Event<Tx>>, i: nat, end: nat)
    requires end <= |events|
  {
    forall k | i <= k < end ::
        !events[k].action.Undo? && (FirstSeen(events, i, k) ==> !events[k].action.conversion.Broken?)
  }

  /** The converted transactions first seen in the run, in that order. */
  function Transactions<Tx>(events: seq<Event<Tx>>, i: nat, end: nat): seq<Tx>
    requires i <= end <= |events|
    decreases end
  {
    if end == i then []
    else if FirstSeen(events, i, end - 1) && events[end - 1].action.conversion.Converted?
    then Transactions(events, i, end - 1) + [events[end - 1].action.conversion.tx]
    else Transactions(events, i, end - 1)
  }

  predicate BelowTip(ref: Ref, tip: Tip) {
    ref.slot < tip.slot && ref.hash != tip.hash
  }

  predicate AtBoundary(ref: Ref, tip: Tip) {
    ref.slot > tip.slot || ref.hash == tip.hash
  }

  /** An event that can start a block: it names one and does not roll back. */
  predicate Opens<Tx>(e: Event<Tx>) {
    e.ref.Some? && !e.action.Undo?
  }

  /** The run from `i` to `end` is whole: clean, below the target, and followed by the block one height up. */
  predicate Complete<Tx>(events: seq<Event<Tx>>, tip: Tip, i: nat, end: nat)
    requires i < end <= |events|
  {
    && Opens(events[i]) && BelowTip(events[i].ref.value, tip) && Clean(events, i, end)
    && end < |events| && Opens(events[end]) && events[end].ref.value.height == events[i].ref.value.height + 1
  }

  function BlockOf<Tx>(events: seq<Event<Tx>>, i: nat, end: nat): Block<Tx>
    requires i < end <= |events| && events[i].ref.Some?
  {
    Block(events[i].ref.value, Transactions(events, i, end))
  }

  function Committed<Tx>(events: seq<Event<Tx>>, tip: Tip, onBlock: Block<Tx> -> bool, i: nat): seq<Block<Tx>>
    requires i <= |events|
    decreases |events| - i
  {
    if i == |events| || !Opens(events[i]) then []
    else
      var end := RunEnd(events, i, i + 1);
      if !Complete(events, tip, i, end) then []
      else
        var block := BlockOf(events, i, end);
        [block] + if onBlock(block) then Committed(events, tip, onBlock, end) else []
  }

  /** Every complete run is accepted until an event at or past the target opens a block. */
  predicate ReachesTip<Tx>(events: seq<Event<Tx>>, tip: Tip, onBlock: Block<Tx> -> bool, i: nat)
    requires i <= |events|
    decreases |events| - i
  {
    i < |events| && Opens(events[i]) &&
    (AtBoundary(events[i].ref.value, tip) ||
     var end := RunEnd(events, i, i + 1);
     Complete(events, tip, i, end) && onBlock(BlockOf(events, i, end)) && ReachesTip(events, tip, onBlock, end))
  }

  // ---------- How it ends ----------

  /** Event `j` belongs to the run from `i` on and does no harm. */
  predicate Continues<Tx>(events: seq<Event<Tx>>, i: nat, j: nat)
    requires i <= j < |events| && events[i].ref.Some?
  {
    && InRun(events, i, j) && !events[j].action.Undo?
    && (FirstSeen(events, i, j) ==> !events[j].action.conversion.Broken?)
  }

  /** The first event from `j` on that does not continue the run from `i` on. */
  function FirstStop<Tx>(events: seq<Event<Tx>>, i: nat, j: nat): (stop: nat)
    requires i <= j <= |events| && i < |events| && events[i].ref.Some?
    ensures j <= stop <= |events|
    ensures forall k | j <= k < stop :: Continues(events, i, k)
    ensures stop < |events| ==> !Continues(events, i, stop)
    decreases |events| - j
  {
    if j < |events| && Continues(events, i, j) then FirstStop(events, i, j + 1) else j
  }

  function Refused<Tx>(e: Event<Tx>): Outcome {
    if e.ref.None? then MissingReference else RolledBack(e.ref.value)
  }

  /** What is wrong with the event at which the run from `i` on stops, if it is not the run's successor. */
  function FaultAt<Tx>(events: seq<Event<Tx>>, i: nat, stop: nat): Outcome
    requires i < |events| && stop <= |events| && events[i].ref.Some?
  {
    if stop == |events| then EndedEarly
    else if !Opens(events[stop]) then Refused(events[stop])
    else if InRun(events, i, stop) then BrokenTransaction
    else SkippedHeight
  }

  /** How the stream ends that goes on from event `c` without a pending block, if the run there is not whole. */
  function EndAt<Tx>(events: seq<Event<Tx>>, tip: Tip, c: nat): Outcome
    requires c <= |events|
  {
    if c == |events| then EndedEarly
    else if !Opens(events[c]) then Refused(events[c])
    else if AtBoundary(events[c].ref.value, tip) then ReachedTip
    else if !BelowTip(events[c].ref.value, tip) then TipMismatch
    else FaultAt(events, c, FirstStop(events, c, c))
  }

  function Ending<Tx>(events: seq<Event<Tx>>, tip: Tip, onBlock: Block<Tx> -> bool, i: nat): Outcome
    requires i <= |events|
    decreases |events| - i
  {
    if i == |events| || !Opens(events[i]) then EndAt(events, tip, i)
    else
      var end := RunEnd(events, i, i + 1);
      if !Complete(events, tip, i, end) then EndAt(events, tip, i)
      else if !onBlock(BlockOf(events, i, end)) then HandlerFailed
      else Ending(events, tip, onBlock, end)
  }

  // ---------- What is handed on ----------

  /** Heights rise by one and every slot is below the target. */
  lemma {:induction false} HeightsAreConsecutive<Tx>(events: seq<Event<Tx>>, tip: Tip, onBlock: Block<Tx> -> bool,
        i: nat)
    requires i <= |events|
    ensures var blocks := Committed(events, tip, onBlock, i);
            && (forall k | 0 <= k < |blocks| ::
                BelowTip(blocks[k].ref, tip) && blocks[k].ref.height == blocks[0].ref.height + k)
            && (blocks != [] ==> events[i].ref == Some(blocks[0].ref))
    decreases |events| - i
  {
    var blocks := Committed(events, tip, onBlock, i);
    if blocks != [] {
      var end := RunEnd(events, i, i + 1);
      HeightsAreConsecutive(events, tip, onBlock, end);
      var rest := blocks[1..];
      assert rest == [] || rest == Committed(events, tip, onBlock, end);
      forall k | 0 <= k < |blocks|
        ensures BelowTip(blocks[k].ref, tip) && blocks[k].ref.height == blocks[0].ref.height + k
      {
        if k > 0 { assert blocks[k] == rest[k - 1]; }
      }
    }
  }

  /** Event `m` is the first apply of its transaction in the run from `i` on, and it converts. */
  predicate Counts<Tx>(events: seq<Event<Tx>>, i: nat, m: nat)
    requires i <= m < |events|
  {
    && events[m].action.Apply? && events[m].action.conversion.Converted?
    && forall l | i <= l < m && events[l].action.Apply? :: events[l].action.txHash != events[m].action.txHash
  }

  predicate Rising(at: seq<nat>) {
    forall k, l | 0 <= k < l < |at| :: at[k] < at[l]
  }

  predicate Picks<Tx(==)>(events: seq<Event<Tx>>, i: nat, end: nat, txs: seq<Tx>, at: seq<nat>)
    requires i <= end <= |events|
  {
    && |at| == |txs|
    && forall k | 0 <= k < |at| ::
       i <= at[k] < end && Counts(events, i, at[k]) && txs[k] == events[at[k]].action.conversion.tx
  }

  predicate Covers<Tx>(events: seq<Event<Tx>>, i: nat, end: nat, at: seq<nat>)
    requires i <= end <= |events|
  {
    forall m | i <= m < end && Counts(events, i, m) :: m in at
  }

  /** The transactions are the conversions of the events at `at`, in their order: all that count in the run. */
  ghost predicate TakenAt<Tx>(events: seq<Event<Tx>>, i: nat, end: nat, txs: seq<Tx>, at: seq<nat>) {
    i <= end <= |events| && Rising(at) && Picks(events, i, end, txs, at) && Covers(events, i, end, at)
  }

  lemma {:induction false} TransactionsAreTaken<Tx>(events: seq<Event<Tx>>, i: nat, end: nat) returns (at: seq<nat>)
    requires i <= end <= |events|
    ensures TakenAt(events, i, end, Transactions(events, i, end), at)
    decreases end
  {
    hide TakenAt, Counts, FirstSeen;
    if end == i {
      at := [];
      NothingTaken(events, i);
    } else {
      at := TransactionsAreTaken(events, i, end - 1);
      FirstConverted(events, i, end - 1);
      var txs := Transactions(events, i, end);
      at := OneMoreEvent(events, i, end - 1, Transactions(events, i, end - 1), txs, at);
    }
  }

  lemma NothingTaken<Tx>(events: seq<Event<Tx>>, i: nat)
    requires i <= |events|
    ensures TakenAt(events, i, i, [], [])
  {
  }

  lemma FirstConverted<Tx>(events: seq<Event<Tx>>, i: nat, m: nat)
    requires i <= m < |events|
    ensures FirstSeen(events, i, m) ==> events[m].action.Apply?
    ensures Counts(events, i, m) <==> FirstSeen(events, i, m) && events[m].action.conversion.Converted?
  {
  }

  lemma OneMoreEvent<Tx>(events: seq<Event<Tx>>, i: nat, m: nat, txs: seq<Tx>, next: seq<Tx>, at: seq<nat>)
    returns (more: seq<nat>)
    requires i <= m < |events| && TakenAt(events, i, m, txs, at)
    requires if Counts(events, i, m)
             then events[m].action.Apply? && events[m].action.conversion.Converted?
                  && next == txs + [events[m].action.conversion.tx]
             else next == txs
    ensures TakenAt(events, i, m + 1, next, more)
  {
    hide Counts;
    more := if Counts(events, i, m) then at + [m] else at;
    assert Rising(more);
    assert Picks(events, i, m + 1, next, more) by { hide Rising, Covers; }
    assert Covers(events, i, m + 1, more) by {
      hide Rising, Picks;
      forall j | i <= j < m + 1 && Counts(events, i, j) ensures j in more {
        if j < m { assert j in at; }
      }
    }
  }

  /** From `i` to `end` every event is readable, harmless and of one block below the target; the next block follows. */
  predicate WholeRun<Tx>(events: seq<Event<Tx>>, tip: Tip, i: nat, end: nat) {
    && i < end < |events| && (forall m | i <= m <= end :: events[m].ref.Some? && !events[m].action.Undo?)
    && events[i].ref.value.slot < tip.slot && events[i].ref.value.hash != tip.hash
    && (forall m | i <= m < end ::
          events[m].ref.value.slot == events[i].ref.value.slot && events[m].ref.value.hash == events[i].ref.value.hash)
    && (events[end].ref.value.slot != events[i].ref.value.slot
        || events[end].ref.value.hash != events[i].ref.value.hash)
    && events[end].ref.value.height == events[i].ref.value.height + 1
    && forall m | i <= m < end && events[m].action.Apply? && events[m].action.conversion.Broken? ::
         AppliedBefore(events, i, m)
  }

  predicate AppliedBefore<Tx>(events: seq<Event<Tx>>, i: nat, m: nat)
    requires i <= m < |events| && events[m].action.Apply?
  {
    exists l | i <= l < m :: events[l].action.Apply? && events[l].action.txHash == events[m].action.txHash
  }

  lemma SeenIsApplied<Tx>(events: seq<Event<Tx>>, i: nat, m: nat)
    requires i <= m < |events| && events[m].action.Apply?
    ensures FirstSeen(events, i, m) <==> !AppliedBefore(events, i, m)
  {
  }

  lemma WholeMeansComplete<Tx>(events: seq<Event<Tx>>, tip: Tip, i: nat, end: nat)
    requires i < |events| && Opens(events[i]) && i < end <= |events|
    ensures WholeRun(events, tip, i, end) <==> Complete(events, tip, i, end) && end == RunEnd(events, i, i + 1)
  {
    hide FirstSeen, AppliedBefore;
    forall m | i <= m < end && events[m].action.Apply?
      ensures FirstSeen(events, i, m) <==> !AppliedBefore(events, i, m)
    {
      SeenIsApplied(events, i, m);
    }
    forall m | i <= m < end ensures FirstSeen(events, i, m) ==> events[m].action.Apply? {
      FirstConverted(events, i, m);
    }
    if WholeRun(events, tip, i, end) {
      assert forall m | i <= m < end :: InRun(events, i, m);
      RunEndFrom(events, i, i + 1, end);
      assert Clean(events, i, end);
    }
    if Complete(events, tip, i, end) && end == RunEnd(events, i, i + 1) {
      assert forall m | i <= m < end :: InRun(events, i, m) && events[m].ref.Some? && !events[m].action.Undo?;
    }
  }

  /** A whole run and its block: the reference of its first event, and the transactions taken from it. */
  ghost predicate HandedOn<Tx>(events: seq<Event<Tx>>, tip: Tip, i: nat, end: nat, block: Block<Tx>) {
    && WholeRun(events, tip, i, end) && block.ref == events[i].ref.value
    && exists at: seq<nat> :: TakenAt(events, i, end, block.transactions, at)
  }

  /** Block `k` is the run between two neighbouring cuts, and the event at its later cut is its successor. */
  ghost predicate CutBy<Tx>(events: seq<Event<Tx>>, tip: Tip, blocks: seq<Block<Tx>>, cuts: seq<nat>) {
    && |cuts| == |blocks| + 1
    && forall k, l | 0 <= k < |blocks| && l == k + 1 :: HandedOn(events, tip, cuts[k], cuts[l], blocks[k])
  }

  predicate AllTaken<Tx>(onBlock: Block<Tx> -> bool, blocks: seq<Block<Tx>>) {
    forall k | 0 <= k < |blocks| :: onBlock(blocks[k])
  }

  /** No whole run starts here. */
  predicate StopsAt<Tx>(events: seq<Event<Tx>>, tip: Tip, c: nat) {
    forall end | c < end < |events| :: !WholeRun(events, tip, c, end)
  }

  lemma NoWholeRun<Tx>(events: seq<Event<Tx>>, tip: Tip, c: nat)
    requires c < |events| && Opens(events[c]) ==> !Complete(events, tip, c, RunEnd(events, c, c + 1))
    ensures StopsAt(events, tip, c)
  {
    hide Complete;
    forall end | c < end < |events| ensures !WholeRun(events, tip, c, end) {
      if Opens(events[c]) { WholeMeansComplete(events, tip, c, end); }
    }
  }

  predicate OpensAtBoundary<Tx>(events: seq<Event<Tx>>, tip: Tip, c: nat) {
    c < |events| && Opens(events[c]) && AtBoundary(events[c].ref.value, tip)
  }

  lemma FirstRun<Tx>(events: seq<Event<Tx>>, tip: Tip, i: nat, end: nat)
    requires i < end <= |events| && Complete(events, tip, i, end) && end == RunEnd(events, i, i + 1)
    ensures HandedOn(events, tip, i, end, BlockOf(events, i, end)) && !AtBoundary(events[i].ref.value, tip)
  {
    hide TakenAt, Transactions, WholeRun;
    WholeMeansComplete(events, tip, i, end);
    var at := TransactionsAreTaken(events, i, end);
  }

  lemma CutFirst<Tx>(events: seq<Event<Tx>>, tip: Tip, blocks: seq<Block<Tx>>, cuts: seq<nat>)
    requires blocks != [] && |cuts| == |blocks| + 1 && CutBy(events, tip, blocks[1..], cuts[1..])
    requires HandedOn(events, tip, cuts[0], cuts[1], blocks[0])
    ensures CutBy(events, tip, blocks, cuts)
  {
    hide HandedOn;
    forall k, l | 0 <= k < |blocks| && l == k + 1 ensures HandedOn(events, tip, cuts[k], cuts[l], blocks[k]) {
      if k > 0 { assert HandedOn(events, tip, cuts[1..][k - 1], cuts[1..][k], blocks[1..][k - 1]); }
    }
  }

  lemma TakenFirst<Tx>(onBlock: Block<Tx> -> bool, blocks: seq<Block<Tx>>)
    requires blocks != []
    ensures AllTaken(onBlock, blocks) <==> onBlock(blocks[0]) && AllTaken(onBlock, blocks[1..])
  {
    forall k | 1 <= k < |blocks| ensures blocks[k] == blocks[1..][k - 1] {}
  }

  /**
   Neighbouring runs cover the stream from its first event on: no block is handed on twice, none before its
   successor, and none is held back unless the handler refused the one before. The tip is reached exactly when
   the handler takes them all and the event after them opens a block at or past it; otherwise the stream ends
   with the handler's refusal, or with what is wrong after the last cut.
   */
  lemma {:induction false} BlocksAreRuns<Tx>(events: seq<Event<Tx>>, tip: Tip, onBlock: Block<Tx> -> bool,
        i: nat) returns (cuts: seq<nat>)
    requires i <= |events|
    ensures var blocks := Committed(events, tip, onBlock, i);
            && CutBy(events, tip, blocks, cuts) && cuts[0] == i && cuts[|blocks|] <= |events|
            && (blocks != [] ==> AllTaken(onBlock, blocks[..|blocks| - 1]))
            && (AllTaken(onBlock, blocks) ==> StopsAt(events, tip, cuts[|blocks|]))
            && (ReachesTip(events, tip, onBlock, i) <==>
                AllTaken(onBlock, blocks) && OpensAtBoundary(events, tip, cuts[|blocks|]))
            && Ending(events, tip, onBlock, i) ==
                 if AllTaken(onBlock, blocks) then EndAt(events, tip, cuts[|blocks|]) else HandlerFailed
    decreases |events| - i
  {
    hide Complete, BlockOf, AtBoundary, HandedOn, EndAt, StopsAt;
    var blocks := Committed(events, tip, onBlock, i);
    if i == |events| || !Opens(events[i]) {
      cuts := [i];
      NoWholeRun(events, tip, i);
    } else {
      var end := RunEnd(events, i, i + 1);
      if blocks == [] {
        cuts := [i];
        NoWholeRun(events, tip, i);
      } else {
        FirstRun(events, tip, i, end);
        var rest := BlocksAreRuns(events, tip, onBlock, end);
        var more := Committed(events, tip, onBlock, end);
        if onBlock(blocks[0]) {
          cuts := [i] + rest;
          assert blocks == [blocks[0]] + more && blocks[1..] == more;
          CutFirst(events, tip, blocks, cuts);
          TakenFirst(onBlock, blocks);
          if more != [] {
            assert blocks[..|blocks| - 1][1..] == more[..|more| - 1];
            TakenFirst(onBlock, blocks[..|blocks| - 1]);
          }
        } else {
          cuts := [i, end];
        }
      }
    }
  }

  /** No run handed on reaches to or past a rollback or an unreadable reference. */
  lemma NothingPastTheFirstFault<Tx>(events: seq<Event<Tx>>, tip: Tip, onBlock: Block<Tx> -> bool, fault: nat,
                                     cuts: seq<nat>)
    requires fault < |events| && !Opens(events[fault])
    requires CutBy(events, tip, Committed(events, tip, onBlock, 0), cuts) && cuts[0] == 0
    ensures forall c <- cuts :: c < fault || c == 0
  {
    var blocks := Committed(events, tip, onBlock, 0);
    forall l | 0 <= l < |cuts| ensures cuts[l] < fault || cuts[l] == 0 {
      CutsStayBefore(events, tip, blocks, cuts, fault, l);
    }
  }

  lemma {:induction false} CutsStayBefore<Tx>(events: seq<Event<Tx>>, tip: Tip, blocks: seq<Block<Tx>>,
        cuts: seq<nat>, fault: nat, l: nat)
    requires CutBy(events, tip, blocks, cuts) && cuts[0] == 0 && l < |cuts| && fault < |events| && !Opens(events[fault])
    ensures cuts[l] < fault || l == 0
  {
    hide TakenAt;
    if l > 0 {
      CutsStayBefore(events, tip, blocks, cuts, fault, l - 1);
      var k := l - 1;
      assert HandedOn(events, tip, cuts[k], cuts[l], blocks[k]);
      assert forall m | cuts[k] <= m <= cuts[l] :: Opens(events[m]);
    }
  }

  /** A longer stretch of one block does not change where its run ends. */
  lemma {:induction false} RunEndFrom<Tx>(events: seq<Event<Tx>>, i: nat, j: nat, m: nat)
    requires i < j <= m <= |events| && events[i].ref.Some? && forall k | j <= k < m :: InRun(events, i, k)
    ensures RunEnd(events, i, j) == RunEnd(events, i, m)
    decreases m - j
  {
    if j < m { RunEndFrom(events, i, j + 1, m); }
  }

  // ---------- The loop ----------

  /** The pending block is the run from `run` to `i`, and `seen` are its transaction hashes. */
  ghost predicate Assembling<Tx>(events: seq<Event<Tx>>, tip: Tip, run: nat, i: nat, pending: Option<Block<Tx>>,
                                 seen: set<string>) {
    && run <= i <= |events| && (pending.None? ==> run == i && seen == {})
    && (pending.Some? ==>
          && run < i && Opens(events[run]) && BelowTip(events[run].ref.value, tip)
          && pending.value == BlockOf(events, run, i) && Clean(events, run, i)
          && (forall k | run < k < i :: InRun(events, run, k))
          && forall h: string :: h in seen <==>
             exists m | run <= m < i :: events[m].action.Apply? && events[m].action.txHash == h)
  }

  /** What the loop does with an apply event: convert a transaction not seen before. */
  function Take<Tx>(action: Action<Tx>, block: Block<Tx>, seen: set<string>): (Block<Tx>, set<string>) {
    if !action.Apply? || action.txHash in seen then (block, seen)
    else (if action.conversion.Converted? then block.(transactions := block.transactions + [action.conversion.tx])
          else block, seen + {action.txHash})
  }

  predicate Breaks<Tx>(action: Action<Tx>, seen: set<string>) {
    action.Apply? && action.txHash !in seen && action.conversion.Broken?
  }

  lemma RunGoesOn<Tx>(events: seq<Event<Tx>>, tip: Tip, run: nat, i: nat, block: Block<Tx>, seen: set<string>)
    requires Assembling(events, tip, run, i, Some(block), seen) && i < |events| && InRun(events, run, i)
    requires !events[i].action.Undo? && !Breaks(events[i].action, seen)
    ensures Assembling(events, tip, run, i + 1, Some(Take(events[i].action, block, seen).0),
                       Take(events[i].action, block, seen).1)
  {
    hide Clean, Opens, BelowTip;
    var action := events[i].action;
    assert FirstSeen(events, run, i) <==> action.Apply? && action.txHash !in seen;
    CleanGrows(events, run, i);
    var after := Take(action, block, seen).1;
    forall h: string
      ensures h in after <==> exists m | run <= m < i + 1 :: events[m].action.Apply? && events[m].action.txHash == h
    {
      if h in after && h !in seen { assert events[i].action.txHash == h; }
    }
  }

  lemma CleanGrows<Tx>(events: seq<Event<Tx>>, run: nat, i: nat)
    requires run <= i < |events| && Clean(events, run, i) && !events[i].action.Undo?
    requires FirstSeen(events, run, i) ==> !events[i].action.conversion.Broken?
    ensures Clean(events, run, i + 1)
  {
  }

  lemma RunStarts<Tx>(events: seq<Event<Tx>>, tip: Tip, i: nat)
    requires i < |events| && Opens(events[i]) && BelowTip(events[i].ref.value, tip) && !Breaks(events[i].action, {})
    ensures var (block, seen) := Take(events[i].action, Block(events[i].ref.value, []), {});
            Assembling(events, tip, i, i + 1, Some(block), seen)
  {
    assert FirstSeen(events, i, i) <==> events[i].action.Apply?;
    assert Transactions(events, i, i) == [];
  }

  /** An event that is not a valid part or successor of the run stops the stream there. */
  lemma RunIsFaulty<Tx>(events: seq<Event<Tx>>, tip: Tip, onBlock: Block<Tx> -> bool, run: nat, i: nat,
                        block: Block<Tx>, seen: set<string>)
    requires Assembling(events, tip, run, i, Some(block), seen)
    requires i < |events| ==>
               !Opens(events[i]) || (InRun(events, run, i) && Breaks(events[i].action, seen))
               || (!InRun(events, run, i) && events[i].ref.value.height != block.ref.height + 1)
    ensures Committed(events, tip, onBlock, run) == [] && !ReachesTip(events, tip, onBlock, run)
    ensures Ending(events, tip, onBlock, run) == FaultAt(events, run, i)
  {
    RunEndFrom(events, run, run + 1, i);
    StopIs(events, run, run, i);
    if i < |events| && InRun(events, run, i) {
      assert RunEnd(events, run, i) > i;
      assert events[i].action.Undo? || FirstSeen(events, run, i);
    }
  }

  lemma {:induction false} StopIs<Tx>(events: seq<Event<Tx>>, run: nat, j: nat, i: nat)
    requires run <= j <= i <= |events| && run < |events| && events[run].ref.Some?
    requires (forall k | j <= k < i :: Continues(events, run, k)) && (i < |events| ==> !Continues(events, run, i))
    ensures FirstStop(events, run, j) == i
    decreases i - j
  {
    if j < i { StopIs(events, run, j + 1, i); }
  }

  lemma RunCloses<Tx>(events: seq<Event<Tx>>, tip: Tip, onBlock: Block<Tx> -> bool, run: nat, i: nat,
                      block: Block<Tx>, seen: set<string>)
    requires Assembling(events, tip, run, i, Some(block), seen)
    requires i < |events| && Opens(events[i]) && !InRun(events, run, i)
    requires events[i].ref.value.height == block.ref.height + 1
    ensures Committed(events, tip, onBlock, run) ==
              [block] + if onBlock(block) then Committed(events, tip, onBlock, i) else []
    ensures ReachesTip(events, tip, onBlock, run) <==> onBlock(block) && ReachesTip(events, tip, onBlock, i)
    ensures Ending(events, tip, onBlock, run) ==
              if onBlock(block) then Ending(events, tip, onBlock, i) else HandlerFailed
  {
    RunEndFrom(events, run, run + 1, i);
  }

  lemma NoRunStarts<Tx>(events: seq<Event<Tx>>, tip: Tip, onBlock: Block<Tx> -> bool, i: nat)
    requires i <= |events|
    requires i < |events| ==> !Opens(events[i]) || !BelowTip(events[i].ref.value, tip) || Breaks(events[i].action, {})
    ensures Committed(events, tip, onBlock, i) == []
    ensures ReachesTip(events, tip, onBlock, i) <==>
              i < |events| && Opens(events[i]) && AtBoundary(events[i].ref.value, tip)
    ensures Ending(events, tip, onBlock, i) ==
              if i == |events| then EndedEarly
              else if !Opens(events[i]) then Refused(events[i])
              else if AtBoundary(events[i].ref.value, tip) then ReachedTip
              else if !BelowTip(events[i].ref.value, tip) then TipMismatch
              else BrokenTransaction
  {
    if i < |events| && Opens(events[i]) {
      assert Breaks(events[i].action, {}) ==> FirstSeen(events, i, i);
    }
  }

  class Assembler<Tx> {
    /** Everything handed to `onBlock`, in order. */
    var handed: seq<Block<Tx>>

    constructor ()
      ensures handed == []
    {
      handed := [];
    }

    method Consume(events: seq<Event<Tx>>, targetTip: Tip, onBlock: Block<Tx> -> bool) returns (outcome: Outcome)
      modifies this
      ensures handed == old(handed) + Committed(events, targetTip, onBlock, 0)
      ensures outcome == Ending(events, targetTip, onBlock, 0)
      ensures outcome == ReachedTip <==> ReachesTip(events, targetTip, onBlock, 0)
    {
      hide Committed, ReachesTip, Ending, Assembling, BlockOf, InRun;
      ghost var start, run := handed, 0;
      var pending: Option<Block<Tx>> := None;
      var lastCommittedHeight: Option<nat> := None;
      var seenTxs: set<string> := {};
      assert Assembling(events, targetTip, 0, 0, None, {}) by { EmptyAssembly(events, targetTip); }
      for i := 0 to |events|
        invariant run <= |events| && Assembling(events, targetTip, run, i, pending, seenTxs)
        invariant pending.None? ==> lastCommittedHeight.None? && run == i && seenTxs == {}
        invariant pending.Some? ==> run < i && events[run].ref == Some(pending.value.ref)
        invariant handed + Committed(events, targetTip, onBlock, run) ==
                    start + Committed(events, targetTip, onBlock, 0)
        invariant ReachesTip(events, targetTip, onBlock, run) <==> ReachesTip(events, targetTip, onBlock, 0)
        invariant Ending(events, targetTip, onBlock, run) == Ending(events, targetTip, onBlock, 0)
      {
        var event := events[i];
        if event.ref.None? || event.action.Undo? {
          if pending.Some? { RunIsFaulty(events, targetTip, onBlock, run, i, pending.value, seenTxs); }
          else { NoRunStarts(events, targetTip, onBlock, i); }
          if event.ref.None? { return MissingReference; }
          return RolledBack(event.ref.value);
        }
        var ref := event.ref.value;
        if pending.Some? { InRunMeans(events, run, i); }
        if pending.Some? && SameBlock(pending.value.ref, ref) {
          if Breaks(event.action, seenTxs) {
            RunIsFaulty(events, targetTip, onBlock, run, i, pending.value, seenTxs);
            return BrokenTransaction;
          }
          RunGoesOn(events, targetTip, run, i, pending.value, seenTxs);
          var (block, seen) := Take(event.action, pending.value, seenTxs);
          pending, seenTxs := Some(block), seen;
        } else {
          if pending.Some? {
            if ref.height != pending.value.ref.height + 1 {
              RunIsFaulty(events, targetTip, onBlock, run, i, pending.value, seenTxs);
              return SkippedHeight;
            }
            RunCloses(events, targetTip, onBlock, run, i, pending.value, seenTxs);
            handed := handed + [pending.value];
            if !onBlock(pending.value) { return HandlerFailed; }
            lastCommittedHeight := Some(pending.value.ref.height);
            pending := None;
            seenTxs := {};
            run := i;
          } else {
            // The program's check against the last committed height can never be reached with one set.
            assert lastCommittedHeight.None?;
          }
          if !BelowTip(ref, targetTip) { NoRunStarts(events, targetTip, onBlock, i); }
          if ref.slot > targetTip.slot || ref.hash == targetTip.hash { return ReachedTip; }
          if ref.slot == targetTip.slot { return TipMismatch; }
          if Breaks(event.action, seenTxs) {
            NoRunStarts(events, targetTip, onBlock, i);
            return BrokenTransaction;
          }
          RunStarts(events, targetTip, i);
          var (block, seen) := Take(event.action, Block(ref, []), seenTxs);
          pending, seenTxs := Some(block), seen;
        }
      }
      if pending.Some? { RunIsFaulty(events, targetTip, onBlock, run, |events|, pending.value, seenTxs); }
      else { NoRunStarts(events, targetTip, onBlock, |events|); }
      return EndedEarly;
    }
  }

  lemma EmptyAssembly<Tx>(events: seq<Event<Tx>>, tip: Tip)
    ensures Assembling(events, tip, 0, 0, None, {})
  {
  }

  lemma InRunMeans<Tx>(events: seq<Event<Tx>>, i: nat, j: nat)
    requires i < |events| && j < |events| && events[i].ref.Some? && events[j].ref.Some?
    ensures InRun(events, i, j) <==> SameBlock(events[i].ref.value, events[j].ref.value)
  {
  }
}
