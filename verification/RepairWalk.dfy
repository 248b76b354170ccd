/**
 The walk from a token's current output back to the one that held it at the cursor
 (utils/koiosRepairReader.ts:90-125), for a provider that may leave rows out, repeat them or fail.
 */
module RepairWalk {
  import opened ChainHistory
  import opened Ledger
  import opened Sequences
  import opened Wrappers

  /** The n-th request and its hashes, to the rows of the answer. */
  type Ask = (nat, seq<string>) -> seq<Tx>

  ghost predicate Honest(ask: Ask, txs: seq<Tx>) {
    forall c: nat, hs: seq<string>, t: Tx | t in ask(c, hs) :: t in txs
  }

  /** One row per requested hash and none besides. */
  predicate Covers(hs: seq<string>, rows: seq<Tx>) {
    |rows| == |hs| && (forall i, j | 0 <= i < j < |rows| :: rows[i].id != rows[j].id) && forall t <- rows :: t.id in hs
  }

  predicate Known(txs: seq<Tx>, h: string) {
    exists t <- txs :: t.id == h
  }

  /** A provider that also answers in full whenever it is asked for distinct transactions of the chain. */
  ghost predicate Complete(ask: Ask, txs: seq<Tx>) {
    && Honest(ask, txs)
    && forall c: nat, hs: seq<string> | Once(hs) && (forall h <- hs :: Known(txs, h)) ::
         multiset(IdsOf(ask(c, hs))) == multiset(hs)
  }

  function IdsOf(rows: seq<Tx>): seq<string> {
    seq(|rows|, i requires 0 <= i < |rows| => rows[i].id)
  }

  lemma FullCovers(hs: seq<string>, rows: seq<Tx>)
    requires Once(hs) && multiset(IdsOf(rows)) == multiset(hs)
    ensures Covers(hs, rows)
  {
    var ids := IdsOf(rows);
    assert |multiset(ids)| == |ids| && |multiset(hs)| == |hs|;
    forall i, j | 0 <= i < j < |rows| ensures rows[i].id != rows[j].id {
      if ids[i] == ids[j] {
        assert ids == ids[..i] + [ids[i]] + ids[i + 1..] && ids[j] == ids[i + 1..][j - i - 1];
        OnceCounts(hs, ids[i]);
      }
    }
    forall t <- rows ensures t.id in hs {
      var i :| 0 <= i < |rows| && rows[i] == t;
      assert ids[i] in multiset(ids);
    }
  }

  lemma AnswerCovers(ask: Ask, txs: seq<Tx>, c: nat, hs: seq<string>)
    requires Complete(ask, txs) && Once(hs) && forall h <- hs :: Known(txs, h)
    ensures Covers(hs, ask(c, hs))
  {
    FullCovers(hs, ask(c, hs));
  }

  lemma {:induction false} OnceCounts(hs: seq<string>, h: string)
    requires Once(hs)
    ensures multiset(hs)[h] <= 1
  {
    if hs != [] {
      var front := hs[..|hs| - 1];
      OnceCounts(front, h);
      assert hs == front + [hs[|hs| - 1]];
      if h == hs[|hs| - 1] { assert h !in front; }
    }
  }

  /** How many transactions are at or before the slot. */
  function Until(txs: seq<Tx>, slot: nat): (k: nat)
    ensures k <= |txs|
  {
    if txs == [] then 0 else if txs[|txs| - 1].slot <= slot then |txs| else Until(txs[..|txs| - 1], slot)
  }

  lemma {:induction false} UntilSplits(txs: seq<Tx>, slot: nat, i: nat)
    requires (forall i, j | 0 <= i < j < |txs| :: txs[i].slot <= txs[j].slot) && i < |txs|
    ensures txs[i].slot <= slot <==> i < Until(txs, slot)
    decreases |txs|
  {
    if txs[|txs| - 1].slot > slot && i < |txs| - 1 { UntilSplits(txs[..|txs| - 1], slot, i); }
  }

  /** The output held the token in the ledger at the cursor. */
  ghost predicate HeldAtCursor(txs: seq<Tx>, slot: nat, id: OutRef, a: Asset) {
    var l := At(txs, Until(txs, slot));
    id in l.utxo && a in l.utxo[id].assets
  }

  ghost predicate MintedAfter(txs: seq<Tx>, slot: nat, n: string) {
    exists t <- txs :: t.slot > slot && Mints(t, n)
  }

  // ---------- The token's history ----------

  predicate Carries(t: Tx, i: nat, a: Asset) {
    i < |t.outputs| && a in t.outputs[i].assets
  }

  predicate MintsOrBurns(t: Tx, a: Asset) {
    exists m <- t.minted :: m.asset == a
  }

  lemma CarriedIsCreated(t: Tx, i: nat, a: Asset)
    requires Carries(t, i, a)
    ensures OutRef(t.id, i) in Created(t) && a in Created(t)[OutRef(t.id, i)].assets
  {
  }

  lemma MintIsInField(l: Ledger, t: Tx, i: nat, a: Asset)
    requires Valid(l, t) && Carries(t, i, a)
    ensures Mints(t, a.name) ==> MintsOrBurns(t, a)
  {
    if Mints(t, a.name) {
      var m :| m in t.minted && m.quantity > 0 && Names(m.asset, a.name);
      assert t.outputs[i] in t.outputs;
      assert m.asset == a;
    }
  }

  /** A transaction that outputs the token either has it in its mint field, or takes it from one input. */
  lemma TokenComesIn(l: Ledger, t: Tx, i: nat, a: Asset)
    requires Sound(l) && Valid(l, t) && Carries(t, i, a) && a != NAMELESS && !MintsOrBurns(t, a)
    ensures !Mints(t, a.name)
    ensures exists r <- t.inputs :: r in l.utxo && a in l.utxo[r].assets
    ensures forall r, s | r in t.inputs && s in t.inputs && r in l.utxo && s in l.utxo && a in l.utxo[r].assets
              && a in l.utxo[s].assets :: r == s
  {
    hide OutputAt;
    CarryLeaves(t, i, a);
    MintIsInField(l, t, i, a);
    assert Enters(l, t, a.name);
    var r :| r in t.inputs && Holder(l, a.name, r);
    assert t.outputs[i] in t.outputs;
    forall r, s | r in t.inputs && s in t.inputs && r in l.utxo && s in l.utxo && a in l.utxo[r].assets
        && a in l.utxo[s].assets ensures r == s {
      assert Holder(l, a.name, r) && Holder(l, a.name, s);
    }
  }

  lemma CarryLeaves(t: Tx, i: nat, a: Asset)
    requires Carries(t, i, a) && a != NAMELESS
    ensures Leaves(t, a.name)
  {
    assert Names(a, a.name) && a in OutputAt(t, i).assets;
    assert Holds(OutputAt(t, i), a.name);
  }

  /** A transaction that outputs a token of its mint field minted it. */
  lemma MintFieldIsMint(l: Ledger, t: Tx, i: nat, a: Asset)
    requires Valid(l, t) && Carries(t, i, a) && a != NAMELESS && MintsOrBurns(t, a)
    ensures Mints(t, a.name)
  {
    hide OutputAt;
    var m :| m in t.minted && m.asset == a;
    if m.quantity < 0 {
      CarryLeaves(t, i, a);
      assert Burns(t, a.name);
    }
  }

  /** A transaction that leaves a live output with the token alone does not mint the token. */
  lemma NoMintWhileLive(txs: seq<Tx>, q: nat, k: nat, i: nat, a: Asset)
    requires Chain(txs) && q < k < |txs| && Carries(txs[q], i, a) && a != NAMELESS
    requires forall j | 0 <= j <= k :: OutRef(txs[q].id, i) !in Spent(txs[j])
    ensures !Mints(txs[k], a.name)
  {
    hide ValidAll, Sound, Created, Spent, Mints, Burns, OneUnit, ApplyAll, SameTokens;
    var id := OutRef(txs[q].id, i);
    CarriedIsCreated(txs[q], i, a);
    LiveMeansLive(txs, k, id);
    PrefixValid(txs, k);
    HoldsToken(At(txs, k), id, a);
    if Burns(txs[k], a.name) { BurnedHolderIsSpent(At(txs, k), txs[k], a.name, id); }
  }

  lemma HoldsToken(l: Ledger, id: OutRef, a: Asset)
    requires id in l.utxo && a in l.utxo[id].assets && a != NAMELESS
    ensures Holder(l, a.name, id) && Held(l, a.name)
  {
    assert Names(a, a.name);
    assert Holder(l, a.name, id);
  }

  // ---------- The walk ----------

  datatype Refusal = BadTransaction | Incomplete | Cycle | MintedOrBurned | BadInputs | BadOrder | MissingOutput
      | BadQuantity | NoUniqueInput

  predicate GoodSlot(t: Tx, tip: nat) {
    0 < t.slot <= tip
  }

  ghost predicate GoodSlots(txs: seq<Tx>, tip: nat) {
    forall t <- txs :: GoodSlot(t, tip)
  }

  function Count(assets: seq<Asset>, a: Asset): nat {
    if assets == [] then 0 else Count(assets[..|assets| - 1], a) + if assets[|assets| - 1] == a then 1 else 0
  }

  lemma {:induction false} CountIs(assets: seq<Asset>, a: Asset)
    requires forall i, j | 0 <= i < j < |assets| :: assets[i].name != assets[j].name
    ensures Count(assets, a) == if a in assets then 1 else 0
  {
    if assets != [] { CountIs(assets[..|assets| - 1], a); }
  }

  lemma {:induction false} CountPositive(assets: seq<Asset>, a: Asset)
    ensures Count(assets, a) > 0 <==> a in assets
  {
    if assets != [] { CountPositive(assets[..|assets| - 1], a); }
  }

  /** The rows collected so far are transactions of the chain, filed by id. */
  ghost predicate Filed(rows: map<string, Tx>, txs: seq<Tx>) {
    forall h <- rows :: rows[h].id == h && rows[h] in txs
  }

  function Wanted(inputs: seq<OutRef>, rows: map<string, Tx>): seq<string> {
    if inputs == [] then []
    else
      var before, h := Wanted(inputs[..|inputs| - 1], rows), inputs[|inputs| - 1].tx;
      if h in rows || h in before then before else before + [h]
  }

  lemma {:induction false} WantedAre(inputs: seq<OutRef>, rows: map<string, Tx>)
    ensures Once(Wanted(inputs, rows))
    ensures forall h: string :: h in Wanted(inputs, rows) <==> h !in rows && exists r <- inputs :: r.tx == h
  {
    if inputs != [] {
      assert inputs == inputs[..|inputs| - 1] + [inputs[|inputs| - 1]];
      WantedAre(inputs[..|inputs| - 1], rows);
    }
  }

  /** A token to repair and the output that holds it now. */
  datatype Target = Target(asset: Asset, start: OutRef)

  ghost predicate Unspent(txs: seq<Tx>, t: Target) {
    && t.asset != NAMELESS && (exists x <- txs :: x.id == t.start.tx && Carries(x, t.start.index, t.asset))
    && forall k | 0 <= k < |txs| :: t.start !in Spent(txs[k])
  }

  const BATCH := 50

  lemma NextFifty(list: seq<string>, i: nat)
    requires i < |list|
    ensures var end := if i + 50 < |list| then i + 50 else |list|;
            Chunk(list[i..], 50) == [list[i..end]] + Chunk(list[end..], 50)
  {
    var end := if i + 50 < |list| then i + 50 else |list|;
    assert list[i..][..end - i] == list[i..end] && list[i..][end - i..] == list[end..];
    if end == |list| {
      assert list[end..] == [] && list[i..] == list[i..end];
      assert Chunk(list[i..], 50) == [list[i..]];
    }
  }

  class Walker {
    const ask: Ask
    const tip: nat
    var rows: map<string, Tx>
    var asked: nat
    /** What was asked for, request by request. */
    ghost var requests: seq<seq<string>>

    constructor (ask: Ask, tip: nat, rows: map<string, Tx>)
      ensures this.ask == ask && this.tip == tip && this.rows == rows && asked == 0 && requests == []
    {
      this.ask, this.tip, this.rows, asked, requests := ask, tip, rows, 0, [];
    }

    /** One answer is filed row by row; a row with a slot outside the chain so far refuses it. */
    method File(more: seq<Tx>, ghost txs: seq<Tx>) returns (ok: bool)
      requires Filed(rows, txs) && forall t <- more :: t in txs
      modifies this`rows
      ensures Filed(rows, txs) && forall h <- old(rows) :: h in rows
      ensures ok ==> forall t <- more :: t.id in rows
      ensures ok <==> forall t <- more :: 0 < t.slot <= tip
    {
      for i := 0 to |more|
        invariant Filed(rows, txs) && (forall h <- old(rows) :: h in rows) && forall t <- more[..i] :: t.id in rows
        invariant forall t <- more[..i] :: GoodSlot(t, tip)
      {
        assert more[i] in more;
        if !GoodSlot(more[i], tip) { return false; }
        rows := rows[more[i].id := more[i]];
        assert more[..i + 1] == more[..i] + [more[i]];
      }
      assert more[..|more|] == more;
      ok := true;
    }

    /** Missing parents are fetched fifty at a time; each answer must cover its request exactly. */
    method FetchMissing(missing: seq<string>, ghost txs: seq<Tx>) returns (r: Option<Refusal>)
      requires Filed(rows, txs) && Honest(ask, txs) && Once(missing)
      modifies this
      ensures Filed(rows, txs) && forall h <- old(rows) :: h in rows
      ensures r.None? ==> (forall h <- missing :: h in rows) && requests == old(requests) + Chunk(missing, 50)
      ensures requests <= old(requests) + Chunk(missing, 50) && asked == old(asked) + |requests| - |old(requests)|
      ensures Complete(ask, txs) && GoodSlots(txs, tip) && (forall h <- missing :: Known(txs, h)) ==> r.None?
    {
      assert Chunk<string>([], 50) == [];
      hide GoodSlot, Known, Chunk, Complete, Covers;
      var i := 0;
      assert missing[0..] == missing;
      while i < |missing|
        invariant i <= |missing| && requests + Chunk(missing[i..], 50) == old(requests) + Chunk(missing, 50)
        invariant asked == old(asked) + |requests| - |old(requests)|
        invariant Filed(rows, txs) && (forall h <- old(rows) :: h in rows)
                    && forall h <- missing[..i] :: h in rows
        decreases |missing| - i
      {
        var end := if i + BATCH < |missing| then i + BATCH else |missing|;
        var batch := missing[i..end];
        NextFifty(missing, i);
        assert Once(batch);
        var parents := ask(asked, batch);
        asked := asked + 1;
        requests := requests + [batch];
        if !Covers(batch, parents) {
          if Complete(ask, txs) && forall h <- batch :: Known(txs, h) { AnswerCovers(ask, txs, asked - 1, batch); }
          return Some(Incomplete);
        }
        var ok := File(parents, txs);
        if !ok { return Some(BadTransaction); }
        CoversAll(batch, parents);
        assert forall h <- missing[..end] :: h in missing[..i] || h in batch;
        i := end;
      }
      assert missing[..i] == missing && missing[i..] == [];
      r := None;
    }

    /** The inputs that hold the token, or the refusal of the first input that does not check out. */
    method OwnerInputs(current: Tx, a: Asset) returns (owners: seq<OutRef>, bad: Option<Refusal>)
      requires forall r <- current.inputs :: r.tx in rows
      ensures bad.None? ==>
                && owners == Filtered(current.inputs, rows, a)
                && forall r <- current.inputs :: r.index < |rows[r.tx].outputs|
      ensures bad.None? <==> forall r <- current.inputs :: InputOk(rows, current, r, a)
    {
      owners, bad := [], None;
      for i := 0 to |current.inputs|
        invariant owners == Filtered(current.inputs[..i], rows, a)
        invariant forall r <- current.inputs[..i] :: InputOk(rows, current, r, a)
      {
        assert current.inputs[..i + 1][..i] == current.inputs[..i];
        var r := current.inputs[i];
        assert r in current.inputs;
        var parent := rows[r.tx];
        if parent.slot > current.slot { return owners, Some(BadOrder); }
        if r.index >= |parent.outputs| { return owners, Some(MissingOutput); }
        var count := Count(parent.outputs[r.index].assets, a);
        if count > 1 { return owners, Some(BadQuantity); }
        CountPositive(parent.outputs[r.index].assets, a);
        if count == 1 { owners := owners + [r]; }
      }
      assert current.inputs[..|current.inputs|] == current.inputs;
    }

    /** Back from one output after the cursor to the output its token came from. */
    method StepBack(current: Tx, a: Asset, ghost txs: seq<Tx>) returns (r: Result<OutRef, Refusal>)
      requires Filed(rows, txs) && Honest(ask, txs)
      modifies this
      ensures Filed(rows, txs) && forall h <- old(rows) :: h in rows
      ensures r.Success? ==>
                && !MintsOrBurns(current, a) && r.value in current.inputs && r.value.tx in rows
                && Carries(rows[r.value.tx], r.value.index, a) && DistinctInputs(current)
                && forall i <- current.inputs :: InputOk(rows, current, i, a)
      ensures Complete(ask, txs) && GoodSlots(txs, tip) && StepOk(txs, current, a) ==> r.Success?
    {
      hide Complete, GoodSlots, Honest;
      if MintsOrBurns(current, a) { return Failure(MintedOrBurned); }
      if current.inputs == [] || !DistinctInputs(current) { return Failure(BadInputs); }
      WantedAre(current.inputs, rows);
      var missing := FetchMissing(Wanted(current.inputs, rows), txs);
      if missing.Some? { return Failure(missing.value); }
      var owners, bad := OwnerInputs(current, a);
      if StepOk(txs, current, a) { StepIsOk(txs, rows, current, a); }
      if bad.Some? { return Failure(bad.value); }
      FilteredAre(current.inputs, rows, a);
      if |owners| != 1 { return Failure(NoUniqueInput); }
      assert owners[0] in owners;
      r := Success(owners[0]);
    }

    /**
     The walk for one target, from its unspent output. It always ends. With an honest provider whatever it
     returns held the token at the cursor; with one that answers in full it returns unless the token was
     minted after the cursor.
     */
    method WalkBack(a: Asset, start: OutRef, slot: nat, ghost txs: seq<Tx>) returns (r: Result<OutRef, Refusal>)
      requires Chain(txs) && Honest(ask, txs) && Filed(rows, txs) && a != NAMELESS
      requires start.tx in rows && Carries(rows[start.tx], start.index, a)
      requires forall k | 0 <= k < |txs| :: start !in Spent(txs[k])
      modifies this
      ensures Filed(rows, txs) && forall h <- old(rows) :: h in rows
      ensures r.Success? ==> HeldAtCursor(txs, slot, r.value, a) && !MintedAfter(txs, slot, a.name)
      ensures Complete(ask, txs) && GoodSlots(txs, tip) && !MintedAfter(txs, slot, a.name) ==> r.Success?
    {
      hide Complete, GoodSlots, Honest, Standing, StepOk, HeldAtCursor, MintedAfter, Chain, MintsOrBurns;
      var current, index := rows[start.tx], start.index;
      var visited: set<OutRef> := {};
      ghost var p: nat := PositionOf(txs, current);
      TipStands(txs, slot, p, index, a);
      while current.slot > slot
        invariant Filed(rows, txs) && 0 <= p < |txs| && txs[p] == current && Standing(txs, slot, p, index, a)
        invariant Complete(ask, txs) ==> Passed(txs, p, visited)
        invariant forall h <- old(rows) :: h in rows
        decreases p
      {
        NeverVisited(txs, p, index, visited);
        if OutRef(current.id, index) in visited { return Failure(Cycle); }
        visited := visited + {OutRef(current.id, index)};
        if !MintedAfter(txs, slot, a.name) { NextStepOk(txs, slot, p, index, a); }
        var step := StepBack(current, a, txs);
        if step.Failure? { return Failure(step.error); }
        ghost var q: nat := PositionOf(txs, rows[step.value.tx]);
        ParentStands(txs, slot, p, index, q, step.value, a);
        StillPassed(txs, p, q, index, visited);
        current, index, p := rows[step.value.tx], step.value.index, q;
      }
      Arrived(txs, slot, p, index, a);
      r := Success(OutRef(current.id, index));
    }

    /**
     All targets one after the other, over one file of transactions. Together they succeed exactly as each
     would, and the result names the holder at the cursor target by target.
     */
    method WalkTargets(targets: seq<Target>, slot: nat, ghost txs: seq<Tx>) returns (r: Result<seq<OutRef>, Refusal>)
      requires Chain(txs) && Honest(ask, txs) && Filed(rows, txs)
      requires forall t <- targets :: Unspent(txs, t) && t.start.tx in rows
      modifies this
      ensures r.Success? ==>
                |r.value| == |targets| &&
                forall i | 0 <= i < |targets| ::
                  HeldAtCursor(txs, slot, r.value[i], targets[i].asset)
                      && !MintedAfter(txs, slot, targets[i].asset.name)
      ensures Complete(ask, txs) && GoodSlots(txs, tip) ==>
                (r.Success? <==> forall t <- targets :: !MintedAfter(txs, slot, t.asset.name))
    {
      hide Complete, GoodSlots, Honest, HeldAtCursor, MintedAfter, Chain, Filed, Unspent;
      var ids: seq<OutRef> := [];
      for k := 0 to |targets|
        invariant Filed(rows, txs) && (forall h <- old(rows) :: h in rows) && |ids| == k
        invariant forall i | 0 <= i < k ::
                    HeldAtCursor(txs, slot, ids[i], targets[i].asset) && !MintedAfter(txs, slot, targets[i].asset.name)
      {
        var t := targets[k];
        assert t in targets;
        StartsHere(txs, rows, t);
        var step := WalkBack(t.asset, t.start, slot, txs);
        if step.Failure? { return Failure(step.error); }
        ids := ids + [step.value];
      }
      r := Success(ids);
    }
  }

  /** Distinct rows, as many as requested and all requested, are all of them. */
  lemma CoversAll(hs: seq<string>, rows: seq<Tx>)
    requires Once(hs) && Covers(hs, rows)
    ensures forall h <- hs :: exists t <- rows :: t.id == h
  {
    var ids := set t | t in rows :: t.id;
    var all := set h | h in hs;
    DistinctSize(hs);
    DistinctIdsSize(rows);
    assert ids <= all;
    SameSize(ids, all);
    forall h <- hs ensures exists t <- rows :: t.id == h { assert h in ids; }
  }

  lemma SameSize(a: set<string>, b: set<string>)
    requires a <= b && |a| == |b|
    ensures a == b
  {
    if a < b { assert |b - a| == |b| - |a|; }
  }

  lemma {:induction false} DistinctSize(hs: seq<string>)
    requires Once(hs)
    ensures |set h | h in hs| == |hs|
  {
    if hs != [] {
      var before := hs[..|hs| - 1];
      DistinctSize(before);
      assert hs == before + [hs[|hs| - 1]];
      assert (set h | h in hs) == (set h | h in before) + {hs[|hs| - 1]};
    }
  }

  lemma {:induction false} DistinctIdsSize(rows: seq<Tx>)
    requires forall i, j | 0 <= i < j < |rows| :: rows[i].id != rows[j].id
    ensures |set t | t in rows :: t.id| == |rows|
  {
    if rows != [] {
      var before := rows[..|rows| - 1];
      DistinctIdsSize(before);
      assert rows == before + [rows[|rows| - 1]];
      assert (set t | t in rows :: t.id) == (set t | t in before :: t.id) + {rows[|rows| - 1].id};
    }
  }

  predicate DistinctInputs(t: Tx) {
    forall i, j | 0 <= i < j < |t.inputs| :: t.inputs[i] != t.inputs[j]
  }

  predicate InputOk(rows: map<string, Tx>, current: Tx, r: OutRef, a: Asset) {
    r.tx in rows && rows[r.tx].slot <= current.slot && r.index < |rows[r.tx].outputs|
        && Count(rows[r.tx].outputs[r.index].assets, a) <= 1
  }

  function Filtered(inputs: seq<OutRef>, rows: map<string, Tx>, a: Asset): seq<OutRef> {
    if inputs == [] then []
    else
      var r := inputs[|inputs| - 1];
      Filtered(inputs[..|inputs| - 1], rows, a) + if r.tx in rows && Carries(rows[r.tx], r.index, a) then [r] else []
  }

  lemma {:induction false} FilteredAre(inputs: seq<OutRef>, rows: map<string, Tx>, a: Asset)
    ensures forall r: OutRef :: r in Filtered(inputs, rows, a) <==>
              r in inputs && r.tx in rows && Carries(rows[r.tx], r.index, a)
    ensures (forall i, j | 0 <= i < j < |inputs| :: inputs[i] != inputs[j]) ==>
              forall i, j | 0 <= i < j < |Filtered(inputs, rows, a)| ::
                  Filtered(inputs, rows, a)[i] != Filtered(inputs, rows, a)[j]
    decreases |inputs|
  {
    hide Carries;
    if inputs != [] {
      assert inputs == inputs[..|inputs| - 1] + [inputs[|inputs| - 1]];
      FilteredAre(inputs[..|inputs| - 1], rows, a);
    }
  }

  ghost predicate UniqueIds(txs: seq<Tx>) {
    forall t <- txs, u <- txs | t.id == u.id :: t == u
  }

  predicate Owner(txs: seq<Tx>, r: OutRef, a: Asset) {
    exists t <- txs :: t.id == r.tx && Carries(t, r.index, a)
  }

  predicate AllParents(txs: seq<Tx>, current: Tx, a: Asset) {
    forall r <- current.inputs :: exists t <- txs :: ParentOk(t, current, r, a)
  }

  predicate OneOwner(txs: seq<Tx>, current: Tx, a: Asset) {
    (exists r <- current.inputs :: Owner(txs, r, a)) &&
    forall r <- current.inputs, s <- current.inputs | Owner(txs, r, a) && Owner(txs, s, a) :: r == s
  }

  /** The chain's own facts about a transaction that passes the token on. */
  ghost predicate StepOk(txs: seq<Tx>, current: Tx, a: Asset) {
    && !MintsOrBurns(current, a) && current.inputs != [] && DistinctInputs(current)
    && AllParents(txs, current, a) && OneOwner(txs, current, a) && UniqueIds(txs)
  }

  predicate ParentOk(t: Tx, current: Tx, r: OutRef, a: Asset) {
    t.id == r.tx && t.slot <= current.slot && r.index < |t.outputs| && Count(t.outputs[r.index].assets, a) <= 1
  }

  lemma TwoDiffer(s: seq<OutRef>)
    requires forall i, j | 0 <= i < j < |s| :: s[i] != s[j]
    ensures |s| > 1 ==> exists x, y | x in s && y in s :: x != y
  {
    if |s| > 1 { assert s[0] in s && s[1] in s && s[0] != s[1]; }
  }

  lemma FiledIs(txs: seq<Tx>, rows: map<string, Tx>, t: Tx)
    requires Filed(rows, txs) && UniqueIds(txs) && t in txs && t.id in rows
    ensures rows[t.id] == t
  {
  }

  lemma FiledOwner(txs: seq<Tx>, rows: map<string, Tx>, r: OutRef, a: Asset)
    requires Filed(rows, txs) && UniqueIds(txs) && r.tx in rows
    ensures Owner(txs, r, a) <==> Carries(rows[r.tx], r.index, a)
  {
    hide Carries, UniqueIds, Filed;
    FiledIn(txs, rows, r.tx);
    if Owner(txs, r, a) {
      var t :| t in txs && t.id == r.tx && Carries(t, r.index, a);
      FiledIs(txs, rows, t);
    }
  }

  lemma FiledIn(txs: seq<Tx>, rows: map<string, Tx>, h: string)
    requires Filed(rows, txs) && h in rows
    ensures rows[h] in txs && rows[h].id == h
  {
  }

  lemma InputsCheckOut(txs: seq<Tx>, rows: map<string, Tx>, current: Tx, a: Asset)
    requires AllParents(txs, current, a) && UniqueIds(txs) && Filed(rows, txs)
    requires forall r <- current.inputs :: r.tx in rows
    ensures forall r <- current.inputs :: InputOk(rows, current, r, a)
  {
    hide Count, UniqueIds, Filed;
    forall r <- current.inputs ensures InputOk(rows, current, r, a) {
      var t :| t in txs && ParentOk(t, current, r, a);
      FiledIs(txs, rows, t);
    }
  }

  /** Once the parents are filed, the inputs check out and exactly one holds the token. */
  lemma StepIsOk(txs: seq<Tx>, rows: map<string, Tx>, current: Tx, a: Asset)
    requires StepOk(txs, current, a) && Filed(rows, txs) && forall r <- current.inputs :: r.tx in rows
    ensures forall r <- current.inputs :: InputOk(rows, current, r, a)
    ensures |Filtered(current.inputs, rows, a)| == 1
  {
    hide Carries, MintsOrBurns, Owner, InputOk, UniqueIds, Filed, AllParents;
    InputsCheckOut(txs, rows, current, a);
    FilteredAre(current.inputs, rows, a);
    var owners := Filtered(current.inputs, rows, a);
    forall r <- current.inputs ensures Owner(txs, r, a) <==> r in owners {
      FiledOwner(txs, rows, r, a);
    }
    TwoDiffer(owners);
    var r :| r in current.inputs && Owner(txs, r, a);
    assert r in owners;
  }

  // ---------- From one output to the next ----------

  /** Where the walk stands: an output with the token, spent by nothing up to the cursor, and no mint since. */
  ghost predicate Standing(txs: seq<Tx>, slot: nat, p: nat, index: nat, a: Asset) {
    && p < |txs| && Carries(txs[p], index, a)
    && (forall k | 0 <= k < |txs| && OutRef(txs[p].id, index) in Spent(txs[k]) :: txs[k].slot > slot)
    && (forall k | p < k < |txs| :: !Mints(txs[k], a.name))
  }

  lemma PositionOf(txs: seq<Tx>, t: Tx) returns (q: nat)
    requires t in txs
    ensures q < |txs| && txs[q] == t
  {
    q :| 0 <= q < |txs| && txs[q] == t;
  }

  /** A parent that carries the token is earlier, and the walk may stand there. */
  lemma ParentStands(txs: seq<Tx>, slot: nat, p: nat, index: nat, q: nat, r: OutRef, a: Asset)
    requires Chain(txs) && Standing(txs, slot, p, index, a) && txs[p].slot > slot && a != NAMELESS
    requires !MintsOrBurns(txs[p], a)
    requires r in txs[p].inputs && q < |txs| && txs[q].id == r.tx && Carries(txs[q], r.index, a)
    ensures q < p && Standing(txs, slot, q, r.index, a)
  {
    hide ValidAll, Sound, Valid, Created, Mints, MintsOrBurns, OneUnit, ApplyAll;
    assert r == OutRef(txs[q].id, r.index);
    CarriedIsCreated(txs[q], r.index, a);
    assert r in Spent(txs[p]);
    InputHistory(txs, p, r);
    var i :| 0 <= i < p && r in Created(txs[i]);
    CreatedOnce(txs, i, q, r);
    PrefixValid(txs, p);
    TokenComesIn(At(txs, p), txs[p], index, a);
    forall k | q < k < |txs| ensures !Mints(txs[k], a.name) {
      if k < p { NoMintWhileLive(txs, q, k, r.index, a); }
    }
  }

  /** An unspent output with the token is where the walk may start. */
  lemma TipStands(txs: seq<Tx>, slot: nat, p: nat, index: nat, a: Asset)
    requires Chain(txs) && p < |txs| && Carries(txs[p], index, a) && a != NAMELESS
    requires forall k | 0 <= k < |txs| :: OutRef(txs[p].id, index) !in Spent(txs[k])
    ensures Standing(txs, slot, p, index, a)
  {
    hide ValidAll, Sound, Valid, Created, Mints, Carries, Spent;
    forall k | p < k < |txs| ensures !Mints(txs[k], a.name) { NoMintWhileLive(txs, p, k, index, a); }
  }

  /** At or before the cursor the walk has arrived. */
  lemma Arrived(txs: seq<Tx>, slot: nat, p: nat, index: nat, a: Asset)
    requires Chain(txs) && Standing(txs, slot, p, index, a) && txs[p].slot <= slot
    ensures HeldAtCursor(txs, slot, OutRef(txs[p].id, index), a) && !MintedAfter(txs, slot, a.name)
  {
    hide ValidAll, Created, Mints, Spent, ApplyAll, Until;
    var id := OutRef(txs[p].id, index);
    var k := Until(txs, slot);
    CarriedIsCreated(txs[p], index, a);
    forall i | 0 <= i < |txs| ensures txs[i].slot <= slot <==> i < k { UntilSplits(txs, slot, i); }
    assert LiveAt(txs, k, id);
    LiveMeansLive(txs, k, id);
    forall t <- txs | t.slot > slot ensures !Mints(t, a.name) {
      var i := PositionOf(txs, t);
    }
  }

  /** With no mint after the cursor, the chain gives the walk its next step. */
  lemma NextStepOk(txs: seq<Tx>, slot: nat, p: nat, index: nat, a: Asset)
    requires Chain(txs) && Standing(txs, slot, p, index, a) && txs[p].slot > slot && a != NAMELESS
    requires !MintedAfter(txs, slot, a.name)
    ensures StepOk(txs, txs[p], a)
  {
    hide ValidAll, Sound, Valid, Created, Spent, Mints, MintsOrBurns, OneUnit, ApplyAll, ParentOk, Owner;
    PrefixValid(txs, p);
    assert txs[p] in txs;
    NoMintField(txs, slot, p, index, a);
    TokenComesIn(At(txs, p), txs[p], index, a);
    ValidInputs(At(txs, p), txs[p]);
    forall r <- txs[p].inputs
      ensures exists t <- txs :: ParentOk(t, txs[p], r, a)
      ensures Owner(txs, r, a) <==> r in At(txs, p).utxo && a in At(txs, p).utxo[r].assets
    {
      ParentIs(txs, p, r, a);
    }
    ChainIds(txs);
  }

  lemma NoMintField(txs: seq<Tx>, slot: nat, p: nat, index: nat, a: Asset)
    requires Chain(txs) && p < |txs| && Carries(txs[p], index, a) && txs[p].slot > slot && a != NAMELESS
    requires !MintedAfter(txs, slot, a.name)
    ensures !MintsOrBurns(txs[p], a)
  {
    hide ValidAll, Valid, Mints, MintsOrBurns, Carries, ApplyAll;
    PrefixValid(txs, p);
    assert !Mints(txs[p], a.name) by { assert txs[p] in txs; }
    if MintsOrBurns(txs[p], a) { MintFieldIsMint(At(txs, p), txs[p], index, a); }
  }

  lemma ChainIds(txs: seq<Tx>)
    requires Chain(txs)
    ensures UniqueIds(txs)
  {
    hide ValidAll;
    forall t <- txs, u <- txs | t.id == u.id ensures t == u {
      var i := PositionOf(txs, t);
      var j := PositionOf(txs, u);
    }
  }

  lemma ValidInputs(l: Ledger, t: Tx)
    requires Valid(l, t)
    ensures DistinctInputs(t)
  {
  }

  lemma ParentIs(txs: seq<Tx>, p: nat, r: OutRef, a: Asset)
    requires Chain(txs) && p < |txs| && r in txs[p].inputs
    ensures exists t <- txs :: ParentOk(t, txs[p], r, a)
    ensures Owner(txs, r, a) <==> r in At(txs, p).utxo && a in At(txs, p).utxo[r].assets
  {
    hide ValidAll, Sound, Valid, Mints, OneUnit, ApplyAll, Count, Created;
    assert r in Spent(txs[p]);
    InputHistory(txs, p, r);
    LiveMeansLive(txs, p, r);
    var i :| 0 <= i < p && r in Created(txs[i]);
    PrefixValid(txs, i);
    CreatedIs(txs[i], r);
    OneEach(At(txs, i), txs[i], r.index, a);
    assert ParentOk(txs[i], txs[p], r, a);
    if Owner(txs, r, a) {
      var t :| t in txs && t.id == r.tx && Carries(t, r.index, a);
      var j := PositionOf(txs, t);
      assert j == i;
    }
  }

  lemma CreatedIs(t: Tx, r: OutRef)
    requires r in Created(t)
    ensures t.id == r.tx && r.index < |t.outputs| && Created(t)[r].assets == t.outputs[r.index].assets
  {
  }

  lemma OneEach(l: Ledger, t: Tx, i: nat, a: Asset)
    requires Valid(l, t) && i < |t.outputs|
    ensures Count(t.outputs[i].assets, a) <= 1
  {
    assert t.outputs[i] in t.outputs;
    CountIs(t.outputs[i].assets, a);
  }

  /** Everything visited was created after the transaction the walk stands at. */
  ghost predicate Passed(txs: seq<Tx>, p: nat, visited: set<OutRef>) {
    forall v <- visited :: exists j | p < j < |txs| :: v.tx == txs[j].id
  }

  lemma NeverVisited(txs: seq<Tx>, p: nat, index: nat, visited: set<OutRef>)
    requires Chain(txs) && p < |txs|
    ensures Passed(txs, p, visited) ==> OutRef(txs[p].id, index) !in visited
  {
    hide ValidAll;
  }

  lemma StillPassed(txs: seq<Tx>, p: nat, q: nat, index: nat, visited: set<OutRef>)
    requires q < p < |txs| && OutRef(txs[p].id, index) in visited
    ensures Passed(txs, p, visited - {OutRef(txs[p].id, index)}) ==> Passed(txs, q, visited)
  {
    forall v <- visited | Passed(txs, p, visited - {OutRef(txs[p].id, index)})
      ensures exists j | q < j < |txs| :: v.tx == txs[j].id
    {
      if v == OutRef(txs[p].id, index) {
        assert v.tx == txs[p].id;
      } else {
        assert v in visited - {OutRef(txs[p].id, index)};
      }
    }
  }

  lemma StartsHere(txs: seq<Tx>, rows: map<string, Tx>, t: Target)
    requires Chain(txs) && Filed(rows, txs) && Unspent(txs, t) && t.start.tx in rows
    ensures t.asset != NAMELESS && Carries(rows[t.start.tx], t.start.index, t.asset)
    ensures forall k | 0 <= k < |txs| :: t.start !in Spent(txs[k])
  {
    hide Carries, Spent;
    ChainIds(txs);
    var x :| x in txs && x.id == t.start.tx && Carries(x, t.start.index, t.asset);
    FiledIs(txs, rows, x);
  }
}
