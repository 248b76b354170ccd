/**
 The UTXO table: the scanner's net update of a block (lambdas/scanner.app.ts:1190-1194) against the Ogmios reader's
 fold over its transactions (services/ogmios/ogmios.service.ts:298-324), and both against the ledger.
 */
module NetUtxo {
  import opened Ledger

  type Table = map<OutRef, Utxo>

  /** Outputs without handle assets are never built. */
  function HandleOutputs(m: Table): Table {
    map id | id in m && m[id].assets != [] :: m[id]
  }

  function Built(txs: seq<Tx>): Table {
    if txs == [] then map[] else Built(txs[..|txs| - 1]) + HandleOutputs(Created(txs[|txs| - 1]))
  }

  /** Add what the block creates and does not spend, then remove all it spends. */
  function Net(t: Table, txs: seq<Tx>): Table {
    (t + (Built(txs) - SpentAll(txs))) - SpentAll(txs)
  }

  /** Transaction by transaction: add its outputs, then remove its inputs. */
  function Fold(t: Table, txs: seq<Tx>): Table {
    if txs == [] then t
    else (Fold(t, txs[..|txs| - 1]) + HandleOutputs(Created(txs[|txs| - 1]))) - Spent(txs[|txs| - 1])
  }

  // ---------- The two readers' loops ----------

  function Ids(ids: seq<OutRef>): set<OutRef> {
    set r | r in ids
  }

  lemma IdsGrow(a: seq<OutRef>, b: seq<OutRef>)
    ensures Ids(a + b) == Ids(a) + Ids(b)
  {
  }

  class UtxoIndex {
    var table: Table

    constructor ()
      ensures table == map[]
    {
      table := map[];
    }

    method AddHandleOutputs(tx: Tx, skip: set<OutRef>)
      modifies this
      ensures table == old(table) + (HandleOutputs(Created(tx)) - skip)
    {
      hide HandleOutputs, OutputAt;
      CreatedNone(old(table), tx, skip);
      var i := 0;
      while i < |tx.outputs|
        invariant i <= |tx.outputs|
        invariant table == old(table) + (HandleOutputs(CreatedUpTo(tx, i)) - skip)
      {
        CreatedStep(old(table), tx, i, skip);
        var u := OutputAt(tx, i);
        if u.assets != [] && OutRef(tx.id, i) !in skip { table := table[OutRef(tx.id, i) := u]; }
        i := i + 1;
      }
      assert CreatedUpTo(tx, i) == Created(tx);
    }

    method RemoveOutputs(ids: seq<OutRef>)
      modifies this
      ensures table == old(table) - Ids(ids)
    {
      var i := 0;
      while i < |ids|
        invariant i <= |ids|
        invariant table == old(table) - Ids(ids[..i])
      {
        assert ids[..i + 1] == ids[..i] + [ids[i]];
        table := table - {ids[i]};
        i := i + 1;
      }
      assert ids[..i] == ids;
    }

    /** The Ogmios reader. */
    method ProcessBlock(txs: seq<Tx>)
      modifies this
      ensures table == Fold(old(table), txs)
    {
      hide HandleOutputs, Created, Fold;
      FoldSteps(old(table), txs);
      var i := 0;
      while i < |txs|
        invariant i <= |txs|
        invariant table == Fold(old(table), txs[..i])
      {
        AddHandleOutputs(txs[i], {});
        assert HandleOutputs(Created(txs[i])) - {} == HandleOutputs(Created(txs[i]));
        RemoveOutputs(txs[i].inputs);
        assert Ids(txs[i].inputs) == Spent(txs[i]);
        i := i + 1;
      }
      assert txs[..i] == txs;
    }

    /** The scanner. */
    method ApplyNet(txs: seq<Tx>)
      modifies this
      ensures table == Net(old(table), txs)
    {
      hide HandleOutputs, Created, Built, SpentAll, Ids;
      BuiltSteps(txs);
      var spent := SpentIds(txs);
      var i := 0;
      assert old(table) + (Built(txs[..0]) - Ids(spent)) == old(table);
      while i < |txs|
        invariant i <= |txs|
        invariant table == old(table) + (Built(txs[..i]) - Ids(spent))
      {
        AddHandleOutputs(txs[i], Ids(spent));
        AddTwice(old(table), Built(txs[..i]), HandleOutputs(Created(txs[i])), Ids(spent));
        i := i + 1;
      }
      assert txs[..i] == txs;
      RemoveOutputs(spent);
    }
  }

  method SpentIds(txs: seq<Tx>) returns (spent: seq<OutRef>)
    ensures Ids(spent) == SpentAll(txs)
  {
    spent := [];
    var i := 0;
    while i < |txs|
      invariant i <= |txs|
      invariant Ids(spent) == SpentAll(txs[..i])
    {
      assert txs[..i + 1][..i] == txs[..i];
      IdsGrow(spent, txs[i].inputs);
      spent := spent + txs[i].inputs;
      i := i + 1;
    }
    assert txs[..i] == txs;
  }

  ghost function CreatedUpTo(tx: Tx, n: nat): Table
    requires n <= |tx.outputs|
  {
    map i | 0 <= i < n :: OutRef(tx.id, i) := OutputAt(tx, i)
  }

  lemma CreatedNone(t: Table, tx: Tx, skip: set<OutRef>)
    ensures t + (HandleOutputs(CreatedUpTo(tx, 0)) - skip) == t
  {
  }

  lemma CreatedStep(t: Table, tx: Tx, n: nat, skip: set<OutRef>)
    requires n < |tx.outputs|
    ensures var id, u := OutRef(tx.id, n), OutputAt(tx, n);
            var before := t + (HandleOutputs(CreatedUpTo(tx, n)) - skip);
            t + (HandleOutputs(CreatedUpTo(tx, n + 1)) - skip) ==
              if u.assets != [] && id !in skip then before[id := u] else before
  {
    hide OutputAt, HandleOutputs;
    var id, u := OutRef(tx.id, n), OutputAt(tx, n);
    var c := CreatedUpTo(tx, n);
    assert CreatedUpTo(tx, n + 1) == c[id := u] && id !in c;
    OneMore(c, id, u);
    PutOne(t, HandleOutputs(c), id, u, skip);
  }

  lemma PutOne(t: Table, h: Table, id: OutRef, u: Utxo, skip: set<OutRef>)
    ensures t + (h[id := u] - skip) == if id !in skip then (t + (h - skip))[id := u] else t + (h - skip)
  {
  }

  lemma OneMore(c: Table, id: OutRef, u: Utxo)
    requires id !in c
    ensures HandleOutputs(c[id := u]) == if u.assets != [] then HandleOutputs(c)[id := u] else HandleOutputs(c)
    ensures id !in HandleOutputs(c)
  {
  }

  lemma AddTwice(t: Table, a: Table, b: Table, skip: set<OutRef>)
    ensures (t + (a - skip)) + (b - skip) == t + ((a + b) - skip)
  {
  }

  lemma FoldSteps(t: Table, txs: seq<Tx>)
    ensures Fold(t, txs[..0]) == t
    ensures forall i | 0 <= i < |txs| ::
              Fold(t, txs[..i + 1]) == (Fold(t, txs[..i]) + HandleOutputs(Created(txs[i]))) - Spent(txs[i])
  {
    hide HandleOutputs, Created, Spent;
    forall i | 0 <= i < |txs|
      ensures Fold(t, txs[..i + 1]) == (Fold(t, txs[..i]) + HandleOutputs(Created(txs[i]))) - Spent(txs[i])
    {
      assert txs[..i + 1][..i] == txs[..i];
    }
  }

  lemma BuiltSteps(txs: seq<Tx>)
    ensures Built(txs[..0]) == map[]
    ensures forall i | 0 <= i < |txs| :: Built(txs[..i + 1]) == Built(txs[..i]) + HandleOutputs(Created(txs[i]))
  {
    hide HandleOutputs, Created;
    forall i | 0 <= i < |txs|
      ensures Built(txs[..i + 1]) == Built(txs[..i]) + HandleOutputs(Created(txs[i]))
    {
      assert txs[..i + 1][..i] == txs[..i];
    }
  }

  // ---------- Net against fold ----------

  ghost predicate DistinctIds(txs: seq<Tx>) {
    forall i, j | 0 <= i < j < |txs| :: Created(txs[i]).Keys !! Created(txs[j]).Keys
  }

  predicate SpentFrom(txs: seq<Tx>, j: nat, id: OutRef) {
    exists k | j <= k < |txs| :: id in Spent(txs[k])
  }

  /** Whatever the block creates and spends, it spends in the creating transaction or later. */
  ghost predicate NoForwardSpend(txs: seq<Tx>) {
    forall j, id: OutRef | 0 <= j < |txs| && id in HandleOutputs(Created(txs[j])) && id in SpentAll(txs) ::
        SpentFrom(txs, j, id)
  }

  lemma {:induction false} SpentSomewhere(txs: seq<Tx>, id: OutRef)
    ensures id in SpentAll(txs) <==> SpentFrom(txs, 0, id)
  {
    hide Spent;
    if txs != [] { SpentSomewhere(txs[..|txs| - 1], id); }
  }

  lemma {:induction false} NewOutput(t: Table, txs: seq<Tx>, j: nat, id: OutRef)
    requires DistinctIds(txs) && j < |txs| && id in HandleOutputs(Created(txs[j]))
    ensures id in Fold(t, txs) <==> !SpentFrom(txs, j, id)
    ensures id in Fold(t, txs) ==> Fold(t, txs)[id] == Created(txs[j])[id]
    ensures id in Built(txs) && Built(txs)[id] == Created(txs[j])[id]
    decreases |txs|
  {
    hide Spent, Created;
    var before, tx := txs[..|txs| - 1], txs[|txs| - 1];
    if j == |txs| - 1 {
      assert SpentFrom(txs, j, id) <==> id in Spent(tx);
    } else {
      NewOutput(t, before, j, id);
      assert Created(txs[j]).Keys !! Created(tx).Keys;
      assert SpentFrom(txs, j, id) <==> SpentFrom(before, j, id) || id in Spent(tx);
    }
  }

  lemma {:induction false} OldOutput(t: Table, txs: seq<Tx>, id: OutRef)
    requires forall j | 0 <= j < |txs| :: id !in HandleOutputs(Created(txs[j]))
    ensures id in Fold(t, txs) <==> id in t && id !in SpentAll(txs)
    ensures id in Fold(t, txs) ==> Fold(t, txs)[id] == t[id]
    ensures id !in Built(txs)
    decreases |txs|
  {
    hide Spent, HandleOutputs, Created;
    if txs != [] {
      var before := txs[..|txs| - 1];
      assert forall j | 0 <= j < |before| :: before[j] == txs[j];
      OldOutput(t, before, id);
    }
  }

  lemma Agree(t: Table, txs: seq<Tx>, id: OutRef)
    requires DistinctIds(txs) && NoForwardSpend(txs)
    ensures id in Net(t, txs) <==> id in Fold(t, txs)
    ensures id in Net(t, txs) ==> Net(t, txs)[id] == Fold(t, txs)[id]
  {
    hide HandleOutputs, Fold, Built, SpentAll, DistinctIds, Created;
    if j :| 0 <= j < |txs| && id in HandleOutputs(Created(txs[j])) {
      NewOutput(t, txs, j, id);
      SpentSomewhere(txs, id);
      assert SpentFrom(txs, j, id) ==> SpentFrom(txs, 0, id);
    } else {
      OldOutput(t, txs, id);
    }
  }

  lemma Disagree(t: Table, txs: seq<Tx>, j: nat, id: OutRef)
    requires DistinctIds(txs) && j < |txs| && id in HandleOutputs(Created(txs[j])) && id in SpentAll(txs)
    requires !SpentFrom(txs, j, id)
    ensures id in Fold(t, txs) && id !in Net(t, txs)
  {
    hide HandleOutputs, Fold, Built, SpentAll, DistinctIds, Created;
    NewOutput(t, txs, j, id);
  }

  /** The two updates agree on every table exactly when no output is spent only before it is created. */
  lemma NetIsFold(t: Table, txs: seq<Tx>)
    requires DistinctIds(txs)
    ensures Net(t, txs) == Fold(t, txs) <==> NoForwardSpend(txs)
  {
    hide HandleOutputs, Fold, Net, SpentAll, DistinctIds, Created;
    if NoForwardSpend(txs) {
      forall id: OutRef
        ensures (id in Net(t, txs) <==> id in Fold(t, txs))
                  && (id in Net(t, txs) ==> Net(t, txs)[id] == Fold(t, txs)[id])
      {
        Agree(t, txs, id);
      }
    } else {
      var j, id: OutRef :| 0 <= j < |txs| && id in HandleOutputs(Created(txs[j])) && id in SpentAll(txs)
          && !SpentFrom(txs, j, id);
      Disagree(t, txs, j, id);
    }
  }

  /** Inputs name only outputs of earlier transactions. */
  ghost predicate InputsNameEarlier(txs: seq<Tx>) {
    forall j, k, id: OutRef | 0 <= j < |txs| && 0 <= k < |txs| && id in Created(txs[j]) && id in Spent(txs[k]) :: j < k
  }

  lemma EarlierIsEnough(t: Table, txs: seq<Tx>)
    requires DistinctIds(txs) && InputsNameEarlier(txs)
    ensures Net(t, txs) == Fold(t, txs)
  {
    hide Created, Spent, Net, Fold;
    forall j, id: OutRef | 0 <= j < |txs| && id in HandleOutputs(Created(txs[j])) && id in SpentAll(txs)
      ensures SpentFrom(txs, j, id)
    {
      SpentSomewhere(txs, id);
      var k :| 0 <= k < |txs| && id in Spent(txs[k]);
      assert id in Created(txs[j]);
    }
    NetIsFold(t, txs);
  }

  /** The order in which the provider lists the block's transactions does not matter to the net update. */
  lemma AnyOrder(t: Table, txs: seq<Tx>, rows: seq<Tx>)
    requires DistinctIds(txs) && DistinctIds(rows) && forall x: Tx :: x in txs <==> x in rows
    ensures Net(t, txs) == Net(t, rows)
  {
    hide HandleOutputs, Fold, Built, SpentAll, DistinctIds, Created;
    SameSpent(txs, rows);
    forall id: OutRef
      ensures (id in Built(txs) <==> id in Built(rows)) && (id in Built(txs) ==> Built(txs)[id] == Built(rows)[id])
    {
      if j :| 0 <= j < |txs| && id in HandleOutputs(Created(txs[j])) {
        assert txs[j] in rows;
        var k :| 0 <= k < |rows| && rows[k] == txs[j];
        NewOutput(t, txs, j, id);
        NewOutput(t, rows, k, id);
      } else {
        forall k | 0 <= k < |rows| ensures id !in HandleOutputs(Created(rows[k])) {
          assert rows[k] in txs;
        }
        OldOutput(t, txs, id);
        OldOutput(t, rows, id);
      }
    }
    assert Built(txs) == Built(rows);
  }

  lemma SameSpent(txs: seq<Tx>, rows: seq<Tx>)
    requires forall x: Tx :: x in txs <==> x in rows
    ensures SpentAll(txs) == SpentAll(rows)
  {
    hide SpentAll, Spent;
    forall id: OutRef ensures id in SpentAll(txs) <==> id in SpentAll(rows) {
      SpentSomewhere(txs, id);
      SpentSomewhere(rows, id);
      if k :| 0 <= k < |txs| && id in Spent(txs[k]) { assert txs[k] in rows; }
      if k :| 0 <= k < |rows| && id in Spent(rows[k]) { assert rows[k] in txs; }
    }
  }

  // ---------- Against the ledger ----------

  lemma {:induction false} ValidIsOrdered(l: Ledger, txs: seq<Tx>)
    requires Sound(l) && ValidAll(l, txs)
    ensures DistinctIds(txs) && InputsNameEarlier(txs)
    ensures forall k | 0 <= k < |txs| ::
              Spent(txs[k]) <= ApplyAll(l, txs).used && Created(txs[k]).Keys <= ApplyAll(l, txs).used
    decreases |txs|
  {
    hide Sound, Valid, Created, Spent;
    if txs != [] {
      var before, tx := txs[..|txs| - 1], txs[|txs| - 1];
      ValidIsOrdered(l, before);
      BlockStaysSound(l, before);
      LastIsFresh(ApplyAll(l, before), tx);
      forall k | 0 <= k < |before|
        ensures before[k] == txs[k] && Created(txs[k]).Keys !! Created(tx).Keys && Spent(txs[k]) !! Created(tx).Keys
      {
      }
    }
  }

  lemma LastIsFresh(m: Ledger, tx: Tx)
    requires Sound(m) && Valid(m, tx)
    ensures Created(tx).Keys !! m.used && Spent(tx) <= m.used
  {
    assert m.utxo.Keys <= m.used;
  }

  lemma {:induction false} BuiltIsCreated(l: Ledger, txs: seq<Tx>)
    requires Sound(l) && ValidAll(l, txs)
    ensures Built(txs) == HandleOutputs(CreatedAll(txs)) && CreatedAll(txs).Keys !! l.used
    decreases |txs|
  {
    hide Sound, OneUnit, Created, HandleOutputs;
    if txs == [] {
      NothingHandled();
    } else {
      var before, tx := txs[..|txs| - 1], txs[|txs| - 1];
      BuiltIsCreated(l, before);
      BlockStaysSound(l, before);
      HandlesOfBoth(CreatedAll(before), Created(tx));
    }
  }

  lemma HandlesOfBoth(a: Table, b: Table)
    requires a.Keys !! b.Keys
    ensures HandleOutputs(a + b) == HandleOutputs(a) + HandleOutputs(b)
  {
  }

  lemma HandlesWithout(a: Table, gone: set<OutRef>)
    ensures HandleOutputs(a - gone) == HandleOutputs(a) - gone
  {
  }

  /** One block: the net update follows the ledger, and so does the fold. */
  lemma NetIsLedger(l: Ledger, txs: seq<Tx>)
    requires Sound(l) && ValidAll(l, txs)
    ensures Net(HandleOutputs(l.utxo), txs) == HandleOutputs(ApplyAll(l, txs).utxo) == Fold(HandleOutputs(l.utxo), txs)
  {
    hide HandleOutputs, Created, ValidAll, OneUnit, Fold, Built, SpentAll;
    NetForm(l, txs);
    BuiltIsCreated(l, txs);
    assert CreatedAll(txs).Keys !! l.utxo.Keys;
    HandlesOfBoth(l.utxo, CreatedAll(txs));
    HandlesWithout(l.utxo + CreatedAll(txs), SpentAll(txs));
    Regroup(HandleOutputs(l.utxo), HandleOutputs(CreatedAll(txs)), SpentAll(txs));
    ValidIsOrdered(l, txs);
    EarlierIsEnough(HandleOutputs(l.utxo), txs);
  }

  lemma Regroup(a: Table, b: Table, gone: set<OutRef>)
    ensures (a + (b - gone)) - gone == (a + b) - gone
  {
  }

  function Flat(blocks: seq<seq<Tx>>): seq<Tx> {
    if blocks == [] then [] else Flat(blocks[..|blocks| - 1]) + blocks[|blocks| - 1]
  }

  function NetRun(t: Table, blocks: seq<seq<Tx>>): Table {
    if blocks == [] then t else Net(NetRun(t, blocks[..|blocks| - 1]), blocks[|blocks| - 1])
  }

  const GENESIS := Ledger(map[], {})

  lemma {:induction false} RunIsLedger(blocks: seq<seq<Tx>>)
    requires ValidAll(GENESIS, Flat(blocks))
    ensures NetRun(map[], blocks) == HandleOutputs(ApplyAll(GENESIS, Flat(blocks)).utxo)
    decreases |blocks|
  {
    hide HandleOutputs, Net;
    if blocks == [] {
      NothingHandled();
    } else {
      var before, block := blocks[..|blocks| - 1], blocks[|blocks| - 1];
      ValidConcat(GENESIS, Flat(before), block);
      RunIsLedger(before);
      BlockStaysSound(GENESIS, Flat(before));
      NetIsLedger(ApplyAll(GENESIS, Flat(before)), block);
    }
  }

  lemma NothingHandled()
    ensures HandleOutputs(map[]) == map[]
  {
  }

  /** Over any valid chain, cut into blocks anywhere, the UTXO table is every handle output created and never spent. */
  lemma TableIsCreatedNeverSpent(blocks: seq<seq<Tx>>)
    requires ValidAll(GENESIS, Flat(blocks))
    ensures NetRun(map[], blocks) == HandleOutputs(CreatedAll(Flat(blocks))) - SpentAll(Flat(blocks))
  {
    hide HandleOutputs, NetRun, Flat, ValidAll, SpentAll, CreatedAll;
    RunIsLedger(blocks);
    NetForm(GENESIS, Flat(blocks));
    HandlesWithout(CreatedAll(Flat(blocks)), SpentAll(Flat(blocks)));
    assert map[] + CreatedAll(Flat(blocks)) == CreatedAll(Flat(blocks));
  }
}
