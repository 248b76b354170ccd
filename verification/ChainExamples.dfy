/**
 Chains of two blocks: one on which the indexer stops, and one with an upgrade, on which it does not.

 The first block mints a token. The second block's one output holds that token beside a fresh one: it
 is indexed with the block's own minting data, which lack the older name, and the program raises
 (repositories/handlesRepository.ts:639, 1033-1049). The upgrade burns a legacy token and mints the 222 token of
 the same name in one transaction.
 */
module ChainExamples {
  import opened BlockIndexer
  import opened BlockRefinement
  import CanonicalJson
  import ChainHistory
  import opened HandleTables
  import opened Ledger
  import opened NetUtxo
  import opened Wrappers

  const OLD := Legacy("a")
  const FRESH := Owner222("b")
  const MINT := Tx("t0", 1, [], [Output("addr", 1, [OLD])], [Mint(OLD, 1)], CanonicalJson.Scalar(""))
  const MIX := Tx("t1", 2, [OutRef("t0", 0)], [Output("addr", 1, [OLD, FRESH])], [Mint(FRESH, 1)],
                  CanonicalJson.Scalar(""))
  const TIP := Tip("tip", 9)
  const BLOCKS := [Link(Block("b0", 1), [MINT], [MINT], TIP), Link(Block("b1", 2), [MIX], [MIX], TIP)]

  lemma MintOutput(n: string)
    ensures Leaves(MINT, n) <==> n == "a"
    ensures Mints(MINT, n) <==> n == "a"
    ensures !Burns(MINT, n)
  {
    assert OutputAt(MINT, 0).assets == [OLD];
    assert Holds(OutputAt(MINT, 0), n) <==> n == "a" by { assert OLD in [OLD] && Names(OLD, "a"); }
    assert MINT.minted[0] in MINT.minted && Names(OLD, "a");
  }

  lemma MintIsValid()
    ensures Valid(GENESIS, MINT)
  {
    hide Leaves, Mints, Burns, OutputAt;
    forall n: string ensures (Leaves(MINT, n) <==> n == "a") && (Mints(MINT, n) <==> n == "a") && !Burns(MINT, n) {
      MintOutput(n);
    }
    MintIsOneUnit();
  }

  lemma MintIsOneUnit()
    ensures OneUnit(MINT)
  {
  }

  function Minted(): Ledger {
    Apply(GENESIS, MINT)
  }

  lemma MintedLedger(n: string)
    ensures Held(Minted(), n) <==> n == "a"
    ensures Minted().utxo.Keys == {OutRef("t0", 0)} == Minted().used
    ensures Holder(Minted(), n, OutRef("t0", 0)) <==> n == "a"
    ensures Minted().utxo[OutRef("t0", 0)].assets == [OLD]
  {
    assert Created(MINT).Keys == {OutRef("t0", 0)} by { assert OutRef("t0", 0) in Created(MINT); }
    var u := Minted().utxo[OutRef("t0", 0)];
    assert u == OutputAt(MINT, 0) && u.assets == [OLD];
    assert Holds(u, n) <==> n == "a" by { assert OLD in [OLD] && Names(OLD, "a"); }
    if n == "a" { assert Holder(Minted(), n, OutRef("t0", 0)); }
  }

  lemma MixOutput(n: string)
    ensures Leaves(MIX, n) <==> n == "a" || n == "b"
    ensures Holds(OutputAt(MIX, 0), n) <==> n == "a" || n == "b"
    ensures Mints(MIX, n) <==> n == "b"
    ensures !Burns(MIX, n)
  {
    assert OutputAt(MIX, 0).assets == [OLD, FRESH];
    assert Holds(OutputAt(MIX, 0), n) <==> n == "a" || n == "b" by {
      assert OLD in [OLD, FRESH] && FRESH in [OLD, FRESH] && Names(OLD, "a") && Names(FRESH, "b");
    }
    assert MIX.minted[0] in MIX.minted && Names(FRESH, "b");
  }

  lemma MixIsOneUnit()
    ensures OneUnit(MIX)
  {
    assert "a" != "b";
  }

  lemma MixKeepsTokens()
    ensures SameTokens(Minted(), MIX)
  {
    hide Mints, Minted, Holder;
    forall r <- MIX.inputs, o <- MIX.outputs, b <- o.assets | Holder(Minted(), b.name, r) && b != NAMELESS
        && !Mints(MIX, b.name)
      ensures r in Minted().utxo && b in Minted().utxo[r].assets
    {
      MixOutput(b.name);
      MintedLedger(b.name);
      assert b == OLD;
    }
  }

  lemma MixIsValid()
    ensures Valid(Minted(), MIX)
  {
    hide Leaves, Mints, Burns, OutputAt, OneUnit, SameTokens, Minted, Held, Holder;
    forall n: string
      ensures (Leaves(MIX, n) <==> n == "a" || n == "b") && (Mints(MIX, n) <==> n == "b") && !Burns(MIX, n)
      ensures (Held(Minted(), n) <==> n == "a") && (Holder(Minted(), n, OutRef("t0", 0)) <==> n == "a")
    {
      MixOutput(n);
      MintedLedger(n);
    }
    MintedLedger("");
    MixIsOneUnit();
    MixKeepsTokens();
    forall n: string ensures Enters(Minted(), MIX, n) <==> n == "a" {
      assert MIX.inputs[0] in MIX.inputs;
    }
    assert Created(MIX).Keys == {OutRef("t1", 0)} by { assert OutRef("t1", 0) in Created(MIX); }
    assert OutRef("t1", 0) != OutRef("t0", 0) by { assert "t1"[1] != "t0"[1]; }
  }

  lemma OneBlock(l: Ledger, t: Tx)
    requires Sound(l) && Valid(l, t)
    ensures BlockOf(l, [t], [t], t.slot) && ApplyAll(l, [t]) == Apply(l, t) && CreatedAll([t]) == Created(t)
  {
    hide Valid, Sound, Apply, Created;
    assert [t][..0] == [] && [t][..|[t]| - 1] == [];
    assert ValidAll(l, []) && ApplyAll(l, []) == l;
    assert map[] + Created(t) == Created(t);
  }

  lemma MixMixes()
    ensures Mixes(Minted(), [MIX])
  {
    hide Valid, Sound, Minted, Mints, Holds, OutputAt;
    MixIsValid();
    MintedLedger("");
    var id := OutRef("t1", 0);
    var u := OutputAt(MIX, 0);
    assert [MIX][..|[MIX]| - 1] == [];
    assert ApplyAll(Minted(), [MIX]) == Apply(Minted(), MIX);
    assert CreatedAll([MIX]) == Created(MIX) by {
      assert CreatedAll([]) == map[];
      assert CreatedAll([MIX]) == CreatedAll([]) + Created(MIX);
    }
    assert id in Created(MIX) && Created(MIX)[id] == u;
    MixMint();
    MixOutput("a");
    assert Holds(ApplyAll(Minted(), [MIX]).utxo[id], "a");
    assert forall t <- [MIX] :: t == MIX;
    assert !MintsAny([MIX], "a");
  }

  lemma MixMint()
    ensures OutputAt(MIX, 0).mint != []
  {
    var assets, minted := MIX.outputs[0].assets, MintedAssets(MIX.minted);
    assert MIX.minted[..0] == [];
    assert minted == [FRESH] by { assert MintedAssets([]) == []; }
    assert assets[1] in minted;
    assert Within(assets, minted) == Within(assets[..1], minted) + [FRESH];
  }

  lemma ExampleChain()
    ensures ValidChain(BLOCKS) && LedgerAfter(BLOCKS[..1]) == Minted()
  {
    hide Valid, Sound, BlockOf, Apply;
    assert BLOCKS[..1] == [BLOCKS[0]] && BLOCKS[..1][..0] == [] && BLOCKS[..|BLOCKS| - 1] == BLOCKS[..1];
    MintIsValid();
    ChainHistory.GenesisIsSound();
    OneBlock(GENESIS, MINT);
    StaysSound(GENESIS, MINT);
    MixIsValid();
    OneBlock(Minted(), MIX);
    var c := BLOCKS[..1];
    assert c[..|c| - 1] == [] && c[|c| - 1] == BLOCKS[0]
        && BLOCKS[|BLOCKS| - 1] == Link(Block("b1", 2), [MIX], [MIX], TIP);
    assert LedgerAfter(c[..|c| - 1]) == GENESIS && ValidChain(c[..|c| - 1]) && LastSlot(c[..|c| - 1]) == 0;
    assert LedgerAfter(c) == ApplyAll(GENESIS, [MINT]) == Minted();
    assert ValidChain(c) && LastSlot(c) == 1;
  }

  lemma NothingMixedBefore()
    ensures !Mixes(GENESIS, [MINT])
  {
    hide Valid, Sound, Mints, OutputAt, Holds;
    MintIsValid();
    assert [MINT][..|[MINT]| - 1] == [];
    assert ApplyAll(GENESIS, [MINT]) == Apply(GENESIS, MINT);
    forall id: OutRef, n: string | id in ApplyAll(GENESIS, [MINT]).utxo && Holds(ApplyAll(GENESIS, [MINT]).utxo[id], n)
      ensures MintsAny([MINT], n)
    {
      assert id in Created(MINT) && Created(MINT)[id] == OutputAt(MINT, 0);
      assert Leaves(MINT, n);
      MintOutput(n);
      assert MINT in [MINT];
    }
  }

  /** The first block goes through and the second stops the indexer, although both are valid. */
  lemma IndexerStops(lib: Lib)
    ensures ValidChain(BLOCKS) && ProcessChain(lib, BLOCKS[..1]).Some? && ProcessChain(lib, BLOCKS).None?
  {
    hide BlockOf, Mixes, Follows, BlockIndexer.ProcessBlock, Minted, Apply;
    ExampleChain();
    MixMixes();
    NothingMixedBefore();
    assert BLOCKS[..|BLOCKS| - 1] == BLOCKS[..1] && BLOCKS[..1][..0] == [] && BLOCKS[..1] == [BLOCKS[0]];
    assert ValidChain(BLOCKS[..1]);
    assert NeverMixes(BLOCKS[..1][..0]) && LedgerAfter(BLOCKS[..1][..0]) == GENESIS;
    ChainFollows(lib, BLOCKS[..1]);
    ChainFollows(lib, BLOCKS);
  }

  // ---------- An upgrade ----------

  const NEW := Owner222("a")
  const UPGRADE := Tx("t1", 2, [OutRef("t0", 0)], [Output("other", 1, [NEW])], [Mint(OLD, -1), Mint(NEW, 1)],
                      CanonicalJson.Scalar(""))
  const UPGRADES := [BLOCKS[0], Link(Block("b1", 2), [UPGRADE], [UPGRADE], TIP)]

  lemma UpgradeOutput(n: string)
    ensures Leaves(UPGRADE, n) <==> n == "a"
    ensures Holds(OutputAt(UPGRADE, 0), n) <==> n == "a"
    ensures (Mints(UPGRADE, n) <==> n == "a") && (Burns(UPGRADE, n) <==> n == "a")
  {
    assert OutputAt(UPGRADE, 0).assets == [NEW];
    assert Holds(OutputAt(UPGRADE, 0), n) <==> n == "a" by { assert NEW in [NEW] && Names(NEW, "a"); }
    assert UPGRADE.minted[0] in UPGRADE.minted && Names(OLD, "a");
    assert UPGRADE.minted[1] in UPGRADE.minted && Names(NEW, "a");
  }

  lemma UpgradeIsOneUnit()
    ensures OneUnit(UPGRADE)
  {
  }

  lemma UpgradeKeepsTokens()
    ensures SameTokens(Minted(), UPGRADE)
  {
    hide Mints, Minted, Holder;
    forall o <- UPGRADE.outputs, b <- o.assets ensures Mints(UPGRADE, b.name) {
      assert o.assets == [NEW];
      UpgradeOutput(b.name);
    }
  }

  /** It mints a name that is held, and burns that name's old token. */
  lemma UpgradeIsValid()
    ensures Valid(Minted(), UPGRADE) && Mints(UPGRADE, "a") && Held(Minted(), "a") && Burns(UPGRADE, "a")
  {
    hide Leaves, Mints, Burns, OutputAt, OneUnit, SameTokens, Minted, Held, Holder;
    forall n: string
      ensures Leaves(UPGRADE, n) <==> n == "a"
      ensures (Mints(UPGRADE, n) <==> n == "a") && (Burns(UPGRADE, n) <==> n == "a")
      ensures (Held(Minted(), n) <==> n == "a") && (Holder(Minted(), n, OutRef("t0", 0)) <==> n == "a")
    {
      UpgradeOutput(n);
      MintedLedger(n);
    }
    MintedLedger("");
    UpgradeIsOneUnit();
    UpgradeKeepsTokens();
    forall n: string ensures Enters(Minted(), UPGRADE, n) <==> n == "a" {
      assert UPGRADE.inputs[0] in UPGRADE.inputs;
    }
    assert Created(UPGRADE).Keys == {OutRef("t1", 0)} by { assert OutRef("t1", 0) in Created(UPGRADE); }
    assert OutRef("t1", 0) != OutRef("t0", 0) by { assert "t1"[1] != "t0"[1]; }
  }

  /** The ledger after the upgrade. */
  lemma UpgradedLedger()
    ensures var l := Apply(Minted(), UPGRADE);
            && OutRef("t1", 0) in l.utxo && l.utxo[OutRef("t1", 0)] == OutputAt(UPGRADE, 0)
            && Holder(l, "a", OutRef("t1", 0)) && OutRef("t0", 0) !in l.utxo
    ensures var after := Apply(Minted(), UPGRADE).utxo;
            forall id: OutRef, n: string | id in after && Holds(after[id], n) :: n == "a"
  {
    hide Mints, Burns, Holds, Minted, OutputAt;
    UpgradeOutput("a");
    MintedLedger("a");
    assert Created(UPGRADE).Keys == {OutRef("t1", 0)} by { assert OutRef("t1", 0) in Created(UPGRADE); }
    assert OutRef("t1", 0) != OutRef("t0", 0) by { assert "t1"[1] != "t0"[1]; }
    assert UPGRADE.inputs[0] in UPGRADE.inputs;
    var l := Apply(Minted(), UPGRADE);
    forall id: OutRef, n: string | id in l.utxo && Holds(l.utxo[id], n) ensures n == "a" {
      UpgradeOutput(n);
    }
  }

  lemma UpgradeChain()
    ensures ValidChain(UPGRADES) && LedgerAfter(UPGRADES) == Apply(Minted(), UPGRADE) && NeverMixes(UPGRADES)
  {
    hide Valid, Sound, BlockOf, Apply, Mints, Holds, Mixes;
    ExampleChain();
    NothingMixedBefore();
    assert UPGRADES[..1] == BLOCKS[..1] == [BLOCKS[0]] && UPGRADES[..|UPGRADES| - 1] == UPGRADES[..1];
    assert BLOCKS[..1][..0] == [];
    UpgradeIsValid();
    MintIsValid();
    ChainHistory.GenesisIsSound();
    StaysSound(GENESIS, MINT);
    OneBlock(Minted(), UPGRADE);
    UpgradeNeverMixes();
    assert ValidChain(BLOCKS[..1]) && LastSlot(BLOCKS[..1]) == 1;
    assert NeverMixes(BLOCKS[..1][..0]) && LedgerAfter(BLOCKS[..1][..0]) == GENESIS;
    assert NeverMixes(BLOCKS[..1]);
    assert UPGRADES[|UPGRADES| - 1] == Link(Block("b1", 2), [UPGRADE], [UPGRADE], TIP);
  }

  lemma UpgradeNeverMixes()
    ensures !Mixes(Minted(), [UPGRADE])
  {
    hide Valid, Sound, Mints, OutputAt, Holds, Apply;
    UpgradedLedger();
    UpgradeOutput("a");
    assert [UPGRADE][..|[UPGRADE]| - 1] == [];
    assert ApplyAll(Minted(), [UPGRADE]) == Apply(Minted(), UPGRADE);
    assert MintsAny([UPGRADE], "a") by { assert UPGRADE in [UPGRADE]; }
  }

  /** The upgrade goes through: the name is at the new output, with the new token, and the old output is gone. */
  lemma UpgradeGoesThrough(lib: Lib)
    ensures ValidChain(UPGRADES) && ProcessChain(lib, UPGRADES).Some?
    ensures var db := ProcessChain(lib, UPGRADES).value;
            && "a" in db.handles && db.handles["a"].asset == NEW && db.handles["a"].utxo == Some(OutRef("t1", 0))
            && db.handles["a"].address == "other" && OutRef("t0", 0) !in db.utxos && OutRef("t1", 0) in db.utxos
  {
    hide Apply, Minted, NeverMixes, ValidChain, ProcessChain, NamesHaveMints;
    UpgradeChain();
    ChainFollows(lib, UPGRADES);
    UpgradedLedger();
    var db, l := ProcessChain(lib, UPGRADES).value, Apply(Minted(), UPGRADE);
    assert PointsAt(db.handles["a"], l.utxo[OutRef("t1", 0)]);
    EntriesMakeTables(db.utxos, HandleOutputs(l.utxo));
    assert SameEntry(db.utxos, HandleOutputs(l.utxo), OutRef("t0", 0));
    assert SameEntry(db.utxos, HandleOutputs(l.utxo), OutRef("t1", 0));
  }
}
