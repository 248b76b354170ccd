/**
 MINT set members are canonical text, so the provider's key order never makes a second member
 (repositories/handlesRepository.ts:599-607, utils/helpers.ts:9-26).
 */
module MintMembers {
  import opened BlockFacts
  import opened BlockIndexer
  import J = CanonicalJson
  import opened HandleTables
  import opened Ledger
  import opened Wrappers

  /** How JSON.stringify writes numbers and strings; only that different ones are written differently matters. */
  datatype Writer = Writer(number: nat -> string, quote: string -> string)

  ghost predicate Injective(w: Writer) {
    (forall a: nat, b: nat | w.number(a) == w.number(b) :: a == b)
        && (forall a: string, b: string | w.quote(a) == w.quote(b) :: a == b)
  }

  function AsJson(w: Writer, m: MintData): J.Json {
    J.Obj(J.Member("created_slot", J.Scalar(w.number(m.createdSlot)),
          J.Member("metadata", m.metadata,
          J.Member("txHash", J.Scalar(w.quote(m.txHash)), J.NoMember))))
  }

  function MemberText(w: Writer, m: MintData): seq<J.Token> {
    J.CanonicalJsonStringify(AsJson(w, m))
  }

  /** Two data make one member exactly when they differ in key order and `__proto__` members of their metadata only. */
  lemma MembersMeanSame(w: Writer, a: MintData, b: MintData)
    requires Injective(w) && J.WellFormed(a.metadata) && J.WellFormed(b.metadata)
    ensures MemberText(w, a) == MemberText(w, b) <==>
              a.createdSlot == b.createdSlot && a.txHash == b.txHash
                  && J.Same(J.Stripped(a.metadata), J.Stripped(b.metadata))
    ensures MemberText(w, a) == MemberText(w, b) <==> Canon(a) == Canon(b)
  {
    WellFormedMember(w, a);
    WellFormedMember(w, b);
    J.CanonicalMeansStrippedSame(AsJson(w, a), AsJson(w, b));
    StrippedMember(w, a);
    StrippedMember(w, b);
    FieldsAgree(w, Bare(a), Bare(b));
    J.SortForgetsOrder(a.metadata, b.metadata);
  }

  function Bare(m: MintData): MintData {
    m.(metadata := J.Stripped(m.metadata))
  }

  lemma StrippedMember(w: Writer, m: MintData)
    ensures J.Stripped(AsJson(w, m)) == AsJson(w, Bare(m))
  {
    assert "created_slot" != J.PROTO && "metadata" != J.PROTO && "txHash" != J.PROTO by {
      assert |"created_slot"| == 12 && |"metadata"| == 8 && |"txHash"| == 6 && |J.PROTO| == 9;
    }
    var ms, ns := AsJson(w, m).members, AsJson(w, Bare(m)).members;
    assert J.StrippedMembers(ms.rest.rest) == ns.rest.rest;
    assert J.StrippedMembers(ms.rest) == ns.rest;
    assert J.StrippedMembers(ms) == ns;
    assert J.Stripped(AsJson(w, m)) == J.Obj(J.StrippedMembers(ms));
  }

  lemma WellFormedMember(w: Writer, m: MintData)
    requires J.WellFormed(m.metadata)
    ensures J.WellFormed(AsJson(w, m))
  {
    hide J.WellFormed, J.Same;
    var third := J.Member("txHash", J.Scalar(w.quote(m.txHash)), J.NoMember);
    var second := J.Member("metadata", m.metadata, third);
    assert "created_slot" != "metadata" && "created_slot" != "txHash" && "metadata" != "txHash" by {
      assert |"created_slot"| == 12 && |"metadata"| == 8 && |"txHash"| == 6;
    }
    assert J.Keys(third) == {"txHash"} + J.Keys(J.NoMember) == {"txHash"} by { assert J.Keys(J.NoMember) == {}; }
    assert J.Keys(second) == {"metadata"} + J.Keys(third);
    Scalars(w.quote(m.txHash));
    Scalars(w.number(m.createdSlot));
    assert J.WellFormedMembers(third);
    assert J.WellFormedMembers(second);
    ObjWellFormed(J.Member("created_slot", J.Scalar(w.number(m.createdSlot)), second));
  }

  lemma Scalars(s: string)
    ensures J.WellFormed(J.Scalar(s))
  {
  }

  lemma ObjWellFormed(ms: J.Members)
    requires J.WellFormedMembers(ms)
    ensures J.WellFormed(J.Obj(ms))
  {
  }

  lemma FieldsAgree(w: Writer, a: MintData, b: MintData)
    requires Injective(w)
    ensures J.Same(AsJson(w, a), AsJson(w, b)) <==>
              a.createdSlot == b.createdSlot && a.txHash == b.txHash && J.Same(a.metadata, b.metadata)
  {
    assert "created_slot" != "metadata" && "created_slot" != "txHash" && "metadata" != "txHash" by {
      assert |"created_slot"| == 12 && |"metadata"| == 8 && |"txHash"| == 6;
    }
    var ms, ns := AsJson(w, a).members, AsJson(w, b).members;
    assert J.Keys(ms.rest.rest) == {"txHash"} == J.Keys(ns.rest.rest)
        && J.Keys(ms.rest) == {"metadata", "txHash"} == J.Keys(ns.rest);
    assert J.Keys(ms) == {"created_slot", "metadata", "txHash"} == J.Keys(ns);
    assert J.Lookup(ns, "created_slot") == Some(ns.value);
    assert J.Lookup(ns.rest, "metadata") == Some(b.metadata)
        && J.Lookup(ns.rest.rest, "txHash") == Some(J.Scalar(w.quote(b.txHash)));
    assert J.Lookup(ns.rest, "txHash") == Some(J.Scalar(w.quote(b.txHash)));
    assert J.Agree(ms.rest.rest, ns) <==> a.txHash == b.txHash;
    assert J.Agree(ms.rest, ns) <==> J.Same(a.metadata, b.metadata) && a.txHash == b.txHash;
    assert w.number(a.createdSlot) == w.number(b.createdSlot) <==> a.createdSlot == b.createdSlot;
    assert J.Same(ms.value, ns.value) <==> a.createdSlot == b.createdSlot;
    assert J.Agree(ms, ns) <==> J.Same(ms.value, ns.value) && J.Agree(ms.rest, ns);
    assert J.Same(AsJson(w, a), AsJson(w, b)) <==> J.Agree(ms, ns);
  }

  // ---------- A block listed again with other key orders ----------

  predicate SameMint(u: Utxo, v: Utxo) {
    u.id == v.id && u.slot == v.slot && u.mint == v.mint
    && J.WellFormed(u.metadata) && J.WellFormed(v.metadata) && J.Same(J.Stripped(u.metadata), J.Stripped(v.metadata))
  }

  predicate SameMintsListed(us: seq<Utxo>, vs: seq<Utxo>) {
    |us| == |vs| && forall i | 0 <= i < |us| :: SameMint(us[i], vs[i])
  }

  lemma OneWay(us: seq<Utxo>, vs: seq<Utxo>, n: string, d: MintData)
    requires SameMintsListed(us, vs) && d in Canons(MintsOf(BlockMints(us), n))
    ensures d in Canons(MintsOf(BlockMints(vs), n))
  {
    hide BlockMints, MintsOf, NamesOf, J.Same, J.WellFormed, J.Stripped;
    var m :| m in MintsOf(BlockMints(us), n) && Canon(m) == d;
    BlockMintsAre(us, n);
    BlockMintsAre(vs, n);
    var u :| u in us && n in NamesOf(u.mint) && m == MintData(u.slot, u.metadata, u.id.tx);
    var i :| 0 <= i < |us| && us[i] == u;
    var v := vs[i];
    assert SameMint(u, v) && v in vs;
    J.SortForgetsOrder(u.metadata, v.metadata);
    assert MintData(v.slot, v.metadata, v.id.tx) in MintsOf(BlockMints(vs), n);
  }

  lemma Mirrored(us: seq<Utxo>, vs: seq<Utxo>)
    requires SameMintsListed(us, vs)
    ensures SameMintsListed(vs, us)
  {
    hide J.WellFormed, J.Same, J.Stripped;
    forall i | 0 <= i < |vs| ensures SameMint(vs[i], us[i]) {
      assert SameMint(us[i], vs[i]);
      J.SortForgetsOrder(us[i].metadata, vs[i].metadata);
      J.SortForgetsOrder(vs[i].metadata, us[i].metadata);
    }
  }

  /** The MINT table after a block does not depend on the key order of the metadata, at any depth (see SameStripped). */
  lemma MintsIgnoreKeyOrder(db: Db, us: seq<Utxo>, vs: seq<Utxo>)
    requires SameMintsListed(us, vs)
    ensures forall n: string ::
              MintsOf(AddMint(db, BlockMints(us)).mint, n) == MintsOf(AddMint(db, BlockMints(vs)).mint, n)
  {
    hide BlockMints, J.Same, J.WellFormed, J.Stripped, Canons, SameMintsListed;
    Mirrored(us, vs);
    forall n: string
      ensures MintsOf(AddMint(db, BlockMints(us)).mint, n) == MintsOf(AddMint(db, BlockMints(vs)).mint, n)
    {
      forall d: MintData
        ensures d in Canons(MintsOf(BlockMints(us), n)) <==> d in Canons(MintsOf(BlockMints(vs), n))
      {
        if d in Canons(MintsOf(BlockMints(us), n)) { OneWay(us, vs, n, d); }
        if d in Canons(MintsOf(BlockMints(vs), n)) { OneWay(vs, us, n, d); }
      }
      MintsAdded(db, BlockMints(us), n);
      MintsAdded(db, BlockMints(vs), n);
    }
  }
}
