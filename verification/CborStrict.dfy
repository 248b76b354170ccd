/**
 Where the payload scanner is laxer than section 3 of RFC 8949, and exactly when what it accepts is strict.
 */
module CborStrict {
  // The grammar of `Cbor` has what the scanner has: chunks of an indefinite string may be indefinite again,
  // an indefinite map may hold an odd number of items, and a two-byte simple value may be below 32.

  import opened Cbor

  predicate AllDefinite(ts: Trees) {
    ts.Nil? || (ts.first.Str? && AllDefinite(ts.rest))
  }

  /** None of the three liberties is taken, at any depth. */
  predicate Strict(t: Tree) {
    match t
    case Scalar(major, head) => major == 7 && head.Wide? && head.width == 1 ==> head.arg >= 32
    case Str(_, _, _) => true
    case Chunked(_, chunks) => AllDefinite(chunks)
    case Collection(_, _, items) => AllStrict(items)
    case Streamed(major, items) => (major == 5 ==> Length(items) % 2 == 0) && AllStrict(items)
    case Tagged(_, item) => Strict(item)
  }

  predicate AllStrict(ts: Trees) {
    ts.Nil? || (Strict(ts.first) && AllStrict(ts.rest))
  }

  /** The buffer holds a strict item from `offset` to `end`. */
  ghost predicate HoldsStrictItem(buffer: seq<byte>, offset: nat, end: nat, depth: nat) {
    exists t: Tree ::
      WellFormed(t) && Strict(t) && depth + Height(t) <= 64 && At(buffer, offset, Encode(t))
          && end == offset + |Encode(t)|
  }

  lemma OneTreeDecides(buffer: seq<byte>, offset: nat, end: nat, depth: nat, t: Tree)
    requires WellFormed(t) && depth + Height(t) <= 64
    requires At(buffer, offset, Encode(t)) && end == offset + |Encode(t)|
    ensures HoldsStrictItem(buffer, offset, end, depth) <==> Strict(t)
  {
    hide Encode;
    if HoldsStrictItem(buffer, offset, end, depth) {
      var u :| && WellFormed(u) && Strict(u) && depth + Height(u) <= 64
               && At(buffer, offset, Encode(u)) && end == offset + |Encode(u)|;
      EncodingIsUnique(buffer, offset, u, t);
    }
  }

  /** Whatever is scanned is a strict item exactly when the one tree encoded there is strict. */
  lemma ScannedIsStrict(buffer: seq<byte>, offset: nat, end: nat, depth: nat)
    requires ScanItem(buffer, offset, depth) == Done(end)
    ensures HoldsItem(buffer, offset, end, depth)
    ensures HoldsStrictItem(buffer, offset, end, depth) <==>
              forall t: Tree | WellFormed(t) && At(buffer, offset, Encode(t)) :: Strict(t)
  {
    hide ScanItem, Encode, HoldsStrictItem;
    ScannerIsGrammar(buffer, offset, end, depth);
    var t :| WellFormed(t) && depth + Height(t) <= 64 && At(buffer, offset, Encode(t))
             && end == offset + |Encode(t)|;
    OneTreeDecides(buffer, offset, end, depth, t);
    forall u: Tree | WellFormed(u) && At(buffer, offset, Encode(u)) ensures u == t {
      EncodingIsUnique(buffer, offset, u, t);
    }
  }

  // ---------- Payloads ----------

  /** A payload is a sequence of items in at most one way. */
  lemma {:induction false} SequenceIsUnique(buffer: seq<byte>, offset: nat, ts: Trees, us: Trees)
    requires offset <= |buffer| && AllWellFormed(ts) && AllWellFormed(us)
    requires buffer[offset..] == EncodeAll(ts) == EncodeAll(us)
    ensures ts == us
    decreases ts
  {
    hide Encode, WellFormed;
    if !ts.Nil? {
      assert !us.Nil? by { assert |EncodeAll(ts)| > 0; }
      FirstIsThere(buffer, offset, ts);
      FirstIsThere(buffer, offset, us);
      EncodingIsUnique(buffer, offset, ts.first, us.first);
      SequenceIsUnique(buffer, offset + |Encode(ts.first)|, ts.rest, us.rest);
    }
  }

  lemma FirstIsThere(buffer: seq<byte>, offset: nat, ts: Trees)
    requires offset <= |buffer| && !ts.Nil? && AllWellFormed(ts) && buffer[offset..] == EncodeAll(ts)
    ensures At(buffer, offset, Encode(ts.first)) && offset + |Encode(ts.first)| <= |buffer|
    ensures buffer[offset + |Encode(ts.first)|..] == EncodeAll(ts.rest)
  {
    hide Encode, WellFormed;
    var next := offset + |Encode(ts.first)|;
    assert |buffer[offset..]| == |Encode(ts.first)| + |EncodeAll(ts.rest)|;
    assert buffer[offset..next] == buffer[offset..][..|Encode(ts.first)|];
    assert buffer[next..] == buffer[offset..][|Encode(ts.first)|..];
  }

  /** The payload is a non-empty sequence of strict items: RFC 8742, section 2, over RFC 8949. */
  ghost predicate IsStrictSequence(buffer: seq<byte>) {
    exists ts: Trees :: !ts.Nil? && AllWithin(ts) && AllStrict(ts) && buffer == EncodeAll(ts)
  }

  /** An accepted payload is a strict sequence exactly when the one sequence it encodes is strict. */
  lemma AcceptedIsStrict(buffer: seq<byte>)
    requires Accepts(buffer)
    ensures exists ts: Trees :: !ts.Nil? && AllWithin(ts) && buffer == EncodeAll(ts)
    ensures IsStrictSequence(buffer) <==>
              forall ts: Trees | AllWellFormed(ts) && buffer == EncodeAll(ts) :: AllStrict(ts)
  {
    hide Accepts, EncodeAll, AllWellFormed, AllStrict, HeightBelow;
    AcceptsIsSequences(buffer);
    var ts: Trees :| !ts.Nil? && AllWithin(ts) && buffer == EncodeAll(ts);
    assert buffer[0..] == buffer;
    forall us: Trees | AllWellFormed(us) && buffer == EncodeAll(us) ensures us == ts {
      SequenceIsUnique(buffer, 0, us, ts);
    }
  }

  /** Nothing strict is refused: the scanner errs on one side only. */
  lemma StrictIsAccepted(buffer: seq<byte>)
    ensures IsStrictSequence(buffer) ==> Accepts(buffer)
  {
    hide Accepts, EncodeAll, AllWellFormed, AllStrict, HeightBelow;
    AcceptsIsSequences(buffer);
  }

  // ---------- One payload for each liberty ----------

  const NESTED_CHUNKS: seq<byte> := [0x5f, 0x5f, 0xff, 0xff]
  const ODD_MAP: seq<byte> := [0xbf, 0x00, 0xff]
  const SMALL_SIMPLE: seq<byte> := [0xf8, 0x00]

  lemma SingleItem(t: Tree)
    requires WellFormed(t) && Height(t) <= 64
    ensures AllWithin(Cons(t, Nil)) && EncodeAll(Cons(t, Nil)) == Encode(t) && (AllStrict(Cons(t, Nil)) <==> Strict(t))
  {
    assert EncodeAll(Cons(t, Nil)) == Encode(t) + EncodeAll(Nil);
    assert HeightBelow(Cons(t, Nil)) == Max(1 + Height(t), HeightBelow(Nil));
  }

  lemma OneLaxItem(buffer: seq<byte>, t: Tree)
    requires WellFormed(t) && Height(t) <= 64 && !Strict(t) && buffer == Encode(t)
    ensures Accepts(buffer) && !IsStrictSequence(buffer)
  {
    hide Accepts, Encode, WellFormed, Strict, Height;
    var ts := Cons(t, Nil);
    SingleItem(t);
    AcceptsIsSequences(buffer);
    AcceptedIsStrict(buffer);
  }

  /** The scanner accepts all three, and none of them is well-formed in the RFC's terms. */
  lemma LaxPayloads()
    ensures Accepts(NESTED_CHUNKS) && !IsStrictSequence(NESTED_CHUNKS)
    ensures Accepts(ODD_MAP) && !IsStrictSequence(ODD_MAP)
    ensures Accepts(SMALL_SIMPLE) && !IsStrictSequence(SMALL_SIMPLE)
  {
    hide Accepts, IsStrictSequence;
    NestedChunksTree();
    OddMapTree();
    SmallSimpleTree();
  }

  lemma NestedChunksTree()
    ensures Accepts(NESTED_CHUNKS) && !IsStrictSequence(NESTED_CHUNKS)
  {
    hide Accepts, IsStrictSequence;
    var inner := Chunked(2, Nil);
    var t := Chunked(2, Cons(inner, Nil));
    assert Encode(inner) == [0x5f, 0xff];
    assert EncodeAll(Cons(inner, Nil)) == Encode(inner) + EncodeAll(Nil);
    assert Encode(t) == NESTED_CHUNKS;
    assert HeightBelow(Cons(inner, Nil)) == 1;
    OneLaxItem(NESTED_CHUNKS, t);
  }

  lemma OddMapTree()
    ensures Accepts(ODD_MAP) && !IsStrictSequence(ODD_MAP)
  {
    hide Accepts, IsStrictSequence, Encode, EncodeAll, WellFormed, AllWellFormed, Height, HeightBelow, Length, Strict,
      AllStrict;
    ShortItem(0);
    var items := Cons(Scalar(0, Short(0)), Nil);
    SingleItem(items.first);
    StreamedItems(items);
    OneLaxItem(ODD_MAP, Streamed(5, items));
  }

  lemma ShortItem(n: byte)
    requires n < 24
    ensures var t := Scalar(0, Short(n));
            && WellFormed(t) && Height(t) == 0 && Encode(t) == [n]
            && HeightBelow(Cons(t, Nil)) == 1 && Length(Cons(t, Nil)) == 1
  {
    var t := Scalar(0, Short(n));
    assert HeightBelow(Cons(t, Nil)) == Max(1 + Height(t), HeightBelow(Nil));
    assert Length(Cons(t, Nil)) == 1 + Length(Nil);
    assert EncodeHead(0, Short(n)) == [n];
  }

  lemma StreamedItems(items: Trees)
    requires AllWithin(items) && HeightBelow(items) <= 64 && Length(items) % 2 == 1
    ensures WellFormed(Streamed(5, items)) && Height(Streamed(5, items)) <= 64 && !Strict(Streamed(5, items))
    ensures Encode(Streamed(5, items)) == [0xbf] + EncodeAll(items) + [BREAK]
  {
  }

  lemma SmallSimpleTree()
    ensures Accepts(SMALL_SIMPLE) && !IsStrictSequence(SMALL_SIMPLE)
  {
    hide Accepts, IsStrictSequence;
    var head := Wide(1, 0);
    assert Pow256(1) == 256 by { assert Pow256(0) == 1; }
    assert ToBytes(0, 1) == ToBytes(0, 0) + [0 as byte] == [0 as byte];
    assert EncodeHead(7, head) == SMALL_SIMPLE;
    OneLaxItem(SMALL_SIMPLE, Scalar(7, head));
  }
}
