/**
 The canonical encoding of a handle's tracked asset labels (utils/assetLabelRegistry.ts): the
 label set as one string of 8-character hex chunks in ascending order.
 */
module AssetLabels {
  import opened Ordering
  import opened Sequences
  import opened Wrappers

  const LABEL_WIDTH := 8

  datatype Error = BadWidth | AlreadyPresent | Absent | InvalidAmount

  function LowerChar(c: char): char {
    if 'A' <= c <= 'Z' then c + 32 as char else c
  }

  function Lower(s: string): string {
    seq(|s|, i requires 0 <= i < |s| => LowerChar(s[i]))
  }

  function Chunks(labels: string): seq<string> {
    if |labels| <= LABEL_WIDTH then if labels == [] then [] else [labels]
    else [labels[..LABEL_WIDTH]] + Chunks(labels[LABEL_WIDTH..])
  }

  function Join(chunks: seq<string>): string {
    if chunks == [] then [] else chunks[0] + Join(chunks[1..])
  }

  /** The program's loop over the string. */
  method ChunksOf(labels: string) returns (out: seq<string>)
    ensures out == Chunks(labels)
  {
    out := [];
    var i := 0;
    while i < |labels|
      invariant 0 <= i
      invariant Chunks(labels) == if i < |labels| then out + Chunks(labels[i..]) else out
    {
      var end := if i + LABEL_WIDTH < |labels| then i + LABEL_WIDTH else |labels|;
      ghost var rest := labels[i..];
      if i + LABEL_WIDTH < |labels| {
        assert rest[..LABEL_WIDTH] == labels[i..end] && rest[LABEL_WIDTH..] == labels[end..];
        assert out + ([labels[i..end]] + Chunks(labels[end..])) == out + [labels[i..end]] + Chunks(labels[end..]);
      } else {
        assert rest == labels[i..end];
      }
      out := out + [labels[i..end]];
      i := i + LABEL_WIDTH;
    }
  }

  function Normalize(mark: string): Result<string, Error> {
    if |Lower(mark)| != LABEL_WIDTH then Failure(BadWidth) else Success(Lower(mark))
  }

  /** `containsLabel`; None when the label has the wrong width. */
  function Contains(labels: string, mark: string): Option<bool> {
    match Normalize(mark)
    case Failure(_) => None
    case Success(l) => Some(l in Chunks(Lower(labels)))
  }

  function IndexOf(s: seq<string>, x: string): nat
    requires x in s
    ensures IndexOf(s, x) < |s| && s[IndexOf(s, x)] == x
  {
    if s[0] == x then 0 else 1 + IndexOf(s[1..], x)
  }

  function Inserted(labels: string, mark: string): Result<string, Error> {
    match Normalize(mark)
    case Failure(e) => Failure(e)
    case Success(l) =>
      var cs := Chunks(Lower(labels));
      if l in cs then Failure(AlreadyPresent) else Success(Join(Sort(cs + [l])))
  }

  function Removed(labels: string, mark: string): Result<string, Error> {
    match Normalize(mark)
    case Failure(e) => Failure(e)
    case Success(l) =>
      var cs := Chunks(Lower(labels));
      if l !in cs then Failure(Absent)
      else
        var idx := IndexOf(cs, l);
        Success(Join(cs[..idx] + cs[idx + 1..]))
  }

  // ---------- The program's mutators ----------

  /**
   Refused for a label of the wrong width, and on a canonical string for a label that is in it; otherwise
   the one canonical string (CanonicalIsUnique) of the set with the label.
   */
  method InsertLabel(labels: string, mark: string) returns (r: Result<string, Error>)
    ensures r == Failure(BadWidth) <==> |mark| != 8
    ensures Canonical(labels) && |mark| == 8 ==>
              if Lower(mark) in LabelsOf(labels) then r == Failure(AlreadyPresent)
              else r.Success? && Canonical(r.value) && LabelsOf(r.value) == LabelsOf(labels) + {Lower(mark)}
    ensures r == Inserted(labels, mark)
  {
    if Canonical(labels) && |mark| == 8 { InsertIsStrict(labels, mark); }
    var l := Normalize(mark);
    if l.Failure? { return Failure(l.error); }
    var cs := ChunksOf(Lower(labels));
    if l.value in cs { return Failure(AlreadyPresent); }
    cs := cs + [l.value];
    cs := Sort(cs);
    return Success(Join(cs));
  }

  /** Likewise: refused for a wrong width or an absent label, otherwise the canonical string of the set without it. */
  method RemoveLabel(labels: string, mark: string) returns (r: Result<string, Error>)
    ensures r == Failure(BadWidth) <==> |mark| != 8
    ensures Canonical(labels) && |mark| == 8 ==>
              if Lower(mark) !in LabelsOf(labels) then r == Failure(Absent)
              else r.Success? && Canonical(r.value) && LabelsOf(r.value) == LabelsOf(labels) - {Lower(mark)}
    ensures r == Removed(labels, mark)
  {
    if Canonical(labels) && |mark| == 8 { RemoveIsStrict(labels, mark); }
    var l := Normalize(mark);
    if l.Failure? { return Failure(l.error); }
    var cs := ChunksOf(Lower(labels));
    if l.value !in cs { return Failure(Absent); }
    var idx := IndexOf(cs, l.value);
    cs := cs[..idx] + cs[idx + 1..];
    return Success(Join(cs));
  }

  /** Idempotent mutators of the indexer. */
  function EnsureLabel(labels: string, mark: string): Result<string, Error> {
    match Contains(labels, mark)
    case None => Failure(BadWidth)
    case Some(present) => if present then Success(Lower(labels)) else Inserted(labels, mark)
  }

  function EnsureNoLabel(labels: string, mark: string): Result<string, Error> {
    match Contains(labels, mark)
    case None => Failure(BadWidth)
    case Some(present) => if present then Removed(labels, mark) else Success(Lower(labels))
  }

  /** The strict delta of the on-chain validator. */
  function ApplyLabel(labels: string, mark: string, amount: int): Result<string, Error> {
    if amount == 1 then Inserted(labels, mark)
    else if amount == -1 then Removed(labels, mark)
    else Failure(InvalidAmount)
  }

  // ---------- Canonical strings ----------

  predicate IsLabel(l: string) {
    |l| == 8 && Lower(l) == l
  }

  predicate Canonical(labels: string) {
    (forall c <- Chunks(labels) :: IsLabel(c)) && Ascending(Chunks(labels))
  }

  function LabelsOf(labels: string): set<string> {
    set c <- Chunks(labels)
  }

  /** Cutting and joining undo each other, on every string whatever its length. */
  lemma {:induction false} JoinOfChunks(labels: string)
    ensures Join(Chunks(labels)) == labels
    decreases |labels|
  {
    if |labels| <= 8 {
      if labels != [] { assert [labels][1..] == []; }
    } else {
      JoinOfChunks(labels[8..]);
    }
  }

  lemma {:induction false} ChunksOfJoin(cs: seq<string>)
    requires forall c <- cs :: |c| == 8
    ensures Chunks(Join(cs)) == cs
  {
    if cs != [] {
      ChunksOfJoin(cs[1..]);
      assert |cs[0]| == 8;
      assert Join(cs)[..8] == cs[0] && Join(cs)[8..] == Join(cs[1..]);
      if |cs| > 1 {
        assert |cs[1..][0]| == 8;
        assert |Join(cs)| > 8;
      } else {
        assert Join(cs[1..]) == [] && Join(cs) == cs[0];
      }
    }
  }

  lemma {:induction false} JoinOfLabelsIsLower(cs: seq<string>)
    requires forall c <- cs :: IsLabel(c)
    ensures Lower(Join(cs)) == Join(cs)
  {
    if cs != [] {
      JoinOfLabelsIsLower(cs[1..]);
      assert IsLabel(cs[0]);
      assert Lower(cs[0] + Join(cs[1..])) == Lower(cs[0]) + Lower(Join(cs[1..]));
    }
  }

  lemma CanonicalIsLower(labels: string)
    requires Canonical(labels)
    ensures Lower(labels) == labels
  {
    JoinOfChunks(labels);
    JoinOfLabelsIsLower(Chunks(labels));
  }

  lemma JoinIsCanonical(cs: seq<string>)
    requires (forall c <- cs :: IsLabel(c)) && Ascending(cs)
    ensures Canonical(Join(cs)) && Chunks(Join(cs)) == cs
  {
    ChunksOfJoin(cs);
  }

  /** A label set has only one canonical string. */
  lemma CanonicalIsUnique(a: string, b: string)
    requires Canonical(a) && Canonical(b) && LabelsOf(a) == LabelsOf(b)
    ensures a == b
  {
    forall x: string ensures x in Chunks(a) <==> x in Chunks(b) {
      assert x in LabelsOf(a) <==> x in LabelsOf(b);
    }
    AscendingIsUnique(Chunks(a), Chunks(b));
    JoinOfChunks(a);
    JoinOfChunks(b);
  }

  /** ASCII capitals become their small letters, and everything else stays. */
  lemma LowerMeans(s: string, i: nat)
    requires i < |s|
    ensures |Lower(s)| == |s|
    ensures s[i] in "ABCDEFGHIJKLMNOPQRSTUVWXYZ" ==>
              'a' <= Lower(s)[i] <= 'z' && Lower(s)[i] as int - 'a' as int == s[i] as int - 'A' as int
    ensures s[i] !in "ABCDEFGHIJKLMNOPQRSTUVWXYZ" ==> Lower(s)[i] == s[i]
  {
    Capitals(s[i]);
  }

  lemma Capitals(c: char)
    ensures c in "ABCDEFGHIJKLMNOPQRSTUVWXYZ" <==> 'A' <= c <= 'Z'
  {
    var all := "ABCDEFGHIJKLMNOPQRSTUVWXYZ";
    forall k | 0 <= k < 26 ensures all[k] as int == 'A' as int + k {}
    if 'A' <= c <= 'Z' { assert all[c as int - 'A' as int] == c; }
  }

  lemma LowerTwice(s: string)
    ensures Lower(Lower(s)) == Lower(s)
  {
  }

  /** Inserting a new label gives the canonical string of the larger set, and removing it gives the old string back. */
  lemma InsertThenRemove(labels: string, mark: string)
    requires Canonical(labels) && |mark| == 8 && Lower(mark) !in LabelsOf(labels)
    ensures Inserted(labels, mark).Success?
    ensures var t := Inserted(labels, mark).value;
            Canonical(t) && LabelsOf(t) == LabelsOf(labels) + {Lower(mark)} && Removed(t, mark) == Success(labels)
  {
    LowerTwice(mark);
    CanonicalIsLower(labels);
    var l, cs := Lower(mark), Chunks(labels);
    SortKeeps(cs + [l]);
    AscendingIsDistinct(cs);
    SortAscends(cs + [l]);
    var sorted := Sort(cs + [l]);
    SameMembers(sorted, cs + [l]);
    JoinIsCanonical(sorted);
    RemovalUndoes(labels, l, Join(sorted));
    assert Removed(Join(sorted), mark) == Removed(Join(sorted), l);
  }

  lemma RestHas(cs: seq<string>, idx: nat)
    requires Once(cs) && idx < |cs|
    ensures forall c: string :: c in cs[..idx] + cs[idx + 1..] <==> c in cs && c != cs[idx]
  {
    var rest := cs[..idx] + cs[idx + 1..];
    forall c <- cs | c != cs[idx] ensures c in rest {
      var i :| 0 <= i < |cs| && cs[i] == c;
      assert c == rest[if i < idx then i else i - 1];
    }
  }

  /** Removing a present label gives the canonical string of the smaller set. */
  lemma RemoveIsCanonical(labels: string, l: string)
    requires Canonical(labels) && IsLabel(l) && l in LabelsOf(labels)
    ensures Removed(labels, l).Success? && Canonical(Removed(labels, l).value)
    ensures LabelsOf(Removed(labels, l).value) == LabelsOf(labels) - {l}
  {
    CanonicalIsLower(labels);
    var cs := Chunks(labels);
    var idx := IndexOf(cs, l);
    var rest := cs[..idx] + cs[idx + 1..];
    AscendingIsDistinct(cs);
    JoinIsCanonical(rest);
    RestHas(cs, idx);
  }

  lemma InsertIsStrict(labels: string, mark: string)
    requires Canonical(labels) && |mark| == 8
    ensures var r := Inserted(labels, mark);
            if Lower(mark) in LabelsOf(labels) then r == Failure(AlreadyPresent)
            else r.Success? && Canonical(r.value) && LabelsOf(r.value) == LabelsOf(labels) + {Lower(mark)}
  {
    CanonicalIsLower(labels);
    if Lower(mark) !in LabelsOf(labels) { InsertThenRemove(labels, mark); }
  }

  lemma RemoveIsStrict(labels: string, mark: string)
    requires Canonical(labels) && |mark| == 8
    ensures var r := Removed(labels, mark);
            if Lower(mark) !in LabelsOf(labels) then r == Failure(Absent)
            else r.Success? && Canonical(r.value) && LabelsOf(r.value) == LabelsOf(labels) - {Lower(mark)}
  {
    CanonicalIsLower(labels);
    LowerTwice(mark);
    if Lower(mark) in LabelsOf(labels) {
      RemoveIsCanonical(labels, Lower(mark));
      assert Removed(labels, mark) == Removed(labels, Lower(mark));
    }
  }

  lemma RemovalUndoes(labels: string, l: string, larger: string)
    requires Canonical(labels) && Canonical(larger) && IsLabel(l) && l !in LabelsOf(labels)
    requires LabelsOf(larger) == LabelsOf(labels) + {l}
    ensures Removed(larger, l) == Success(labels)
  {
    RemoveIsCanonical(larger, l);
    CanonicalIsUnique(Removed(larger, l).value, labels);
  }

  /** Removing a label and inserting it again gives the same bytes. */
  lemma RemoveThenInsert(labels: string, mark: string)
    requires Canonical(labels) && |mark| == 8 && Lower(mark) in LabelsOf(labels)
    ensures Removed(labels, mark).Success? && Inserted(Removed(labels, mark).value, mark) == Success(labels)
  {
    LowerTwice(mark);
    RemoveIsCanonical(labels, Lower(mark));
    var t := Removed(labels, Lower(mark)).value;
    assert Removed(labels, mark) == Removed(labels, Lower(mark));
    InsertThenRemove(t, mark);
    CanonicalIsUnique(Inserted(t, mark).value, labels);
  }

  /** The strict delta is its own undo, in both directions, and refuses everything else. */
  lemma ApplyUndoes(labels: string, mark: string, amount: int)
    requires Canonical(labels) && |mark| == 8
    ensures ApplyLabel(labels, mark, amount).Success? <==>
              (amount == 1 && Lower(mark) !in LabelsOf(labels)) || (amount == -1 && Lower(mark) in LabelsOf(labels))
    ensures ApplyLabel(labels, mark, amount).Success? ==>
              ApplyLabel(ApplyLabel(labels, mark, amount).value, mark, -amount) == Success(labels)
  {
    LowerTwice(mark);
    CanonicalIsLower(labels);
    if Lower(mark) in LabelsOf(labels) { RemoveThenInsert(labels, mark); } else { InsertThenRemove(labels, mark); }
  }

  // ---------- Sequences of idempotent edits ----------

  function EnsureAll(labels: string, marks: seq<string>): Result<string, Error> {
    if marks == [] then Success(Lower(labels))
    else
      match EnsureAll(labels, marks[..|marks| - 1])
      case Failure(e) => Failure(e)
      case Success(t) => EnsureLabel(t, marks[|marks| - 1])
  }

  /** A label of another width is refused, whatever the string. */
  lemma WidthIsRefused(labels: string, mark: string)
    requires |mark| != 8
    ensures EnsureLabel(labels, mark) == EnsureNoLabel(labels, mark) == Failure(BadWidth)
    ensures Inserted(labels, mark) == Removed(labels, mark) == Failure(BadWidth)
  {
  }

  lemma EnsureAdds(labels: string, mark: string)
    requires Canonical(labels) && |mark| == 8
    ensures EnsureLabel(labels, mark).Success? && Canonical(EnsureLabel(labels, mark).value)
    ensures LabelsOf(EnsureLabel(labels, mark).value) == LabelsOf(labels) + {Lower(mark)}
    ensures EnsureNoLabel(labels, mark).Success? && Canonical(EnsureNoLabel(labels, mark).value)
    ensures LabelsOf(EnsureNoLabel(labels, mark).value) == LabelsOf(labels) - {Lower(mark)}
  {
    LowerTwice(mark);
    CanonicalIsLower(labels);
    if Lower(mark) in LabelsOf(labels) {
      RemoveIsCanonical(labels, Lower(mark));
      assert Removed(labels, mark) == Removed(labels, Lower(mark));
    } else {
      InsertThenRemove(labels, mark);
    }
  }

  lemma {:induction false} EnsureAllAdds(labels: string, marks: seq<string>)
    requires Canonical(labels) && forall m <- marks :: |m| == 8
    ensures EnsureAll(labels, marks).Success? && Canonical(EnsureAll(labels, marks).value)
    ensures LabelsOf(EnsureAll(labels, marks).value) == LabelsOf(labels) + set m <- marks :: Lower(m)
  {
    hide EnsureLabel, Canonical, LabelsOf, Lower;
    CanonicalIsLower(labels);
    if marks != [] {
      var before, last := marks[..|marks| - 1], marks[|marks| - 1];
      EnsureAllAdds(labels, before);
      EnsureAdds(EnsureAll(labels, before).value, last);
      assert marks == before + [last];
      assert (set m <- marks :: Lower(m)) == (set m <- before :: Lower(m)) + {Lower(last)};
    }
  }

  /** Replays, repeats and reorderings of the same labels give the same bytes. */
  lemma OnlyTheSetMatters(labels: string, a: seq<string>, b: seq<string>)
    requires Canonical(labels) && (forall m <- a + b :: |m| == 8)
    requires (set m <- a :: Lower(m)) == (set m <- b :: Lower(m))
    ensures EnsureAll(labels, a) == EnsureAll(labels, b)
  {
    assert forall m <- a :: m in a + b;
    assert forall m <- b :: m in a + b;
    EnsureAllAdds(labels, a);
    EnsureAllAdds(labels, b);
    CanonicalIsUnique(EnsureAll(labels, a).value, EnsureAll(labels, b).value);
  }

  /** Every finite set of labels has a canonical string, so strings and sets correspond one to one. */
  lemma {:induction false} EverySetHasAString(wanted: set<string>) returns (labels: string)
    requires forall l <- wanted :: IsLabel(l)
    ensures Canonical(labels) && LabelsOf(labels) == wanted
    decreases wanted
  {
    if wanted == {} {
      labels := "";
    } else {
      var l :| l in wanted;
      var t := EverySetHasAString(wanted - {l});
      InsertThenRemove(t, l);
      labels := Inserted(t, l).value;
    }
  }
}
