/** Lists, as more than one module uses them. */
module Sequences {
  function Joined<T>(parts: seq<seq<T>>): seq<T> {
    if parts == [] then [] else Joined(parts[..|parts| - 1]) + parts[|parts| - 1]
  }

  /** The list in pieces of one size and a shorter rest. */
  function Chunk<T>(s: seq<T>, size: nat): seq<seq<T>>
    requires size > 0
  {
    if s == [] then [] else if |s| <= size then [s] else [s[..size]] + Chunk(s[size..], size)
  }

  lemma {:induction false} JoinedCons<T>(c: seq<T>, chunks: seq<seq<T>>)
    ensures Joined([c] + chunks) == c + Joined(chunks)
  {
    if chunks == [] {
      assert ([c] + chunks)[..0] == [];
    } else {
      assert ([c] + chunks)[..|chunks|] == [c] + chunks[..|chunks| - 1];
      JoinedCons(c, chunks[..|chunks| - 1]);
    }
  }

  lemma {:induction false} JoinedChunk<T>(s: seq<T>, size: nat)
    requires size > 0
    ensures Joined(Chunk(s, size)) == s
    decreases |s|
  {
    if |s| <= size {
      if s != [] { assert [s][..0] == []; }
    } else {
      JoinedChunk(s[size..], size);
      JoinedCons(s[..size], Chunk(s[size..], size));
    }
  }

  lemma {:induction false} ChunkSizes<T>(s: seq<T>, size: nat)
    requires size > 0
    ensures forall c <- Chunk(s, size) :: 0 < |c| <= size
    ensures forall i | 0 <= i < |Chunk(s, size)| - 1 :: |Chunk(s, size)[i]| == size
    decreases |s|
  {
    if |s| > size {
      ChunkSizes(s[size..], size);
      var rest := Chunk(s[size..], size);
      assert Chunk(s, size) == [s[..size]] + rest;
      forall i | 0 <= i < |rest| ensures |([s[..size]] + rest)[i]| == size { if i > 0 { assert rest[i - 1] in rest; } }
    }
  }

  /** No element twice. */
  predicate Once(names: seq<string>) {
    forall i, j | 0 <= i < j < |names| :: names[i] != names[j]
  }
}
