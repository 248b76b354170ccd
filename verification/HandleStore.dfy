/**
 The store behind the repository (stores/redis/index.ts): outside a pipeline a command runs at once;
 inside one it is queued, reads answer nothing, and only `scard` still reaches the server. A pipeline
 is sent as one atomic batch.

 `Settled` is the server once everything issued so far has been applied, so one contract covers a
 write in both modes.
 */
module HandleStore {
  import opened HandleTables
  import opened Ledger
  import opened Wrappers

  datatype Cmd =
    | SetHandle(h: Handle) | DelHandle(name: string) | AddRoot(name: string) | RemRoot(name: string)
    | SAdd(b: Bucket, name: string) | SRem(b: Bucket, name: string) | DelSet(b: Bucket)
    | ZAddSlot(name: string, slot: nat) | ZRemSlot(name: string)
    | ZAddCount(holder: string, count: nat) | ZRemCount(holder: string)
    | SetUtxo(u: Utxo) | DelUtxo(id: OutRef) | ZAddUtxo(id: OutRef, slot: nat) | ZRemUtxo(id: OutRef)
    | AddMintMember(name: string, m: MintData) | HSetCursor(c: Cursor) | ZAddScanned(hash: string, slot: nat)
    | GetHandle(name: string) | GetSet(b: Bucket) | GetMints(name: string)

  datatype Reply = Ok | HandleIs(h: Option<Handle>) | SetIs(s: set<string>) | MintsAre(ms: set<MintData>)

  /** What one command does at the server. */
  function Effect(db: Db, c: Cmd): Db {
    match c
    case SetHandle(h) => db.(handles := db.handles[h.name := h])
    case DelHandle(n) => db.(handles := db.handles - {n})
    case AddRoot(n) => db.(handleRoot := db.handleRoot + {n})
    case RemRoot(n) => db.(handleRoot := db.handleRoot - {n})
    case SAdd(b, n) => db.(sets := db.sets + {(b, n)})
    case SRem(b, n) => db.(sets := db.sets - {(b, n)})
    case DelSet(b) => db.(sets := WithoutBucket(db.sets, b))
    case ZAddSlot(n, slot) => db.(slots := db.slots[n := slot])
    case ZRemSlot(n) => db.(slots := db.slots - {n})
    case ZAddCount(a, k) => db.(holderCount := db.holderCount[a := k])
    case ZRemCount(a) => db.(holderCount := db.holderCount - {a})
    case SetUtxo(u) => db.(utxos := db.utxos[u.id := u])
    case DelUtxo(id) => db.(utxos := db.utxos - {id})
    case ZAddUtxo(id, slot) => db.(utxoSlot := db.utxoSlot[id := slot])
    case ZRemUtxo(id) => db.(utxoSlot := db.utxoSlot - {id})
    case AddMintMember(n, m) => db.(mint := db.mint[n := (if n in db.mint then db.mint[n] else {}) + {m}])
    case HSetCursor(c) => db.(cursor := Some(c))
    case ZAddScanned(hash, slot) => db.(scanned := db.scanned[hash := slot])
    case _ => db
  }

  function Answer(db: Db, c: Cmd): Reply {
    match c
    case GetHandle(n) => HandleIs(Find(db.handles, n))
    case GetSet(b) => SetIs(Members(db.sets, b))
    case GetMints(n) => MintsAre(if n in db.mint then db.mint[n] else {})
    case _ => Ok
  }

  function Effects(db: Db, cs: seq<Cmd>): Db {
    if cs == [] then db else Effect(Effects(db, cs[..|cs| - 1]), cs[|cs| - 1])
  }

  function Answers(db: Db, cs: seq<Cmd>): seq<Reply> {
    if cs == [] then [] else Answers(db, cs[..|cs| - 1]) + [Answer(Effects(db, cs[..|cs| - 1]), cs[|cs| - 1])]
  }

  predicate IsRead(c: Cmd) {
    c.GetHandle? || c.GetSet? || c.GetMints?
  }

  /** A batch of reads changes nothing and answers each read from the same state. */
  lemma {:induction false} ReadsAnswer(db: Db, cs: seq<Cmd>)
    requires forall c <- cs :: IsRead(c)
    ensures Effects(db, cs) == db && |Answers(db, cs)| == |cs|
    ensures forall i | 0 <= i < |cs| :: Answers(db, cs)[i] == Answer(db, cs[i])
  {
    hide Answer, Effect;
    if cs != [] {
      var before, c := cs[..|cs| - 1], cs[|cs| - 1];
      assert c in cs && forall x <- before :: x in cs;
      ReadsAnswer(db, before);
      ReadIsSilent(db, c);
    }
  }

  lemma ReadIsSilent(db: Db, c: Cmd)
    requires IsRead(c)
    ensures Effect(db, c) == db
  {
  }

  lemma {:induction false} AnswersCount(db: Db, cs: seq<Cmd>)
    ensures |Answers(db, cs)| == |cs|
  {
    if cs != [] { AnswersCount(db, cs[..|cs| - 1]); }
  }

  class Store {
    var live: Db
    var active: bool
    var queue: seq<Cmd>
    var pending: map<string, nat>

    constructor (db: Db)
      ensures Valid() && !active && live == db
    {
      live, active, queue, pending := db, false, [], map[];
    }

    ghost predicate Valid()
      reads this
    {
      !active ==> queue == [] && pending == map[]
    }

    /** The server once everything issued so far has been applied. */
    ghost function Settled(): Db
      reads this
    {
      Effects(live, queue)
    }

    /** The batch under way. */
    ghost function AsBatch(): Batch
      reads this
    {
      Batch(live.sets, Settled(), pending)
    }

    /** A write: queued in a pipeline, done at once outside. */
    method Write(c: Cmd)
      requires Valid()
      modifies this`live, this`queue
      ensures Valid() && Settled() == Effect(old(Settled()), c) && (active ==> live == old(live))
    {
      hide Effect;
      if active {
        queue := queue + [c];
      } else {
        live := Effect(live, c);
      }
    }

    /** A read: in a pipeline it is queued too, and the caller gets nothing. */
    method Read(c: Cmd) returns (r: Option<Reply>)
      requires Valid() && IsRead(c)
      modifies this`queue
      ensures Valid() && Settled() == old(Settled())
      ensures r == if active then None else Some(Answer(live, c))
      ensures active ==> queue == old(queue) + [c]
    {
      hide Answer;
      r := None;
      if active {
        queue := queue + [c];
      } else {
        r := Some(Answer(live, c));
      }
    }

    /** `scard` on a set index passes the pipeline by. */
    method Scard(b: Bucket) returns (n: nat)
      ensures n == |Members(live.sets, b)|
    {
      n := |Members(live.sets, b)|;
    }

    /** `removeValueFromIndexedSet` on HOLDER counts its removals while a pipeline is active. */
    method RemoveFromHolder(holder: string, name: string)
      requires Valid()
      modifies this`live, this`queue, this`pending
      ensures Valid() && Settled() == Effect(old(Settled()), SRem(HeldBy(holder), name))
                && (active ==> live == old(live))
      ensures pending == if active then old(pending)[holder := old(Pending(AsBatch(), holder)) + 1] else old(pending)
    {
      hide Effect;
      Write(SRem(HeldBy(holder), name));
      if active {
        pending := pending[holder := (if holder in pending then pending[holder] else 0) + 1];
      }
    }

    method PendingHolderRemovals(holder: string) returns (n: nat)
      ensures n == if holder in pending then pending[holder] else 0
    {
      n := if holder in pending then pending[holder] else 0;
    }

    /** Opening a pipeline inside a pipeline raises and leaves the outer one alone. */
    method Begin() returns (ok: bool)
      requires Valid()
      modifies this`active, this`queue, this`pending
      ensures Valid() && active && ok == !old(active)
      ensures if ok then queue == [] && pending == map[] else queue == old(queue) && pending == old(pending)
    {
      ok := !active;
      if ok { active, queue, pending := true, [], map[]; }
    }

    /** Sends the queue as one atomic batch. */
    method Flush() returns (replies: seq<Reply>)
      requires Valid() && active
      modifies this
      ensures Valid() && !active && live == old(Settled()) && replies == Answers(old(live), old(queue))
    {
      hide Effect, Answer;
      replies := [];
      ghost var was := live;
      var i := 0;
      while i < |queue|
        modifies this`live
        invariant i <= |queue| && live == Effects(was, queue[..i]) && replies == Answers(was, queue[..i])
      {
        assert queue[..i + 1][..i] == queue[..i];
        replies := replies + [Answer(live, queue[i])];
        live := Effect(live, queue[i]);
        i := i + 1;
      }
      assert queue[..i] == queue;
      active, queue, pending := false, [], map[];
    }

    /** An exception inside the pipeline drops the queue. */
    method Abandon()
      requires Valid()
      modifies this`active, this`queue, this`pending
      ensures Valid() && !active
    {
      active, queue, pending := false, [], map[];
    }
  }
}
