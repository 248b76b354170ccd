/**
 The snapshot ownership protocol (workers/redisSync.worker.js, and the lease of lambdas/scanner.app.ts:119-149).
 */
module SnapshotFence {
  // Many clients run WATCH / GET / MULTI / EXEC transactions against one Valkey server while keys
  // expire, leases move and other writers work. Every command is one atomic step, so any interleaving is
  // a sequence of steps. The server keeps a version number per key; EXEC applies its batch exactly when no
  // watched key has a new version.

  import opened Wrappers

  type Token = string

  datatype Key = FenceKey | ScannerKey | GateKey | JournalKey | MetricsKey | ProgressKey | Data(name: string)

  datatype Server = Server(values: map<Key, string>, versions: map<Key, nat>)

  function Get(s: Server, k: Key): Option<string> {
    if k in s.values then Some(s.values[k]) else None
  }

  function Version(s: Server, k: Key): nat {
    if k in s.versions then s.versions[k] else 0
  }

  /** Every modification of a key, and every refresh of its expiry, gives it a new version. */
  function Touch(s: Server, k: Key): Server {
    s.(versions := s.versions[k := Version(s, k) + 1])
  }

  function Put(s: Server, k: Key, v: string): Server {
    Touch(s.(values := s.values[k := v]), k)
  }

  function Delete(s: Server, k: Key): Server {
    if k in s.values then Touch(s.(values := s.values - {k}), k) else s
  }

  function Refresh(s: Server, k: Key): Server {
    if k in s.values then Touch(s, k) else s
  }

  function PutIfAbsent(s: Server, k: Key, v: string): Server {
    if k in s.values then s else Put(s, k, v)
  }

  /** The Lua compare-and-delete and compare-and-pexpire scripts. */
  function CompareAndDelete(s: Server, k: Key, v: string): Server {
    if Get(s, k) == Some(v) then Delete(s, k) else s
  }

  function CompareAndRefresh(s: Server, k: Key, v: string): Server {
    if Get(s, k) == Some(v) then Refresh(s, k) else s
  }

  // ---------- Transactions ----------

  datatype Fence = Fence(owner: Token, scannerOwner: Token, ownsScannerLease: bool)

  /** A queued write; None deletes. */
  datatype Write = Write(key: Key, value: Option<string>)

  datatype Request =
    | Claim(fence: Fence, scannerOriginal: Option<string>, metrics: Option<string>, progress: Option<string>,
            guarded: bool)
    | Fenced(fence: Fence, writes: seq<Write>, guarded: bool)
    | Guarded(writes: seq<Write>)

  datatype Check = Check(key: Key, expected: Option<string>)

  const GATE_OPEN := [Check(GateKey, None), Check(JournalKey, None)]

  /** The reads of a transaction in their order, each with the only value it goes on with. */
  function Checks(r: Request): seq<Check> {
    match r
    case Claim(fence, scannerOriginal, metrics, progress, guarded) =>
      (if guarded then GATE_OPEN else []) +
      [Check(FenceKey, None), Check(ScannerKey, scannerOriginal),
       Check(MetricsKey, metrics), Check(ProgressKey, progress)]
    case Fenced(fence, _, guarded) =>
      (if guarded then GATE_OPEN else []) +
      [Check(FenceKey, Some(fence.owner)), Check(ScannerKey, Some(fence.scannerOwner))]
    case Guarded(_) => GATE_OPEN
  }

  function Watched(r: Request): set<Key> {
    set c <- Checks(r) :: c.key
  }

  /** A batch holds data, metrics and progress writes only: neither lease is named by a repository command. */
  predicate WellFormed(r: Request) {
    match r
    case Claim(fence, scannerOriginal, _, _, _) =>
      if fence.ownsScannerLease then scannerOriginal == None && fence.scannerOwner == fence.owner
      else scannerOriginal == Some(fence.scannerOwner)
    case Fenced(_, writes, _) => forall w <- writes :: w.key.Data? || w.key.MetricsKey? || w.key.ProgressKey?
    case Guarded(writes) => forall w <- writes :: w.key.Data? || w.key.MetricsKey? || w.key.ProgressKey?
  }

  function ApplyWrite(s: Server, w: Write): Server {
    match w.value
    case Some(v) => Put(s, w.key, v)
    case None => Delete(s, w.key)
  }

  function ApplyWrites(s: Server, writes: seq<Write>): Server
    decreases writes
  {
    if writes == [] then s else ApplyWrites(ApplyWrite(s, writes[0]), writes[1..])
  }

  function Effect(s: Server, r: Request): Server {
    match r
    case Claim(fence, _, _, _, _) =>
      var held := PutIfAbsent(s, FenceKey, fence.owner);
      if fence.ownsScannerLease then PutIfAbsent(held, ScannerKey, fence.scannerOwner) else held
    case Fenced(_, writes, _) => ApplyWrites(Refresh(Refresh(s, FenceKey), ScannerKey), writes)
    case Guarded(writes) => ApplyWrites(s, writes)
  }

  // ---------- What a batch leaves ----------

  /** The last write in the batch that names the key. */
  predicate LastTo(writes: seq<Write>, i: nat, k: Key) {
    i < |writes| && writes[i].key == k && forall j | i < j < |writes| :: writes[j].key != k
  }

  /**
   Every key has the value of the last write that names it, none if that deletes it, and is as before if none
   does; and whoever watches a key that is set is told.
   */
  ghost predicate Landed(before: Server, writes: seq<Write>, after: Server) {
    && (forall i: nat, k: Key :: LastTo(writes, i, k) ==>
          Get(after, k) == writes[i].value && (writes[i].value.Some? ==> Version(before, k) < Version(after, k)))
    && (forall k: Key :: (forall w <- writes :: w.key != k) ==> Get(after, k) == Get(before, k))
  }

  lemma {:induction false} WritesLand(s: Server, writes: seq<Write>)
    ensures Landed(s, writes, ApplyWrites(s, writes))
    ensures Later(s, ApplyWrites(s, writes))
    decreases writes
  {
    if writes != [] {
      var next, rest := ApplyWrite(s, writes[0]), writes[1..];
      WritesLand(next, rest);
      assert writes == [writes[0]] + rest;
      var after := ApplyWrites(s, writes);
      forall i: nat, k: Key | LastTo(writes, i, k)
        ensures Get(after, k) == writes[i].value
        ensures writes[i].value.Some? ==> Version(s, k) < Version(after, k)
      {
        if i > 0 {
          assert LastTo(rest, i - 1, k);
        } else {
          forall w <- rest ensures w.key != k {}
        }
      }
      forall k: Key | forall w <- writes :: w.key != k ensures Get(after, k) == Get(s, k) {
        assert writes[0] in writes;
        forall w <- rest ensures w.key != k { assert w in writes; }
      }
    }
  }

  /** The batch has landed; what a fenced one does besides is to put off the expiry of both leases. */
  ghost predicate Applied(before: Server, r: Request, after: Server) {
    match r
    case Claim(fence, _, _, _, _) =>
      && Get(after, FenceKey) == Some(fence.owner) && Get(after, ScannerKey) == Some(fence.scannerOwner)
      && forall k: Key | k != FenceKey && k != ScannerKey :: Get(after, k) == Get(before, k)
    case Fenced(_, writes, _) =>
      && Landed(before, writes, after)
      && Version(before, FenceKey) < Version(after, FenceKey)
      && Version(before, ScannerKey) < Version(after, ScannerKey)
    case Guarded(writes) =>
      && Landed(before, writes, after)
      && Version(before, FenceKey) == Version(after, FenceKey)
      && Version(before, ScannerKey) == Version(after, ScannerKey)
  }

  lemma EffectIsApplied(s: Server, r: Request)
    requires WellFormed(r) && forall check <- Checks(r) :: Get(s, check.key) == check.expected
    ensures Applied(s, r, Effect(s, r))
  {
    match r
    case Claim(_, _, _, _, _) => ClaimLands(s, r);
    case Fenced(fence, writes, _) =>
      assert Check(FenceKey, Some(fence.owner)) in Checks(r)
          && Check(ScannerKey, Some(fence.scannerOwner)) in Checks(r);
      FencedLands(s, writes);
    case Guarded(writes) =>
      hide Landed, Later;
      WritesLand(s, writes);
      LeasesUntouched(s, writes);
  }

  lemma ClaimLands(s: Server, r: Request)
    requires r.Claim? && WellFormed(r) && forall check <- Checks(r) :: Get(s, check.key) == check.expected
    ensures Applied(s, r, Effect(s, r))
  {
    assert Check(FenceKey, None) in Checks(r) && Check(ScannerKey, r.scannerOriginal) in Checks(r);
  }

  lemma FencedLands(s: Server, writes: seq<Write>)
    requires FenceKey in s.values && ScannerKey in s.values
    requires forall w <- writes :: w.key != FenceKey && w.key != ScannerKey
    ensures var after := ApplyWrites(Refresh(Refresh(s, FenceKey), ScannerKey), writes);
            && Landed(s, writes, after)
            && Version(s, FenceKey) < Version(after, FenceKey) && Version(s, ScannerKey) < Version(after, ScannerKey)
  {
    hide ApplyWrites, LastTo;
    var refreshed := Refresh(Refresh(s, FenceKey), ScannerKey);
    WritesLand(refreshed, writes);
    LeasesUntouched(refreshed, writes);
    assert forall k: Key :: Get(refreshed, k) == Get(s, k) && Version(s, k) <= Version(refreshed, k);
    assert Version(s, FenceKey) < Version(refreshed, FenceKey);
    assert Version(s, ScannerKey) < Version(refreshed, ScannerKey);
    hide Refresh, Get, Version;
  }

  lemma {:induction false} LeasesUntouched(s: Server, writes: seq<Write>)
    requires forall w <- writes :: w.key != FenceKey && w.key != ScannerKey
    ensures forall k <- {FenceKey, ScannerKey} ::
              Version(ApplyWrites(s, writes), k) == Version(s, k) && Get(ApplyWrites(s, writes), k) == Get(s, k)
    decreases writes
  {
    if writes != [] { LeasesUntouched(ApplyWrite(s, writes[0]), writes[1..]); }
  }

  // ---------- The system ----------

  type ClientId = nat

  /** Between WATCH and EXEC: the versions watched and how many reads have agreed so far. */
  datatype Client = Idle | Running(request: Request, watch: map<Key, nat>, agreed: nat)

  /** `issued` are the random owner tokens drawn so far, `claimed` those whose claim committed. */
  datatype System = System(server: Server, clients: map<ClientId, Client>, issued: set<Token>, claimed: set<Token>)

  function ClientAt(s: System, c: ClientId): Client {
    if c in s.clients then s.clients[c] else Idle
  }

  datatype Step =
    | Start(client: ClientId, request: Request)
    | Read(client: ClientId)
    | Exec(client: ClientId)
    | Drop(client: ClientId)
    | ReleaseFence(fence: Fence)
    | ReleaseFenceLease(fence: Fence)
    | AcquireLease(owner: Token)
    | RenewLease(owner: Token)
    | ReleaseLease(owner: Token)
    | Expire(key: Key)
    | OtherWrite(write: Write)

  predicate Init(s: System) {
    s.clients == map[] && s.issued == {} && s.claimed == {} && FenceKey !in s.server.values
  }

  predicate Enabled(s: System, step: Step) {
    match step
    case Start(c, request) =>
      && ClientAt(s, c).Idle? && WellFormed(request)
      // randomUUID never repeats a token
      && (request.Claim? ==> request.fence.owner !in s.issued)
    case Read(c) => ClientAt(s, c).Running? && ClientAt(s, c).agreed < |Checks(ClientAt(s, c).request)|
    case Exec(c) => ClientAt(s, c).Running? && ClientAt(s, c).agreed == |Checks(ClientAt(s, c).request)|
    case OtherWrite(w) => w.key != FenceKey && w.key != ScannerKey
    case _ => true
  }

  predicate Unchanged(s: Server, watch: map<Key, nat>) {
    forall k <- watch :: watch[k] == Version(s, k)
  }

  predicate Commits(s: System, step: Step) {
    step.Exec? && Enabled(s, step) && Unchanged(s.server, ClientAt(s, step.client).watch)
  }

  function After(s: System, step: Step): System
    requires Enabled(s, step)
  {
    match step
    case Start(c, request) =>
      s.(clients := s.clients[c := Running(request, map k <- Watched(request) :: Version(s.server, k), 0)],
         issued := if request.Claim? then s.issued + {request.fence.owner} else s.issued)
    case Read(c) =>
      var client := ClientAt(s, c);
      var check := Checks(client.request)[client.agreed];
      if Get(s.server, check.key) == check.expected
      then s.(clients := s.clients[c := client.(agreed := client.agreed + 1)])
      else s.(clients := s.clients[c := Idle])
    case Exec(c) =>
      var request := ClientAt(s, c).request;
      if Unchanged(s.server, ClientAt(s, c).watch) then
        s.(clients := s.clients[c := Idle], server := Effect(s.server, request),
           claimed := if request.Claim? then s.claimed + {request.fence.owner} else s.claimed)
      else s.(clients := s.clients[c := Idle])
    case Drop(c) => s.(clients := s.clients[c := Idle])
    case ReleaseFence(fence) => s.(server := CompareAndDelete(s.server, FenceKey, fence.owner))
    case ReleaseFenceLease(fence) =>
      if fence.ownsScannerLease then s.(server := CompareAndDelete(s.server, ScannerKey, fence.scannerOwner)) else s
    case AcquireLease(owner) => s.(server := PutIfAbsent(s.server, ScannerKey, owner))
    case RenewLease(owner) => s.(server := CompareAndRefresh(s.server, ScannerKey, owner))
    case ReleaseLease(owner) => s.(server := CompareAndDelete(s.server, ScannerKey, owner))
    case Expire(k) => s.(server := Delete(s.server, k))
    case OtherWrite(w) =>
      s.(server := ApplyWrite(s.server, w))
  }

  ghost predicate Behaviour(states: seq<System>, steps: seq<Step>) {
    && |states| == |steps| + 1 && Init(states[0])
    && (forall i | 0 <= i < |steps| :: Enabled(states[i], steps[i]) && states[i + 1] == After(states[i], steps[i]))
  }

  // ---------- Invariant ----------

  /** A key whose version stood still still has its value. */
  ghost predicate Later(s: Server, t: Server) {
    forall k: Key :: Version(s, k) <= Version(t, k) && (Version(s, k) == Version(t, k) ==> Get(s, k) == Get(t, k))
  }

  predicate ClientOk(s: Server, client: Client) {
    client.Running? ==>
      && WellFormed(client.request) && client.agreed <= |Checks(client.request)|
         && client.watch.Keys == Watched(client.request)
      && (forall k <- client.watch :: client.watch[k] <= Version(s, k))
      && (forall i | 0 <= i < client.agreed ::
            var check := Checks(client.request)[i];
            && check.key in client.watch
            && (client.watch[check.key] == Version(s, check.key) ==> Get(s, check.key) == check.expected))
  }

  predicate ClaimPending(s: System, c: ClientId, owner: Token) {
    ClientAt(s, c).Running? && ClientAt(s, c).request.Claim? && ClientAt(s, c).request.fence.owner == owner
  }

  ghost predicate Inv(s: System) {
    && s.claimed <= s.issued
    && (FenceKey in s.server.values ==> s.server.values[FenceKey] in s.claimed)
    && (forall c: ClientId :: ClientOk(s.server, ClientAt(s, c)))
    && (forall c: ClientId, o: Token :: ClaimPending(s, c, o) ==> o in s.issued && o !in s.claimed)
    && (forall c: ClientId, d: ClientId, o: Token :: ClaimPending(s, c, o) && ClaimPending(s, d, o) ==> c == d)
  }

  lemma EffectIsLater(s: Server, r: Request)
    requires WellFormed(r)
    ensures Later(s, Effect(s, r))
    ensures !r.Claim? ==>
              Get(Effect(s, r), FenceKey) == Get(s, FenceKey) && Get(Effect(s, r), ScannerKey) == Get(s, ScannerKey)
  {
    match r
    case Claim(_, _, _, _, _) =>
    case Fenced(_, writes, _) =>
      WritesLand(Refresh(Refresh(s, FenceKey), ScannerKey), writes);
      LeasesUntouched(Refresh(Refresh(s, FenceKey), ScannerKey), writes);
    case Guarded(writes) =>
      WritesLand(s, writes);
      LeasesUntouched(s, writes);
  }

  lemma StepIsLater(s: System, step: Step)
    requires Inv(s) && Enabled(s, step)
    ensures Later(s.server, After(s, step).server)
  {
    if step.Exec? {
      assert ClientOk(s.server, ClientAt(s, step.client));
      EffectIsLater(s.server, ClientAt(s, step.client).request);
    }
  }

  lemma StaysOk(s: Server, t: Server, client: Client)
    requires ClientOk(s, client) && Later(s, t)
    ensures ClientOk(t, client)
  {
  }

  /** The reads are an atomic comparison: when EXEC goes through, every one of them still holds. */
  lemma ChecksHoldAtCommit(s: System, step: Step)
    requires Inv(s) && Commits(s, step)
    ensures forall check <- Checks(ClientAt(s, step.client).request) :: Get(s.server, check.key) == check.expected
  {
    var client := ClientAt(s, step.client);
    assert ClientOk(s.server, client);
    forall check <- Checks(client.request) ensures Get(s.server, check.key) == check.expected {
      var i :| 0 <= i < |Checks(client.request)| && Checks(client.request)[i] == check;
    }
  }

  lemma ClientsStayOk(s: System, step: Step, c: ClientId)
    requires Inv(s) && Enabled(s, step)
    ensures ClientOk(After(s, step).server, ClientAt(After(s, step), c))
  {
    hide ClientOk, Checks, Watched, Later, Effect, WellFormed;
    StepIsLater(s, step);
    assert ClientOk(s.server, ClientAt(s, c));
    if ClientAt(After(s, step), c) == ClientAt(s, c) {
      StaysOk(s.server, After(s, step).server, ClientAt(s, c));
    } else if step.Start? && step.client == c {
      StartedIsOk(s, step);
    } else if step.Read? && step.client == c {
      ReaderStaysOk(s, step);
    } else {
      IdleIsOk(After(s, step).server);
    }
  }

  lemma IdleIsOk(s: Server)
    ensures ClientOk(s, Idle)
  {
  }

  lemma StartedIsOk(s: System, step: Step)
    requires step.Start? && Enabled(s, step)
    ensures ClientOk(After(s, step).server, ClientAt(After(s, step), step.client))
  {
    hide Checks, Watched, WellFormed;
  }

  lemma ReaderStaysOk(s: System, step: Step)
    requires step.Read? && Enabled(s, step) && ClientOk(s.server, ClientAt(s, step.client))
    ensures ClientOk(After(s, step).server, ClientAt(After(s, step), step.client))
  {
    var client := ClientAt(s, step.client);
    CheckIsWatched(client.request, client.agreed);
    hide Checks, Watched, WellFormed;
  }

  lemma CheckIsWatched(r: Request, i: nat)
    requires i < |Checks(r)|
    ensures Checks(r)[i].key in Watched(r)
  {
  }

  lemma ClaimsStayDistinct(s: System, step: Step)
    requires Inv(s) && Enabled(s, step)
    ensures forall c: ClientId, o: Token :: ClaimPending(After(s, step), c, o) ==>
              (o in After(s, step).issued && o !in After(s, step).claimed)
    ensures forall c: ClientId, d: ClientId, o: Token ::
              ClaimPending(After(s, step), c, o) && ClaimPending(After(s, step), d, o) ==> c == d
  {
    forall c: ClientId, o: Token | ClaimPending(After(s, step), c, o)
      ensures ClaimPending(s, c, o) || (step.Start? && step.client == c && o !in s.issued)
    {
    }
    forall c: ClientId, o: Token | ClaimPending(After(s, step), c, o)
      ensures o in After(s, step).issued && o !in After(s, step).claimed
    {
      if Commits(s, step) && ClientAt(s, step.client).request.Claim? {
        assert ClaimPending(s, step.client, ClientAt(s, step.client).request.fence.owner);
      }
    }
  }

  lemma FenceIsClaimed(s: System, step: Step)
    requires Inv(s) && Enabled(s, step)
    ensures FenceKey in After(s, step).server.values ==>
              After(s, step).server.values[FenceKey] in After(s, step).claimed
    ensures After(s, step).claimed <= After(s, step).issued
  {
    if step.Exec? && Commits(s, step) {
      var request := ClientAt(s, step.client).request;
      assert ClientOk(s.server, ClientAt(s, step.client));
      EffectIsLater(s.server, request);
      assert Get(After(s, step).server, FenceKey) == Get(s.server, FenceKey) || request.Claim?;
      if request.Claim? {
        assert ClaimPending(s, step.client, request.fence.owner);
      }
    }
  }

  lemma InvHolds(states: seq<System>, steps: seq<Step>, i: nat)
    requires Behaviour(states, steps) && i <= |steps|
    ensures Inv(states[i])
  {
    if i > 0 {
      InvHolds(states, steps, i - 1);
      var s, step := states[i - 1], steps[i - 1];
      forall c: ClientId ensures ClientOk(After(s, step).server, ClientAt(After(s, step), c)) {
        ClientsStayOk(s, step, c);
      }
      ClaimsStayDistinct(s, step);
      FenceIsClaimed(s, step);
    }
  }

  lemma CommitApplies(s: System, step: Step)
    requires Inv(s) && Commits(s, step)
    ensures Applied(s.server, ClientAt(s, step.client).request, After(s, step).server)
  {
    hide Applied, Checks;
    assert ClientOk(s.server, ClientAt(s, step.client));
    ChecksHoldAtCommit(s, step);
    EffectIsApplied(s.server, ClientAt(s, step.client).request);
  }

  // ---------- Results about every run ----------

  /** The request whose batch is applied by step `i`. */
  function Committed(states: seq<System>, steps: seq<Step>, i: nat): Request
    requires i < |steps| && i < |states| && Commits(states[i], steps[i])
  {
    ClientAt(states[i], steps[i].client).request
  }

  predicate FencedCommit(states: seq<System>, steps: seq<Step>, i: nat, owner: Token) {
    && i < |steps| && i < |states| && Commits(states[i], steps[i])
    && Committed(states, steps, i).Fenced? && Committed(states, steps, i).fence.owner == owner
  }

  /**
   In every run a fenced batch is applied only at an instant when the fence key is its owner, the
   scanner lease is its recorded owner and, for a guarded writer, the repair gate is open; and it
   leaves both keys with their holders.
   */
  lemma CommitsOnlyAsOwner(states: seq<System>, steps: seq<Step>, i: nat)
    requires Behaviour(states, steps) && i < |steps| && Commits(states[i], steps[i])
    requires Committed(states, steps, i).Fenced?
    ensures var r, before, after := Committed(states, steps, i), states[i].server, states[i + 1].server;
            && Get(before, FenceKey) == Get(after, FenceKey) == Some(r.fence.owner)
            && Get(before, ScannerKey) == Get(after, ScannerKey) == Some(r.fence.scannerOwner)
            && (r.guarded ==> GateKey !in before.values && JournalKey !in before.values)
            && Applied(before, r, after)
  {
    InvHolds(states, steps, i);
    ChecksHoldAtCommit(states[i], steps[i]);
    var r := Committed(states, steps, i);
    CommitApplies(states[i], steps[i]);
    assert Check(FenceKey, Some(r.fence.owner)) in Checks(r)
        && Check(ScannerKey, Some(r.fence.scannerOwner)) in Checks(r);
    assert r.guarded ==> Check(GateKey, None) in Checks(r) && Check(JournalKey, None) in Checks(r);
    assert ClientOk(states[i].server, ClientAt(states[i], steps[i].client));
    EffectIsLater(states[i].server, r);
  }

  /** A claim goes through only on the exact image it was prepared for, and then holds both keys. */
  lemma ClaimIsAtomic(states: seq<System>, steps: seq<Step>, i: nat)
    requires Behaviour(states, steps) && i < |steps| && Commits(states[i], steps[i])
    requires Committed(states, steps, i).Claim?
    ensures var r, before, after := Committed(states, steps, i), states[i].server, states[i + 1].server;
            && FenceKey !in before.values && Get(before, ScannerKey) == r.scannerOriginal
            && Get(before, MetricsKey) == r.metrics && Get(before, ProgressKey) == r.progress
            && (r.guarded ==> GateKey !in before.values && JournalKey !in before.values)
            && Get(after, FenceKey) == Some(r.fence.owner) && Get(after, ScannerKey) == Some(r.fence.scannerOwner)
            && Applied(before, r, after)
  {
    InvHolds(states, steps, i);
    ChecksHoldAtCommit(states[i], steps[i]);
    var r := Committed(states, steps, i);
    CommitApplies(states[i], steps[i]);
    assert Check(FenceKey, None) in Checks(r) && Check(ScannerKey, r.scannerOriginal) in Checks(r)
        && Check(MetricsKey, r.metrics) in Checks(r) && Check(ProgressKey, r.progress) in Checks(r);
    assert r.guarded ==> Check(GateKey, None) in Checks(r) && Check(JournalKey, None) in Checks(r);
  }

  /** A guarded repository write is applied only while the repair gate and the journal are absent. */
  lemma GuardedWritesNeedOpenGate(states: seq<System>, steps: seq<Step>, i: nat)
    requires Behaviour(states, steps) && i < |steps| && Commits(states[i], steps[i])
    requires Committed(states, steps, i).Guarded?
    ensures GateKey !in states[i].server.values && JournalKey !in states[i].server.values
    ensures Applied(states[i].server, Committed(states, steps, i), states[i + 1].server)
  {
    InvHolds(states, steps, i);
    ChecksHoldAtCommit(states[i], steps[i]);
    var r := Committed(states, steps, i);
    CommitApplies(states[i], steps[i]);
    assert Check(GateKey, None) in Checks(r) && Check(JournalKey, None) in Checks(r);
  }

  /**
   What a client does writes nothing but for a batch that commits; a read that does not agree, an EXEC whose watched
   keys have changed and a dropped connection each end the call; and no step touches another client's call.
   */
  lemma OnlyCommitsWrite(s: System, step: Step, c: ClientId)
    requires Enabled(s, step) && (step.Start? || step.Read? || step.Exec? || step.Drop?)
    ensures !Commits(s, step) ==> After(s, step).server == s.server
    ensures step.Exec? || step.Drop? ==> ClientAt(After(s, step), step.client).Idle?
    ensures step.Read? ==>
              var client := ClientAt(s, step.client);
              var check := Checks(client.request)[client.agreed];
              if Get(s.server, check.key) != check.expected then ClientAt(After(s, step), step.client).Idle?
              else ClientAt(After(s, step), step.client) == client.(agreed := client.agreed + 1)
    ensures c != step.client ==> ClientAt(After(s, step), c) == ClientAt(s, c)
  {
  }

  // ---------- Who holds the leases ----------

  predicate FreesFence(step: Step, holder: Token) {
    step == Expire(FenceKey) || (step.ReleaseFence? && step.fence.owner == holder)
  }

  /** Only its expiry, or a release that names the holder, takes the scanner lease from it. */
  predicate FreesLease(step: Step, holder: Token) {
    || step == Expire(ScannerKey) || step == ReleaseLease(holder)
    || (step.ReleaseFenceLease? && step.fence.ownsScannerLease && step.fence.scannerOwner == holder)
  }

  /** Who would hold the scanner lease, were it free. */
  function Taker(s: System, step: Step): Option<Token> {
    match step
    case AcquireLease(owner) => Some(owner)
    case Exec(c) =>
      if Commits(s, step) && ClientAt(s, c).request.Claim? && ClientAt(s, c).request.fence.ownsScannerLease
      then Some(ClientAt(s, c).request.fence.scannerOwner) else None
    case _ => None
  }

  /** One step: a held lease stays or becomes free, a free one stays free or gets the one taker. */
  lemma HoldersAfter(s: System, step: Step)
    requires Inv(s) && Enabled(s, step)
    ensures var before, after := Get(s.server, FenceKey), Get(After(s, step).server, FenceKey);
            && (before.Some? ==> after == if FreesFence(step, before.value) then None else before)
            && (before.None? && Commits(s, step) && ClientAt(s, step.client).request.Claim? ==>
                  after == Some(ClientAt(s, step.client).request.fence.owner))
            && (before.None? && !(Commits(s, step) && ClientAt(s, step.client).request.Claim?) ==> after == None)
    ensures var before, after := Get(s.server, ScannerKey), Get(After(s, step).server, ScannerKey);
            after == if before.None? then Taker(s, step) else if FreesLease(step, before.value) then None else before
  {
    if Commits(s, step) {
      var r := ClientAt(s, step.client).request;
      CommitApplies(s, step);
      ChecksHoldAtCommit(s, step);
      assert ClientOk(s.server, ClientAt(s, step.client));
      EffectIsLater(s.server, r);
      if r.Claim? {
        assert Check(FenceKey, None) in Checks(r) && Check(ScannerKey, r.scannerOriginal) in Checks(r);
      }
    }
  }

  /** A renewal puts the expiry off exactly for the holder, and changes nothing else. */
  lemma RenewsOwnLease(s: System, owner: Token)
    ensures var before, after := s.server, After(s, RenewLease(owner)).server;
            && before.values == after.values
            && (Get(before, ScannerKey) == Some(owner) <==> Version(before, ScannerKey) < Version(after, ScannerKey))
            && forall k: Key | k != ScannerKey :: Version(before, k) == Version(after, k)
  {
  }

  /** Over any run: who held the scanner lease and no longer does was set free of it in between. */
  lemma {:induction false} LeaseStaysUntilFreed(states: seq<System>, steps: seq<Step>, i: nat, j: nat, holder: Token)
    requires Behaviour(states, steps) && i <= j <= |steps|
    requires Get(states[i].server, ScannerKey) == Some(holder) != Get(states[j].server, ScannerKey)
    ensures exists m :: i <= m < j && FreesLease(steps[m], holder)
    decreases j
  {
    hide Inv, After, Enabled, Commits, FreesFence;
    if Get(states[j - 1].server, ScannerKey) == Some(holder) {
      InvHolds(states, steps, j - 1);
      HoldersAfter(states[j - 1], steps[j - 1]);
      assert FreesLease(steps[j - 1], holder);
    } else {
      LeaseStaysUntilFreed(states, steps, i, j - 1, holder);
      var m :| i <= m < j - 1 && FreesLease(steps[m], holder);
    }
  }

  /** `owner` has claimed the fence at some time and does not hold it now. */
  predicate Lost(s: System, owner: Token) {
    owner in s.claimed && Get(s.server, FenceKey) != Some(owner)
  }

  lemma LostStaysLost(s: System, step: Step, owner: Token)
    requires Inv(s) && Enabled(s, step) && Lost(s, owner)
    ensures Lost(After(s, step), owner)
  {
    if Commits(s, step) {
      var request := ClientAt(s, step.client).request;
      assert ClientOk(s.server, ClientAt(s, step.client));
      EffectIsLater(s.server, request);
      if request.Claim? {
        assert ClaimPending(s, step.client, request.fence.owner);
      }
    }
  }

  lemma {:induction false} LostForever(states: seq<System>, steps: seq<Step>, owner: Token, i: nat, j: nat)
    requires Behaviour(states, steps) && i <= j <= |steps| && Lost(states[i], owner)
    ensures Lost(states[j], owner)
    decreases j
  {
    if i < j {
      LostForever(states, steps, owner, i, j - 1);
      InvHolds(states, steps, j - 1);
      LostStaysLost(states[j - 1], steps[j - 1], owner);
    }
  }

  /**
   Once the fence has passed from an owner, that owner's batches are never applied again. Of its release, the
   first half changes nothing; the second removes the scanner lease exactly if the claim brought it along and
   it still has the claim's own token, so never a lease of another party, and nothing else.
   */
  lemma LostOwnerIsHarmless(states: seq<System>, steps: seq<Step>, fence: Fence, i: nat, j: nat)
    requires Behaviour(states, steps) && i <= j < |steps| && Lost(states[i], fence.owner)
    ensures !FencedCommit(states, steps, j, fence.owner)
    ensures steps[j] == ReleaseFence(fence) ==> states[j + 1] == states[j]
    ensures steps[j] == ReleaseFenceLease(fence) ==>
              var own := fence.ownsScannerLease && Get(states[j].server, ScannerKey) == Some(fence.scannerOwner);
              && (states[j + 1] != states[j] <==> own)
              && forall k: Key ::
                 Get(states[j + 1].server, k) == if own && k == ScannerKey then None else Get(states[j].server, k)
  {
    LostForever(states, steps, fence.owner, i, j);
    if FencedCommit(states, steps, j, fence.owner) {
      CommitsOnlyAsOwner(states, steps, j);
    }
  }

  /** Between two applied batches of one owner no batch of another owner is applied. */
  lemma OwnersNeverInterleave(states: seq<System>, steps: seq<Step>, i: nat, j: nat, k: nat, a: Token, b: Token)
    requires Behaviour(states, steps) && i < j < k
    requires FencedCommit(states, steps, i, a) && FencedCommit(states, steps, j, b) && FencedCommit(states, steps, k, a)
    ensures a == b
  {
    CommitsOnlyAsOwner(states, steps, i);
    CommitsOnlyAsOwner(states, steps, j);
    InvHolds(states, steps, i);
    if a != b {
      ClaimedOnly(states, steps, i, j);
      assert Lost(states[j], a);
      LostOwnerIsHarmless(states, steps, Committed(states, steps, i).fence, j, k);
    }
  }

  lemma {:induction false} ClaimedOnly(states: seq<System>, steps: seq<Step>, i: nat, j: nat)
    requires Behaviour(states, steps) && i <= j <= |steps|
    ensures states[i].claimed <= states[j].claimed
    decreases j
  {
    if i < j {
      ClaimedOnly(states, steps, i, j - 1);
    }
  }

  // ---------- A call that nobody disturbs ----------

  /** From WATCH to EXEC the client does nothing but read, and no step modifies or refreshes a key it watches. */
  ghost predicate Undisturbed(states: seq<System>, steps: seq<Step>, c: ClientId, r: Request, i: nat, k: nat)
    requires Behaviour(states, steps) && i < k < |steps|
  {
    && steps[i] == Start(c, r) && steps[k] == Exec(c)
    && (forall j | i < j < k :: steps[j] != Drop(c) && steps[j] != Exec(c))
    && (forall j, key | i < j < k && key in Watched(r) ::
        Version(states[j + 1].server, key) == Version(states[j].server, key))
  }

  /** The client is past WATCH, and the keys it watches are as they were then. */
  ghost predicate StillWatching(s: System, t: System, c: ClientId, r: Request) {
    && ClientAt(t, c).Running? && ClientAt(t, c).request == r
    && ClientAt(t, c).watch == (map key <- Watched(r) :: Version(s.server, key))
    && forall key <- Watched(r) ::
       Version(t.server, key) == Version(s.server, key) && Get(t.server, key) == Get(s.server, key)
  }

  predicate ChecksHold(s: Server, r: Request) {
    forall check <- Checks(r) :: Get(s, check.key) == check.expected
  }

  lemma NextStepWatches(s: System, t: System, step: Step, c: ClientId, r: Request)
    requires Inv(t) && Enabled(t, step) && step != Drop(c) && step != Exec(c)
    requires ChecksHold(s.server, r) && StillWatching(s, t, c, r)
    requires forall key <- Watched(r) :: Version(After(t, step).server, key) == Version(t.server, key)
    ensures StillWatching(s, After(t, step), c, r)
    ensures step == Read(c) ==> ClientAt(After(t, step), c).agreed == ClientAt(t, c).agreed + 1
  {
    hide Checks, Watched, Inv, WellFormed, Effect, ApplyWrite;
    StepIsLater(t, step);
    if step == Read(c) { CheckIsWatched(r, ClientAt(t, c).agreed); }
  }

  lemma {:induction false} KeepsWatching(states: seq<System>, steps: seq<Step>, c: ClientId, r: Request, i: nat,
        k: nat, j: nat)
    requires Behaviour(states, steps) && i < k < |steps| && Undisturbed(states, steps, c, r, i, k)
    requires ChecksHold(states[i].server, r) && i < j <= k
    ensures StillWatching(states[i], states[j], c, r)
    decreases j
  {
    hide Checks, Watched, Inv, ChecksHold;
    if j > i + 1 {
      var m := j - 1;
      KeepsWatching(states, steps, c, r, i, k, m);
      InvHolds(states, steps, m);
      forall key <- Watched(r)
        ensures Version(After(states[m], steps[m]).server, key) == Version(states[m].server, key)
      {
        assert Version(states[m + 1].server, key) == Version(states[m].server, key);
      }
      NextStepWatches(states[i], states[m], steps[m], c, r);
    }
  }

  /**
   The converse of `CommitsOnlyAsOwner`, over whole runs: a call whose expected values hold at its WATCH, and
   whose watched keys nothing modifies or refreshes until its EXEC, agrees at every read, is never dropped
   on the way, and has its batch applied.
   */
  lemma UntouchedCallCommits(states: seq<System>, steps: seq<Step>, c: ClientId, r: Request, i: nat, k: nat)
    requires Behaviour(states, steps) && i < k < |steps| && Undisturbed(states, steps, c, r, i, k)
    requires ChecksHold(states[i].server, r)
    ensures forall j | i < j <= k :: ClientAt(states[j], c).Running? && ClientAt(states[j], c).request == r
    ensures forall j | i < j < k && steps[j] == Read(c) ::
              ClientAt(states[j + 1], c).agreed == ClientAt(states[j], c).agreed + 1
    ensures Commits(states[k], steps[k]) && states[k + 1].server == Effect(states[k].server, r)
    ensures Applied(states[k].server, r, states[k + 1].server)
  {
    hide Checks, Watched, Inv, ChecksHold, Effect, Applied;
    forall j | i < j <= k
      ensures ClientAt(states[j], c).Running? && ClientAt(states[j], c).request == r
    {
      KeepsWatching(states, steps, c, r, i, k, j);
    }
    forall j | i < j < k && steps[j] == Read(c)
      ensures ClientAt(states[j + 1], c).agreed == ClientAt(states[j], c).agreed + 1
    {
      KeepsWatching(states, steps, c, r, i, k, j);
      InvHolds(states, steps, j);
      NextStepWatches(states[i], states[j], steps[j], c, r);
    }
    KeepsWatching(states, steps, c, r, i, k, k);
    InvHolds(states, steps, k);
    CommitApplies(states[k], steps[k]);
  }
}
