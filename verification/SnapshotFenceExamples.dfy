/**
 A run in which an owner has lost the fence and its release still removes a key.

 The key is the scanner lease that its own claim set, and nothing else is removed
 (workers/redisSync.worker.js:167-171).

 The states are written out, so that each step can be read off.
 */
module SnapshotFenceExamples {
  import opened SnapshotFence
  import opened Wrappers

  const OWNER := "owner"
  const FENCE := Fence(OWNER, OWNER, true)
  const CLAIM := Claim(FENCE, None, None, None, false)
  const WATCHED := map[FenceKey := 0, ScannerKey := 0, MetricsKey := 0, ProgressKey := 0]
  const NO_KEYS := Server(map[], map[])
  const START := System(NO_KEYS, map[], {}, {})

  function Reading(n: nat): System {
    System(NO_KEYS, map[0 := Running(CLAIM, WATCHED, n)], {OWNER}, {})
  }

  const HELD := System(Server(map[FenceKey := OWNER, ScannerKey := OWNER], map[FenceKey := 1, ScannerKey := 1]),
                       map[0 := Idle], {OWNER}, {OWNER})
  const EXPIRED := HELD.(server := Server(map[ScannerKey := OWNER], map[FenceKey := 2, ScannerKey := 1]))
  const RELEASED := HELD.(server := Server(map[], map[FenceKey := 2, ScannerKey := 2]))

  /** The claim, its four reads and its EXEC; the fence expires; the owner releases. */
  const STEPS := [Start(0, CLAIM), Read(0), Read(0), Read(0), Read(0), Exec(0), Expire(FenceKey),
                  ReleaseFenceLease(FENCE)]
  const STATES := [START, Reading(0), Reading(1), Reading(2), Reading(3), Reading(4), HELD, EXPIRED, RELEASED]

  lemma Started()
    ensures Enabled(START, Start(0, CLAIM)) && After(START, Start(0, CLAIM)) == Reading(0)
  {
    assert Checks(CLAIM) == [Check(FenceKey, None), Check(ScannerKey, None), Check(MetricsKey, None),
                             Check(ProgressKey, None)];
    assert Watched(CLAIM) == WATCHED.Keys;
    assert (map k <- Watched(CLAIM) :: Version(NO_KEYS, k)) == WATCHED;
  }

  lemma ReadsOn(n: nat)
    requires n < 4
    ensures Enabled(Reading(n), Read(0)) && After(Reading(n), Read(0)) == Reading(n + 1)
  {
    assert Checks(CLAIM) == [Check(FenceKey, None), Check(ScannerKey, None), Check(MetricsKey, None),
                             Check(ProgressKey, None)];
  }

  lemma Claims()
    ensures Enabled(Reading(4), Exec(0)) && After(Reading(4), Exec(0)) == HELD
  {
    assert |Checks(CLAIM)| == 4;
    assert Unchanged(NO_KEYS, WATCHED);
  }

  lemma LosesFence()
    ensures After(HELD, Expire(FenceKey)) == EXPIRED && Lost(EXPIRED, OWNER)
  {
  }

  lemma LosesLease()
    ensures After(EXPIRED, ReleaseFenceLease(FENCE)) == RELEASED
  {
  }

  /** The owner is lost before the last step, which removes the scanner lease. */
  lemma LostReleaseRemovesItsLease()
    ensures Behaviour(STATES, STEPS) && Lost(STATES[7], FENCE.owner) && STEPS[7] == ReleaseFenceLease(FENCE)
    ensures ScannerKey in STATES[7].server.values && ScannerKey !in STATES[8].server.values
  {
    hide Enabled, After;
    Started();
    ReadsOn(0);
    ReadsOn(1);
    ReadsOn(2);
    ReadsOn(3);
    Claims();
    LosesFence();
    LosesLease();
    AlwaysEnabled(HELD, EXPIRED);
    forall i | 0 <= i < |STEPS| ensures Enabled(STATES[i], STEPS[i]) && STATES[i + 1] == After(STATES[i], STEPS[i]) {
      assert i == 0 || i == 1 || i == 2 || i == 3 || i == 4 || i == 5 || i == 6 || i == 7;
    }
  }

  lemma AlwaysEnabled(s: System, t: System)
    ensures Enabled(s, Expire(FenceKey)) && Enabled(t, ReleaseFenceLease(FENCE))
  {
  }
}
