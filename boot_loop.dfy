/** The boot-loop detector: `checkForDeviceReset` and the deferred
    `bootResetTask`, on the store alone, plus what a run of successive
    boots does to the persisted counter. */
module BootLoop {
  import opened Storage
  import opened Credentials

  const BootNs := "boot"
  const BootCountKey := "boot_count"

  /** The incremented count at which the stored identity is wiped. */
  const BootLoopThreshold := 4

  /** Delay before the deferred task writes 0 back to the counter. */
  const BootResetDelayMs := 4000

  /** The persisted counter, 0 when absent. */
  function StoredBootCount(store: Store): int
  {
    GetInt(store, BootNs, BootCountKey, 0)
  }

  /** What one `checkForDeviceReset` does to the store: the incremented
      count, the store right after the increment is written, whether the
      wipe-and-restart path is taken, and the store it leaves behind. */
  datatype BootCheck = BootCheck(count: int, incremented: Store, wiped: bool, final: Store)

  /** One boot check. `clearOk` is the result of the store's `clear`, which
      the code logs and otherwise ignores. */
  function CheckBoot(store: Store, clearOk: bool): (r: BootCheck)
    ensures r.count == StoredBootCount(store) + 1
    ensures StoredBootCount(r.incremented) == r.count
    ensures forall n, k :: n != BootNs || k != BootCountKey ==>
              Lookup(r.incremented, n, k) == Lookup(store, n, k)
    ensures r.wiped <==> r.count >= BootLoopThreshold
    ensures !r.wiped ==> r.final == r.incremented
    ensures r.wiped && clearOk ==>
              WiFiCredentials(r.final) == ("", "") && StoredBootCount(r.final) == 0 &&
              ApCredentials(r.final) == ApCredentials(store) &&
              OtaCredentials(r.final) == OtaCredentials(store)
    ensures r.wiped && !clearOk ==> r.final == r.incremented
  {
    var count := StoredBootCount(store) + 1;
    var incremented := PutInt(store, BootNs, BootCountKey, count);
    var wiped := count >= BootLoopThreshold;
    var final := if wiped && clearOk then Clear(incremented, {WifiNs, BootNs}) else incremented;
    assert wiped && clearOk ==> Lookup(final, ApNs, SsidKey) == Lookup(store, ApNs, SsidKey);
    assert wiped && clearOk ==> Lookup(final, ApNs, PasswordKey) == Lookup(store, ApNs, PasswordKey);
    assert wiped && clearOk ==> Lookup(final, OtaNs, HostNameKey) == Lookup(store, OtaNs, HostNameKey);
    assert wiped && clearOk ==> Lookup(final, OtaNs, PasswordKey) == Lookup(store, OtaNs, PasswordKey);
    BootCheck(count, incremented, wiped, final)
  }

  /** The durable writes of one boot check, in order: the increment first,
      then the clear when it succeeded. */
  function BootWrites(store: Store, clearOk: bool): (w: seq<Store>)
    ensures 1 <= |w| <= 2
    ensures w[0] == CheckBoot(store, clearOk).incremented
    ensures w[|w| - 1] == CheckBoot(store, clearOk).final
    ensures |w| == 2 ==> w[1] == Clear(CheckBoot(store, clearOk).incremented, {WifiNs, BootNs})
    ensures StoredBootCount(w[0]) == StoredBootCount(store) + 1
    ensures |w| == 2 <==> StoredBootCount(store) + 1 >= BootLoopThreshold && clearOk
  {
    var b := CheckBoot(store, clearOk);
    [b.incremented] + (if b.wiped && clearOk then [b.final] else [])
  }

  /** `bootResetTask`: writes the constant 0 to the counter. */
  function ResetBootCount(store: Store): (r: Store)
    ensures StoredBootCount(r) == 0
    ensures forall n, k :: n != BootNs || k != BootCountKey ==> Lookup(r, n, k) == Lookup(store, n, k)
  {
    PutInt(store, BootNs, BootCountKey, 0)
  }

  /** The deferred reset writes a constant, so running it twice is the same
      as running it once. */
  lemma ResetBootCountIdempotent(store: Store)
    ensures ResetBootCount(ResetBootCount(store)) == ResetBootCount(store)
  {
    var once := ResetBootCount(store);
    assert once[BootNs][BootCountKey := IntValue(0)] == once[BootNs];
  }

  /** One run of `checkForDeviceReset` and what follows it until the next
      one: whether the `clear` of a wipe succeeds, and whether some pending
      deferred reset, this check's own or one an earlier check spawned,
      writes 0 before the next boot check. The next check comes from a
      restart or, since `connect` runs the check, from a reconnect in
      `loop`, so an earlier check's reset can land between two later
      checks. Every reset writes the same 0 (`ResetBootCountIdempotent`),
      so only whether one ran in between matters. */
  datatype Boot = Boot(clearSucceeds: bool, outlivesGrace: bool)

  /** The store one boot check hands to the next. A wipe restarts at once,
      so no deferred reset runs on that path. */
  function AfterLifetime(store: Store, boot: Boot): (r: Store)
    ensures var count := StoredBootCount(store) + 1;
            count < BootLoopThreshold ==>
              StoredBootCount(r) == if boot.outlivesGrace then 0 else count
    ensures StoredBootCount(store) + 1 >= BootLoopThreshold ==>
              StoredBootCount(r) == if boot.clearSucceeds then 0 else StoredBootCount(store) + 1
  {
    var b := CheckBoot(store, boot.clearSucceeds);
    if !b.wiped && boot.outlivesGrace then ResetBootCount(b.final) else b.final
  }

  /** Across a boot check and its deferred reset, the access point and OTA
      pairs are kept, and the station pair is kept unless a wipe succeeded,
      which empties it. */
  lemma AfterLifetimeCredentials(store: Store, boot: Boot)
    ensures ApCredentials(AfterLifetime(store, boot)) == ApCredentials(store)
    ensures OtaCredentials(AfterLifetime(store, boot)) == OtaCredentials(store)
    ensures StoredBootCount(store) + 1 >= BootLoopThreshold && boot.clearSucceeds ==>
              WiFiCredentials(AfterLifetime(store, boot)) == ("", "")
    ensures StoredBootCount(store) + 1 < BootLoopThreshold || !boot.clearSucceeds ==>
              WiFiCredentials(AfterLifetime(store, boot)) == WiFiCredentials(store)
  {
    var b := CheckBoot(store, boot.clearSucceeds);
    if !b.wiped && boot.outlivesGrace {
      ResetKeepsCredentials(b.final);
    }
  }

  /** The deferred reset touches no credential. */
  lemma ResetKeepsCredentials(store: Store)
    ensures WiFiCredentials(ResetBootCount(store)) == WiFiCredentials(store)
    ensures ApCredentials(ResetBootCount(store)) == ApCredentials(store)
    ensures OtaCredentials(ResetBootCount(store)) == OtaCredentials(store)
  {
    var r := ResetBootCount(store);
    assert Lookup(r, WifiNs, SsidKey) == Lookup(store, WifiNs, SsidKey);
    assert Lookup(r, WifiNs, PasswordKey) == Lookup(store, WifiNs, PasswordKey);
    assert Lookup(r, ApNs, SsidKey) == Lookup(store, ApNs, SsidKey);
    assert Lookup(r, ApNs, PasswordKey) == Lookup(store, ApNs, PasswordKey);
    assert Lookup(r, OtaNs, HostNameKey) == Lookup(store, OtaNs, HostNameKey);
    assert Lookup(r, OtaNs, PasswordKey) == Lookup(store, OtaNs, PasswordKey);
  }

  /** The incremented count that each boot check of a run sees. */
  function CountsSeen(store: Store, boots: seq<Boot>): (r: seq<int>)
    ensures |r| == |boots|
    ensures boots != [] ==> r[0] == StoredBootCount(store) + 1
    decreases |boots|
  {
    if boots == [] then []
    else [StoredBootCount(store) + 1] + CountsSeen(AfterLifetime(store, boots[0]), boots[1..])
  }

  /** The counter one boot check leaves for the next, from the stored count
      alone: below the threshold it is the incremented count, or 0 once the
      deferred reset has run; at the threshold it is 0 after a successful
      clear and the incremented count after a failed one. */
  function NextCount(stored: int, boot: Boot): int
  {
    var count := stored + 1;
    if count < BootLoopThreshold then (if boot.outlivesGrace then 0 else count)
    else if boot.clearSucceeds then 0
    else count
  }

  /** The counts a run sees, computed on the counter alone. */
  function CountsFrom(stored: int, boots: seq<Boot>): (r: seq<int>)
    ensures |r| == |boots|
    decreases |boots|
  {
    if boots == [] then []
    else [stored + 1] + CountsFrom(NextCount(stored, boots[0]), boots[1..])
  }

  /** What a run of boot checks sees depends on the stored counter only:
      nothing else in the store influences the detector. */
  lemma {:induction false} CountsSeenByCounter(store: Store, boots: seq<Boot>)
    ensures CountsSeen(store, boots) == CountsFrom(StoredBootCount(store), boots)
    decreases |boots|
  {
    if boots != [] {
      var next := AfterLifetime(store, boots[0]);
      assert StoredBootCount(next) == NextCount(StoredBootCount(store), boots[0]);
      CountsSeenByCounter(next, boots[1..]);
    }
  }

  /** With no deferred reset landing between the checks, the counter climbs
      by one per check until a check sees the threshold. */
  lemma {:induction false} FastBootsClimb(store: Store, boots: seq<Boot>)
    requires StoredBootCount(store) >= 0
    requires forall i :: 0 <= i < |boots| ==> !boots[i].outlivesGrace
    ensures forall i :: 0 <= i < |boots| && StoredBootCount(store) + i < BootLoopThreshold ==>
              CountsSeen(store, boots)[i] == StoredBootCount(store) + i + 1
    decreases |boots|
  {
    if boots != [] {
      var c := StoredBootCount(store);
      var next := AfterLifetime(store, boots[0]);
      if c + 1 < BootLoopThreshold {
        assert StoredBootCount(next) == c + 1;
        FastBootsClimb(next, boots[1..]);
        forall i | 1 <= i < |boots| && c + i < BootLoopThreshold
          ensures CountsSeen(store, boots)[i] == c + i + 1
        {
          assert CountsSeen(store, boots)[i] == CountsSeen(next, boots[1..])[i - 1];
        }
      }
    }
  }

  /** Four consecutive boot checks with no deferred reset, of any earlier
      check, landing between them trigger the wipe, whatever non-negative
      count the run starts from. */
  lemma FourFastBootsWipe(store: Store, boots: seq<Boot>)
    requires StoredBootCount(store) >= 0
    requires |boots| == 4
    requires forall i :: 0 <= i < 4 ==> !boots[i].outlivesGrace
    ensures exists i :: 0 <= i < 4 && CountsSeen(store, boots)[i] >= BootLoopThreshold
  {
    var c := StoredBootCount(store);
    if c + 1 >= BootLoopThreshold {
      assert CountsSeen(store, boots)[0] >= BootLoopThreshold;
    } else {
      FastBootsClimb(store, boots);
      assert CountsSeen(store, boots)[3 - c] == 4;
    }
  }

  /** With every clear succeeding and no deferred reset, the counts cycle
      1, 2, 3, 4, 1, 2, ...: the wipe empties the boot namespace, so the
      next boot starts again from 0. */
  lemma FastBootsCycle(store: Store, boots: seq<Boot>)
    requires 0 <= StoredBootCount(store) < BootLoopThreshold
    requires forall i :: 0 <= i < |boots| ==> boots[i] == Boot(true, false)
    ensures forall i :: 0 <= i < |boots| ==>
              CountsSeen(store, boots)[i] == (StoredBootCount(store) + i) % BootLoopThreshold + 1
  {
    CountsSeenByCounter(store, boots);
    CountsCycle(StoredBootCount(store), boots);
  }

  /** The same cycle on the counter alone. */
  lemma {:induction false} CountsCycle(stored: int, boots: seq<Boot>)
    requires 0 <= stored < BootLoopThreshold
    requires forall i :: 0 <= i < |boots| ==> boots[i] == Boot(true, false)
    ensures forall i :: 0 <= i < |boots| ==>
              CountsFrom(stored, boots)[i] == (stored + i) % BootLoopThreshold + 1
    decreases |boots|
  {
    if boots != [] {
      assert boots[0] == Boot(true, false);
      var next := NextCount(stored, boots[0]);
      assert next == (stored + 1) % BootLoopThreshold;
      CountsCycle(next, boots[1..]);
      CycleCons(CountsFrom(stored, boots), CountsFrom(next, boots[1..]), stored);
    }
  }

  /** A count of c + 1 followed by a cycle from (c + 1) mod 4 is a cycle
      from c. */
  lemma CycleCons(counts: seq<int>, rest: seq<int>, c: int)
    requires counts == [c + 1] + rest
    requires 0 <= c < BootLoopThreshold
    requires forall j :: 0 <= j < |rest| ==>
               rest[j] == ((c + 1) % BootLoopThreshold + j) % BootLoopThreshold + 1
    ensures forall i :: 0 <= i < |counts| ==> counts[i] == (c + i) % BootLoopThreshold + 1
  {
    forall i | 1 <= i < |counts|
      ensures counts[i] == (c + i) % BootLoopThreshold + 1
    {
      assert counts[i] == rest[i - 1];
      ModShift(c, i);
    }
  }

  lemma ModShift(c: int, i: int)
    requires 0 <= c < BootLoopThreshold && 1 <= i
    ensures ((c + 1) % BootLoopThreshold + (i - 1)) % BootLoopThreshold == (c + i) % BootLoopThreshold
  {
  }

  /** When a deferred reset lands after every check, no check sees a count
      above 1. */
  lemma {:induction false} ForgivenBootsStayAtOne(store: Store, boots: seq<Boot>)
    requires StoredBootCount(store) == 0
    requires forall i :: 0 <= i < |boots| ==> boots[i].outlivesGrace
    ensures forall i :: 0 <= i < |boots| ==> CountsSeen(store, boots)[i] == 1
    decreases |boots|
  {
    if boots != [] {
      var next := AfterLifetime(store, boots[0]);
      assert StoredBootCount(next) == 0;
      ForgivenBootsStayAtOne(next, boots[1..]);
      forall i | 1 <= i < |boots|
        ensures CountsSeen(store, boots)[i] == 1
      {
        assert CountsSeen(store, boots)[i] == CountsSeen(next, boots[1..])[i - 1];
      }
    }
  }

  /** A wipe whose clear fails leaves the counter at or above the threshold,
      so the next boot takes the wipe path again. */
  lemma FailedClearRetriesWipe(store: Store, clearOk: bool)
    requires StoredBootCount(store) + 1 >= BootLoopThreshold
    requires !clearOk
    ensures CheckBoot(CheckBoot(store, clearOk).final, clearOk).wiped
  {
  }
}
