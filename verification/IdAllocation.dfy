/**
 Sixteen-bit identifiers handed out in turn, zero skipped: the floor server's request and
 transaction ids. The search for a request id passes over the live ones; it ends exactly
 when some nonzero id is not live.
 */
module IdAllocation {
  import opened Octets

  /** How many identifiers there are, zero left out. */
  const CYCLE := 0xFFFF

  /** The identifier after `id`: wrapping, and never zero. */
  function After(id: U16): (next: U16)
    ensures next != 0
  {
    Max((id + 1) % 0x1_0000, 1)
  }

  /** The identifier `k` turns after `start`. */
  function Advance(start: U16, k: nat): (id: U16)
    requires start != 0
    ensures id != 0
  {
    (start - 1 + k) % CYCLE + 1
  }

  lemma AfterAdvances(start: U16, k: nat)
    requires start != 0
    ensures After(Advance(start, k)) == Advance(start, k + 1)
    ensures Advance(start, 0) == start
  {
    var a, q := (start - 1 + k) % CYCLE, (start - 1 + k) / CYCLE;
    assert start + k == q * CYCLE + a + 1;
    if a + 1 == CYCLE {
      assert (start + k) % CYCLE == 0;
    } else {
      assert (start + k) % CYCLE == a + 1;
    }
  }

  lemma AdvanceTwice(start: U16, j: nat, k: nat)
    requires start != 0
    ensures Advance(Advance(start, j), k) == Advance(start, j + k)
  {
    var q := (start - 1 + j) / CYCLE;
    assert start - 1 + j == q * CYCLE + (start - 1 + j) % CYCLE;
    ModShift((start - 1 + j) % CYCLE + k, q);
  }

  lemma {:induction false} ModShift(x: nat, q: nat)
    ensures (x + q * CYCLE) % CYCLE == x % CYCLE
  {
    if q > 0 {
      ModShift(x, q - 1);
      assert x + q * CYCLE == (x + (q - 1) * CYCLE) + CYCLE;
    }
  }

  /** Any 65535 consecutive identifiers are pairwise distinct, and the next repeats the first. */
  lemma CycleIsExact(start: U16, j: nat, k: nat)
    requires start != 0 && j < k <= j + CYCLE
    ensures Advance(start, j) == Advance(start, k) <==> k == j + CYCLE
  {
    if k == j + CYCLE {
      ModShift(start - 1 + j, 1);
    }
  }

  predicate HasFree(live: set<U16>) {
    exists id: U16 :: id != 0 && id !in live
  }

  /** `k` identifiers from `start` on are live and the one after them is not. */
  ghost predicate FirstGap(live: set<U16>, start: U16, k: nat)
    requires start != 0
  {
    Advance(start, k) !in live && forall j: nat :: j < k ==> Advance(start, j) in live
  }

  lemma {:induction false} FirstGapWithin(live: set<U16>, start: U16, k: nat)
    requires start != 0 && Advance(start, k) !in live
    ensures exists g: nat :: g <= k && FirstGap(live, start, g)
  {
    if j: nat :| j < k && Advance(start, j) !in live {
      FirstGapWithin(live, start, j);
    } else {
      assert FirstGap(live, start, k);
    }
  }

  /** Every nonzero identifier comes up within one cycle. */
  lemma Reaches(start: U16, id: U16) returns (k: nat)
    requires start != 0 && id != 0
    ensures k < CYCLE && Advance(start, k) == id
  {
    k := if id >= start then id - start else CYCLE - start + id;
    if id < start {
      ModShift(id - 1, 1);
    }
  }

  /** The search from `start` passes over fewer than a whole cycle of live identifiers. */
  ghost function Gap(live: set<U16>, start: U16): (k: nat)
    requires start != 0 && HasFree(live)
    ensures FirstGap(live, start, k) && k < CYCLE
  {
    GapExists(live, start);
    var k: nat :| FirstGap(live, start, k) && k < CYCLE;
    k
  }

  lemma GapExists(live: set<U16>, start: U16)
    requires start != 0 && HasFree(live)
    ensures exists k: nat :: FirstGap(live, start, k) && k < CYCLE
  {
    var id: U16 :| id != 0 && id !in live;
    var k := Reaches(start, id);
    FirstGapWithin(live, start, k);
  }

  /** The identifier the search finds: the first in turn that is not live. */
  ghost function Fresh(live: set<U16>, start: U16): (id: U16)
    requires start != 0 && HasFree(live)
    ensures id != 0 && id !in live
  {
    Advance(start, Gap(live, start))
  }

  /** The search stops where it starts when that identifier is not live. */
  lemma NoneIsPassedOver(live: set<U16>, start: U16)
    requires start != 0 && start !in live
    ensures HasFree(live) && Fresh(live, start) == start
  {
    var first := Advance(start, 0);
    assert first == start;
    assert FirstGap(live, start, Gap(live, start));
  }

  /** The search meets only live identifiers, for ever, exactly when none is free. */
  lemma EndlessExactlyWhen(live: set<U16>, start: U16)
    requires start != 0
    ensures !HasFree(live) <==> forall k: nat :: Advance(start, k) in live
  {
    if HasFree(live) {
      assert FirstGap(live, start, Gap(live, start));
    }
  }

  // ---- counting -------------------------------------------------------

  lemma {:induction false} CountUpTo(n: nat) returns (ids: set<U16>)
    requires n <= CYCLE
    ensures |ids| == n && forall id: U16 :: id in ids <==> 1 <= id <= n
  {
    if n == 0 {
      ids := {};
    } else {
      var fewer := CountUpTo(n - 1);
      ids := fewer + {n};
    }
  }

  lemma SubsetCounts<T>(a: set<T>, b: set<T>)
    requires a <= b
    ensures |a| <= |b|
  {
    assert b == a + (b - a);
  }

  /** Nonzero live identifiers leave one free exactly when there are fewer than a whole cycle. */
  lemma FreeExactlyWhen(live: set<U16>)
    requires 0 !in live
    ensures HasFree(live) <==> |live| < CYCLE
  {
    var all := CountUpTo(CYCLE);
    assert live <= all;
    SubsetCounts(live, all);
    if |live| < CYCLE {
      if !HasFree(live) {
        assert all <= live;
        SubsetCounts(all, live);
      }
    } else if HasFree(live) {
      var id: U16 :| id != 0 && id !in live;
      SubsetCounts(live + {id}, all);
    }
  }
}
