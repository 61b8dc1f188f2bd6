/**
 * Time as the firmware sees it: millis() is the uptime in milliseconds held
 * in a 32-bit unsigned long, so it wraps to 0 about every 49.7 days. The
 * firmware compares times only through the unsigned difference
 * `currentMillis - previousMillis`, which C++ computes modulo 2^32.
 */
module Clock {

  const MODULUS: int := 0x1_0000_0000

  /** An `unsigned long` on the ESP32 (32 bits). */
  type U32 = x: int | 0 <= x < MODULUS

  /** The scheduling interval of the periodic phase, in milliseconds. */
  const INTERVAL: U32 := 60000

  /** What millis() returns when the true uptime is t milliseconds. */
  function Millis(t: nat): (m: U32)
    ensures t < MODULUS ==> m == t
  {
    t % MODULUS
  }

  /** `now - prev` evaluated on two unsigned longs: the difference wraps. */
  function Elapsed(now: U32, prev: U32): (d: U32)
    ensures prev <= now ==> d == now - prev
    ensures now < prev ==> d == now - prev + MODULUS
  {
    (now - prev) % MODULUS
  }

  /**
   * The gate of the periodic phase: at least INTERVAL ms from the previous
   * reading forward to the current one, counting through a wrap.
   */
  predicate Due(now: U32, prev: U32)
    ensures prev <= now ==> (Due(now, prev) <==> now - prev >= INTERVAL)
    ensures now < prev ==> (Due(now, prev) <==> now + MODULUS - prev >= INTERVAL)
  {
    Elapsed(now, prev) >= INTERVAL
  }

  /**
   * Rollover safety: as long as fewer than 2^32 ms pass between the two
   * readings, the wrapped difference of the millis() values is the true
   * elapsed time, even when millis() rolled over in between.
   */
  lemma {:induction false} ElapsedIsTrueElapsed(t0: nat, t1: nat)
    requires t0 <= t1 < t0 + MODULUS
    ensures Elapsed(Millis(t1), Millis(t0)) == t1 - t0
  {
    var q := t0 / MODULUS;
    var a := t0 % MODULUS;
    assert t0 == q * MODULUS + a;
    if a + (t1 - t0) < MODULUS {
      assert t1 == q * MODULUS + (a + (t1 - t0));
      assert Millis(t1) == a + (t1 - t0);
    } else {
      assert t1 == (q + 1) * MODULUS + (a + (t1 - t0) - MODULUS);
      assert Millis(t1) == a + (t1 - t0) - MODULUS;
    }
  }

  /**
   * However long the gap, the wrapped difference of two millis() readings
   * never exceeds the true time between them: a gap that hides whole wraps
   * can only make the gate late, never early.
   */
  lemma {:induction false} ElapsedAtMostTrue(t0: nat, t1: nat)
    requires t0 <= t1
    ensures Elapsed(Millis(t1), Millis(t0)) <= t1 - t0
  {
    var k0, k1 := t0 / MODULUS, t1 / MODULUS;
    assert Millis(t1) - Millis(t0) == (t1 - t0) + (k0 - k1) * MODULUS;
    assert Elapsed(Millis(t1), Millis(t0)) == (t1 - t0) % MODULUS;
  }

  /**
   * The periodic phase fires exactly when at least INTERVAL ms of true time
   * have passed since the last firing, across any rollover of millis().
   */
  lemma DueIffIntervalPassed(lastFired: nat, now: nat)
    requires lastFired <= now < lastFired + MODULUS
    ensures Due(Millis(now), Millis(lastFired)) <==> now - lastFired >= INTERVAL
  {
    ElapsedIsTrueElapsed(lastFired, now);
  }

  /**
   * previousMillis starts at 0, so during the first 2^32 ms of uptime the
   * first firing cannot come before millis 60000.
   */
  lemma FirstFiringNotBeforeInterval(now: nat)
    requires now < MODULUS
    ensures Due(Millis(now), 0) <==> now >= INTERVAL
  {
    ElapsedIsTrueElapsed(0, now);
  }

  predicate Sorted(ticks: seq<nat>) {
    forall i, j :: 0 <= i < j < |ticks| ==> ticks[i] <= ticks[j]
  }

  /**
   * The true uptimes at which the periodic phase fires, when the last
   * firing (or boot) was at true time `last` and loop() runs at the true
   * times `ticks`.
   */
  function Firings(last: nat, ticks: seq<nat>): (f: seq<nat>)
    decreases |ticks|
    ensures |f| <= |ticks|
    ensures forall k :: 0 <= k < |f| ==> f[k] in ticks
  {
    if ticks == [] then []
    else
      var fired := Due(Millis(ticks[0]), Millis(last));
      var later := Firings(if fired then ticks[0] else last, ticks[1..]);
      assert forall x :: x in ticks[1..] ==> x in ticks;
      if fired then [ticks[0]] + later else later
  }

  /**
   * Over a sorted run of any length, across any number of rollovers of
   * millis() and whatever the gaps between ticks, consecutive firings are
   * at least INTERVAL ms of true time apart and the first one is at least
   * INTERVAL after `last`.
   */
  lemma {:induction false} FiringsAreSpaced(last: nat, ticks: seq<nat>)
    requires Sorted(ticks)
    requires |ticks| > 0 ==> last <= ticks[0]
    decreases |ticks|
    ensures var f := Firings(last, ticks);
      && (|f| > 0 ==> f[0] >= last + INTERVAL)
      && (forall k :: 0 < k < |f| ==> f[k] >= f[k - 1] + INTERVAL)
  {
    if ticks != [] {
      var t, rest := ticks[0], ticks[1..];
      ElapsedAtMostTrue(last, t);
      var fired := Due(Millis(t), Millis(last));
      var next := if fired then t else last;
      assert fired ==> t >= last + INTERVAL;
      assert Firings(last, ticks) == (if fired then [t] else []) + Firings(next, rest);
      assert Sorted(rest);
      if rest != [] {
        assert rest[0] == ticks[1];
        assert next <= rest[0];
      }
      FiringsAreSpaced(next, rest);
    }
  }
}
