/**
 How long a kubeadm worker's bootstrap token lives (extendBootstrapToken and
 TokenRecheckInterval in internal/controllers/bootstrap/kubeadm.go, the cap in
 internal/controllers/bootstrap/kairosconfig_controller.go).

 Times are nanoseconds; an expiration is written as RFC 3339, in whole seconds.
*/
module KubeadmTokenTiming {
  import opened Wrappers
  import opened K0sTokenLifetime

  const REFRESH_CAP := 24 * HOUR
  const MIN_RECHECK := 10 * SECOND

  /** The share of the lifetime that is enough: ttl*5/6, in integers. */
  function Enough(ttl: nat): nat {
    ttl * 5 / 6
  }

  /** The expiration after a pass that reached the token; a missing or unreadable one is None. */
  function Refreshed(expires: Option<nat>, ttl: nat, now: nat): nat {
    if expires.Some? && expires.value > now + Enough(ttl) then expires.value else Trunc(now + ttl)
  }

  /** More than five sixths of the lifetime left is enough; otherwise the token gets a whole one, less
      the fraction of a second. */
  lemma RefreshedMeans(expires: Option<nat>, ttl: nat, now: nat)
    ensures var e := Refreshed(expires, ttl, now);
            if expires.Some? && 6 * (expires.value - now) > 5 * ttl then e == expires.value
            else e <= now + ttl < e + 1_000_000_000
  {
    TruncBounds(now + ttl);
  }

  /** The shortest lifetime whose sixth outweighs the fraction of a second RFC 3339 drops. */
  const SHORTEST_TTL: nat := 5_999_999_995

  lemma SixthOfSecond(ttl: nat)
    ensures ttl - Enough(ttl) >= SECOND <==> ttl >= SHORTEST_TTL
  {
  }

  /** After every pass the token outlives now + 5/6 of the lifetime, exactly when the lifetime is
      not shorter than that. */
  lemma OutlivesEnoughIff(ttl: nat)
    ensures (forall expires: Option<nat>, now: nat :: Refreshed(expires, ttl, now) > now + Enough(ttl)) <==> ttl >= SHORTEST_TTL
  {
    SixthOfSecond(ttl);
    if ttl >= SHORTEST_TTL {
      forall expires: Option<nat>, now: nat
        ensures Refreshed(expires, ttl, now) > now + Enough(ttl)
      {
        TruncBounds(now + ttl);
      }
    } else {
      var now := WorstMoment(ttl);
      assert Refreshed(None, ttl, now) <= now + Enough(ttl);
    }
  }

  /** A moment whose end of lifetime is a nanosecond short of the next second. */
  lemma WorstMoment(ttl: nat) returns (now: nat)
    ensures Trunc(now + ttl) == now + ttl - (SECOND - 1)
  {
    now := (ttl / SECOND + 1) * SECOND - 1 - ttl;
    now := now + SECOND;
    TruncWhole(0, ttl / SECOND + 1);
    assert now + ttl == SECOND - 1 + (ttl / SECOND + 1) * SECOND;
    TruncWhole(SECOND - 1, ttl / SECOND + 1);
  }

  /** A pass never brings the expiration forward. */
  lemma NeverEarlier(expires: nat, ttl: nat, now: nat)
    requires Trunc(expires) == expires
    ensures Refreshed(Some(expires), ttl, now) >= expires
    ensures Trunc(Refreshed(Some(expires), ttl, now)) == Refreshed(Some(expires), ttl, now)
  {
    if expires <= now + Enough(ttl) {
      assert expires <= now + ttl;
      TruncMonotone(expires, now + ttl);
      TruncTwice(now + ttl);
    }
  }

  lemma TruncMonotone(a: nat, b: nat)
    requires a <= b
    ensures Trunc(a) <= Trunc(b)
  {
  }

  lemma {:induction false} TruncTwice(t: nat)
    ensures Trunc(Trunc(t)) == Trunc(t)
  {
    TruncWhole(0, t / SECOND);
  }

  // ---- runs of passes ----

  /** The expiration after passes at these times. */
  function AfterPasses(expires: Option<nat>, ttl: nat, passes: seq<nat>): Option<nat> {
    if passes == [] then expires
    else Some(Refreshed(AfterPasses(expires, ttl, passes[..|passes| - 1]), ttl, passes[|passes| - 1]))
  }

  /** Passes no further apart than 5/6 of the lifetime never let the token lapse, at any moment up
      to the next one, whatever it expired at before. */
  lemma PassesKeepItAlive(expires: Option<nat>, ttl: nat, passes: seq<nat>, now: nat)
    requires ttl >= SHORTEST_TTL && passes != []
    requires passes[|passes| - 1] <= now <= passes[|passes| - 1] + Enough(ttl)
    ensures now < AfterPasses(expires, ttl, passes).value
  {
    OutlivesEnoughIff(ttl);
    var before := AfterPasses(expires, ttl, passes[..|passes| - 1]);
    assert Refreshed(before, ttl, passes[|passes| - 1]) > passes[|passes| - 1] + Enough(ttl);
  }

  /** On the in-place path, where a pass past the cap does nothing, the expiration stays within a
      day and one lifetime of the Machine's creation. */
  lemma {:induction false} StaysWithinCap(expires: nat, ttl: nat, created: nat, passes: seq<nat>)
    requires expires <= created + A_DAY + ttl
    requires forall i | 0 <= i < |passes| :: passes[i] <= created + A_DAY
    ensures AfterPasses(Some(expires), ttl, passes).Some?
    ensures AfterPasses(Some(expires), ttl, passes).value <= created + A_DAY + ttl
  {
    if passes != [] {
      var init := passes[..|passes| - 1];
      StaysWithinCap(expires, ttl, created, init);
      TruncBounds(passes[|passes| - 1] + ttl);
    }
  }

  /** TokenRecheckInterval. */
  function RecheckInterval(ttl: nat): nat {
    if ttl / 3 > MIN_RECHECK then ttl / 3 else MIN_RECHECK
  }

  /** Missing one recheck keeps within 5/6 of the lifetime exactly from 24 seconds up. */
  lemma OneMissIsSafeIff(ttl: nat)
    ensures 2 * RecheckInterval(ttl) <= Enough(ttl) <==> ttl >= 24_000_000_000
  {
  }

  lemma OneMissKeepsItAlive(expires: Option<nat>, ttl: nat, passes: seq<nat>, now: nat)
    requires ttl >= 24 * SECOND && passes != []
    requires passes[|passes| - 1] <= now <= passes[|passes| - 1] + 2 * RecheckInterval(ttl)
    ensures now < AfterPasses(expires, ttl, passes).value
  {
    OneMissIsSafeIff(ttl);
    PassesKeepItAlive(expires, ttl, passes, now);
  }

  /** Two rechecks missed in a row can let it lapse, for every lifetime: a token minted at s, a
      pass on time that found just enough left and did not extend it, and the third interval after
      that ends past the expiration. */
  lemma TwoMissesCanLapse(ttl: nat, now: nat) returns (s: nat)
    requires ttl >= 24 * SECOND && now >= ttl
    ensures s <= now <= s + RecheckInterval(ttl)
    ensures AfterPasses(None, ttl, [s, now]).Some?
    ensures now < AfterPasses(None, ttl, [s, now]).value <= now + 3 * RecheckInterval(ttl)
  {
    var expires := Trunc(now + Enough(ttl) + SECOND);
    TruncBounds(now + Enough(ttl) + SECOND);
    TruncTwice(now + Enough(ttl) + SECOND);
    s := expires - ttl;
    assert [s, now][..1] == [s] && [s][..0] == [];
    assert AfterPasses(None, ttl, []) == None;
    assert AfterPasses(None, ttl, [s]) == Some(expires);
  }
}
