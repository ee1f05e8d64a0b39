/**
 How long a k0s controller-join token lives (extendK0sJoinToken and the constants of
 internal/controllers/controlplane/ha_k0s_jointoken.go).

 Times are nanoseconds. Expirations and creation timestamps are written as RFC 3339, which
 drops the fraction of the second. The cluster's token cleaner deletes a token once it has
 expired.
*/
module K0sTokenLifetime {
  import opened Wrappers

  const SECOND: nat := 1_000_000_000
  const MINUTE: nat := 60 * SECOND
  const HOUR: nat := 60 * MINUTE

  const TTL := HOUR
  const RENEW_WITHIN := 30 * MINUTE
  const EXTEND_CAP := 24 * HOUR

  // What these come to, in nanoseconds.
  ghost const HALF_AN_HOUR: nat := 1_800_000_000_000
  ghost const AN_HOUR: nat := 3_600_000_000_000
  ghost const A_DAY: nat := 86_400_000_000_000

  /** What RFC 3339 keeps of a time. */
  function Trunc(t: nat): nat {
    t / SECOND * SECOND
  }

  lemma TruncBounds(t: nat)
    ensures Trunc(t) <= t < Trunc(t) + SECOND
  {
  }

  lemma {:induction false} TruncWhole(t: nat, n: nat)
    ensures Trunc(t + n * SECOND) == Trunc(t) + n * SECOND
  {
    assert (t + n * SECOND) / SECOND == t / SECOND + n;
  }

  /** The expiration of a token minted at `now`. */
  function Minted(now: nat): nat {
    Trunc(now + TTL)
  }

  /** The new expiration a maintenance pass writes, if any: inside the cap on the newest pending
      joiner's age, and only when less than RENEW_WITHIN is left. */
  function Extension(expires: nat, newest: nat, now: nat): Option<nat> {
    if now - newest >= EXTEND_CAP then None
    else if expires - now >= RENEW_WITHIN then None
    else Some(Trunc(now + TTL))
  }

  /** Each extension strictly increases the expiration. */
  lemma ExtensionIncreases(expires: nat, newest: nat, now: nat)
    requires Extension(expires, newest, now).Some?
    ensures Extension(expires, newest, now).value > expires && now + AN_HOUR < Extension(expires, newest, now).value + 1_000_000_000
  {
    TruncBounds(now + TTL);
  }

  /** No extension outlives the newest joiner's creation by more than 25 hours. */
  lemma ExtensionBounded(expires: nat, newest: nat, now: nat)
    requires Extension(expires, newest, now).Some?
    ensures Extension(expires, newest, now).value <= newest + 25 * HOUR
  {
    TruncBounds(now + TTL);
  }

  // ---- runs ----

  /** A maintenance pass that reached the token, one that failed before it changed anything, or
      the token cleaner. */
  datatype Step = Pass(at: nat) | Failed(at: nat) | Clean(at: nat)

  /** A token by its expiration; None once it is deleted. */
  function After(token: Option<nat>, newest: nat, steps: seq<Step>): Option<nat> {
    if steps == [] then token
    else
      var t := After(token, newest, steps[..|steps| - 1]);
      match (t, steps[|steps| - 1])
      case (None, _) => None
      case (Some(e), Pass(at)) => Some(Extension(e, newest, at).GetOr(e))
      case (Some(e), Failed(_)) => Some(e)
      case (Some(e), Clean(at)) => if e <= at then None else Some(e)
  }

  /** When a pass last reached the token, or it was issued. */
  function LastReach(issued: nat, steps: seq<Step>): nat {
    if steps == [] then issued
    else
      match steps[|steps| - 1]
      case Pass(at) => at
      case _ => LastReach(issued, steps[..|steps| - 1])
  }

  /** Passes reach the token less than half an hour apart, and before the joiner is a day old.
      Nothing else is asked of the steps between. */
  ghost predicate Paced(issued: nat, newest: nat, steps: seq<Step>) {
    forall i | 0 <= i < |steps| ::
      var last := LastReach(issued, steps[..i]);
      && last <= steps[i].at < last + HALF_AN_HOUR
      && (steps[i].Pass? ==> steps[i].at < newest + A_DAY)
  }

  lemma PacedPrefix(issued: nat, newest: nat, steps: seq<Step>)
    requires Paced(issued, newest, steps) && steps != []
    ensures Paced(issued, newest, steps[..|steps| - 1])
  {
    var init := steps[..|steps| - 1];
    forall i | 0 <= i < |init|
      ensures init[i] == steps[i] && init[..i] == steps[..i]
    {
    }
  }

  /** A joiner's token, issued with at least half an hour to live and maintained at that pace, is
      never deleted, and is unexpired at every moment up to the next pass. */
  lemma {:induction false} NeverLapses(issued: nat, expires: nat, newest: nat, steps: seq<Step>, now: nat)
    requires expires >= issued + HALF_AN_HOUR && Paced(issued, newest, steps)
    requires now < LastReach(issued, steps) + HALF_AN_HOUR
    ensures After(Some(expires), newest, steps).Some? && now < After(Some(expires), newest, steps).value
  {
    KeepsHalfHour(issued, expires, newest, steps);
  }

  lemma {:induction false} KeepsHalfHour(issued: nat, expires: nat, newest: nat, steps: seq<Step>)
    requires expires >= issued + HALF_AN_HOUR && Paced(issued, newest, steps)
    ensures var t := After(Some(expires), newest, steps);
            t.Some? && t.value >= LastReach(issued, steps) + HALF_AN_HOUR
  {
    if steps != [] {
      var init, s := steps[..|steps| - 1], steps[|steps| - 1];
      PacedPrefix(issued, newest, steps);
      KeepsHalfHour(issued, expires, newest, init);
      TruncBounds(s.at + TTL);
    }
  }

  /** The expiration only moves forward. */
  lemma {:induction false} NeverShortened(token: nat, newest: nat, steps: seq<Step>)
    ensures var t := After(Some(token), newest, steps); t.Some? ==> t.value >= token
  {
    if steps != [] {
      var init := steps[..|steps| - 1];
      NeverShortened(token, newest, init);
      var t, s := After(Some(token), newest, init), steps[|steps| - 1];
      if t.Some? && Extension(t.value, newest, s.at).Some? {
        ExtensionIncreases(t.value, newest, s.at);
      }
    }
  }

  /** A token minted no later than its Machine was created never outlives that creation by more
      than 25 hours, however long it is maintained. `created` is the moment, and the timestamp
      the passes read is its whole second. */
  lemma {:induction false} OutlivesByADay(minted: nat, created: nat, steps: seq<Step>)
    requires minted <= created
    ensures var t := After(Some(Minted(minted)), Trunc(created), steps); t.Some? ==> t.value <= created + A_DAY + AN_HOUR
  {
    TruncBounds(created);
    if steps == [] {
      TruncBounds(minted + TTL);
    } else {
      var init := steps[..|steps| - 1];
      OutlivesByADay(minted, created, init);
      var t, s := After(Some(Minted(minted)), Trunc(created), init), steps[|steps| - 1];
      if t.Some? && Extension(t.value, Trunc(created), s.at).Some? {
        ExtensionBounded(t.value, Trunc(created), s.at);
      }
    }
  }

  /** The pace cannot be relaxed: a pass 30 minutes after the last can find the token gone. */
  lemma HalfHourIsTooLong(issued: nat)
    ensures var expires, late := issued + HALF_AN_HOUR, issued + HALF_AN_HOUR;
            After(Some(expires), issued, [Pass(issued), Clean(late)]) == None
  {
    var expires := issued + RENEW_WITHIN;
    var first, steps := [Pass(issued)], [Pass(issued), Clean(expires)];
    assert steps[..1] == first && first[..0] == [];
    assert After(Some(expires), issued, []) == Some(expires);
    assert Extension(expires, issued, issued) == None;
    assert After(Some(expires), issued, first) == Some(expires);
  }
}
