// The token bucket filter and the bound it enforces on every window of time.
module BurstFilter {

  datatype Decision = Neutral | Accept | Deny

  /** The number of grants between s and t, both included. */
  ghost function GrantsIn(grants: seq<real>, s: real, t: real): (n: nat)
    ensures n <= |grants|
  {
    if grants == [] then 0
    else
      var last := grants[|grants| - 1];
      GrantsIn(grants[..|grants| - 1], s, t) + if s <= last <= t then 1 else 0
  }

  lemma GrantsAppend(grants: seq<real>, g: real, s: real, t: real)
    ensures GrantsIn(grants + [g], s, t) == GrantsIn(grants, s, t) + if s <= g <= t then 1 else 0
  {
    assert (grants + [g])[..|grants|] == grants;
  }

  ghost predicate AllBefore(grants: seq<real>, t: real) {
    forall i :: 0 <= i < |grants| ==> grants[i] <= t
  }

  lemma {:induction false} NothingAfter(grants: seq<real>, last: real, s: real, t: real)
    requires AllBefore(grants, last)
    ensures last < s ==> GrantsIn(grants, s, t) == 0
    ensures last <= t ==> GrantsIn(grants, s, t) == GrantsIn(grants, s, last)
  {
    if grants != [] {
      NothingAfter(grants[..|grants| - 1], last, s, t);
    }
  }

  function Allowance(rate: real, maxBurst: real, s: real, t: real): real {
    maxBurst + rate * (t - s)
  }

  lemma AllowanceGrows(rate: real, maxBurst: real, s: real, t: real, u: real)
    requires rate > 0.0 && t <= u
    ensures Allowance(rate, maxBurst, s, u) == Allowance(rate, maxBurst, s, t) + (u - t) * rate
    ensures Allowance(rate, maxBurst, s, t) <= Allowance(rate, maxBurst, s, u)
    ensures s <= t ==> maxBurst <= Allowance(rate, maxBurst, s, t)
  {
    assert rate * (u - s) == rate * (t - s) + (u - t) * rate;
    assert (u - t) * rate >= 0.0;
    if s <= t {
      assert rate * (t - s) >= 0.0;
    }
  }

  /** One more grant at time now stays within the allowance of every window that ends
      there. */
  ghost predicate RoomForOne(rate: real, maxBurst: real, grants: seq<real>, start: real, now: real) {
    forall s :: start <= s <= now ==> GrantsIn(grants, s, now) as real + 1.0 <= Allowance(rate, maxBurst, s, now)
  }

  /** The tokens are what the tightest window ending at last leaves; from starts it. */
  ghost predicate Tight(
    rate: real, maxBurst: real, grants: seq<real>, start: real, last: real, tokens: real, from: real)
  {
    && start <= from <= last && AllBefore(grants, last)
    && 0.0 <= tokens <= maxBurst
    && GrantsIn(grants, from, last) as real + tokens == Allowance(rate, maxBurst, from, last)
    && forall s :: start <= s <= last ==>
        GrantsIn(grants, s, last) as real + tokens <= Allowance(rate, maxBurst, s, last)
  }

  /** Grants never exceed the burst plus the rate times the length of a window. */
  ghost predicate WithinBound(rate: real, maxBurst: real, grants: seq<real>, start: real) {
    forall s, t :: start <= s <= t ==> GrantsIn(grants, s, t) as real <= Allowance(rate, maxBurst, s, t)
  }

  function Refilled(rate: real, maxBurst: real, tokens: real, elapsed: real): real {
    var more := tokens + elapsed * rate;
    if more > maxBurst then maxBurst else more
  }

  lemma EmptyWindow(rate: real, maxBurst: real, t: real)
    ensures Allowance(rate, maxBurst, t, t) == maxBurst
  {
  }

  lemma RefillStaysBelow(
    rate: real, maxBurst: real, grants: seq<real>, start: real, last: real, tokens: real, from: real,
        now: real, s: real)
    requires rate > 0.0 && last <= now && Tight(rate, maxBurst, grants, start, last, tokens, from)
    requires start <= s <= now
    ensures GrantsIn(grants, s, now) as real + Refilled(rate, maxBurst, tokens, now - last)
         <= Allowance(rate, maxBurst, s, now)
  {
    NothingAfter(grants, last, s, now);
    if s <= last {
      AllowanceGrows(rate, maxBurst, s, last, now);
    } else {
      AllowanceGrows(rate, maxBurst, s, now, now);
    }
  }

  lemma Earned(rate: real, elapsed: real)
    requires rate > 0.0 && elapsed >= 0.0
    ensures elapsed * rate >= 0.0 && (elapsed == 0.0 ==> elapsed * rate == 0.0)
  {
  }

  lemma RefillStaysTight(
    rate: real, maxBurst: real, grants: seq<real>, start: real, last: real, tokens: real, from: real, now: real)
    returns (from': real)
    requires rate > 0.0 && last <= now && Tight(rate, maxBurst, grants, start, last, tokens, from)
    ensures Tight(rate, maxBurst, grants, start, now, Refilled(rate, maxBurst, tokens, now - last), from')
  {
    Earned(rate, now - last);
    forall s | start <= s <= now
      ensures GrantsIn(grants, s, now) as real + Refilled(rate, maxBurst, tokens, now - last)
           <= Allowance(rate, maxBurst, s, now)
    {
      RefillStaysBelow(rate, maxBurst, grants, start, last, tokens, from, now, s);
    }
    if tokens + (now - last) * rate > maxBurst {
      from' := now;
      assert now > last;
      NothingAfter(grants, last, now, now);
      EmptyWindow(rate, maxBurst, now);
    } else {
      from' := from;
      NothingAfter(grants, last, from, now);
      AllowanceGrows(rate, maxBurst, from, last, now);
    }
  }

  lemma GrantStaysTight(
    rate: real, maxBurst: real, grants: seq<real>, start: real, now: real, tokens: real, from: real)
    requires tokens >= 1.0 && Tight(rate, maxBurst, grants, start, now, tokens, from)
    ensures Tight(rate, maxBurst, grants + [now], start, now, tokens - 1.0, from)
  {
    GrantsAppend(grants, now, from, now);
    forall s | start <= s <= now
      ensures GrantsIn(grants + [now], s, now) as real + (tokens - 1.0) <= Allowance(rate, maxBurst, s, now)
    {
      GrantsAppend(grants, now, s, now);
    }
  }

  /** A token is there exactly when every window has room for one more grant. */
  lemma TokenMeansRoom(
    rate: real, maxBurst: real, grants: seq<real>, start: real, now: real, tokens: real, from: real)
    requires Tight(rate, maxBurst, grants, start, now, tokens, from)
    ensures tokens >= 1.0 <==> RoomForOne(rate, maxBurst, grants, start, now)
  {
  }

  lemma GrantStaysWithin(rate: real, maxBurst: real, grants: seq<real>, start: real, now: real)
    requires rate > 0.0 && AllBefore(grants, now)
    requires WithinBound(rate, maxBurst, grants, start) && RoomForOne(rate, maxBurst, grants, start, now)
    ensures WithinBound(rate, maxBurst, grants + [now], start)
  {
    forall s, t | start <= s <= t
      ensures GrantsIn(grants + [now], s, t) as real <= Allowance(rate, maxBurst, s, t)
    {
      GrantsAppend(grants, now, s, t);
      assert GrantsIn(grants, s, t) as real <= Allowance(rate, maxBurst, s, t);
      if s <= now <= t {
        NothingAfter(grants, now, s, t);
        AllowanceGrows(rate, maxBurst, s, now, t);
      }
    }
  }

  class BurstFilter {
    const level: int
    const rate: real
    const maxBurst: real
    const onMatch: Decision
    const onMismatch: Decision
    var tokens: real
    var last: real
    /** When it was made, when it granted, and where the tightest window starts. */
    ghost const start: real
    ghost var grants: seq<real>
    ghost var tightest: real

    ghost predicate Valid()
      reads this
    {
      && rate > 0.0
      && Tight(rate, maxBurst, grants, start, last, tokens, tightest)
      && WithinBound(rate, maxBurst, grants, start)
    }

    constructor (level: int, rate: real, maxBurst: nat, onMatch: Decision, onMismatch: Decision, now: real)
      requires rate > 0.0 && maxBurst > 0
      ensures Valid() && grants == [] && start == now && last == now && this.rate == rate
      ensures this.maxBurst == maxBurst as real && this.level == level
      ensures this.onMatch == onMatch && this.onMismatch == onMismatch
    {
      this.level, this.rate, this.maxBurst := level, rate, maxBurst as real;
      this.onMatch, this.onMismatch := onMatch, onMismatch;
      tokens, last, start, grants, tightest := maxBurst as real, now, now, [], now;
      new;
      forall s, t | start <= s <= t
        ensures GrantsIn(grants, s, t) as real <= Allowance(rate, this.maxBurst, s, t)
      {
        AllowanceGrows(rate, this.maxBurst, s, t, t);
      }
      forall s | start <= s <= last
        ensures GrantsIn(grants, s, last) as real + tokens <= Allowance(rate, this.maxBurst, s, last)
      {
        AllowanceGrows(rate, this.maxBurst, s, last, last);
      }
    }

    /** Decide: an event of a low level is granted exactly when the grants of every window
        since the filter was made, this one included, stay within burst plus rate times
        length. */
    method Decide(eventLevel: int, now: real) returns (decision: Decision, ghost granted: bool)
      requires Valid() && now >= last
      modifies this
      ensures Valid()
      ensures eventLevel > level ==> decision == Neutral && !granted && tokens == old(tokens) && last == old(last)
      ensures eventLevel <= level ==>
                && decision == (if granted then onMatch else onMismatch)
                && (granted <==> RoomForOne(rate, maxBurst, old(grants), start, now))
                && last == now
      ensures grants == if granted then old(grants) + [now] else old(grants)
    {
      granted := false;
      if eventLevel > level {
        return Neutral, false;
      }
      ghost var from := RefillStaysTight(rate, maxBurst, grants, start, last, tokens, tightest, now);
      var available := Refilled(rate, maxBurst, tokens, now - last);
      TokenMeansRoom(rate, maxBurst, grants, start, now, available, from);
      if available >= 1.0 {
        GrantStaysTight(rate, maxBurst, grants, start, now, available, from);
        GrantStaysWithin(rate, maxBurst, grants, start, now);
        tokens, last, tightest, grants := available - 1.0, now, from, grants + [now];
        return onMatch, true;
      }
      tokens, last, tightest := available, now, from;
      return onMismatch, false;
    }
  }
}
