/** The requests-per-minute limiter, over exact real time in seconds. */
module TokenBucket {
  /** The bucket as a value. */
  datatype State = State(capacity: nat, tokens: real, lastRefill: real)

  /** Tokens per second. */
  function Rate(s: State): real {
    s.capacity as real / 60.0
  }

  predicate Valid(s: State) {
    0.0 <= s.tokens <= s.capacity as real
  }

  /** Time measured by a monotonic clock; a reading before the last refill counts as none passed. */
  function Elapsed(s: State, now: real): real {
    if now < s.lastRefill then 0.0 else now - s.lastRefill
  }

  function Min(a: real, b: real): real {
    if a <= b then a else b
  }

  function Refilled(s: State, now: real): State {
    s.(tokens := Min(s.tokens + Elapsed(s, now) * Rate(s), s.capacity as real), lastRefill := now)
  }

  /** `Stuck` is the division by a zero refill rate: no finite wait exists. */
  datatype Reply = Granted | Wait(seconds: real) | Stuck

  function TryAcquire(s: State, now: real): (Reply, State) {
    var r := Refilled(s, now);
    if r.tokens >= 1.0 then (Granted, r.(tokens := r.tokens - 1.0))
    else if s.capacity == 0 then (Stuck, r)
    else (Wait((1.0 - r.tokens) / Rate(s)), r)
  }

  class Bucket {
    const capacity: nat
    const refillRate: real
    var tokens: real
    var lastRefill: real

    ghost function View(): State
      reads this
    {
      State(capacity, tokens, lastRefill)
    }

    constructor (requestsPerMinute: nat, now: real)
      ensures View() == State(requestsPerMinute, requestsPerMinute as real, now)
      ensures refillRate == Rate(View()) && Valid(View())
    {
      capacity := requestsPerMinute;
      refillRate := requestsPerMinute as real / 60.0;
      tokens := requestsPerMinute as real;
      lastRefill := now;
    }

    method Refill(now: real)
      requires refillRate == Rate(View())
      modifies this
      ensures View() == Refilled(old(View()), now)
    {
      var elapsed := if now < lastRefill then 0.0 else now - lastRefill;
      tokens := Min(tokens + elapsed * refillRate, capacity as real);
      lastRefill := now;
    }

    method Try(now: real) returns (reply: Reply)
      requires refillRate == Rate(View())
      modifies this
      ensures (reply, View()) == TryAcquire(old(View()), now)
      ensures var elapsed := if now < old(lastRefill) then 0.0 else now - old(lastRefill);
              var full := old(tokens) + elapsed * (capacity as real / 60.0);
              var held := if full <= capacity as real then full else capacity as real;
              && lastRefill == now
              && (reply == Granted <==> held >= 1.0)
              && tokens == (if reply == Granted then held - 1.0 else held)
              && (reply == Stuck <==> held < 1.0 && capacity == 0)
              && (reply.Wait? ==> reply.seconds * (capacity as real / 60.0) == 1.0 - held)
    {
      Refill(now);
      if tokens >= 1.0 {
        tokens := tokens - 1.0;
        return Granted;
      }
      if capacity == 0 { return Stuck; }
      return Wait((1.0 - tokens) / refillRate);
    }

    /** A lone caller that sleeps as long as it was told, or `overslept` longer. With a limit above
        zero it asks at most twice; with none the division by zero ends the call. */
    method Acquire(now: real, overslept: real) returns (ok: bool, granted: real, tries: nat)
      requires refillRate == Rate(View()) && Valid(View()) && overslept >= 0.0
      modifies this
      ensures Valid(View()) && (ok <==> capacity >= 1)
      ensures var (reply, s) := old(TryAcquire(View(), now));
              match reply
              case Granted => ok && tries == 1 && granted == now && View() == s
              case Wait(seconds) =>
                && ok && tries == 2 && granted == now + (seconds + overslept)
                && TryAcquire(s, granted) == (Granted, View())
              case Stuck => !ok && tries == 1 && View() == s
    {
      granted, tries := now, 1;
      ghost var s := View();
      var reply := Try(now);
      StaysValid(s, now);
      ghost var first := (reply, View());
      while reply.Wait?
        invariant 1 <= tries <= 2 && Valid(View()) && refillRate == Rate(View())
        invariant tries == 1 ==> reply == first.0 && View() == first.1 && granted == now
        invariant reply.Wait? ==> tries == 1
        invariant tries == 2 ==>
                    && reply == Granted && first.0.Wait?
                    && granted == now + (first.0.seconds + overslept)
                    && TryAcquire(first.1, granted) == (Granted, View())
        decreases 2 - tries
      {
        granted := granted + (reply.seconds + overslept);
        tries := tries + 1;
        s := View();
        WaitSuffices(s, reply.seconds, granted);
        StaysValid(s, granted);
        reply := Try(granted);
      }
      ok := reply == Granted;
    }
  }

  lemma ProductNonNegative(a: real, b: real)
    requires a >= 0.0 && b >= 0.0
    ensures a * b >= 0.0
  {
  }

  lemma StaysValid(s: State, now: real)
    requires Valid(s)
    ensures Valid(TryAcquire(s, now).1)
    ensures var (reply, t) := TryAcquire(s, now);
            reply.Wait? ==> reply.seconds >= 0.0 && reply.seconds * Rate(s) == 1.0 - t.tokens
  {
    ProductNonNegative(Elapsed(s, now), Rate(s));
  }

  /** Waiting at least `seconds` fills the bucket up to one token. */
  lemma WaitSuffices(s: State, seconds: real, now: real)
    requires Valid(s) && s.capacity >= 1 && seconds >= 0.0
    requires seconds * Rate(s) == 1.0 - s.tokens && now >= s.lastRefill + seconds
    ensures TryAcquire(s, now).0 == Granted
  {
    assert Elapsed(s, now) >= seconds;
    ProductNonNegative(Elapsed(s, now) - seconds, Rate(s));
    assert Elapsed(s, now) * Rate(s) == seconds * Rate(s) + (Elapsed(s, now) - seconds) * Rate(s);
  }

  /** Only a limit of zero requests leaves a caller without a finite wait. */
  lemma StuckExactlyWhenZero(s: State, now: real)
    requires Valid(s)
    ensures TryAcquire(s, now).0 == Stuck <==> s.capacity == 0
  {
  }

  // ---------- Bursts ----------

  /** The bucket after calls at the given times. */
  function Served(s: State, times: seq<real>): State
    decreases |times|
  {
    if times == [] then s else Served(TryAcquire(s, times[0]).1, times[1..])
  }

  function Grants(s: State, times: seq<real>): nat
    decreases |times|
  {
    if times == [] then 0 else
    var (reply, t) := TryAcquire(s, times[0]);
    (if reply == Granted then 1 else 0) + Grants(t, times[1..])
  }

  predicate NonDecreasing(times: seq<real>) {
    forall i, j :: 0 <= i < j < |times| ==> times[i] <= times[j]
  }

  lemma {:induction false} ServedIsValid(s: State, times: seq<real>)
    requires Valid(s)
    ensures Valid(Served(s, times)) && Served(s, times).capacity == s.capacity
    decreases |times|
  {
    if times != [] {
      StaysValid(s, times[0]);
      ServedIsValid(TryAcquire(s, times[0]).1, times[1..]);
    }
  }

  /** The tokens that flow in from time `a` to time `b`. */
  function Inflow(capacity: nat, a: real, b: real): real {
    (b - a) * (capacity as real / 60.0)
  }

  lemma InflowAdds(capacity: nat, a: real, b: real, c: real)
    ensures Inflow(capacity, a, c) == Inflow(capacity, a, b) + Inflow(capacity, b, c)
    ensures Inflow(capacity, a, a) == 0.0
  {
  }

  lemma OneCall(s: State, now: real)
    requires Valid(s)
    ensures var (reply, t) := TryAcquire(s, now);
            var granted := if reply == Granted then 1.0 else 0.0;
            && Valid(t) && t.lastRefill == now && t.capacity == s.capacity
            && granted + t.tokens <= s.capacity as real
            && (s.lastRefill <= now ==> granted + t.tokens <= s.tokens + Inflow(s.capacity, s.lastRefill, now))
  {
    StaysValid(s, now);
  }

  /** Grants are paid for by the tokens at hand and the tokens that flow in. */
  lemma {:induction false} GrantsArePaid(s: State, times: seq<real>)
    requires Valid(s) && NonDecreasing(times) && times != [] && s.lastRefill <= times[0]
    ensures Grants(s, times) as real + Served(s, times).tokens
            <= s.tokens + Inflow(s.capacity, s.lastRefill, times[|times| - 1])
    decreases |times|
  {
    OneCall(s, times[0]);
    hide TryAcquire, Inflow;
    if |times| == 1 {
      assert times[1..] == [];
    } else {
      GrantsArePaid(TryAcquire(s, times[0]).1, times[1..]);
      InflowAdds(s.capacity, s.lastRefill, times[0], times[|times| - 1]);
    }
  }

  /** The same from the first call on, whatever was in the bucket. */
  lemma GrantsFromFirstCall(s: State, times: seq<real>)
    requires Valid(s) && NonDecreasing(times) && times != []
    ensures Grants(s, times) as real <= s.capacity as real + Inflow(s.capacity, times[0], times[|times| - 1])
  {
    OneCall(s, times[0]);
    InflowAdds(s.capacity, times[0], times[0], times[0]);
    hide TryAcquire, Inflow;
    var t := TryAcquire(s, times[0]).1;
    if |times| > 1 {
      GrantsArePaid(t, times[1..]);
      ServedIsValid(t, times[1..]);
    } else {
      assert times[1..] == [];
    }
  }

  /** In any stretch of calls, whatever came before it, at most `capacity` plus the rate times the
      length of the stretch are granted; and the tokens stay between zero and the capacity. */
  lemma WindowBound(s: State, times: seq<real>, i: nat, j: nat)
    requires Valid(s) && NonDecreasing(times) && i < j <= |times|
    ensures Valid(Served(s, times[..i]))
    ensures Grants(Served(s, times[..i]), times[i..j]) as real
            <= s.capacity as real + (times[j - 1] - times[i]) * Rate(s)
  {
    hide Served, Grants;
    ServedIsValid(s, times[..i]);
    GrantsFromFirstCall(Served(s, times[..i]), times[i..j]);
  }

  lemma {:induction false} ZeroNeverGrants(s: State, times: seq<real>)
    requires Valid(s) && s.capacity == 0
    ensures Grants(s, times) == 0
    decreases |times|
  {
    if times != [] {
      StuckExactlyWhenZero(s, times[0]);
      StaysValid(s, times[0]);
      ZeroNeverGrants(TryAcquire(s, times[0]).1, times[1..]);
    }
  }

  /** A limit of zero starves every caller for ever, and no other limit does. */
  lemma StarvesExactlyWhenZero(s: State)
    requires Valid(s)
    ensures (forall times :: Grants(s, times) == 0) <==> s.capacity == 0
  {
    if s.capacity == 0 {
      forall times ensures Grants(s, times) == 0 {
        ZeroNeverGrants(s, times);
      }
    } else {
      var later := s.lastRefill + 60.0;
      assert Elapsed(s, later) * Rate(s) == s.capacity as real;
      assert TryAcquire(s, later).0 == Granted;
      assert Grants(s, [later]) >= 1;
    }
  }

  // ---------- Competing callers ----------

  /** Counting from call `j` on, one more grant at `now` stays within capacity and inflow. */
  ghost predicate FitsWindow(s: State, times: seq<real>, j: nat, now: real)
    requires j < |times|
  {
    1.0 + Grants(Served(s, times[..j]), times[j..]) as real <= s.capacity as real + Inflow(s.capacity, times[j], now)
  }

  /** One more grant at `now` is paid for by the first tokens, and fits the window of every call. */
  ghost predicate Affordable(s: State, times: seq<real>, now: real) {
    && s.capacity >= 1
    && 1.0 + Grants(s, times) as real <= s.tokens + Inflow(s.capacity, s.lastRefill, now)
    && forall j :: 0 <= j < |times| ==> FitsWindow(s, times, j, now)
  }

  lemma FirstCallPays(s: State, first: real, now: real, others: nat)
    requires Valid(s) && s.lastRefill <= first <= now
    ensures var (reply, t) := TryAcquire(s, first);
            var granted := if reply == Granted then 1.0 else 0.0;
            && t.capacity == s.capacity && t.lastRefill == first && Valid(t)
            && (1.0 + others as real <= t.tokens + Inflow(s.capacity, first, now) <==>
                  && 1.0 + granted + others as real <= s.tokens + Inflow(s.capacity, s.lastRefill, now)
                  && 1.0 + granted + others as real <= s.capacity as real + Inflow(s.capacity, first, now))
  {
    StaysValid(s, first);
    InflowAdds(s.capacity, s.lastRefill, first, now);
  }

  lemma WindowAfterFirst(s: State, times: seq<real>, j: nat, now: real)
    requires 0 < j < |times|
    ensures var t := TryAcquire(s, times[0]).1;
            t.capacity == s.capacity && (FitsWindow(s, times, j, now) <==> FitsWindow(t, times[1..], j - 1, now))
  {
    assert times[..j][1..] == times[1..][..j - 1] && times[..j][0] == times[0];
    assert times[j..] == times[1..][j - 1..];
  }

  lemma ServedUnfolds(s: State, times: seq<real>)
    requires times != []
    ensures var (reply, t) := TryAcquire(s, times[0]);
            && Served(s, times) == Served(t, times[1..])
            && Grants(s, times) == (if reply == Granted then 1 else 0) + Grants(t, times[1..])
  {
    hide TryAcquire;
  }

  lemma AffordableUnfolds(s: State, times: seq<real>, now: real)
    requires Valid(s) && times != [] && s.lastRefill <= times[0] <= now
    ensures Affordable(s, times, now) <==> Affordable(TryAcquire(s, times[0]).1, times[1..], now)
  {
    var t, rest := TryAcquire(s, times[0]).1, times[1..];
    FirstCallPays(s, times[0], now, Grants(t, rest));
    ServedUnfolds(s, times);
    FirstWindow(s, times, now);
    forall j | 0 < j < |times| ensures FitsWindow(s, times, j, now) <==> FitsWindow(t, rest, j - 1, now) {
      WindowAfterFirst(s, times, j, now);
    }
    hide FitsWindow, TryAcquire, Inflow, Grants, Valid;
    if Affordable(s, times, now) {
      forall j | 0 <= j < |rest| ensures FitsWindow(t, rest, j, now) {
        assert FitsWindow(s, times, j + 1, now);
      }
    }
  }

  lemma FirstWindow(s: State, times: seq<real>, now: real)
    requires times != []
    ensures FitsWindow(s, times, 0, now) <==>
            1.0 + Grants(s, times) as real <= s.capacity as real + Inflow(s.capacity, times[0], now)
  {
    assert times[..0] == [] && times[0..] == times;
    hide Inflow, TryAcquire;
  }

  lemma OrderedTail(times: seq<real>, now: real)
    requires times != [] && NonDecreasing(times + [now])
    ensures times[0] <= now && NonDecreasing(times[1..] + [now]) && (times[1..] + [now])[0] >= times[0]
  {
    var all, rest := times + [now], times[1..] + [now];
    assert all[|times|] == now && all[0] == times[0];
    assert forall i :: 0 <= i < |rest| ==> rest[i] == all[i + 1];
  }

  /** After any calls by anyone, a call is granted exactly when it is affordable. */
  lemma {:induction false} GrantedExactlyWhenAffordable(s: State, times: seq<real>, now: real)
    requires Valid(s) && NonDecreasing(times + [now]) && (times + [now])[0] >= s.lastRefill
    ensures TryAcquire(Served(s, times), now).0 == Granted <==> Affordable(s, times, now)
    decreases |times|
  {
    if times != [] {
      hide TryAcquire, Inflow, FitsWindow, Affordable, NonDecreasing;
      OrderedTail(times, now);
      OneCall(s, times[0]);
      ServedUnfolds(s, times);
      AffordableUnfolds(s, times, now);
      GrantedExactlyWhenAffordable(TryAcquire(s, times[0]).1, times[1..], now);
    }
  }

  lemma InflowOver(s: State, seconds: real)
    ensures Inflow(s.capacity, s.lastRefill, s.lastRefill + seconds) == seconds * Rate(s)
  {
    assert s.lastRefill + seconds - s.lastRefill == seconds;
  }

  /** A caller that was told to wait tries again, late or in time, after others asked meanwhile. It is
      granted exactly when the others' grants are no more than what flowed in since the told time, and
      with its own fit the window of each of their calls. */
  lemma RetryGrantedExactlyWhen(s: State, seconds: real, times: seq<real>, now: real)
    requires Valid(s) && s.capacity >= 1 && seconds * Rate(s) == 1.0 - s.tokens
    requires NonDecreasing(times + [now]) && (times + [now])[0] >= s.lastRefill
    ensures TryAcquire(Served(s, times), now).0 == Granted <==>
            && Grants(s, times) as real <= Inflow(s.capacity, s.lastRefill + seconds, now)
            && forall j :: 0 <= j < |times| ==> FitsWindow(s, times, j, now)
  {
    GrantedExactlyWhenAffordable(s, times, now);
    InflowAdds(s.capacity, s.lastRefill, s.lastRefill + seconds, now);
    InflowOver(s, seconds);
    hide TryAcquire, Inflow, FitsWindow, Served, Grants, Rate;
  }
}
