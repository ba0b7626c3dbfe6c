/** Token bucket rate limiter (shared/rate_limit.py). */
module TokenBucket {
  import opened Common
  import opened Pnl

  /** The bucket's fields as a value. */
  datatype State = State(rate: real, capacity: real, tokens: real, updatedAt: real) {
    predicate Valid() {
      rate > 0.0 && 0.0 <= tokens <= capacity && capacity > 0.0
    }
  }

  function Refill(b: State, now: real): State {
    if now <= b.updatedAt then b
    else b.(tokens := Min(b.capacity, b.tokens + Product(now - b.updatedAt, b.rate)), updatedAt := now)
  }

  predicate Grants(b: State, tokens: real, now: real) {
    tokens <= Refill(b, now).tokens
  }

  function Acquire(b: State, tokens: real, now: real): State {
    var r := Refill(b, now);
    if tokens <= r.tokens then r.(tokens := r.tokens - tokens) else r
  }

  function Wait(b: State, tokens: real, now: real): real
    requires b.rate > 0.0
  {
    var r := Refill(b, now);
    if tokens <= r.tokens then 0.0 else (tokens - r.tokens) / r.rate
  }

  /** A call on the bucket with the clock reading it was given. */
  datatype Call =
    | RefillAt(now: real)
    | TryAcquireAt(tokens: real, now: real)
    | SecondsUntilAt(tokens: real, now: real)

  /** The bucket after a call; a request for a non-positive amount raises before any effect. */
  function Step(b: State, c: Call): State {
    match c
    case RefillAt(now) => Refill(b, now)
    case TryAcquireAt(tokens, now) => if tokens <= 0.0 then b else Acquire(b, tokens, now)
    case SecondsUntilAt(tokens, now) => if tokens <= 0.0 then b else Refill(b, now)
  }

  /** The tokens a call hands out. */
  function GrantedBy(b: State, c: Call): real {
    if c.TryAcquireAt? && c.tokens > 0.0 && Grants(b, c.tokens, c.now) then c.tokens else 0.0
  }

  function After(b: State, calls: seq<Call>): State {
    if calls == [] then b else Step(After(b, calls[..|calls| - 1]), calls[|calls| - 1])
  }

  /** All the tokens handed out over a sequence of calls. */
  function Granted(b: State, calls: seq<Call>): real {
    if calls == [] then 0.0
    else Granted(b, calls[..|calls| - 1]) + GrantedBy(After(b, calls[..|calls| - 1]), calls[|calls| - 1])
  }

  // ---------------------------------------------------------------- whole-run bound

  lemma ElapsedAdds(x: real, y: real, rate: real)
    ensures Product(x + y, rate) == Product(x, rate) + Product(y, rate)
    ensures x >= 0.0 && rate >= 0.0 ==> Product(x, rate) >= 0.0
    ensures Product(0.0, rate) == 0.0
  {
  }

  lemma RefillIsBounded(b: State, now: real)
    requires b.Valid()
    ensures var r := Refill(b, now);
            && r.Valid() && r.rate == b.rate && r.capacity == b.capacity
            && b.updatedAt <= r.updatedAt && b.tokens <= r.tokens
            && r.tokens <= b.tokens + Product(r.updatedAt - b.updatedAt, b.rate)
  {
    hide Product;
    ElapsedAdds(now - b.updatedAt, 0.0, b.rate);
  }

  lemma StepIsBounded(b: State, c: Call)
    requires b.Valid()
    ensures var r := Step(b, c);
            && r.Valid() && r.rate == b.rate && r.capacity == b.capacity && b.updatedAt <= r.updatedAt
            && GrantedBy(b, c) + r.tokens <= b.tokens + Product(r.updatedAt - b.updatedAt, b.rate)
  {
    hide Product;
    RefillIsBounded(b, c.now);
    ElapsedAdds(0.0, 0.0, b.rate);
  }

  /** Over any calls, with clock readings in any order, the tokens handed out and those left are
      at most the tokens at the start plus what the bucket's own clock has earned. */
  lemma {:induction false} RunConservesTokens(b: State, calls: seq<Call>)
    requires b.Valid()
    ensures var r := After(b, calls);
            && r.Valid() && r.rate == b.rate && r.capacity == b.capacity && b.updatedAt <= r.updatedAt
            && Granted(b, calls) + r.tokens <= b.tokens + Product(r.updatedAt - b.updatedAt, b.rate)
  {
    hide Product, Step, GrantedBy;
    if calls == [] {
      ElapsedAdds(0.0, 0.0, b.rate);
    } else {
      var front, last := calls[..|calls| - 1], calls[|calls| - 1];
      RunConservesTokens(b, front);
      var middle := After(b, front);
      StepIsBounded(middle, last);
      var r := After(b, calls);
      ElapsedAdds(middle.updatedAt - b.updatedAt, r.updatedAt - middle.updatedAt, b.rate);
      assert (middle.updatedAt - b.updatedAt) + (r.updatedAt - middle.updatedAt) == r.updatedAt - b.updatedAt;
    }
  }

  /** The clock readings that a call brings to the bucket; a request that raises brings none. */
  predicate Brings(c: Call, now: real) {
    c.now == now && (c.RefillAt? || c.tokens > 0.0)
  }

  /** The bucket's clock is the latest reading it was brought, or the one it started with. */
  lemma {:induction false} ClockIsLatestReading(b: State, calls: seq<Call>)
    ensures var clock := After(b, calls).updatedAt;
            && b.updatedAt <= clock
            && (forall i, now :: 0 <= i < |calls| && Brings(calls[i], now) ==> now <= clock)
            && (clock == b.updatedAt || exists i :: 0 <= i < |calls| && Brings(calls[i], clock))
  {
    hide Product;
    if calls != [] {
      var k := |calls| - 1;
      var front := calls[..k];
      ClockIsLatestReading(b, front);
      var clock, before := After(b, calls).updatedAt, After(b, front).updatedAt;
      assert clock == before || Brings(calls[k], clock);
      if clock == before && clock != b.updatedAt {
        var i :| 0 <= i < |front| && Brings(front[i], before);
        assert Brings(calls[i], clock);
      }
      forall i, now | 0 <= i < |calls| && Brings(calls[i], now)
        ensures now <= clock
      {
        if i < k {
          assert Brings(front[i], now);
        }
      }
    }
  }

  lemma StepEarnsExactly(b: State, c: Call)
    requires b.Valid() && b.tokens + Product(Step(b, c).updatedAt - b.updatedAt, b.rate) <= b.capacity
    ensures GrantedBy(b, c) + Step(b, c).tokens == b.tokens + Product(Step(b, c).updatedAt - b.updatedAt, b.rate)
  {
    hide Product;
    ElapsedAdds(0.0, 0.0, b.rate);
  }

  lemma {:induction false} GrantedIsNotNegative(b: State, calls: seq<Call>)
    ensures Granted(b, calls) >= 0.0
  {
    if calls != [] {
      GrantedIsNotNegative(b, calls[..|calls| - 1]);
    }
  }

  /** Nothing is lost below the capacity: when all that the clock earns would still fit, the
      tokens handed out and those left are exactly the start plus what was earned. */
  lemma {:induction false} RunEarnsExactly(b: State, calls: seq<Call>)
    requires b.Valid() && b.tokens + Product(After(b, calls).updatedAt - b.updatedAt, b.rate) <= b.capacity
    ensures var r := After(b, calls);
            Granted(b, calls) + r.tokens == b.tokens + Product(r.updatedAt - b.updatedAt, b.rate)
  {
    hide Product, Step, GrantedBy;
    if calls == [] {
      ElapsedAdds(0.0, 0.0, b.rate);
    } else {
      var front, last := calls[..|calls| - 1], calls[|calls| - 1];
      var middle, r := After(b, front), After(b, calls);
      RunConservesTokens(b, front);
      StepIsBounded(middle, last);
      var x, y := middle.updatedAt - b.updatedAt, r.updatedAt - middle.updatedAt;
      assert x + y == r.updatedAt - b.updatedAt;
      ElapsedAdds(x, y, b.rate);
      ElapsedAdds(y, 0.0, b.rate);
      RunEarnsExactly(b, front);
      GrantedIsNotNegative(b, front);
      StepEarnsExactly(middle, last);
    }
  }

  lemma {:induction false} AfterSplits(b: State, calls: seq<Call>, more: seq<Call>)
    ensures After(b, calls + more) == After(After(b, calls), more)
    ensures Granted(b, calls + more) == Granted(b, calls) + Granted(After(b, calls), more)
  {
    hide Step, GrantedBy;
    if more == [] {
      assert calls + more == calls;
    } else {
      var front := more[..|more| - 1];
      AfterSplits(b, calls, front);
      assert (calls + more)[..|calls + more| - 1] == calls + front;
    }
  }

  /** In any window of a run, no more than the capacity plus the rate times the window's
      clock advance is handed out. */
  lemma WindowIsRateLimited(b: State, calls: seq<Call>, i: nat, j: nat)
    requires b.Valid() && i <= j <= |calls|
    ensures var start, end := After(b, calls[..i]), After(b, calls[..j]);
            Granted(b, calls[..j]) - Granted(b, calls[..i])
            <= b.capacity + Product(end.updatedAt - start.updatedAt, b.rate)
  {
    hide Product, After, Granted, Step;
    RunConservesTokens(b, calls[..i]);
    RunConservesTokens(After(b, calls[..i]), calls[i..j]);
    AfterSplits(b, calls[..i], calls[i..j]);
    assert calls[..i] + calls[i..j] == calls[..j];
  }

  // ---------------------------------------------------------------- the reported wait

  lemma EnoughEarnedIff(missing: real, rate: real, elapsed: real)
    requires rate > 0.0
    ensures Product(elapsed, rate) >= missing <==> elapsed >= missing / rate
  {
    var w := missing / rate;
    assert missing == Product(w, rate);
    if elapsed < w {
      MultiplyKeepsOrder(elapsed, w, rate);
    } else if w < elapsed {
      MultiplyKeepsOrder(w, elapsed, rate);
    }
  }

  /** For a request within capacity the reported wait is exact on the bucket's clock: after the
      query, acquiring succeeds at an instant not before that clock exactly when the wait has
      passed. */
  lemma WaitIsExact(b: State, tokens: real, now: real, later: real)
    requires b.Valid() && 0.0 < tokens <= b.capacity
    requires later >= Refill(b, now).updatedAt
    ensures Grants(Refill(b, now), tokens, later) <==> later >= Refill(b, now).updatedAt + Wait(b, tokens, now)
  {
    hide Product;
    RefillIsBounded(b, now);
    var r := Refill(b, now);
    EnoughEarnedIff(tokens - r.tokens, r.rate, later - r.updatedAt);
    ElapsedAdds(later - r.updatedAt, 0.0, r.rate);
    if tokens > r.tokens {
      PositiveWait(tokens - r.tokens, r.rate);
    }
  }

  lemma PositiveWait(missing: real, rate: real)
    requires missing > 0.0 && rate > 0.0
    ensures missing / rate > 0.0
  {
    DivideKeepsOrder(0.0, missing, rate);
  }

  /** Counted from the caller's own reading, sleeping for the reported wait is enough exactly when
      that reading was not behind the bucket's clock, or the tokens were there already. */
  lemma WaitFromReadingSufficesIff(b: State, tokens: real, now: real)
    requires b.Valid() && 0.0 < tokens <= b.capacity
    ensures Grants(Refill(b, now), tokens, now + Wait(b, tokens, now))
            <==> now >= b.updatedAt || tokens <= b.tokens
  {
    hide Product;
    RefillIsBounded(b, now);
    var r := Refill(b, now);
    var w := Wait(b, tokens, now);
    if tokens > r.tokens {
      PositiveWait(tokens - r.tokens, r.rate);
    }
    if now + w >= r.updatedAt {
      WaitIsExact(b, tokens, now, now + w);
    }
  }

  /** A clock reading behind the bucket's makes the reported wait too short. */
  lemma WaitBehindTheClockIsTooShort()
    ensures var b := State(1.0, 1.0, 0.0, 10.0);
            b.Valid() && Wait(b, 1.0, 5.0) == 1.0 && !Grants(Refill(b, 5.0), 1.0, 5.0 + Wait(b, 1.0, 5.0))
  {
  }

  /** A finite wait is reported even for a request above the capacity, which is never granted. */
  lemma SomeInstantGrantsIff(b: State, tokens: real)
    requires b.Valid() && tokens > 0.0
    ensures (exists later :: Grants(b, tokens, later)) <==> tokens <= b.capacity
  {
    hide Product;
    if tokens <= b.capacity {
      var later := b.updatedAt + Wait(b, tokens, b.updatedAt);
      if tokens > b.tokens {
        PositiveWait(tokens - b.tokens, b.rate);
      }
      WaitIsExact(b, tokens, b.updatedAt, later);
      assert Grants(b, tokens, later);
    } else {
      forall later
        ensures !Grants(b, tokens, later)
      {
        RefillIsBounded(b, later);
      }
    }
  }

  // ---------------------------------------------------------------- the object

  class Bucket {
    const rate: real
    const capacity: real
    var tokens: real
    var updatedAt: real

    function View(): State
      reads this
    {
      State(rate, capacity, tokens, updatedAt)
    }

    ghost predicate Valid()
      reads this
    {
      View().Valid()
    }

    constructor (rate: real, capacity: real, now: real)
      requires rate > 0.0 && capacity > 0.0
      ensures Valid() && View() == State(rate, capacity, capacity, now)
    {
      this.rate, this.capacity, tokens, updatedAt := rate, capacity, capacity, now;
    }

    static method Create(rate: real, capacity: real, now: real) returns (r: Result<Bucket, string>)
      ensures rate <= 0.0 ==> r == Failure("rate_per_second must be positive")
      ensures rate > 0.0 && capacity <= 0.0 ==> r == Failure("capacity must be positive")
      ensures rate > 0.0 && capacity > 0.0 ==>
                && r.Success? && fresh(r.value) && r.value.Valid()
                && r.value.View() == State(rate, capacity, capacity, now)
    {
      if rate <= 0.0 {
        return Failure("rate_per_second must be positive");
      }
      if capacity <= 0.0 {
        return Failure("capacity must be positive");
      }
      var bucket := new Bucket(rate, capacity, now);
      return Success(bucket);
    }

    method RefillNow(now: real)
      requires Valid()
      modifies this
      ensures Valid() && View() == Step(old(View()), RefillAt(now))
    {
      RefillIsBounded(View(), now);
      if now <= updatedAt {
        return;
      }
      var elapsed := now - updatedAt;
      tokens := Min(capacity, tokens + Product(elapsed, rate));
      updatedAt := now;
    }

    method TryAcquire(requested: real, now: real) returns (r: Result<bool, string>)
      requires Valid()
      modifies this
      ensures Valid() && View() == Step(old(View()), TryAcquireAt(requested, now))
      ensures r == if requested <= 0.0 then Failure("tokens must be positive")
                   else Success(Grants(old(View()), requested, now))
    {
      if requested <= 0.0 {
        return Failure("tokens must be positive");
      }
      RefillNow(now);
      if requested > tokens {
        return Success(false);
      }
      tokens := tokens - requested;
      return Success(true);
    }

    method SecondsUntilAvailable(requested: real, now: real) returns (r: Result<real, string>)
      requires Valid()
      modifies this
      ensures Valid() && View() == Step(old(View()), SecondsUntilAt(requested, now))
      ensures r == if requested <= 0.0 then Failure("tokens must be positive")
                   else Success(Wait(old(View()), requested, now))
    {
      if requested <= 0.0 {
        return Failure("tokens must be positive");
      }
      RefillNow(now);
      if requested <= tokens {
        return Success(0.0);
      }
      return Success((requested - tokens) / rate);
    }
  }
}
