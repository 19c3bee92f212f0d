/**
  Exponential backoff on rate-limited replies, in signed 64-bit nanoseconds as the program
  computes it: additions and doublings wrap around.
 */
module Backoff {

  const SECOND := 1_000_000_000
  const MILLISECOND := 1_000_000
  const TWO_63 := 0x8000_0000_0000_0000
  const TWO_64 := 0x1_0000_0000_0000_0000

  /** Reduction of an integer to a signed 64-bit value. */
  function Int64(x: int): (r: int)
    ensures -TWO_63 <= r < TWO_63
    ensures -TWO_63 <= x < TWO_63 <==> r == x
  {
    (x + TWO_63) % TWO_64 - TWO_63
  }

  /** Wrapping adds or takes away a whole number of times 2^64, and the result fits. */
  lemma WrappedValue(x: int) returns (turns: int)
    ensures Int64(x) == x - turns * 0x1_0000_0000_0000_0000
    ensures -0x8000_0000_0000_0000 <= Int64(x) <= 0x7fff_ffff_ffff_ffff
  {
    turns := (x + TWO_63) / TWO_64;
  }

  function Pow2(k: nat): (p: nat)
    ensures p >= 1
  {
    if k == 0 then 1 else 2 * Pow2(k - 1)
  }

  datatype Reply = TransportError | Response(status: int, body: string)

  predicate RateLimited(r: Reply) {
    r.Response? && r.status == 429
  }

  datatype Result = Returned(response: Reply) | Failed | Cancelled | Exhausted

  /** The world: the reply to attempt i, its jitter in milliseconds, whether the context is done
      before attempt i, and whether it cuts the sleep after attempt i short. */
  datatype World = World(reply: nat -> Reply, jitter: nat -> int, done: nat -> bool, cut: nat -> bool)

  ghost predicate JitterInRange(w: World) {
    forall i :: 0 <= w.jitter(i) < 1000
  }

  /** The sleep after rate-limited reply i, were there no overflow. */
  function IdealSleep(w: World, i: nat): int {
    Pow2(i) * SECOND + w.jitter(i) * MILLISECOND
  }

  /** Sleeps in nanoseconds: 1, 2, 4, ... seconds, and the jitter in milliseconds. */
  lemma SleepsDouble(w: World, i: nat)
    ensures IdealSleep(w, 0) == 1_000_000_000 + w.jitter(0) * 1_000_000
    ensures IdealSleep(w, i + 1) - w.jitter(i + 1) * 1_000_000 == 2 * (IdealSleep(w, i) - w.jitter(i) * 1_000_000)
  {
  }

  function Sum(s: seq<int>): int {
    if s == [] then 0 else Sum(s[..|s| - 1]) + s[|s| - 1]
  }

  lemma WrapDoubles(x: int)
    ensures Int64(Int64(x) * 2) == Int64(x * 2)
  {
    var q := (x + TWO_63) / TWO_64;
    assert Int64(x) == x - q * TWO_64;
    assert Int64(x) * 2 + TWO_63 == (x * 2 + TWO_63) + (-2 * q) * TWO_64;
    WrapPeriodic(x * 2 + TWO_63, -2 * q);
  }

  lemma WrapAdds(x: int, y: int)
    ensures Int64(Int64(x) + y) == Int64(x + y)
  {
    var q := (x + TWO_63) / TWO_64;
    assert Int64(x) + y + TWO_63 == (x + y + TWO_63) + (-q) * TWO_64;
    WrapPeriodic(x + y + TWO_63, -q);
  }

  lemma WrapPeriodic(x: int, k: int)
    ensures (x + k * TWO_64) % TWO_64 == x % TWO_64
  {
    assert x + k * TWO_64 == (x / TWO_64 + k) * TWO_64 + x % TWO_64;
  }

  /**
    Rate-limited replies are retried, up to `maxRetries` attempts; the first other reply is
    returned as it came. `slept` lists the sleeps requested, one per rate-limited reply.
   */
  method ExecuteWithBackoff(maxRetries: int, w: World) returns (r: Result, attempts: nat, slept: seq<int>)
    ensures attempts <= if maxRetries < 0 then 0 else maxRetries
    ensures |slept| <= attempts <= |slept| + 1
    ensures forall i :: 0 <= i < |slept| ==> RateLimited(w.reply(i)) && slept[i] == Int64(IdealSleep(w, i))
    ensures forall i :: 0 <= i < |slept| ==>
              w.reply(i).Response? && w.reply(i).status == 429
    ensures forall i :: 0 <= i < attempts ==> !w.done(i)
    ensures forall i :: 0 <= i < |slept| && w.cut(i) ==> r.Cancelled? && i == |slept| - 1
    ensures r.Returned? ==> attempts == |slept| + 1 && r.response == w.reply(|slept|)
                            && r.response.Response? && r.response.status != 429
    ensures r.Failed? ==> attempts == |slept| + 1 && w.reply(|slept|).TransportError?
    ensures r.Exhausted? ==> attempts == |slept| && (|slept| == maxRetries || maxRetries < 0)
    ensures r.Cancelled? ==> attempts == |slept| && (w.done(|slept|) || (|slept| > 0 && w.cut(|slept| - 1)))
  {
    var backoff := SECOND;
    slept, attempts := [], 0;
    var i := 0;
    assert backoff == Int64(Pow2(0) * SECOND);
    hide Int64;
    while i < maxRetries
      invariant 0 <= i && i == |slept| == attempts && (i <= maxRetries || maxRetries < 0)
      invariant maxRetries < 0 ==> i == 0
      invariant backoff == Int64(Pow2(i) * SECOND)
      invariant forall j :: 0 <= j < i ==> RateLimited(w.reply(j)) && slept[j] == Int64(IdealSleep(w, j))
      invariant forall j :: 0 <= j < i ==> !w.done(j) && !w.cut(j)
    {
      if w.done(i) {
        return Cancelled, attempts, slept;
      }
      var resp := w.reply(i);
      attempts := attempts + 1;
      if resp.TransportError? {
        return Failed, attempts, slept;
      }
      if resp.status == 429 {
        var jitter := w.jitter(i) * MILLISECOND;
        var sleepDuration := Int64(backoff + jitter);
        WrapAdds(Pow2(i) * SECOND, jitter);
        slept := slept + [sleepDuration];
        if w.cut(i) {
          return Cancelled, attempts, slept;
        }
        backoff := Int64(backoff * 2);
        WrapDoubles(Pow2(i) * SECOND);
        i := i + 1;
        continue;
      }
      return Returned(resp), attempts, slept;
    }
    return Exhausted, attempts, slept;
  }

  lemma {:induction false} Pow2Grows(i: nat, j: nat)
    requires i <= j
    ensures Pow2(i) <= Pow2(j)
    decreases j
  {
    if i < j {
      Pow2Grows(i, j - 1);
    }
  }

  lemma TenDoublings(k: nat)
    ensures Pow2(k + 10) == 1024 * Pow2(k)
  {
    assert Pow2(k + 5) == 32 * Pow2(k) by {
      assert Pow2(k + 2) == 4 * Pow2(k);
      assert Pow2(k + 4) == 4 * Pow2(k + 2);
    }
    assert Pow2(k + 7) == 4 * Pow2(k + 5);
    assert Pow2(k + 9) == 4 * Pow2(k + 7);
  }

  lemma LargePowers()
    ensures Pow2(33) == 8589934592 && Pow2(34) == 17179869184
  {
    TenDoublings(0);
    TenDoublings(10);
    TenDoublings(20);
    assert Pow2(32) == 4 * Pow2(30);
    assert Pow2(34) == 4 * Pow2(32);
  }

  /** A sleep is exactly what was meant, up to the sleep after the 34th reply, and never after that. */
  lemma SleepIsExactUpToTheThirtyFourth(w: World, i: nat)
    requires JitterInRange(w)
    ensures Int64(IdealSleep(w, i)) == IdealSleep(w, i) <==> i <= 33
  {
    LargePowers();
    if i <= 33 {
      Pow2Grows(i, 33);
    } else {
      Pow2Grows(34, i);
    }
  }

  /** No sleep can overflow exactly when at most 34 attempts are allowed. */
  lemma NoOverflowExactlyUpTo34(maxRetries: int, w: World)
    requires JitterInRange(w)
    ensures (forall i :: 0 <= i < maxRetries ==> Int64(IdealSleep(w, i)) == IdealSleep(w, i)) <==> maxRetries <= 34
  {
    forall i: nat ensures Int64(IdealSleep(w, i)) == IdealSleep(w, i) <==> i <= 33 {
      SleepIsExactUpToTheThirtyFourth(w, i);
    }
    if maxRetries > 34 {
      assert Int64(IdealSleep(w, 34)) != IdealSleep(w, 34);
    }
  }

  /** With 35 attempts, the last sleep requested is negative: the program does not wait at all. */
  lemma ThirtyFifthSleepIsNegative(w: World)
    requires JitterInRange(w)
    ensures Int64(IdealSleep(w, 34)) < 0
  {
    LargePowers();
  }

  /** The total sleep after k rate-limited replies, to the millisecond of jitter. */
  lemma {:induction false} TotalSleepBounds(w: World, slept: seq<int>)
    requires JitterInRange(w) && |slept| <= 34
    requires forall i :: 0 <= i < |slept| ==> slept[i] == Int64(IdealSleep(w, i))
    ensures (Pow2(|slept|) - 1) * SECOND <= Sum(slept)
    ensures Sum(slept) <= (Pow2(|slept|) - 1) * SECOND + |slept| * 999 * MILLISECOND
  {
    if slept != [] {
      var k := |slept| - 1;
      TotalSleepBounds(w, slept[..k]);
      SleepIsExactUpToTheThirtyFourth(w, k);
    }
  }
}
