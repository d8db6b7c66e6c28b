/**
 The rate controller: time counted in units of 1024 ns and 1024 * 1024 units,
 credit capped to a burst, and a blocking wait.  Times are nanoseconds.
 */
module RateControl {

  const NS: nat := 1_000_000_000
  const BURST_FACTOR: nat := 4

  // --------------------------------------------------------------- the arithmetic

  function Min(a: int, b: int): int { if a < b then a else b }

  /** What a blocking wait earns over a time span. */
  function Earned(rate: nat, span: nat): nat { rate * (span / 1024) / (1024 * 1024) }

  /** The credit after a time span, before the request is taken off. */
  function Refilled(rate: nat, perMsec: nat, burst: nat, limit: nat, span: nat): nat {
    var units := span / 1024;
    if perMsec != 0 then
      if units >= 1024 then burst else Min(limit + perMsec * units / 1024, burst)
    else
      if units >= 1024 * 1024 then burst else Min(limit + rate * units / (1024 * 1024), burst)
  }

  /** The parameters Create can produce. */
  predicate Tuned(rate: nat, perMsec: nat, burst: nat) {
    if perMsec != 0 then perMsec == rate / 1000 && burst <= perMsec else burst <= rate
  }

  lemma MulLe(a: nat, b: nat, c: nat)
    requires b <= c
    ensures a * b <= a * c
  {
  }

  /** A gain that the rate allows over a time span. */
  predicate Within(rate: nat, gain: int, span: nat) { gain * NS <= rate * span }

  lemma WithinAdd(rate: nat, gain1: int, span1: nat, gain2: int, span2: nat)
    requires Within(rate, gain1, span1) && Within(rate, gain2, span2)
    ensures Within(rate, gain1 + gain2, span1 + span2)
  {
    assert rate * (span1 + span2) == rate * span1 + rate * span2;
  }

  lemma WithinLess(rate: nat, gain: int, less: int, span: nat)
    requires Within(rate, gain, span) && less <= gain
    ensures Within(rate, less, span)
  {
  }

  /** A binary unit is longer than the decimal one, so a wait never earns too much. */
  lemma EarnedBound(rate: nat, span: nat)
    ensures Within(rate, Earned(rate, span), span)
  {
    var units := span / 1024;
    var e := Earned(rate, span);
    assert e * (1024 * 1024) <= rate * units;
    MulLe(rate, units * 1024, span);
    assert rate * (units * 1024) == (rate * units) * 1024;
  }

  lemma MsecBound(rate: nat, perMsec: nat, span: nat)
    requires perMsec == rate / 1000
    ensures Within(rate, perMsec * (span / 1024) / 1024, span)
    ensures span >= 1024 * 1024 ==> Within(rate, perMsec, span)
  {
    var units := span / 1024;
    var x := perMsec * units;
    var e := x / 1024;
    assert e * 1024 <= x;
    MulLe(span, perMsec * 1000, rate);
    MulLe(perMsec, units * 1024, span);
    assert perMsec * (units * 1024) == x * 1024;
    assert span * (perMsec * 1000) == (perMsec * span) * 1000;
    if span >= 1024 * 1024 {
      MulLe(perMsec, 1024 * 1024, span);
    }
  }

  /** A refill adds at most the rate over the span, and is never negative. */
  lemma RefillBound(rate: nat, perMsec: nat, burst: nat, limit: nat, span: nat)
    requires Tuned(rate, perMsec, burst)
    ensures Within(rate, Refilled(rate, perMsec, burst, limit, span) - limit, span)
    ensures 0 <= Refilled(rate, perMsec, burst, limit, span) <= burst
  {
    if perMsec != 0 {
      MsecBound(rate, perMsec, span);
    } else {
      EarnedBound(rate, span);
      if span / 1024 >= 1024 * 1024 {
        MulLe(rate, NS, span);
      }
    }
  }

  /**
   The time span covers this much credit at the rate, counted in units of 2^30 ns, with one
   unit of 1024 ns to spare for the rounding.
   */
  predicate Covers(rate: nat, span: nat, credit: nat) { rate * span >= credit * 0x4000_0000 + 1024 * rate }

  /** The same at a rate per millisecond, in units of 2^20 ns. */
  predicate CoversMsec(perMsec: nat, span: nat, credit: nat) { perMsec * span >= credit * 0x10_0000 + 1024 * perMsec }

  /** Two roundings lose less than one unit of credit and 1024 ns. */
  lemma RoundedDown(rate: nat, span: nat, unit: nat, credit: nat)
    requires unit > 0 && rate * span >= credit * (unit * 1024) + 1024 * rate
    ensures rate * (span / 1024) / unit >= credit
  {
    var units := span / 1024;
    var x := rate * units;
    assert span <= units * 1024 + 1024;
    MulLe(rate, span, units * 1024 + 1024);
    assert rate * (units * 1024 + 1024) == x * 1024 + 1024 * rate;
    assert credit * (unit * 1024) == (credit * unit) * 1024;
    assert x >= credit * unit;
    QuotientAtLeast(x, unit, credit);
  }

  lemma QuotientAtLeast(x: nat, unit: nat, credit: nat)
    requires unit > 0 && x >= credit * unit
    ensures x / unit >= credit
  {
    var q := x / unit;
    assert x < (q + 1) * unit;
    if q < credit { MulLe(unit, q + 1, credit); }
  }

  /** A blocking wait earns at least what the time covers. */
  lemma EarnedAtLeast(rate: nat, span: nat, credit: nat)
    requires Covers(rate, span, credit)
    ensures Earned(rate, span) >= credit
  {
    RoundedDown(rate, span, 1024 * 1024, credit);
  }

  /** What the refill of a controller with these rates has to cover. */
  predicate RefillCovers(rate: nat, perMsec: nat, span: nat, credit: nat) {
    if perMsec != 0 then CoversMsec(perMsec, span, credit) else Covers(rate, span, credit)
  }

  /** A refill gives the burst, or at least what the time covers. */
  lemma RefillAtLeast(rate: nat, perMsec: nat, burst: nat, limit: nat, span: nat, credit: nat)
    requires RefillCovers(rate, perMsec, span, credit)
    ensures Refilled(rate, perMsec, burst, limit, span) >= Min(burst, limit + credit)
  {
    if perMsec != 0 {
      RoundedDown(perMsec, span, 1024, credit);
    } else {
      RoundedDown(rate, span, 1024 * 1024, credit);
    }
  }

  /** A refill and what a wait then earned stay within the rate together. */
  lemma GainOfWait(rate: nat, before: int, credit: int, since: nat, refilled: int, span: nat,
                   gain: int, waited: nat, after: int)
    requires Within(rate, before, since) && Within(rate, refilled - credit, span) && Within(rate, gain, waited)
    requires after <= before - credit + refilled + gain
    ensures Within(rate, after - before, span + waited) && Within(rate, after, since + span + waited)
  {
    WithinAdd(rate, refilled - credit, span, gain, waited);
    WithinLess(rate, refilled - credit + gain, after - before, span + waited);
    WithinAdd(rate, before, since, after - before, span + waited);
  }

  // ---------------------------------------------------------------- the controller

  /** One turn of the waiting loop: whether another thread released it, and the clock. */
  datatype Poll = Poll(released: bool, time: nat)

  datatype Outcome = Granted | Refused | Waiting

  /** The clock never goes back. */
  predicate Monotone(now: nat, polls: seq<Poll>) {
    (forall i :: 0 <= i < |polls| ==> now <= polls[i].time)
    && (forall i, j :: 0 <= i < j < |polls| ==> polls[i].time <= polls[j].time)
  }

  predicate Released(polls: seq<Poll>) { exists i :: 0 <= i < |polls| && polls[i].released }

  /** At none of these polls does the time since `from` cover the deficit. */
  predicate NoneCovers(rate: nat, from: nat, deficit: int, polls: seq<Poll>) {
    deficit >= 0 && forall i :: 0 <= i < |polls| && polls[i].time >= from ==> !Covers(rate, polls[i].time - from, deficit)
  }

  lemma PollsSnoc(rate: nat, from: nat, deficit: int, polls: seq<Poll>, i: nat)
    requires i < |polls| && NoneCovers(rate, from, deficit, polls[..i]) && polls[i].time >= from
    ensures !Covers(rate, polls[i].time - from, deficit) ==> NoneCovers(rate, from, deficit, polls[..i + 1])
    ensures Released(polls[..i + 1]) <==> Released(polls[..i]) || polls[i].released
  {
    assert forall k :: 0 <= k < i ==> polls[..i + 1][k] == polls[..i][k];
    assert polls[..i + 1][i] == polls[i];
  }

  class RateController {
    var ratePerSec: nat
    var ratePerMsec: nat
    var rateLimit: int
    var rateBurst: nat
    var lastRateCheck: nat
    var releaseAlert: bool
    /** What was granted in all, and when the controller was made. */
    ghost var granted: nat
    ghost var start: nat

    ghost predicate Valid()
      reads this
    {
      && Tuned(ratePerSec, ratePerMsec, rateBurst)
      && rateLimit >= 0 && start <= lastRateCheck
      && (ratePerSec != 0 ==> Within(ratePerSec, granted + rateLimit, lastRateCheck - start))
    }

    /** The credit that a refill now gives. */
    function RefilledNow(now: nat): nat
      reads this
      requires rateLimit >= 0 && lastRateCheck <= now
    {
      Refilled(ratePerSec, ratePerMsec, rateBurst, rateLimit, now - lastRateCheck)
    }

    /** Whether a request passes at once. */
    predicate Enough(amount: nat, now: nat)
      reads this
      requires rateLimit >= 0 && lastRateCheck <= now
    {
      || ratePerSec == 0
      || rateLimit >= amount
      || Refilled(ratePerSec, ratePerMsec, rateBurst, rateLimit, now - lastRateCheck) >= amount
    }

    /** The request is at most a burst, and the time since the last check covers what is missing. */
    predicate Covered(amount: nat, now: nat)
      reads this
      requires rateLimit >= 0 && lastRateCheck <= now
    {
      || ratePerSec == 0
      || rateLimit >= amount
      || (amount <= rateBurst && RefillCovers(ratePerSec, ratePerMsec, now - lastRateCheck, amount - rateLimit))
    }

    /** The credit after a request that passed at once. */
    function LimitAfter(amount: nat, now: nat): int
      reads this
      requires rateLimit >= 0 && lastRateCheck <= now
    {
      if ratePerSec == 0 then rateLimit
      else if rateLimit >= amount then rateLimit - amount
      else Refilled(ratePerSec, ratePerMsec, rateBurst, rateLimit, now - lastRateCheck) - amount
    }

    constructor (now: nat)
      ensures ratePerSec == ratePerMsec == rateLimit == 0 && rateBurst == 1 && !releaseAlert
      ensures lastRateCheck == start == now && granted == 0
    {
      ratePerSec, ratePerMsec, rateLimit, rateBurst, releaseAlert := 0, 0, 0, 1, false;
      lastRateCheck, start, granted := now, now, 0;
    }

    /** Create: refuses a negative rate, an empty unit and a rate below one unit. */
    static method Create(rate: int, maxApdu: nat, now: nat) returns (rc: RateController?)
      ensures rc == null <==> rate < 0 || maxApdu == 0 || 0 < rate < maxApdu
      ensures rc != null ==> fresh(rc) && rc.Valid() && rc.ratePerSec == rate && rc.granted == 0 && rc.start == now
      ensures rc != null ==> rc.rateLimit == 0 && !rc.releaseAlert && rc.lastRateCheck == now
      ensures rc != null ==> rc.rateBurst == Min(BURST_FACTOR * maxApdu, if rc.ratePerMsec != 0 then rc.ratePerMsec else rate)
      ensures rc != null ==> (rc.ratePerMsec != 0 <==> rate / 1000 >= maxApdu)
    {
      if rate < 0 || maxApdu == 0 || (rate < maxApdu && rate != 0) {
        return null;
      }
      rc := new RateController(now);
      rc.ratePerSec := rate;
      rc.rateBurst := maxApdu * BURST_FACTOR;
      if rate / 1000 >= maxApdu {
        rc.ratePerMsec := rate / 1000;
        if rc.rateBurst > rc.ratePerMsec {
          rc.rateBurst := rc.ratePerMsec;
        }
      } else {
        if rc.rateBurst > rc.ratePerSec {
          rc.rateBurst := rc.ratePerSec;
        }
      }
    }

    /**
     Wait.  In every outcome the credit plus what was granted grows by at most the rate
     over the time that passed; a refusal grants nothing and a non-blocking one changes
     nothing.  With no more polls the caller is still in the loop, with negative credit.
     */
    method Wait(amount: nat, block: bool, now: nat, polls: seq<Poll>) returns (r: Outcome, ghost n: nat)
      requires Valid() && amount > 0 && lastRateCheck <= now && Monotone(now, polls)
      modifies this
      ensures ratePerSec == old(ratePerSec) && ratePerMsec == old(ratePerMsec) && rateBurst == old(rateBurst) && start == old(start)
      ensures r != Waiting ==> Valid()
      ensures granted == old(granted) + (if r == Granted then amount else 0)
      ensures lastRateCheck >= old(lastRateCheck)
      ensures ratePerSec == 0 ==> r == Granted && rateLimit == old(rateLimit)
      ensures ratePerSec != 0 ==>
                Within(ratePerSec, granted + rateLimit - old(granted) - old(rateLimit), lastRateCheck - old(lastRateCheck))
      ensures old(Enough(amount, now)) ==> r == Granted && rateLimit == old(LimitAfter(amount, now))
      ensures !block && r == Granted ==> old(Enough(amount, now))
      ensures !block && r != Granted ==> r == Refused && rateLimit == old(rateLimit) && lastRateCheck == old(lastRateCheck)
      ensures old(Covered(amount, now)) ==> r == Granted
      ensures n <= |polls| && (r == Refused && block ==> rateLimit == 0 && !releaseAlert && (old(releaseAlert) || Released(polls[..n])))
      ensures block && r != Waiting && !old(Enough(amount, now)) ==> n > 0 && (r == Granted ==> lastRateCheck == polls[n - 1].time)
      ensures block && !old(Enough(amount, now)) ==>
                NoneCovers(ratePerSec, now, amount - old(RefilledNow(now)), if r == Waiting then polls[..n] else polls[..n - 1])
      ensures r == Waiting ==> block && rateLimit == old(LimitAfter(amount, now)) < 0
      ensures r == Waiting ==> n == |polls| && !Released(polls)
    {
      if ratePerSec == 0 {
        granted := granted + amount;
        return Granted, 0;
      }
      if rateLimit >= amount {
        rateLimit := rateLimit - amount;
        granted := granted + amount;
        return Granted, 0;
      }
      r, n := WaitRefilled(amount, block, now, polls);
    }

    /** The rest of Wait: the credit did not suffice, so the clock is read. */
    method WaitRefilled(amount: nat, block: bool, now: nat, polls: seq<Poll>) returns (r: Outcome, ghost n: nat)
      requires Valid() && ratePerSec != 0 && rateLimit < amount && lastRateCheck <= now && Monotone(now, polls)
      modifies this
      ensures ratePerSec == old(ratePerSec) && ratePerMsec == old(ratePerMsec) && rateBurst == old(rateBurst) && start == old(start)
      ensures r != Waiting ==> Valid()
      ensures granted == old(granted) + (if r == Granted then amount else 0)
      ensures lastRateCheck >= old(lastRateCheck)
      ensures Within(ratePerSec, granted + rateLimit - old(granted) - old(rateLimit), lastRateCheck - old(lastRateCheck))
      ensures old(Enough(amount, now)) ==> r == Granted && rateLimit == old(LimitAfter(amount, now))
      ensures !block && r == Granted ==> old(Enough(amount, now))
      ensures !block && r != Granted ==> r == Refused && rateLimit == old(rateLimit) && lastRateCheck == old(lastRateCheck)
      ensures old(Covered(amount, now)) ==> r == Granted
      ensures n <= |polls| && (r == Refused && block ==> rateLimit == 0 && !releaseAlert && (old(releaseAlert) || Released(polls[..n])))
      ensures block && r != Waiting && !old(Enough(amount, now)) ==> n > 0 && (r == Granted ==> lastRateCheck == polls[n - 1].time)
      ensures block && !old(Enough(amount, now)) ==>
                NoneCovers(ratePerSec, now, amount - old(RefilledNow(now)), if r == Waiting then polls[..n] else polls[..n - 1])
      ensures r == Waiting ==> block && rateLimit == old(LimitAfter(amount, now)) < 0
      ensures r == Waiting ==> n == |polls| && !Released(polls)
    {
      ghost var before, credit, since := granted + rateLimit, rateLimit, lastRateCheck - start;
      var span := now - lastRateCheck;
      var refilled := Refilled(ratePerSec, ratePerMsec, rateBurst, rateLimit, span);
      RefillBound(ratePerSec, ratePerMsec, rateBurst, rateLimit, span);
      n := 0;
      CoveredIsEnough(amount, now);
      if refilled - amount < 0 {
        if !block {
          return Refused, 0;
        }
        rateLimit := refilled - amount;
        lastRateCheck := now;
        r, n := WaitLoop(amount, polls);
        GainOfWait(ratePerSec, before, credit, since, refilled, span,
                   if r == Granted then rateLimit - (refilled - amount) else 0, lastRateCheck - now,
                   granted + rateLimit);
      } else {
        rateLimit := refilled - amount;
        lastRateCheck := now;
        granted := granted + amount;
        GainOfWait(ratePerSec, before, credit, since, refilled, span, 0, 0, granted + rateLimit);
        return Granted, 0;
      }
    }

    /** What the time covers suffices. */
    lemma CoveredIsEnough(amount: nat, now: nat)
      requires rateLimit >= 0 && lastRateCheck <= now
      ensures Covered(amount, now) ==> Enough(amount, now)
    {
      if ratePerSec != 0 && rateLimit < amount && Covered(amount, now) {
        RefillAtLeast(ratePerSec, ratePerMsec, rateBurst, rateLimit, now - lastRateCheck, amount - rateLimit);
      }
    }

    /** The do-while loop of a blocking wait, entered with negative credit. */
    method WaitLoop(amount: nat, polls: seq<Poll>) returns (r: Outcome, ghost n: nat)
      requires rateLimit < 0 && rateLimit + amount >= 0 && Monotone(lastRateCheck, polls)
      modifies this`rateLimit, this`lastRateCheck, this`releaseAlert, this`granted
      ensures granted == old(granted) + (if r == Granted then amount else 0)
      ensures r == Granted ==> rateLimit >= 0 && lastRateCheck >= old(lastRateCheck)
      ensures r == Granted ==> Within(ratePerSec, rateLimit - old(rateLimit), lastRateCheck - old(lastRateCheck))
      ensures n <= |polls| && (r != Waiting ==> n > 0) && (r == Granted ==> lastRateCheck == polls[n - 1].time)
      ensures r == Granted ==> rateLimit == old(rateLimit) + Earned(ratePerSec, lastRateCheck - old(lastRateCheck))
      ensures r != Granted ==> lastRateCheck == old(lastRateCheck)
      ensures r == Refused ==> rateLimit == 0 && !releaseAlert && (old(releaseAlert) || Released(polls[..n]))
      ensures r == Waiting ==> rateLimit == old(rateLimit) && n == |polls| && !Released(polls)
      ensures NoneCovers(ratePerSec, old(lastRateCheck), 0 - old(rateLimit), if r == Waiting then polls[..n] else polls[..n - 1])
    {
      var i := 0;
      while i < |polls|
        invariant 0 <= i <= |polls|
        invariant rateLimit == old(rateLimit) && lastRateCheck == old(lastRateCheck) && granted == old(granted)
        invariant NoneCovers(ratePerSec, lastRateCheck, 0 - rateLimit, polls[..i]) && !Released(polls[..i])
        invariant releaseAlert ==> old(releaseAlert)
      {
        PollsSnoc(ratePerSec, lastRateCheck, 0 - rateLimit, polls, i);
        if polls[i].released {
          ReleaseWaitThread();
        }
        if releaseAlert {
          releaseAlert := false;
          rateLimit := 0;
          return Refused, i + 1;
        }
        var now := polls[i].time;
        var sleepAmount := Earned(ratePerSec, now - lastRateCheck);
        if Covers(ratePerSec, now - lastRateCheck, 0 - rateLimit) {
          EarnedAtLeast(ratePerSec, now - lastRateCheck, 0 - rateLimit);
        }
        if sleepAmount + rateLimit >= 0 {
          EarnedBound(ratePerSec, now - lastRateCheck);
          rateLimit := rateLimit + sleepAmount;
          lastRateCheck := now;
          granted := granted + amount;
          return Granted, i + 1;
        }
        i := i + 1;
      }
      assert polls[..i] == polls;
      return Waiting, i;
    }

    method ReleaseWaitThread()
      modifies this`releaseAlert
      ensures releaseAlert
    {
      releaseAlert := true;
    }
  }
}
