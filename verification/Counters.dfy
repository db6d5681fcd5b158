/** `Deltas.counter` of the hardware collectors: rates from wrapping counters, over exact reals. */
module Counters {
  import opened Outcomes

  /** A reading as `number` sees it. */
  datatype Reading = Numeric(value: real) | Unavailable(status: string)

  datatype Seen = Seen(value: real, at: real, modulus: Option<real>)

  datatype Rate = SourceUnavailable | Baseline | RangeChanged | ResetOrWrap | InvalidInterval
                | Measured(value: real, interval: real)

  /** One call of `counter`, at the time that it reads from the clock. */
  datatype Call = Call(key: string, reading: Reading, scale: real, modulus: Option<real>, wrap: bool, at: real)

  predicate InRange(value: real, modulus: real) {
    0.0 <= value <= modulus
  }

  /** The answer to a numeric reading after the previous one of its key. */
  function Judge(previous: Option<Seen>, value: real, c: Call): Rate {
    if previous.None? then Baseline
    else if previous.value.modulus != c.modulus then RangeChanged
    else
      var raw := value - previous.value.value;
      var wraps := c.wrap && c.modulus.Some? && c.modulus.value > 0.0
                   && InRange(value, c.modulus.value) && InRange(previous.value.value, c.modulus.value);
      if raw < 0.0 && !wraps then ResetOrWrap
      else
        var delta := if raw < 0.0 then raw + c.modulus.value else raw;
        var elapsed := c.at - previous.value.at;
        if elapsed <= 0.0 then InvalidInterval else Measured(delta * c.scale / elapsed, elapsed)
  }

  function Lookup(m: map<string, Seen>, key: string): Option<Seen> {
    if key in m then Some(m[key]) else None
  }

  class Deltas {
    var previous: map<string, Seen>

    constructor ()
      ensures previous == map[]
    {
      previous := map[];
    }

    method Counter(c: Call) returns (r: Rate)
      modifies this
      ensures c.reading.Unavailable? ==> r == SourceUnavailable && previous == old(previous)
      ensures c.reading.Numeric? ==>
                && r == Judge(Lookup(old(previous), c.key), c.reading.value, c)
                && previous == old(previous)[c.key := Seen(c.reading.value, c.at, c.modulus)]
    {
      if c.reading.Unavailable? {
        return SourceUnavailable;
      }
      var value := c.reading.value;
      var last := Lookup(previous, c.key);
      previous := previous[c.key := Seen(value, c.at, c.modulus)];
      if last.None? {
        return Baseline;
      }
      if last.value.modulus != c.modulus {
        return RangeChanged;
      }
      var delta := value - last.value.value;
      if delta < 0.0 {
        if c.wrap && c.modulus.Some? && c.modulus.value > 0.0
           && InRange(value, c.modulus.value) && InRange(last.value.value, c.modulus.value) {
          delta := delta + c.modulus.value;
        } else {
          return ResetOrWrap;
        }
      }
      var elapsed := c.at - last.value.at;
      if elapsed <= 0.0 {
        return InvalidInterval;
      }
      r := Measured(delta * c.scale / elapsed, elapsed);
    }

    /** The calls of a whole sampling run, in order, over any mix of keys. */
    method Samples(calls: seq<Call>) returns (rates: seq<Rate>)
      requires previous == map[]
      modifies this
      ensures |rates| == |calls| && forall i :: 0 <= i < |calls| ==> rates[i] == RateAt(calls, i)
    {
      rates := [];
      for k := 0 to |calls|
        invariant |rates| == k && forall i :: 0 <= i < k ==> rates[i] == RateAt(calls, i)
        invariant forall key :: Lookup(previous, key) == Last(calls[..k], key)
      {
        assert calls[..k + 1][..k] == calls[..k];
        var r := Counter(calls[k]);
        rates := rates + [r];
      }
    }
  }

  // ---------------------------------------------------------------- a whole run

  predicate Reads(c: Call, key: string) {
    c.key == key && c.reading.Numeric?
  }

  /** The last numeric reading of a key. */
  function Last(calls: seq<Call>, key: string): Option<Seen> {
    if calls == [] then None else
      var c := calls[|calls| - 1];
      if Reads(c, key) then Some(Seen(c.reading.value, c.at, c.modulus)) else Last(calls[..|calls| - 1], key)
  }

  function RateAt(calls: seq<Call>, i: nat): Rate
    requires i < |calls|
  {
    var c := calls[i];
    if c.reading.Unavailable? then SourceUnavailable else Judge(Last(calls[..i], c.key), c.reading.value, c)
  }

  /** What a measured rate says about its interval: rate times interval over scale. */
  function Recovered(r: Rate, scale: real): real
    requires scale != 0.0
  {
    if r.Measured? then r.value * r.interval / scale else 0.0
  }

  /** The sum recovered for one key from the first `n` calls. */
  function Sum(calls: seq<Call>, key: string, scale: real, n: nat): real
    requires n <= |calls| && scale != 0.0
  {
    if n == 0 then 0.0
    else
      Sum(calls, key, scale, n - 1)
      + if Reads(calls[n - 1], key) then Recovered(RateAt(calls, n - 1), scale) else 0.0
  }

  /** The index of the last numeric reading of the key among the first `n` calls, or -1. */
  function LastIndex(calls: seq<Call>, key: string, n: nat): (i: int)
    requires n <= |calls|
    ensures -1 <= i < n && (i >= 0 ==> Reads(calls[i], key))
  {
    if n == 0 then -1 else if Reads(calls[n - 1], key) then n - 1 else LastIndex(calls, key, n - 1)
  }

  function FirstIndex(calls: seq<Call>, key: string, n: nat): (i: int)
    requires n <= |calls|
    ensures i >= 0 <==> LastIndex(calls, key, n) >= 0
    ensures i >= 0 ==> i < n && Reads(calls[i], key)
  {
    if n == 0 then -1
    else
      var i := FirstIndex(calls, key, n - 1);
      if i >= 0 then i else if Reads(calls[n - 1], key) then n - 1 else -1
  }

  lemma {:induction false} LastAtIndex(calls: seq<Call>, key: string, n: nat)
    requires n <= |calls|
    ensures var i := LastIndex(calls, key, n);
            Last(calls[..n], key)
            == if i < 0 then None else Some(Seen(calls[i].reading.value, calls[i].at, calls[i].modulus))
  {
    if n > 0 {
      assert calls[..n][..n - 1] == calls[..n - 1];
      LastAtIndex(calls, key, n - 1);
    }
  }

  /** The register of width `m` that shows `total`: the total, less whole multiples of `m`. */
  ghost predicate Shows(value: real, total: real, m: real) {
    0.0 <= value < m && exists wraps: int :: value == total - Turns(m, wraps)
  }

  function Turns(m: real, n: int): real {
    m * n as real
  }

  /** Every numeric reading of the key shows the true total in a register of width `m`, always
      read with the same range and scale; the total never falls. */
  ghost predicate Wrapping(calls: seq<Call>, key: string, total: seq<real>, m: real, scale: real) {
    && |total| == |calls| && m > 0.0 && scale != 0.0
    && (forall i :: 0 <= i < |calls| && Reads(calls[i], key) ==>
          && calls[i].modulus == Some(m) && calls[i].wrap && calls[i].scale == scale
          && Shows(calls[i].reading.value, total[i], m))
    && (forall i, j :: 0 <= i <= j < |calls| ==> total[i] <= total[j])
  }

  /** An interval that the delta recovers: nothing was added, or time passed and less than one
      whole turn was added. */
  predicate Recoverable(before: real, after: real, elapsed: real, m: real) {
    before == after || (after - before < m && elapsed > 0.0)
  }

  lemma Product(x: real, y: real)
    requires x >= 0.0 && y >= 0.0
    ensures x * y >= 0.0
  {
  }

  lemma WholeTurns(m: real, n: int)
    requires m > 0.0
    ensures n == 0 ==> Turns(m, n) == 0.0
    ensures n == 1 ==> Turns(m, n) == m
    ensures n >= 2 ==> Turns(m, n) >= m + m
    ensures n <= -1 ==> Turns(m, n) <= -m
  {
    if n >= 2 {
      Product(m, n as real - 2.0);
    } else if n <= -1 {
      Product(m, -1.0 - n as real);
    }
  }

  function Delta(v: real, w: real, m: real): real {
    if w < v then w - v + m else w - v
  }

  /** The delta of two readings is the true increment less whole turns, so it is the increment
      exactly when that is less than one turn. */
  lemma DeltaOfReadings(v: real, w: real, t: real, u: real, m: real)
    requires m > 0.0 && Shows(v, t, m) && Shows(w, u, m) && t <= u
    ensures 0.0 <= Delta(v, w, m) < m && Delta(v, w, m) <= u - t
    ensures Delta(v, w, m) == u - t <==> u - t < m
  {
    var a: int :| v == t - Turns(m, a);
    var b: int :| w == u - Turns(m, b);
    assert Turns(m, b) - Turns(m, a) == Turns(m, b - a);
    WholeTurns(m, b - a);
  }

  lemma RateTimesInterval(delta: real, scale: real, elapsed: real)
    requires scale != 0.0 && elapsed > 0.0
    ensures delta * scale / elapsed * elapsed / scale == delta
  {
    assert delta * scale / elapsed * elapsed == delta * scale;
  }

  lemma JudgedDelta(previous: Seen, value: real, c: Call, m: real)
    requires c.scale != 0.0 && m > 0.0 && c.modulus == previous.modulus == Some(m) && c.wrap
    requires InRange(previous.value, m) && InRange(value, m)
    ensures Recovered(Judge(Some(previous), value, c), c.scale)
            == if c.at - previous.at > 0.0 then Delta(previous.value, value, m) else 0.0
  {
    var elapsed := c.at - previous.at;
    if elapsed > 0.0 {
      RateTimesInterval(Delta(previous.value, value, m), c.scale, elapsed);
    }
  }

  /** What one reading after another of the key contributes to the sum. */
  lemma OneInterval(calls: seq<Call>, key: string, total: seq<real>, m: real, scale: real, i: nat, j: nat)
    requires Wrapping(calls, key, total, m, scale) && i < j < |calls|
    requires Reads(calls[i], key) && Reads(calls[j], key) && LastIndex(calls, key, j) == i
    ensures var got := Recovered(RateAt(calls, j), scale);
            got <= total[j] - total[i]
            && (got == total[j] - total[i] <==> Recoverable(total[i], total[j], calls[j].at - calls[i].at, m))
  {
    LastAtIndex(calls, key, j);
    assert total[i] <= total[j];
    var v, w := calls[i].reading.value, calls[j].reading.value;
    DeltaOfReadings(v, w, total[i], total[j], m);
    JudgedDelta(Seen(v, calls[i].at, calls[i].modulus), w, calls[j], m);
  }

  /** Every interval between readings of the key among the first `n` calls is recoverable. */
  ghost predicate AllRecoverable(calls: seq<Call>, key: string, total: seq<real>, m: real, n: nat)
    requires n <= |calls| == |total|
  {
    forall j :: 0 <= j < n && Reads(calls[j], key) && LastIndex(calls, key, j) >= 0 ==>
      var i := LastIndex(calls, key, j);
      Recoverable(total[i], total[j], calls[j].at - calls[i].at, m)
  }

  lemma OneMoreInterval(calls: seq<Call>, key: string, total: seq<real>, m: real, n: nat)
    requires n < |calls| == |total|
    ensures AllRecoverable(calls, key, total, m, n + 1) <==>
            && AllRecoverable(calls, key, total, m, n)
            && var i := LastIndex(calls, key, n);
               Reads(calls[n], key) && i >= 0 ==> Recoverable(total[i], total[n], calls[n].at - calls[i].at, m)
  {
  }

  /** What was truly counted between the first and the last reading of the key. */
  function Counted(calls: seq<Call>, key: string, total: seq<real>, n: nat): real
    requires n <= |calls| == |total|
  {
    var last := LastIndex(calls, key, n);
    if last < 0 then 0.0 else total[last] - total[FirstIndex(calls, key, n)]
  }

  /** One more call: what it adds to both sides. */
  lemma OneMoreCall(calls: seq<Call>, key: string, total: seq<real>, m: real, scale: real, n: nat)
    requires Wrapping(calls, key, total, m, scale) && n < |calls|
    ensures var i := LastIndex(calls, key, n);
            if !Reads(calls[n], key) || i < 0 then
              Sum(calls, key, scale, n + 1) == Sum(calls, key, scale, n)
                  && Counted(calls, key, total, n + 1) == Counted(calls, key, total, n)
            else
              && Sum(calls, key, scale, n + 1) == Sum(calls, key, scale, n) + Recovered(RateAt(calls, n), scale)
              && Counted(calls, key, total, n + 1) == Counted(calls, key, total, n) + total[n] - total[i]
  {
    LastAtIndex(calls, key, n);
  }

  /** Over a whole run, mixed with any other keys and gaps, the rates of a wrapping counter add
      up to at most what was truly counted between its first and last reading, however often it
      wrapped, and to exactly that if and only if every interval is recoverable. */
  lemma {:induction false} RatesAddUp(calls: seq<Call>, key: string, total: seq<real>, m: real, scale: real, n: nat)
    requires Wrapping(calls, key, total, m, scale) && n <= |calls|
    ensures Sum(calls, key, scale, n) <= Counted(calls, key, total, n)
    ensures Sum(calls, key, scale, n) == Counted(calls, key, total, n) <==> AllRecoverable(calls, key, total, m, n)
  {
    if n > 0 {
      RatesAddUp(calls, key, total, m, scale, n - 1);
      OneMoreCall(calls, key, total, m, scale, n - 1);
      OneMoreInterval(calls, key, total, m, n - 1);
      var i := LastIndex(calls, key, n - 1);
      if Reads(calls[n - 1], key) && i >= 0 {
        OneInterval(calls, key, total, m, scale, i, n - 1);
      }
    }
  }

  function At(value: real, time: real): Call {
    Call("count", Numeric(value), 1.0, Some(10.0), true, time)
  }

  lemma TwoReadings(calls: seq<Call>, total: seq<real>)
    requires |calls| == |total| == 2 && Reads(calls[0], "count") && Reads(calls[1], "count")
    ensures LastIndex(calls, "count", 1) == FirstIndex(calls, "count", 2) == 0 && LastIndex(calls, "count", 2) == 1
    ensures Counted(calls, "count", total, 2) == total[1] - total[0]
  {
    assert FirstIndex(calls, "count", 1) == 0;
  }

  /** A whole turn between two readings is lost. */
  lemma WholeTurnIsLost()
    ensures var calls, total := [At(0.0, 0.0), At(0.0, 1.0)], [0.0, 10.0];
            && Wrapping(calls, "count", total, 10.0, 1.0)
            && Sum(calls, "count", 1.0, 2) < Counted(calls, "count", total, 2)
  {
    var calls, total := [At(0.0, 0.0), At(0.0, 1.0)], [0.0, 10.0];
    assert 0.0 == total[0] - Turns(10.0, 0) && 0.0 == total[1] - Turns(10.0, 1);
    TwoReadings(calls, total);
    RatesAddUp(calls, "count", total, 10.0, 1.0, 2);
  }

  /** So is what is added between two readings at the same time. */
  lemma SameTimeIsLost()
    ensures var calls, total := [At(0.0, 1.0), At(5.0, 1.0)], [0.0, 5.0];
            && Wrapping(calls, "count", total, 10.0, 1.0)
            && Sum(calls, "count", 1.0, 2) < Counted(calls, "count", total, 2)
  {
    var calls, total := [At(0.0, 1.0), At(5.0, 1.0)], [0.0, 5.0];
    assert 0.0 == total[0] - Turns(10.0, 0) && 5.0 == total[1] - Turns(10.0, 0);
    TwoReadings(calls, total);
    RatesAddUp(calls, "count", total, 10.0, 1.0, 2);
  }
}
