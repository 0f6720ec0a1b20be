/** The trapezoidal time-series integrator: from a load time series and a time step
    it builds a path series of cumulative trapezoid sums of the series' factor. */
module TrapezoidalIntegration {
  import opened Casts

  datatype Option<T> = None | Some(value: T)

  /** A time series as the integrator uses it: its load factor at any time and its
      duration. */
  datatype TimeSeries = TimeSeries(factor: real -> real, duration: real)

  /** The path series integrate returns: one value per time step. */
  datatype PathSeries = PathSeries(values: seq<real>, timeStep: real)

  /** The number of values: (int)(duration / delta + 1.0), the one added so that the
      truncation keeps the end point: n - 1 whole steps fit in the duration, n do not. */
  function NumSteps(duration: real, delta: real): (n: int)
    requires delta > 0.0
    ensures duration >= 0.0 ==> n >= 1 && (n - 1) as real <= duration / delta < n as real
  {
    var n := Trunc(duration / delta + 1.0);
    if duration >= 0.0 then
      NonNegativeQuotient(duration, delta);
      n
    else
      n
  }

  lemma NonNegativeQuotient(a: real, d: real)
    requires a >= 0.0 && d > 0.0
    ensures a / d >= 0.0
  {
  }

  /** The time after k steps of delta, accumulated by addition as the loop does. */
  function Time(k: nat, delta: real): real
  {
    if k == 0 then 0.0 else Time(k - 1, delta) + delta
  }

  /** The accumulated time is k delta. */
  lemma {:induction false} TimeIsMultiple(k: nat, delta: real)
    ensures Time(k, delta) == k as real * delta
  {
    if k > 0 {
      TimeIsMultiple(k - 1, delta);
      assert (k - 1) as real * delta + delta == k as real * delta;
    }
  }

  /** The factor at step k. */
  function At(f: real -> real, delta: real, k: nat): real
  {
    f(Time(k, delta))
  }

  /** The area of one trapezoid panel of width delta between the values a and b. */
  function Panel(delta: real, a: real, b: real): real
  {
    delta * 0.5 * (a + b)
  }

  /** The first n values integrate writes, as written: the first is f(0) delta / 2;
      each later one adds the panel between the current factor and the previous value
      held, which is f at the previous time except in the first step, where it is the
      first value itself. */
  function Integrated(f: real -> real, delta: real, n: nat): (s: seq<real>)
    ensures |s| == n
  {
    if n == 0 then []
    else if n == 1 then [At(f, delta, 0) * delta * 0.5]
    else
      var prev := Integrated(f, delta, n - 1);
      var previousValue := if n == 2 then prev[0] else At(f, delta, n - 2);
      prev + [prev[n - 2] + Panel(delta, At(f, delta, n - 1), previousValue)]
  }

  /** The values as the authors evidently intended: the previous value held in the
      first step is f(0), the factor at time 0. */
  function IntegratedSeeded(f: real -> real, delta: real, n: nat): (s: seq<real>)
    ensures |s| == n
  {
    if n == 0 then []
    else if n == 1 then [At(f, delta, 0) * delta * 0.5]
    else
      var prev := IntegratedSeeded(f, delta, n - 1);
      prev + [prev[n - 2] + Panel(delta, At(f, delta, n - 1), At(f, delta, n - 2))]
  }

  /** One more step of each. */
  lemma IntegratedNext(f: real -> real, delta: real, i: nat)
    requires i >= 1
    ensures var s := Integrated(f, delta, i);
            Integrated(f, delta, i + 1) ==
              s + [s[i - 1] + Panel(delta, At(f, delta, i), if i == 1 then s[0] else At(f, delta, i - 1))]
  {
  }

  lemma IntegratedSeededNext(f: real -> real, delta: real, i: nat)
    requires i >= 1
    ensures var s := IntegratedSeeded(f, delta, i);
            IntegratedSeeded(f, delta, i + 1) == s + [s[i - 1] + Panel(delta, At(f, delta, i), At(f, delta, i - 1))]
  {
  }

  /** Both start from f(0) delta / 2. */
  lemma FirstValue(f: real -> real, delta: real)
    ensures Integrated(f, delta, 1) == [f(0.0) * delta * 0.5]
  {
    var s := Integrated(f, delta, 1);
    assert Time(0, delta) == 0.0;
    assert At(f, delta, 0) == f(0.0);
    assert s[0] == f(0.0) * delta * 0.5;
    assert s == [s[0]];
  }

  lemma FirstValueSeeded(f: real -> real, delta: real)
    ensures IntegratedSeeded(f, delta, 1) == [f(0.0) * delta * 0.5]
  {
    var s := IntegratedSeeded(f, delta, 1);
    assert Time(0, delta) == 0.0;
    assert At(f, delta, 0) == f(0.0);
    assert s[0] == f(0.0) * delta * 0.5;
    assert s == [s[0]];
  }

  /** The sum of f(k delta) for k < m. */
  function FactorSum(f: real -> real, delta: real, m: nat): real
  {
    if m == 0 then 0.0 else FactorSum(f, delta, m - 1) + At(f, delta, m - 1)
  }

  /** The composite trapezoid rule for f over [0, i delta] with step delta:
      delta (f(0) / 2 + f(delta) + ... + f((i - 1) delta) + f(i delta) / 2). */
  function TrapezoidRule(f: real -> real, delta: real, i: nat): real
  {
    delta * (FactorSum(f, delta, i + 1) - (At(f, delta, 0) + At(f, delta, i)) / 2.0)
  }

  /** The algebra of one more panel. */
  lemma PanelAlgebra(d: real, s0: real, f0: real, a: real, b: real)
    ensures d * (s0 + a - (f0 + a) / 2.0) == d * (s0 - (f0 + b) / 2.0) + Panel(d, a, b)
  {
  }

  /** The rule over no panel is zero. */
  lemma TrapezoidEmpty(f: real -> real, delta: real)
    ensures TrapezoidRule(f, delta, 0) == 0.0
  {
    assert FactorSum(f, delta, 1) == At(f, delta, 0);
  }

  /** One more panel of the trapezoid rule. */
  lemma TrapezoidStep(f: real -> real, delta: real, i: nat)
    requires i >= 1
    ensures TrapezoidRule(f, delta, i) ==
              TrapezoidRule(f, delta, i - 1) + Panel(delta, At(f, delta, i), At(f, delta, i - 1))
  {
    assert FactorSum(f, delta, i + 1) == FactorSum(f, delta, i) + At(f, delta, i);
    PanelAlgebra(delta, FactorSum(f, delta, i), At(f, delta, 0), At(f, delta, i), At(f, delta, i - 1));
  }

  /** The first n values, extended, are unchanged: a later step never rewrites an
      earlier value. */
  lemma {:induction false} IntegratedPrefix(f: real -> real, delta: real, m: nat, n: nat)
    requires m <= n
    ensures Integrated(f, delta, n)[..m] == Integrated(f, delta, m)
    decreases n
  {
    if m < n {
      IntegratedPrefix(f, delta, m, n - 1);
      assert Integrated(f, delta, n)[..n - 1] == Integrated(f, delta, n - 1);
      assert Integrated(f, delta, n)[..m] == Integrated(f, delta, n)[..n - 1][..m];
    }
  }

  /** The first two values integrate writes: f(0) delta / 2, and then the panel
      between f(delta) and that first value, which stands in for f(0). */
  lemma IntegratedStart(f: real -> real, delta: real, n: nat)
    ensures n >= 1 ==> Integrated(f, delta, n)[0] == f(0.0) * delta * 0.5
    ensures n >= 2 ==>
              Integrated(f, delta, n)[1] ==
                Integrated(f, delta, n)[0] + Panel(delta, f(delta), Integrated(f, delta, n)[0])
  {
    if n >= 1 {
      IntegratedPrefix(f, delta, 1, n);
      assert Integrated(f, delta, n)[0] == Integrated(f, delta, n)[..1][0];
    }
    if n >= 2 {
      IntegratedPrefix(f, delta, 2, n);
      assert Integrated(f, delta, n)[1] == Integrated(f, delta, n)[..2][1];
      assert Integrated(f, delta, n)[0] == Integrated(f, delta, n)[..2][0];
    }
  }

  /** From the third value on, each adds the panel between the factors at its own
      time and the previous one. */
  lemma IntegratedRecurrence(f: real -> real, delta: real, n: nat, i: nat)
    requires 2 <= i < n
    ensures Integrated(f, delta, n)[i] ==
              Integrated(f, delta, n)[i - 1] + Panel(delta, At(f, delta, i), At(f, delta, i - 1))
  {
    IntegratedPrefix(f, delta, i + 1, n);
    var s := Integrated(f, delta, n);
    var t := Integrated(f, delta, i + 1);
    assert s[i] == s[..i + 1][i] && s[i - 1] == s[..i + 1][i - 1];
    assert t[i - 1] == Integrated(f, delta, i)[i - 1];
  }

  /** Against the trapezoid rule: the first value exceeds it by f(0) delta / 2, every
      later one by f(0) delta^2 / 4, because of the first step's seed. */
  lemma {:induction false} IntegratedClosedForm(f: real -> real, delta: real, n: nat)
    ensures forall i :: 0 <= i < n ==>
              Integrated(f, delta, n)[i] ==
                TrapezoidRule(f, delta, i) + (if i == 0 then f(0.0) * delta * 0.5 else f(0.0) * delta * delta * 0.25)
    decreases n
  {
    if n > 0 {
      IntegratedClosedForm(f, delta, n - 1);
      var s := Integrated(f, delta, n);
      var p := Integrated(f, delta, n - 1);
      assert forall i :: 0 <= i < n - 1 ==> s[i] == p[i];
      var i := n - 1;
      if i == 0 {
        TrapezoidEmpty(f, delta);
      } else {
        TrapezoidStep(f, delta, i);
        if i == 1 {
          TrapezoidEmpty(f, delta);
          SeedOffset(f(0.0), At(f, delta, 1), delta);
        }
      }
    }
  }

  /** The algebra of the first step: seeding with f0 delta / 2 instead of f0 leaves
      f0 delta^2 / 4 above the trapezoid. */
  lemma SeedOffset(f0: real, f1: real, delta: real)
    ensures f0 * delta * 0.5 + Panel(delta, f1, f0 * delta * 0.5) ==
              Panel(delta, f1, f0) + f0 * delta * delta * 0.25
  {
  }

  /** The intended values exceed the trapezoid rule by the same f(0) delta / 2
      throughout: the cumulative integral under the assumed initial half step. */
  lemma {:induction false} IntegratedSeededClosedForm(f: real -> real, delta: real, n: nat)
    ensures forall i :: 0 <= i < n ==>
              IntegratedSeeded(f, delta, n)[i] == TrapezoidRule(f, delta, i) + f(0.0) * delta * 0.5
    decreases n
  {
    if n > 0 {
      IntegratedSeededClosedForm(f, delta, n - 1);
      var s := IntegratedSeeded(f, delta, n);
      var p := IntegratedSeeded(f, delta, n - 1);
      assert forall i :: 0 <= i < n - 1 ==> s[i] == p[i];
      var i := n - 1;
      if i == 0 {
        TrapezoidEmpty(f, delta);
      } else {
        TrapezoidStep(f, delta, i);
      }
    }
  }

  /** The two differ from the second value on: with f = 1 and delta = 1 integrate
      gives 1.25 where the trapezoid sum under the initial half step is 1.5. */
  lemma SeedDiscrepancy()
    ensures Integrated(x => 1.0, 1.0, 2) == [0.5, 1.25]
    ensures IntegratedSeeded(x => 1.0, 1.0, 2) == [0.5, 1.5]
  {
  }

  /** integrate: a non-positive time step or a missing series yields no series;
      otherwise the numSteps values are filled in and returned with time step delta.
      A series of negative duration with a positive step would have no room for the
      first value and is excluded. */
  method Integrate(series: Option<TimeSeries>, delta: real) returns (result: Option<PathSeries>)
    requires delta > 0.0 && series.Some? ==> series.value.duration >= 0.0
    ensures delta <= 0.0 || series.None? ==> result.None?
    ensures delta > 0.0 && series.Some? ==>
              result == Some(PathSeries(Integrated(series.value.factor, delta,
                                                   NumSteps(series.value.duration, delta)), delta))
  {
    if delta <= 0.0 {
      return None;
    }
    if series.None? {
      return None;
    }
    var values := FillValues(series.value.factor, delta, NumSteps(series.value.duration, delta));
    return Some(PathSeries(values, delta));
  }

  /** The loop of integrate: the values are filled in place, carrying the previous
      factor and the running time. */
  method FillValues(f: real -> real, delta: real, numSteps: nat) returns (r: seq<real>)
    requires numSteps >= 1
    ensures r == Integrated(f, delta, numSteps)
  {
    var values := new real[numSteps];
    values[0] := f(0.0) * delta * 0.5;
    assert values[..1] == [values[0]];
    FirstValue(f, delta);
    var previousValue := values[0];
    var dummyTime := delta;
    for i := 1 to numSteps
      invariant values[..i] == Integrated(f, delta, i)
      invariant dummyTime == Time(i, delta)
      invariant previousValue == if i == 1 then values[0] else At(f, delta, i - 1)
    {
      previousValue, dummyTime := FillStep(values, i, f, delta, previousValue, dummyTime);
    }
    assert values[..] == values[..numSteps];
    return values[..];
  }

  /** One pass of the loop of integrate: value i from value i - 1, the factor at the
      running time and the previous value held. */
  method FillStep(values: array<real>, i: nat, f: real -> real, delta: real,
                  previousValue: real, dummyTime: real)
    returns (nextPrevious: real, nextTime: real)
    requires 1 <= i < values.Length
    requires values[..i] == Integrated(f, delta, i)
    requires dummyTime == Time(i, delta)
    requires previousValue == if i == 1 then values[0] else At(f, delta, i - 1)
    modifies values
    ensures values[..i + 1] == Integrated(f, delta, i + 1)
    ensures nextTime == Time(i + 1, delta)
    ensures nextPrevious == At(f, delta, i)
  {
    var currentValue := f(dummyTime);
    IntegratedNext(f, delta, i);
    values[i] := values[i - 1] + Panel(delta, currentValue, previousValue);
    assert values[..i + 1] == values[..i] + [values[i]];
    nextPrevious := currentValue;
    nextTime := dummyTime + delta;
  }

  /** integrate as its authors evidently intended: the same loop with the previous
      factor seeded by f(0). */
  method IntegrateSeeded(series: Option<TimeSeries>, delta: real) returns (result: Option<PathSeries>)
    requires delta > 0.0 && series.Some? ==> series.value.duration >= 0.0
    ensures delta <= 0.0 || series.None? ==> result.None?
    ensures delta > 0.0 && series.Some? ==>
              result == Some(PathSeries(IntegratedSeeded(series.value.factor, delta,
                                                         NumSteps(series.value.duration, delta)), delta))
  {
    if delta <= 0.0 {
      return None;
    }
    if series.None? {
      return None;
    }
    var values := FillValuesSeeded(series.value.factor, delta, NumSteps(series.value.duration, delta));
    return Some(PathSeries(values, delta));
  }

  method FillValuesSeeded(f: real -> real, delta: real, numSteps: nat) returns (r: seq<real>)
    requires numSteps >= 1
    ensures r == IntegratedSeeded(f, delta, numSteps)
  {
    var values := new real[numSteps];
    values[0] := f(0.0) * delta * 0.5;
    assert values[..1] == [values[0]];
    FirstValueSeeded(f, delta);
    var previousValue := f(0.0);
    var dummyTime := delta;
    for i := 1 to numSteps
      invariant values[..i] == IntegratedSeeded(f, delta, i)
      invariant dummyTime == Time(i, delta)
      invariant previousValue == At(f, delta, i - 1)
    {
      previousValue, dummyTime := FillStepSeeded(values, i, f, delta, previousValue, dummyTime);
    }
    assert values[..] == values[..numSteps];
    return values[..];
  }

  method FillStepSeeded(values: array<real>, i: nat, f: real -> real, delta: real,
                        previousValue: real, dummyTime: real)
    returns (nextPrevious: real, nextTime: real)
    requires 1 <= i < values.Length
    requires values[..i] == IntegratedSeeded(f, delta, i)
    requires dummyTime == Time(i, delta)
    requires previousValue == At(f, delta, i - 1)
    modifies values
    ensures values[..i + 1] == IntegratedSeeded(f, delta, i + 1)
    ensures nextTime == Time(i + 1, delta)
    ensures nextPrevious == At(f, delta, i)
  {
    var currentValue := f(dummyTime);
    IntegratedSeededNext(f, delta, i);
    values[i] := values[i - 1] + Panel(delta, currentValue, previousValue);
    assert values[..i + 1] == values[..i] + [values[i]];
    nextPrevious := currentValue;
    nextTime := dummyTime + delta;
  }

  /** sendSelf and recvSelf: the integrator has no state; both report success. */
  function SendSelf(): (status: int)
    ensures status == 0
  {
    0
  }

  function RecvSelf(): (status: int)
    ensures status == 0
  {
    0
  }
}
