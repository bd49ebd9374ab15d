/** Blending: the weighted average of an outcome attribute over the chunks that
    qualify, each weighted by the exponential of its activation over the temperature. */
module Blending {
  import opened Values

  /** What one chunk adds to a blend: nothing, a weight and an outcome value, or
      the exception its activation or its outcome value raised. */
  datatype Contribution = Absent | Weighted(weight: real, value: real) | Raised(error: Error)

  /** The loop state of `blend`: `weights` and `weighted_outcomes`. */
  datatype Totals = Totals(weights: real, weightedOutcomes: real)

  /** The two sums of `blend`'s loop, or the first exception raised in it. */
  function Sums(cs: seq<Contribution>): (r: Result<Totals>)
    decreases |cs|
  {
    if cs == [] then Ok(Totals(0.0, 0.0)) else Add(Sums(cs[..|cs| - 1]), cs[|cs| - 1])
  }

  /** One pass of the loop: a contribution added to the sums so far. */
  function Add(prior: Result<Totals>, c: Contribution): (r: Result<Totals>)
  {
    if prior.Err? then prior
    else
      var t := prior.value;
      match c
      case Absent => Ok(t)
      case Raised(e) => Err(e)
      case Weighted(w, v) => Ok(Totals(t.weights + w, t.weightedOutcomes + w * v))
  }

  /** `blend`'s result: the weighted outcomes over the weights, or None where the
      division would raise ZeroDivisionError. */
  function BlendValue(cs: seq<Contribution>): (r: Result<Option<real>>)
  {
    var t :- Sums(cs);
    Ok(if t.weights == 0.0 then None else Some(t.weightedOutcomes / t.weights))
  }

  predicate Uniform(cs: seq<Contribution>, lo: real, hi: real)
  {
    forall j :: 0 <= j < |cs| ==>
      cs[j].Absent? || (cs[j].Weighted? && cs[j].weight > 0.0 && lo <= cs[j].value <= hi)
  }

  predicate SomeWeighted(cs: seq<Contribution>)
  {
    exists j :: 0 <= j < |cs| && cs[j].Weighted?
  }

  /** With no chunk contributing, `blend` returns None. */
  lemma {:induction false} BlendOfNothing(cs: seq<Contribution>)
    requires forall j :: 0 <= j < |cs| ==> cs[j].Absent?
    ensures Sums(cs).Ok? && Sums(cs).value == Totals(0.0, 0.0)
    ensures BlendValue(cs).Ok? && BlendValue(cs).value.None?
    decreases |cs|
  {
    if cs != [] {
      var last := |cs| - 1;
      assert forall j :: 0 <= j < last ==> cs[..last][j] == cs[j];
      BlendOfNothing(cs[..last]);
    }
  }

  /** A raising contribution makes the whole blend raise the first such error. */
  lemma {:induction false} BlendRaises(cs: seq<Contribution>, k: nat, e: Error)
    requires k < |cs| && cs[k] == Raised(e)
    requires forall j :: 0 <= j < k ==> !cs[j].Raised?
    ensures BlendValue(cs).Err? && BlendValue(cs).error == e
    decreases |cs|
  {
    var last := |cs| - 1;
    assert forall j :: 0 <= j < last ==> cs[..last][j] == cs[j];
    if k < last {
      BlendRaises(cs[..last], k, e);
    } else {
      SumsUpTo(cs[..last]);
    }
  }

  lemma {:induction false} SumsUpTo(cs: seq<Contribution>)
    requires forall j :: 0 <= j < |cs| ==> !cs[j].Raised?
    ensures Sums(cs).Ok?
    decreases |cs|
  {
    if cs != [] {
      var last := |cs| - 1;
      assert forall j :: 0 <= j < last ==> cs[..last][j] == cs[j];
      SumsUpTo(cs[..last]);
    }
  }

  /** With exactly one contributing chunk, of non-zero weight, the blend is that
      chunk's outcome value whatever the weight (and so the temperature). */
  lemma {:induction false} BlendOfOne(cs: seq<Contribution>, k: nat)
    requires k < |cs| && cs[k].Weighted? && cs[k].weight != 0.0
    requires forall j :: 0 <= j < |cs| && j != k ==> cs[j].Absent?
    ensures BlendValue(cs).Ok? && BlendValue(cs).value.Some?
    ensures BlendValue(cs).value.value == cs[k].value
  {
    SumsOfOne(cs, k);
    var w, v := cs[k].weight, cs[k].value;
    var t := Sums(cs).value;
    assert t == Totals(w, w * v);
    CancelWeight(w, v);
    assert BlendValue(cs) == Ok(Some((w * v) / w));
  }

  lemma {:induction false} CancelWeight(w: real, v: real)
    requires w != 0.0
    ensures (w * v) / w == v
  {
    var q := (w * v) / w;
    assert q * w == w * v;
    assert (q - v) * w == 0.0;
  }

  lemma {:induction false} QuotientBounds(a: real, b: real, lo: real, hi: real)
    requires b > 0.0 && lo * b <= a <= hi * b
    ensures lo <= a / b <= hi
  {
    assert a / b * b == a;
  }

  lemma {:induction false} SumsOfOne(cs: seq<Contribution>, k: nat)
    requires k < |cs| && cs[k].Weighted?
    requires forall j :: 0 <= j < |cs| && j != k ==> cs[j].Absent?
    ensures Sums(cs).Ok? && Sums(cs).value == Totals(cs[k].weight, cs[k].weight * cs[k].value)
    decreases |cs|
  {
    var last := |cs| - 1;
    if k < last {
      SumsOfOne(cs[..last], k);
    } else {
      BlendOfNothing(cs[..last]);
    }
  }

  /** With positive weights, the blend lies between the smallest and the largest
      contributing outcome value. */
  lemma {:induction false} BlendWithinRange(cs: seq<Contribution>, lo: real, hi: real)
    requires Uniform(cs, lo, hi) && SomeWeighted(cs)
    ensures BlendValue(cs).Ok? && BlendValue(cs).value.Some?
    ensures lo <= BlendValue(cs).value.value <= hi
  {
    SumsBounded(cs, lo, hi);
    SumsPositive(cs, lo, hi);
    var t := Sums(cs).value;
    assert Bounded(t, lo, hi);
    QuotientBounds(t.weightedOutcomes, t.weights, lo, hi);
  }

  /** The weighted outcomes lie between lo and hi times the weights. */
  predicate Bounded(t: Totals, lo: real, hi: real)
  {
    lo * t.weights <= t.weightedOutcomes <= hi * t.weights
  }

  lemma {:induction false} StepBounded(t: Totals, c: Contribution, lo: real, hi: real)
    requires Bounded(t, lo, hi)
    requires c.Absent? || (c.Weighted? && c.weight > 0.0 && lo <= c.value <= hi)
    ensures Add(Ok(t), c).Ok? && Bounded(Add(Ok(t), c).value, lo, hi)
  {
    if c.Weighted? {
      var w, v := c.weight, c.value;
      assert lo * w <= w * v <= hi * w;
      assert lo * (t.weights + w) == lo * t.weights + lo * w;
      assert hi * (t.weights + w) == hi * t.weights + hi * w;
    }
  }

  lemma {:induction false} SumsBounded(cs: seq<Contribution>, lo: real, hi: real)
    requires Uniform(cs, lo, hi)
    ensures Sums(cs).Ok? && Bounded(Sums(cs).value, lo, hi)
    decreases |cs|
  {
    if cs != [] {
      var last := |cs| - 1;
      assert Uniform(cs[..last], lo, hi) by {
        assert forall j :: 0 <= j < last ==> cs[..last][j] == cs[j];
      }
      SumsBounded(cs[..last], lo, hi);
      StepBounded(Sums(cs[..last]).value, cs[last], lo, hi);
    }
  }

  lemma {:induction false} SumsPositive(cs: seq<Contribution>, lo: real, hi: real)
    requires Uniform(cs, lo, hi)
    ensures Sums(cs).Ok? && Sums(cs).value.weights >= 0.0
    ensures SomeWeighted(cs) ==> Sums(cs).value.weights > 0.0
    decreases |cs|
  {
    if cs != [] {
      var last := |cs| - 1;
      assert Uniform(cs[..last], lo, hi) by {
        assert forall j :: 0 <= j < last ==> cs[..last][j] == cs[j];
      }
      SumsPositive(cs[..last], lo, hi);
      if SomeWeighted(cs) && !cs[last].Weighted? {
        var j :| 0 <= j < |cs| && cs[j].Weighted?;
        assert SomeWeighted(cs[..last]) by { assert cs[..last][j].Weighted?; }
      }
    }
  }

  /** Chunks that contribute nothing leave both sums where they were. */
  lemma {:induction false} SumsSkip(cs: seq<Contribution>, from: nat, until: nat)
    requires from <= until <= |cs|
    requires forall j :: from <= j < until ==> cs[j].Absent?
    ensures Sums(cs[..until]) == Sums(cs[..from])
    decreases until
  {
    if from < until {
      SumsSkip(cs, from, until - 1);
      assert cs[..until][..until - 1] == cs[..until - 1];
    }
  }

  /** One more contribution, as `blend`'s loop adds it. */
  lemma {:induction false} SumsStep(cs: seq<Contribution>, i: nat)
    requires i < |cs|
    ensures Sums(cs[..i + 1]) == Add(Sums(cs[..i]), cs[i])
  {
    assert cs[..i + 1][..i] == cs[..i];
  }

  /** The sums over the first n contributions, indexed rather than sliced, in
      the form `blend`'s loop maintains. */
  function SumsPrefix(cs: seq<Contribution>, n: nat): (r: Result<Totals>)
    requires n <= |cs|
  {
    if n == 0 then Ok(Totals(0.0, 0.0)) else Add(SumsPrefix(cs, n - 1), cs[n - 1])
  }

  lemma {:induction false} SumsPrefixIsSums(cs: seq<Contribution>, n: nat)
    requires n <= |cs|
    ensures SumsPrefix(cs, n) == Sums(cs[..n])
    decreases n
  {
    if n > 0 {
      SumsPrefixIsSums(cs, n - 1);
      SumsStep(cs, n - 1);
    }
  }

  /** Over all the contributions, the indexed sums are the sums. */
  lemma {:induction false} SumsPrefixWhole(cs: seq<Contribution>)
    ensures SumsPrefix(cs, |cs|) == Sums(cs)
  {
    SumsPrefixIsSums(cs, |cs|);
    assert cs[..|cs|] == cs;
  }

  /** Chunks that contribute nothing leave the indexed sums where they were. */
  lemma {:induction false} SumsPrefixSkip(cs: seq<Contribution>, from: nat, until: nat)
    requires from <= until <= |cs|
    requires forall j :: from <= j < until ==> cs[j].Absent?
    ensures SumsPrefix(cs, until) == SumsPrefix(cs, from)
    decreases until
  {
    if from < until {
      SumsPrefixSkip(cs, from, until - 1);
    }
  }

  /** Once the sums have raised, later contributions change nothing. */
  lemma {:induction false} SumsPrefixStuck(cs: seq<Contribution>, n: nat, m: nat)
    requires n <= m <= |cs| && SumsPrefix(cs, n).Err?
    ensures SumsPrefix(cs, m) == SumsPrefix(cs, n)
    decreases m
  {
    if n < m {
      SumsPrefixStuck(cs, n, m - 1);
    }
  }

  /** The first contribution that raises makes `blend` raise its error. */
  lemma {:induction false} BlendRaisedAt(cs: seq<Contribution>, n: nat)
    requires n < |cs| && SumsPrefix(cs, n).Ok? && cs[n].Raised?
    ensures Sums(cs).Err? && Sums(cs).error == cs[n].error
    ensures BlendValue(cs).Err? && BlendValue(cs).error == cs[n].error
  {
    SumsPrefixStuck(cs, n + 1, |cs|);
    SumsPrefixWhole(cs);
  }

  /** One more pass of `blend`'s loop over the indexed sums. */
  lemma {:induction false} SumsPrefixNext(cs: seq<Contribution>, n: nat, to: nat)
    requires n < |cs| && to == n + 1
    ensures SumsPrefix(cs, to) == Add(SumsPrefix(cs, n), cs[n])
  {
  }
}
