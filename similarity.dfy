/** `_similarity` and the mismatch term partial matching adds to an activation. */
module Similarity {
  import opened Values

  /** A registered similarity function; None stands for a function that returned None. */
  type SimilarityFn = (Value, Value) -> Option<real>

  /** The registry `set_similarity_function` fills, keyed by attribute name, and
      the mode `use_actr_similarity` selects. */
  datatype SimilarityConfig = SimilarityConfig(functions: map<string, SimilarityFn>, actr: bool)

  /** `_minimum_similarity` and `_maximum_similarity` as the mode sets them. */
  function MinimumSimilarity(actr: bool): (r: real)
  {
    if actr then -1.0 else 0.0
  }

  function MaximumSimilarity(actr: bool): (r: real)
  {
    if actr then 0.0 else 1.0
  }

  /** `_similarity(x, y, attribute)`. Equal values short-circuit to a perfect
      match; with no function, or a function that returns None, the result is the
      most dissimilar -1; otherwise the function's value, clamped into the mode's
      range and shifted down by one in the natural mode. */
  function Similarity(x: Value, y: Value, attribute: string, config: SimilarityConfig): (r: real)
    ensures -1.0 <= r <= 0.0
    ensures x == y ==> r == 0.0
    ensures x != y && (attribute !in config.functions || config.functions[attribute](x, y).None?) ==> r == -1.0
    ensures x != y && attribute in config.functions && config.functions[attribute](x, y).Some? ==>
              var v := config.functions[attribute](x, y).value;
              && (!config.actr && 0.0 <= v <= 1.0 ==> r == v - 1.0)
              && (!config.actr && v < 0.0 ==> r == -1.0)
              && (!config.actr && v > 1.0 ==> r == 0.0)
              && (config.actr && -1.0 <= v <= 0.0 ==> r == v)
              && (config.actr && v < -1.0 ==> r == -1.0)
              && (config.actr && v > 0.0 ==> r == 0.0)
  {
    if x == y then
      0.0
    else
      var result := if attribute in config.functions then config.functions[attribute](x, y) else None;
      match result
      case None => -1.0
      case Some(v) =>
        var clamped :=
          if v < MinimumSimilarity(config.actr) then MinimumSimilarity(config.actr)
          else if v > MaximumSimilarity(config.actr) then MaximumSimilarity(config.actr)
          else v;
        if config.actr then clamped else clamped - 1.0
  }

  /** The sum over the cue of the similarities between each cue value and the
      chunk's value for that attribute. */
  function SimilaritySum(cue: Cue, attributes: map<string, Value>, config: SimilarityConfig): (r: real)
    requires KeysIn(cue, attributes)
    ensures -(|cue| as real) <= r <= 0.0
    ensures Matches(cue, attributes) ==> r == 0.0
  {
    if cue == [] then 0.0
    else
      assert KeysIn(cue[1..], attributes) by {
        forall k | 0 <= k < |cue[1..]| ensures cue[1..][k].0 in attributes {
          assert cue[1..][k] == cue[k + 1];
        }
      }
      assert Matches(cue, attributes) ==> Matches(cue[1..], attributes) by {
        if Matches(cue, attributes) {
          forall k | 0 <= k < |cue[1..]|
            ensures cue[1..][k].0 in attributes && attributes[cue[1..][k].0] == cue[1..][k].1
          {
            assert cue[1..][k] == cue[k + 1];
          }
        }
      }
      Similarity(cue[0].1, attributes[cue[0].0], cue[0].0, config) + SimilaritySum(cue[1..], attributes, config)
  }

  /** The mismatch term of `_Activations.__next__`: the penalty times the
      similarity sum. It never raises an activation, costs nothing on an exact
      match, and costs at most the penalty per cue attribute. */
  function MismatchTerm(penalty: real, cue: Cue, attributes: map<string, Value>, config: SimilarityConfig): (r: real)
    requires KeysIn(cue, attributes)
    ensures penalty >= 0.0 ==> -(penalty * (|cue| as real)) <= r <= 0.0
    ensures Matches(cue, attributes) ==> r == 0.0
  {
    Scaled(penalty, SimilaritySum(cue, attributes, config), |cue| as real)
  }

  /** A penalty times a similarity sum that lies between -n and 0. */
  function Scaled(penalty: real, s: real, n: real): (r: real)
    requires -n <= s <= 0.0
    ensures penalty >= 0.0 ==> -(penalty * n) <= r <= 0.0
    ensures s == 0.0 ==> r == 0.0
  {
    ScaledBounds(penalty, s, n);
    penalty * s
  }

  /** A non-negative penalty times a sum between -n and 0 lies between -(penalty * n) and 0. */
  lemma {:induction false} ScaledBounds(a: real, s: real, n: real)
    requires -n <= s <= 0.0
    ensures a >= 0.0 ==> -(a * n) <= a * s <= 0.0
    ensures s == 0.0 ==> a * s == 0.0
  {
    if a >= 0.0 {
      MulNonNegNonPos(a, s);
      ScaledLowerBound(a, s, n);
    }
  }

  lemma {:induction false} MulNonNegNonPos(a: real, b: real)
    requires a >= 0.0 && b <= 0.0
    ensures a * b <= 0.0
  {
  }

  lemma {:induction false} ScaledLowerBound(a: real, s: real, n: real)
    requires a >= 0.0 && s >= -n
    ensures a * s >= -(a * n)
  {
    assert a * s + a * n == a * (s + n);
    MulNonNegNonPos(a, -(s + n));
    assert a * (-(s + n)) == -(a * (s + n));
  }
}
