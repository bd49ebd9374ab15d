/** Spreading activation: the source-by-chunk containment matrix, the fan of each
    source, its associative strength, the per-chunk vector `spread` distributes, and
    the accumulator each chunk keeps. */
module Spreading {
  import opened Values

  type Attributes = map<string, Value>

  /** A boolean matrix stored by rows: row j belongs to cue source j, column i to
      the i-th chunk of the memory. */
  type Matrix = seq<seq<bool>>

  /** Replacement hooks for the matching and the associative-strength computations.
      A missing hook means the built-in computation; a hook returning None stands
      for one that raised, after which the built-in computation is used. */
  datatype Hooks = Hooks(
    matching: Option<(seq<Attributes>, Cue) -> Option<Matrix>>,
    sji: Option<(seq<Attributes>, Matrix) -> Option<seq<real>>>)

  const BuiltIn: Hooks := Hooks(None, None)

  predicate Shaped(m: Matrix, rows: nat, cols: nat)
  {
    |m| == rows && forall j :: 0 <= j < |m| ==> |m[j]| == cols
  }

  /** The built-in matching: cell [j][i] holds when the value of cue source j
      occurs among chunk i's values, whatever the attribute it is stored under. */
  function SourceMatrix(cue: Cue, chunks: seq<Attributes>): (m: Matrix)
    ensures Shaped(m, |cue|, |chunks|)
  {
    seq(|cue|, j requires 0 <= j < |cue| =>
      seq(|chunks|, i requires 0 <= i < |chunks| => cue[j].1 in chunks[i].Values))
  }

  /** A cell of the built-in matrix holds exactly when some attribute of the chunk,
      of any name, carries the source's value. */
  lemma {:induction false} SourceMatrixCell(cue: Cue, chunks: seq<Attributes>, j: nat, i: nat)
    requires j < |cue| && i < |chunks|
    ensures SourceMatrix(cue, chunks)[j][i] <==> exists a :: a in chunks[i] && chunks[i][a] == cue[j].1
  {
    if SourceMatrix(cue, chunks)[j][i] {
      var a :| a in chunks[i] && chunks[i][a] == cue[j].1;
    }
  }

  /** The number of true cells of a row. */
  function Count(row: seq<bool>): (n: nat)
    ensures n <= |row|
    decreases |row|
  {
    if row == [] then 0 else Count(row[..|row| - 1]) + (if row[|row| - 1] then 1 else 0)
  }

  /** The fan of a source: one more than the number of chunks holding its value. */
  function Fan(row: seq<bool>): (n: nat)
    ensures 1 <= n <= |row| + 1
  {
    Count(row) + 1
  }

  function Holders(row: seq<bool>): (r: set<nat>)
  {
    set i: nat | i < |row| && row[i]
  }

  /** The count of a row is the number of chunks whose cell holds. */
  lemma {:induction false} CountIsCardinality(row: seq<bool>)
    ensures Count(row) == |Holders(row)|
    decreases |row|
  {
    if row != [] {
      var last := |row| - 1;
      var front := row[..last];
      CountIsCardinality(front);
      if row[last] {
        assert Holders(row) == Holders(front) + {last};
      } else {
        assert Holders(row) == Holders(front);
      }
    }
  }

  /** The built-in associative strengths: the maximum associative strength less
      the log of each source's fan; with no maximum set the subtraction raises. */
  function DefaultSji(m: Matrix, mas: Option<real>, ln: real -> real): (r: Result<seq<real>>)
    ensures r.Err? <==> mas.None?
    ensures r.Err? ==> r.error == TypeError
    ensures r.Ok? ==> |r.value| == |m|
  {
    if mas.None? then Err(TypeError)
    else Ok(seq(|m|, j requires 0 <= j < |m| => mas.value - ln(Fan(m[j]) as real)))
  }

  /** The part of column i's sum contributed by the first n sources. */
  function Column(wj: real, sji: seq<real>, m: Matrix, i: nat, n: nat): (r: real)
    requires n <= |sji| && n <= |m|
    requires forall j :: 0 <= j < n ==> i < |m[j]|
    decreases n
  {
    if n == 0 then 0.0
    else Column(wj, sji, m, i, n - 1) + (if m[n - 1][i] then wj * sji[n - 1] else 0.0)
  }

  /** Whether the elementwise product of the n weights, the strengths and the
      transposed matrix has a shape numpy accepts (size-one broadcasting aside):
      one weight, one strength and one matrix row per cue source, and rows of
      equal length. */
  predicate Conformable(n: nat, sji: seq<real>, m: Matrix)
  {
    n > 0 && |m| == n && |sji| == n && Shaped(m, n, |m[0]|)
  }

  /** The per-chunk sums over the n sources of W/n times the strength of every
      source whose cell holds; a shape mismatch raises ValueError. */
  function Combine(n: nat, wj: real, sji: seq<real>, m: Matrix): (r: Result<seq<real>>)
    ensures r.Err? <==> !Conformable(n, sji, m)
    ensures r.Err? ==> r.error == ValueError
    ensures r.Ok? ==> |m| == n && |sji| == n && |r.value| == |m[0]|
  {
    if !Conformable(n, sji, m) then Err(ValueError)
    else Ok(seq(|m[0]|, i requires 0 <= i < |m[0]| => Column(wj, sji, m, i, |m|)))
  }

  function MatchingMatrix(cue: Cue, chunks: seq<Attributes>, hooks: Hooks): (m: Matrix)
  {
    if hooks.matching.Some? && hooks.matching.value(chunks, cue).Some? then
      hooks.matching.value(chunks, cue).value
    else
      SourceMatrix(cue, chunks)
  }

  function Strengths(m: Matrix, chunks: seq<Attributes>, mas: Option<real>, ln: real -> real, hooks: Hooks): (r: Result<seq<real>>)
  {
    if hooks.sji.Some? && hooks.sji.value(chunks, m).Some? then
      Ok(hooks.sji.value(chunks, m).value)
    else
      DefaultSji(m, mas, ln)
  }

  /** `_compute_spreading_activation_vec`: the matrix, then the weights W/n (W
      unset raises TypeError), then the strengths, then their combination. */
  function SpreadingVector(cue: Cue, chunks: seq<Attributes>, w: Option<real>, mas: Option<real>,
                           ln: real -> real, hooks: Hooks): (r: Result<seq<real>>)
    requires |cue| > 0
    ensures w.None? ==> r.Err? && r.error == TypeError
  {
    var m := MatchingMatrix(cue, chunks, hooks);
    if w.None? then Err(TypeError)
    else
      var sji :- Strengths(m, chunks, mas, ln, hooks);
      Combine(|cue|, w.value / |cue| as real, sji, m)
  }

  /** With the built-in computations and W and the maximum associative strength
      set, the vector has one entry per chunk, so `spread`'s length check passes. */
  lemma {:induction false} BuiltInVectorFits(cue: Cue, chunks: seq<Attributes>, w: real, mas: real, ln: real -> real)
    requires |cue| > 0
    ensures SpreadingVector(cue, chunks, Some(w), Some(mas), ln, BuiltIn).Ok?
    ensures |SpreadingVector(cue, chunks, Some(w), Some(mas), ln, BuiltIn).value| == |chunks|
  {
    var m := SourceMatrix(cue, chunks);
    assert |m[0]| == |chunks|;
  }

  /** A matching hook whose matrix does not have one row per cue source makes the
      product raise ValueError, whatever the strengths. */
  lemma {:induction false} MisshapenMatrixRaises(cue: Cue, chunks: seq<Attributes>, w: real, mas: Option<real>,
                                                 ln: real -> real, hooks: Hooks)
    requires |cue| > 0 && |MatchingMatrix(cue, chunks, hooks)| != |cue|
    requires Strengths(MatchingMatrix(cue, chunks, hooks), chunks, mas, ln, hooks).Ok?
    ensures SpreadingVector(cue, chunks, Some(w), mas, ln, hooks) == Err(ValueError)
  {
  }

  lemma {:induction false} ColumnOfUnrelated(wj: real, sji: seq<real>, m: Matrix, i: nat, n: nat)
    requires n <= |sji| && n <= |m|
    requires forall j :: 0 <= j < n ==> i < |m[j]| && !m[j][i]
    ensures Column(wj, sji, m, i, n) == 0.0
    decreases n
  {
    if n > 0 {
      ColumnOfUnrelated(wj, sji, m, i, n - 1);
    }
  }

  /** A chunk holding none of the cue's values receives no spreading activation. */
  lemma {:induction false} UnrelatedChunkGetsNothing(cue: Cue, chunks: seq<Attributes>, w: real, mas: real, ln: real -> real, i: nat)
    requires |cue| > 0 && i < |chunks|
    requires forall j :: 0 <= j < |cue| ==> cue[j].1 !in chunks[i].Values
    ensures SpreadingVector(cue, chunks, Some(w), Some(mas), ln, BuiltIn).Ok?
    ensures SpreadingVector(cue, chunks, Some(w), Some(mas), ln, BuiltIn).value[i] == 0.0
  {
    BuiltInVectorFits(cue, chunks, w, mas, ln);
    var m := SourceMatrix(cue, chunks);
    var sji := DefaultSji(m, Some(mas), ln).value;
    ColumnOfUnrelated(w / |cue| as real, sji, m, i, |m|);
  }

  /** The contribution a chunk's accumulator makes to its activation: a missing or
      zero accumulator counts as 0. */
  function SpreadTerm(acc: Option<real>): (r: real)
    ensures r == acc.GetOr(0.0)
  {
    if acc.Some? && acc.value != 0.0 then acc.value else 0.0
  }

  /** The accumulator update as the setter's documentation describes it: None
      clears, a first value replaces nothing, and later values are added. */
  function Accumulate(acc: Option<real>, v: Option<real>): (r: Option<real>)
  {
    if v.None? then None
    else if acc.None? then v
    else Some(acc.value + v.value)
  }

  /** Spreading a value adds it to the chunk's spreading activation; clearing
      removes it all. */
  lemma {:induction false} AccumulateAdds(acc: Option<real>, v: real)
    ensures SpreadTerm(Accumulate(acc, Some(v))) == SpreadTerm(acc) + v
    ensures SpreadTerm(Accumulate(acc, None)) == 0.0
  {
  }

  /** The setter as written: it adds only when both the new value and the
      accumulator are truthy, and otherwise overwrites, a zero included. It departs
      from the cumulative update exactly when a zero is spread onto a non-zero
      accumulator, which it wipes. */
  function AccumulateAsWritten(acc: Option<real>, v: Option<real>): (r: Option<real>)
    ensures v.None? || v == Some(0.0) || acc.None? || acc == Some(0.0) ==> r == v
    ensures v == Some(0.0) ==> r == Some(0.0)
    ensures r != Accumulate(acc, v) <==> v == Some(0.0) && acc.Some? && acc.value != 0.0
  {
    if v.Some? && v.value != 0.0 && acc.Some? && acc.value != 0.0 then Some(acc.value + v.value) else v
  }

  /** Spreading 0.0 onto an accumulator of 1.0 wipes it. */
  lemma {:induction false} ZeroSpreadWipes()
    ensures SpreadTerm(AccumulateAsWritten(Some(1.0), Some(0.0))) == 0.0
    ensures SpreadTerm(Accumulate(Some(1.0), Some(0.0))) == 1.0
  {
  }
}
