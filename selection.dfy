/** The selection rules of retrieval: a scan over the chunk store keeping the
    chunk picked so far and the activation it must beat. */
module Selection {
  import opened Values

  /** What one chunk contributes to a retrieval: it does not qualify, it
      qualifies with this activation, or computing its activation raised. */
  datatype Candidate = Skip | Eligible(activation: real) | Raise(error: Error)

  /** The loop state: the index of the chunk picked so far and the value to beat. */
  datatype Scan = Scan(index: Option<nat>, best: real)

  /** The pick moves to candidate i, of activation a, when a is at least the
      best so far. */
  function Improve(s: Scan, i: nat, a: real): (r: Scan)
  {
    if a >= s.best then Scan(Some(i), a) else s
  }

  predicate NoRaise(cs: seq<Candidate>)
  {
    forall j :: 0 <= j < |cs| ==> !cs[j].Raise?
  }

  /** None of the first n candidates raised. */
  predicate NoRaiseBefore(cs: seq<Candidate>, n: nat)
  {
    forall j :: 0 <= j < n && j < |cs| ==> !cs[j].Raise?
  }

  /** The error of the first candidate that raised. */
  predicate FirstRaise(cs: seq<Candidate>, e: Error)
  {
    exists k :: 0 <= k < |cs| && cs[k] == Raise(e) && forall j :: 0 <= j < k ==> !cs[j].Raise?
  }

  /** `_exact_match`'s loop: the best activation starts at the threshold and a
      candidate replaces the pick when its activation is at least the best so
      far, so the pick is a maximal activation that clears the threshold, and the
      last of several equal ones. */
  function ScanBest(cs: seq<Candidate>, threshold: real): (r: Result<Scan>)
    ensures r.Err? <==> !NoRaise(cs)
    ensures r.Err? ==> FirstRaise(cs, r.error)
    ensures r.Ok? && r.value.index.None? ==>
              && r.value.best == threshold
              && forall j :: 0 <= j < |cs| && cs[j].Eligible? ==> cs[j].activation < threshold
    ensures r.Ok? && r.value.index.Some? ==>
              var k := r.value.index.value;
              && k < |cs| && cs[k].Eligible? && cs[k].activation == r.value.best
              && r.value.best >= threshold
              && (forall j :: 0 <= j < |cs| && cs[j].Eligible? ==> cs[j].activation <= r.value.best)
              && (forall j :: k < j < |cs| && cs[j].Eligible? ==> cs[j].activation < r.value.best)
    decreases |cs|
  {
    if cs == [] then
      Ok(Scan(None, threshold))
    else
      var last := |cs| - 1;
      assert forall j :: 0 <= j < last ==> cs[..last][j] == cs[j];
      var s :- ScanBest(cs[..last], threshold);
      match cs[last]
      case Skip => Ok(s)
      case Raise(e) => Err(e)
      case Eligible(a) => Ok(Improve(s, last, a))
  }

  /** `_partial_match`'s loop as written: each candidate is compared with the
      threshold rather than with the best so far, so the pick is the last
      candidate that clears the threshold, whatever its activation. */
  function ScanLast(cs: seq<Candidate>, threshold: real): (r: Result<Scan>)
    ensures r.Err? <==> !NoRaise(cs)
    ensures r.Err? ==> FirstRaise(cs, r.error)
    ensures r.Ok? && r.value.index.None? ==>
              forall j :: 0 <= j < |cs| && cs[j].Eligible? ==> cs[j].activation < threshold
    ensures r.Ok? && r.value.index.Some? ==>
              var k := r.value.index.value;
              && k < |cs| && cs[k].Eligible? && cs[k].activation >= threshold
              && (forall j :: k < j < |cs| && cs[j].Eligible? ==> cs[j].activation < threshold)
    decreases |cs|
  {
    if cs == [] then
      Ok(Scan(None, threshold))
    else
      var last := |cs| - 1;
      assert forall j :: 0 <= j < last ==> cs[..last][j] == cs[j];
      var s :- ScanLast(cs[..last], threshold);
      match cs[last]
      case Skip => Ok(s)
      case Raise(e) => Err(e)
      case Eligible(a) => if a >= threshold then Ok(Scan(Some(last), a)) else Ok(s)
  }

  /** As written, `_partial_match` over two candidates that both clear the
      threshold picks the second although the first has the higher activation;
      the corrected scan picks the first. */
  lemma {:induction false} PartialMatchAsWrittenPicksLower()
    ensures ScanLast([Eligible(2.0), Eligible(1.0)], 0.0) == Ok(Scan(Some(1), 1.0))
    ensures ScanBest([Eligible(2.0), Eligible(1.0)], 0.0) == Ok(Scan(Some(0), 2.0))
  {
    var cs := [Eligible(2.0), Eligible(1.0)];
    assert cs[..1] == [Eligible(2.0)];
    assert cs[..1][..0] == [];
  }

  /** The pick of the as-written scan never has a higher activation than the
      corrected one, and the two agree on whether anything is found. */
  lemma {:induction false} ScanLastNoBetter(cs: seq<Candidate>, threshold: real)
    requires ScanBest(cs, threshold).Ok?
    ensures ScanLast(cs, threshold).Ok?
    ensures ScanLast(cs, threshold).value.index.None? <==> ScanBest(cs, threshold).value.index.None?
    ensures ScanLast(cs, threshold).value.index.Some? ==>
              ScanLast(cs, threshold).value.best <= ScanBest(cs, threshold).value.best
  {
    if ScanLast(cs, threshold).value.index.Some? {
      ScanLastTracksActivation(cs, threshold);
    }
  }

  /** The best value the as-written scan reports is the activation of its pick. */
  lemma {:induction false} ScanLastTracksActivation(cs: seq<Candidate>, threshold: real)
    requires ScanLast(cs, threshold).Ok? && ScanLast(cs, threshold).value.index.Some?
    ensures ScanLast(cs, threshold).value.best == cs[ScanLast(cs, threshold).value.index.value].activation
    decreases |cs|
  {
    var last := |cs| - 1;
    assert forall j :: 0 <= j < last ==> cs[..last][j] == cs[j];
    if cs[last].Skip? || (cs[last].Eligible? && cs[last].activation < threshold) {
      ScanLastTracksActivation(cs[..last], threshold);
    }
  }

  /** Where the iterator of `_Activations` stops next, starting from position
      `from`: the first candidate it does not pass over, or the end. */
  function NextCandidate(cs: seq<Candidate>, from: nat): (r: nat)
    requires from <= |cs|
    ensures from <= r <= |cs|
    ensures forall j :: from <= j < r ==> cs[j].Skip?
    ensures r < |cs| ==> !cs[r].Skip?
    decreases |cs| - from
  {
    if from == |cs| || !cs[from].Skip? then from else NextCandidate(cs, from + 1)
  }

  /** Passing over candidates that do not qualify leaves either scan where it was. */
  lemma {:induction false} ScansSkip(cs: seq<Candidate>, threshold: real, from: nat, until: nat)
    requires from <= until <= |cs|
    requires forall j :: from <= j < until ==> cs[j].Skip?
    ensures ScanBest(cs[..until], threshold) == ScanBest(cs[..from], threshold)
    ensures ScanLast(cs[..until], threshold) == ScanLast(cs[..from], threshold)
    decreases until
  {
    if from < until {
      ScansSkip(cs, threshold, from, until - 1);
      assert cs[..until][..until - 1] == cs[..until - 1];
    }
  }

  /** One more candidate, as the loop of `_exact_match` takes it: a raise ends
      the scan, and otherwise the pick moves to it when it is eligible with an
      activation at least the best so far. */
  lemma {:induction false} ScanBestStep(cs: seq<Candidate>, threshold: real, i: nat)
    requires i < |cs|
    ensures ScanBest(cs[..i + 1], threshold).Err? <==> ScanBest(cs[..i], threshold).Err? || cs[i].Raise?
    ensures ScanBest(cs[..i], threshold).Ok? && !cs[i].Raise? ==>
              var s := ScanBest(cs[..i], threshold).value;
              ScanBest(cs[..i + 1], threshold).value ==
                if cs[i].Eligible? && cs[i].activation >= s.best then Scan(Some(i), cs[i].activation) else s
  {
    assert cs[..i + 1][..i] == cs[..i];
  }

  /** The same step for `_partial_match` as written, comparing with the threshold. */
  lemma {:induction false} ScanLastStep(cs: seq<Candidate>, threshold: real, i: nat)
    requires i < |cs|
    ensures ScanLast(cs[..i + 1], threshold).Err? <==> ScanLast(cs[..i], threshold).Err? || cs[i].Raise?
    ensures ScanLast(cs[..i], threshold).Ok? && !cs[i].Raise? ==>
              var s := ScanLast(cs[..i], threshold).value;
              ScanLast(cs[..i + 1], threshold).value ==
                if cs[i].Eligible? && cs[i].activation >= threshold then Scan(Some(i), cs[i].activation) else s
  {
    assert cs[..i + 1][..i] == cs[..i];
  }

  /** Where the iterator stops depends only on which candidates, from its
      position on, it passes over. */
  lemma {:induction false} NextCandidateAgree(cs: seq<Candidate>, ds: seq<Candidate>, from: nat)
    requires |cs| == |ds| && from <= |cs|
    requires forall j :: from <= j < |cs| ==> (cs[j].Skip? <==> ds[j].Skip?)
    ensures NextCandidate(cs, from) == NextCandidate(ds, from)
    decreases |cs| - from
  {
    if from < |cs| && cs[from].Skip? {
      NextCandidateAgree(cs, ds, from + 1);
    }
  }

  /** The scan reports the error of the first candidate that raises. */
  lemma {:induction false} ScanBestFirstError(cs: seq<Candidate>, threshold: real, i: nat)
    requires i < |cs| && cs[i].Raise? && NoRaiseBefore(cs, i)
    ensures ScanBest(cs, threshold).Err? && ScanBest(cs, threshold).error == cs[i].error
  {
    var e := ScanBest(cs, threshold).error;
    var k :| 0 <= k < |cs| && cs[k] == Raise(e) && forall j :: 0 <= j < k ==> !cs[j].Raise?;
  }

  /** The scan of `_exact_match` over the first n candidates, indexed rather than
      sliced, in the form a loop over positions maintains. */
  function ScanPrefix(cs: seq<Candidate>, threshold: real, n: nat): (r: Result<Scan>)
    requires n <= |cs|
  {
    if n == 0 then Ok(Scan(None, threshold))
    else
      match ScanPrefix(cs, threshold, n - 1)
      case Err(e) => Err(e)
      case Ok(s) =>
        match cs[n - 1]
        case Skip => Ok(s)
        case Raise(e) => Err(e)
        case Eligible(a) => Ok(Improve(s, n - 1, a))
  }

  lemma {:induction false} ScanPrefixIsScanBest(cs: seq<Candidate>, threshold: real, n: nat)
    requires n <= |cs|
    ensures ScanPrefix(cs, threshold, n) == ScanBest(cs[..n], threshold)
    decreases n
  {
    if n > 0 {
      ScanPrefixIsScanBest(cs, threshold, n - 1);
      assert cs[..n][..n - 1] == cs[..n - 1];
    }
  }

  /** Passing over candidates that do not qualify leaves the scan where it was. */
  lemma {:induction false} ScanPrefixSkip(cs: seq<Candidate>, threshold: real, from: nat, until: nat)
    requires from <= until <= |cs|
    requires forall j :: from <= j < until ==> cs[j].Skip?
    ensures ScanPrefix(cs, threshold, until) == ScanPrefix(cs, threshold, from)
    decreases until
  {
    if from < until {
      ScanPrefixSkip(cs, threshold, from, until - 1);
    }
  }

  /** Over all the candidates, the indexed scan is the scan. */
  lemma {:induction false} ScanPrefixWhole(cs: seq<Candidate>, threshold: real)
    ensures ScanPrefix(cs, threshold, |cs|) == ScanBest(cs, threshold)
  {
    ScanPrefixIsScanBest(cs, threshold, |cs|);
    assert cs[..|cs|] == cs;
  }

  /** One more candidate that does not raise, as the loop of `_exact_match` takes it. */
  lemma {:induction false} ScanPrefixStep(cs: seq<Candidate>, threshold: real, i: nat, s: Scan)
    requires i < |cs| && ScanPrefix(cs, threshold, i) == Ok(s) && !cs[i].Raise?
    ensures ScanPrefix(cs, threshold, i + 1) == Ok(if cs[i].Eligible? then Improve(s, i, cs[i].activation) else s)
    ensures NoRaiseBefore(cs, i) ==> NoRaiseBefore(cs, i + 1)
  {
  }

  /** The iterator stops at n when it passes over everything from its position
      up to n, and n is the end or a candidate it does not pass over. */
  lemma {:induction false} NextCandidateAt(cs: seq<Candidate>, from: nat, n: nat)
    requires from <= n <= |cs|
    requires forall j :: from <= j < n ==> cs[j].Skip?
    requires n == |cs| || !cs[n].Skip?
    ensures NextCandidate(cs, from) == n
    decreases n - from
  {
    if from < n {
      NextCandidateAt(cs, from + 1, n);
    }
  }

  /** The scan over what the iterator yields: passing over candidates from `pos`
      to the next one it stops at, then taking that one. */
  lemma {:induction false} ScanPrefixYield(cs: seq<Candidate>, threshold: real, pos: nat, n: nat, to: nat, s: Scan)
    requires pos <= |cs| && ScanPrefix(cs, threshold, pos) == Ok(s) && NoRaiseBefore(cs, pos)
    requires n == NextCandidate(cs, pos) && n < |cs| && cs[n].Eligible? && to == n + 1
    ensures ScanPrefix(cs, threshold, to) == Ok(Improve(s, n, cs[n].activation))
  {
    ScanPrefixSkip(cs, threshold, pos, n);
    ScanPrefixStep(cs, threshold, n, s);
  }
}
