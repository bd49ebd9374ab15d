/** The engine's two classes: a Chunk, whose references, memo, spreading
    accumulator and importance change in place, and a Memory, which owns the
    parameters, the clock and the chunks in insertion order. */
module DeclarativeMemory {
  import opened Values
  import opened Numerics
  import opened Parameters
  import opened Similarity
  import opened Selection
  import opened Spreading
  import opened Blending
  import opened ChunkStore

  class Chunk {
    const attributes: Attributes
    const creation: real
    var references: References
    var memo: Option<BaseMemo>
    var spreading: Option<real>
    var importance: real

    function View(): (r: ChunkView)
      reads this
    {
      ChunkView(attributes, creation, references, memo, spreading, importance)
    }

    constructor (attrs: Attributes, time: real, optimized: bool)
      ensures View() == NewChunk(attrs, time, optimized)
    {
      attributes := attrs;
      creation := time;
      references := if optimized then Tally(0) else Times([]);
      memo := None;
      spreading := None;
      importance := 0.0;
    }

    /** `_get_base_activation`: the memo when it was taken at the current time;
        otherwise a fresh value, which the memo then records. */
    method GetBaseActivation(k: Clock) returns (r: Result<real>)
      modifies this
      ensures r == CurrentBase(old(View()), k)
      ensures View() == Refreshed(old(View()), k)
    {
      if memo.Some? && memo.value.time == k.time {
        return Ok(memo.value.value);
      }
      r := FreshBase(View(), k);
      if r.Ok? {
        memo := Some(BaseMemo(k.time, r.value));
      }
    }

    /** `_activation`, with the noise draw for this chunk's position supplied. */
    method ComputeActivation(env: Env, position: nat) returns (r: Result<real>)
      modifies this
      ensures r == Activation(old(View()), env, position)
      ensures View() == Refreshed(old(View()), ClockOf(env))
    {
      var base := GetBaseActivation(ClockOf(env));
      if base.Err? {
        return Err(base.error);
      }
      var noise := NoiseTerm(env.params.noise, env.draw(position));
      var spread := if spreading.Some? && spreading.value != 0.0 then spreading.value else 0.0;
      r := Ok(base.value + spread + importance + noise);
    }

    /** The `spreading_activation` setter, corrected to be cumulative as its
        documentation says: as written a zero overwrites the accumulator
        (`Spreading.AccumulateAsWritten`). */
    method SetSpreading(v: Option<real>)
      modifies this
      ensures View() == old(View()).(spreading := Accumulate(old(spreading), v))
    {
      if v.Some? && spreading.Some? {
        spreading := Some(spreading.value + v.value);
      } else {
        spreading := v;
      }
    }
  }

  /** The views of a sequence of chunks. */
  function Views(cs: seq<Chunk>): (s: seq<ChunkView>)
    reads cs
    ensures |s| == |cs| && forall k :: 0 <= k < |cs| ==> s[k] == cs[k].View()
    decreases |cs|
  {
    if cs == [] then [] else Views(cs[..|cs| - 1]) + [cs[|cs| - 1].View()]
  }

  /** No chunk object appears twice. */
  predicate Separate(cs: seq<Chunk>)
  {
    forall a, b :: 0 <= a < |cs| && 0 <= b < |cs| && a != b ==> cs[a] != cs[b]
  }

  class Memory {
    const math: Math
    const similarity: SimilarityConfig
    const hooks: Hooks
    var params: Params
    var time: real
    var chunks: seq<Chunk>

    function Store(): (s: seq<ChunkView>)
      reads this, chunks
      ensures |s| == |chunks| && forall k :: 0 <= k < |chunks| ==> s[k] == chunks[k].View()
    {
      Views(chunks)
    }

    predicate Valid()
      reads this, chunks
    {
      && Consistent(params, math.ln)
      && time >= 0.0
      && StoreOk(Store(), time, params.optimizedLearning)
    }

    function EnvOf(draw: nat -> real): (r: Env)
      reads this
    {
      Env(params, time, math, similarity, draw)
    }

    constructor Init(p: Params, math: Math, similarity: SimilarityConfig, hooks: Hooks)
      ensures params == p && time == 0.0 && chunks == []
      ensures this.math == math && this.similarity == similarity && this.hooks == hooks
    {
      this.math := math;
      this.similarity := similarity;
      this.hooks := hooks;
      params := p;
      time := 0.0;
      chunks := [];
    }

    /** `Memory(...)`, corrected: the assignments of `__init__` in order, then
        `reset`, with a decay of one or more refused only under optimized learning.
        As written it raises AttributeError for any such decay
        (`Parameters.ConfigureAsWritten`). */
    static method New(s: Settings, math: Math, similarity: SimilarityConfig, hooks: Hooks) returns (r: Result<Memory>)
      ensures r.Ok? <==> Admissible(s)
      ensures r.Err? ==> r.error == Configure(s, math.ln).error
      ensures r.Ok? ==> && fresh(r.value) && r.value.Valid()
                        && r.value.params == Configure(s, math.ln).value
                        && r.value.time == 0.0 && r.value.chunks == []
                        && r.value.math == math && r.value.similarity == similarity
                        && r.value.hooks == hooks
    {
      var p := Configure(s, math.ln);
      if p.Err? {
        return Err(p.error);
      }
      var m := new Memory.Init(p.value, math, similarity, hooks);
      return Ok(m);
    }

    /** `reset`: refused with RuntimeError, changing nothing, when optimized
        learning is asked for while the decay is one or more; otherwise it
        empties the store, sets the time to 0 and keeps every other parameter. */
    method Reset(optimized: Option<bool>) returns (o: Outcome)
      requires Valid()
      modifies this
      ensures Valid()
      ensures var a := ResetParams(old(params), optimized); o == a.status && params == a.params
      ensures o.Success? ==> chunks == [] && time == 0.0
      ensures o.Failure? ==> chunks == old(chunks) && time == old(time)
    {
      var a := ResetParams(params, optimized);
      o := a.status;
      if o.Failure? {
        return;
      }
      params := a.params;
      chunks := [];
      time := 0.0;
    }

    /** `advance`: a negative amount raises ValueError; otherwise the time grows
        by the amount and the new time is returned. */
    method Advance(amount: real) returns (r: Result<real>)
      requires Valid()
      modifies this
      ensures Valid()
      ensures amount < 0.0 ==> r.Err? && r.error == ValueError && time == old(time)
      ensures amount >= 0.0 ==> time == old(time) + amount && r.Ok? && r.value == time
      ensures time >= old(time)
      ensures params == old(params) && chunks == old(chunks)
    {
      if amount < 0.0 {
        return Err(ValueError);
      }
      StoreOkLater(Store(), time, time + amount, params.optimizedLearning);
      time := time + amount;
      r := Ok(time);
    }

    method SetNoise(v: real) returns (o: Outcome)
      requires Valid()
      modifies this
      ensures Valid()
      ensures var a := AssignNoise(old(params), v); params == a.params && o == a.status
      ensures time == old(time) && chunks == old(chunks)
    {
      var a := AssignNoise(params, v);
      params, o := a.params, a.status;
    }

    method SetDecay(v: real) returns (o: Outcome)
      requires Valid()
      modifies this
      ensures Valid()
      ensures var a := AssignDecay(old(params), v, math.ln); params == a.params && o == a.status
      ensures time == old(time) && chunks == old(chunks)
    {
      var a := AssignDecay(params, v, math.ln);
      params, o := a.params, a.status;
    }

    method SetTemperature(v: Option<real>) returns (o: Outcome)
      requires Valid()
      modifies this
      ensures Valid()
      ensures var a := AssignTemperature(old(params), v); params == a.params && o == a.status
      ensures time == old(time) && chunks == old(chunks)
    {
      var a := AssignTemperature(params, v);
      params, o := a.params, a.status;
    }

    method SetThreshold(v: Option<real>)
      requires Valid()
      modifies this
      ensures Valid()
      ensures params == AssignThreshold(old(params), v).params
      ensures time == old(time) && chunks == old(chunks)
    {
      params := AssignThreshold(params, v).params;
    }

    method SetMismatch(v: Option<real>) returns (o: Outcome)
      requires Valid()
      modifies this
      ensures Valid()
      ensures var a := AssignMismatch(old(params), v); params == a.params && o == a.status
      ensures time == old(time) && chunks == old(chunks)
    {
      var a := AssignMismatch(params, v);
      params, o := a.params, a.status;
    }

    method SetW(v: Option<real>) returns (o: Outcome)
      requires Valid()
      modifies this
      ensures Valid()
      ensures var a := AssignW(old(params), v); params == a.params && o == a.status
      ensures time == old(time) && chunks == old(chunks)
    {
      var a := AssignW(params, v);
      params, o := a.params, a.status;
    }

    method SetMas(v: Option<real>) returns (o: Outcome)
      requires Valid()
      modifies this
      ensures Valid()
      ensures var a := AssignMas(old(params), v); params == a.params && o == a.status
      ensures time == old(time) && chunks == old(chunks)
    {
      var a := AssignMas(params, v);
      params, o := a.params, a.status;
    }

    /** `learn`: ValueError with no attributes; otherwise the store changes as
        the value-level `Learn` says and the result tells whether a chunk was
        created. */
    method Learn(attrs: Attributes, importance: real) returns (r: Result<bool>)
      requires Valid()
      modifies this, chunks
      ensures Valid()
      ensures r.Ok? <==> |attrs| > 0
      ensures r.Err? ==> r.error == ValueError && Store() == old(Store())
      ensures var l := ChunkStore.Learn(old(Store()), attrs, importance, old(time), old(params).optimizedLearning);
              r.Ok? ==> l.Ok? && r.value == l.value.created && Store() == l.value.store
      ensures params == old(params) && time == old(time)
    {
      if |attrs| == 0 {
        return Err(ValueError);
      }
      var created := LearnSome(attrs, importance);
      r := Ok(created);
    }

    /** `learn` of a non-empty signature: a new chunk, or a known one reinforced. */
    method LearnSome(attrs: Attributes, importance: real) returns (created: bool)
      requires Valid() && |attrs| > 0
      modifies this, chunks
      ensures Valid()
      ensures var l := ChunkStore.Learn(old(Store()), attrs, importance, old(time), old(params).optimizedLearning);
              l.Ok? && created == l.value.created && Store() == l.value.store
      ensures params == old(params) && time == old(time)
    {
      ghost var store0 := Store();
      var optimized := params.optimizedLearning;
      LearnKeepsStoreOk(store0, attrs, importance, time, optimized);
      match IndexOf(Store(), attrs)
      case None =>
        LearnAppends(store0, attrs, importance, time, optimized);
        AppendChunk(attrs, importance);
        created := true;
      case Some(k) =>
        assert ChunkOk(store0[k], time, optimized);
        LearnReplaces(store0, attrs, importance, time, optimized);
        UpdateChunk(k, Reinforce(chunks[k].references, time, optimized).value, importance);
        created := false;
    }

    /** The new chunk of `learn`, with its first reference and its importance,
        at the end of the store. */
    method AppendChunk(attrs: Attributes, importance: real)
      modifies this
      ensures Store() == old(Store()) + [ChunkView(attrs, time, if params.optimizedLearning then Tally(1) else Times([time]), None, None, importance)]
      ensures params == old(params) && time == old(time)
    {
      var optimized := params.optimizedLearning;
      var c := new Chunk(attrs, time, optimized);
      c.references := Reinforce(c.references, time, optimized).value;
      c.importance := importance;
      assert c.View() == ChunkView(attrs, time, if optimized then Tally(1) else Times([time]), None, None, importance);
      PushChunk(c);
    }

    /** A chunk not yet in the store put at its end. */
    method PushChunk(c: Chunk)
      requires c !in chunks
      modifies this
      ensures Store() == old(Store()) + [c.View()]
      ensures params == old(params) && time == old(time)
    {
      chunks := chunks + [c];
      forall j | 0 <= j < |chunks| - 1
        ensures Store()[j] == old(Store())[j]
      {
        assert chunks[j] == old(chunks)[j];
      }
    }

    /** A chunk of the store given new references and importance. */
    method UpdateChunk(k: nat, refs: References, importance: real)
      requires k < |chunks| && Distinct(Store())
      modifies chunks[k]
      ensures Store() == old(Store())[k := old(Store())[k].(references := refs, importance := importance)]
    {
      var c := chunks[k];
      forall j | 0 <= j < |chunks| && j != k
        ensures chunks[j] != c
      {
        assert Store()[j].attributes != Store()[k].attributes;
      }
      c.references := refs;
      c.importance := importance;
    }

    /** The store without the chunk at k. */
    method RemoveChunk(k: nat)
      requires k < |chunks|
      modifies this
      ensures Store() == Delete(old(Store()), k)
      ensures params == old(params) && time == old(time)
    {
      chunks := chunks[..k] + chunks[k + 1..];
    }

    /** `forget`: the store changes as the value-level `Forget` says; a chunk
        whose last reference goes is removed from the store. */
    method Forget(attrs: Attributes, when: real) returns (r: Result<bool>)
      requires Valid()
      modifies this, chunks
      ensures Valid()
      ensures r.Ok? <==> |attrs| > 0
      ensures r.Err? ==> r.error == ValueError && Store() == old(Store())
      ensures var f := ChunkStore.Forget(old(Store()), attrs, when, old(params).optimizedLearning);
              r.Ok? ==> f.Ok? && r.value == f.value.undone && Store() == f.value.store
      ensures params == old(params) && time == old(time)
    {
      if |attrs| == 0 {
        return Err(ValueError);
      }
      var undone := ForgetSome(attrs, when);
      r := Ok(undone);
    }

    /** `forget` of a non-empty signature. */
    method ForgetSome(attrs: Attributes, when: real) returns (undone: bool)
      requires Valid() && |attrs| > 0
      modifies this, chunks
      ensures Valid()
      ensures var f := ChunkStore.Forget(old(Store()), attrs, when, old(params).optimizedLearning);
              f.Ok? && undone == f.value.undone && Store() == f.value.store
      ensures params == old(params) && time == old(time)
    {
      if params.optimizedLearning {
        undone := ForgetCounting(attrs, when);
      } else {
        undone := ForgetTiming(attrs, when);
      }
    }

    /** `forget` under optimized learning. */
    method ForgetCounting(attrs: Attributes, when: real) returns (undone: bool)
      requires Valid() && |attrs| > 0 && params.optimizedLearning
      modifies this, chunks
      ensures Valid()
      ensures var f := ChunkStore.Forget(old(Store()), attrs, when, old(params).optimizedLearning);
              f.Ok? && undone == f.value.undone && Store() == f.value.store
      ensures params == old(params) && time == old(time)
    {
      ghost var store0 := Store();
      StoreOkModeOk(store0, time, true);
      ghost var f := ChunkStore.Forget(store0, attrs, when, true).value;
      ForgetKeepsStoreOk(store0, attrs, when, time, true);
      match IndexOf(Store(), attrs)
      case None =>
        undone := false;
      case Some(k) =>
        assert ChunkOk(store0[k], time, true);
        ForgetCounted(store0, attrs, when, k);
        ghost var n := store0[k].references.count;
        ghost var to := if n == 1 then Delete(store0, k) else store0[k := store0[k].(references := Tally(n - 1))];
        assert f.store == to;
        DropCount(k, store0, to);
        undone := true;
    }

    /** `forget` with lists of reference times. */
    method ForgetTiming(attrs: Attributes, when: real) returns (undone: bool)
      requires Valid() && |attrs| > 0 && !params.optimizedLearning
      modifies this, chunks
      ensures Valid()
      ensures var f := ChunkStore.Forget(old(Store()), attrs, when, old(params).optimizedLearning);
              f.Ok? && undone == f.value.undone && Store() == f.value.store
      ensures params == old(params) && time == old(time)
    {
      ghost var store0 := Store();
      StoreOkModeOk(store0, time, false);
      ghost var f := ChunkStore.Forget(store0, attrs, when, false).value;
      ForgetKeepsStoreOk(store0, attrs, when, time, false);
      match IndexOf(Store(), attrs)
      case None =>
        undone := false;
      case Some(k) =>
        assert ChunkOk(store0[k], time, false);
        ForgetTimed(store0, attrs, when, k);
        ghost var ts := store0[k].references.times;
        ghost var to := if when !in ts then store0
                        else if |ts| == 1 then Delete(store0, k)
                        else store0[k := store0[k].(references := Times(RemoveFirst(ts, when)))];
        assert f.store == to && f.undone == (when in ts);
        undone := DropTime(k, when);
        assert Store() == to;
    }

    /** `forget` under optimized learning: one reference fewer, and the chunk
        goes with its last one. */
    method DropCount(k: nat, ghost from: seq<ChunkView>, ghost to: seq<ChunkView>)
      requires k < |chunks| && Store() == from && Distinct(from) && from[k].references.Tally?
      requires var n := from[k].references.count;
               to == if n == 1 then Delete(from, k) else from[k := from[k].(references := Tally(n - 1))]
      modifies this, chunks[k]
      ensures Store() == to
      ensures params == old(params) && time == old(time)
    {
      var n := chunks[k].references.count;
      if n == 1 {
        RemoveChunk(k);
      } else {
        UpdateChunk(k, Tally(n - 1), chunks[k].importance);
      }
    }

    /** `forget` with lists of times: nothing happens unless `when` is among the
        chunk's references; then its first occurrence goes, and the chunk goes
        with its last reference. */
    method DropTime(k: nat, when: real) returns (undone: bool)
      requires k < |chunks| && Distinct(Store()) && chunks[k].references.Times?
      modifies this, chunks[k]
      ensures var ts := old(Store())[k].references.times;
              && (undone <==> when in ts)
              && Store() == if !undone then old(Store())
                            else if |ts| == 1 then Delete(old(Store()), k)
                            else old(Store())[k := old(Store())[k].(references := Times(RemoveFirst(ts, when)))]
      ensures params == old(params) && time == old(time)
    {
      var ts := chunks[k].references.times;
      if when !in ts {
        return false;
      }
      var rest := RemoveFirst(ts, when);
      if rest == [] {
        RemoveChunk(k);
      } else {
        UpdateChunk(k, Times(rest), chunks[k].importance);
      }
      undone := true;
    }

    /** Distinct signatures make the chunks distinct objects. */
    lemma {:induction false} DistinctChunks()
      requires Valid()
      ensures Separate(chunks)
    {
      forall a, b | 0 <= a < |chunks| && 0 <= b < |chunks| && a != b
        ensures chunks[a] != chunks[b]
      {
        if a < b {
          assert Store()[a].attributes != Store()[b].attributes;
        } else {
          assert Store()[b].attributes != Store()[a].attributes;
        }
      }
    }

    /** `_exact_match`: the chunk with every cue attribute at the cue's value whose
        activation is highest and at least the threshold, the last of equals;
        None when there is none. The first activation that raises ends the scan. */
    method ExactMatch(cue: Cue, draw: nat -> real) returns (r: Result<Option<Chunk>>)
      requires Valid()
      modifies chunks
      ensures Valid()
      ensures var cands := ExactCandidates(old(Store()), cue, EnvOf(draw));
              var s := ScanBest(cands, params.threshold);
              && (r.Err? <==> s.Err?)
              && (r.Err? ==> r.error == s.error)
              && (r.Ok? ==> (r.value.None? <==> s.value.index.None?))
              && (r.Ok? && r.value.Some? ==> r.value.value == chunks[s.value.index.value])
              && Store() == Touched(old(Store()), cands, ClockOf(EnvOf(draw)))
    {
      DistinctChunks();
      var env := EnvOf(draw);
      ghost var cands := ExactCandidates(Store(), cue, env);
      ghost var after := Touched(Store(), cands, ClockOf(env));
      TouchedTransparent(Store(), cands, ClockOf(env), params.optimizedLearning, time);
      assert StoreOk(after, time, params.optimizedLearning);
      var s := ScanExact(cue, env, params.threshold);
      assert Store() == after;
      if s.Err? {
        return Err(s.error);
      }
      r := Ok(if s.value.index.Some? then Some(chunks[s.value.index.value]) else None);
    }

    /** The loop of `_exact_match`, over the chunks in insertion order. */
    method ScanExact(cue: Cue, env: Env, threshold: real) returns (r: Result<Scan>)
      requires Separate(chunks)
      modifies chunks
      ensures var s := ScanBest(ExactCandidates(old(Store()), cue, env), threshold);
              && (r.Err? <==> s.Err?)
              && (r.Err? ==> r.error == s.error)
              && (r.Ok? ==> r.value == s.value)
      ensures Store() == Touched(old(Store()), ExactCandidates(old(Store()), cue, env), ClockOf(env))
    {
      ghost var store0 := Store();
      ghost var cands := ExactCandidates(store0, cue, env);
      ghost var after := Touched(store0, cands, ClockOf(env));
      var scan := Scan(None, threshold);
      var i: nat := 0;
      SplicedStart(after, store0);
      while true
        invariant i <= |chunks|
        invariant ScanPrefix(cands, threshold, i) == Ok(scan)
        invariant NoRaiseBefore(cands, i)
        invariant Store() == Spliced(after, store0, i)
        decreases |chunks| - i
      {
        var next;
        next, scan := ExactStep(i, cue, env, threshold, store0, cands, scan);
        if next.Stopped? {
          return Err(next.error);
        }
        if next.Finished? {
          break;
        }
        i := next.position;
      }
      r := Ok(scan);
    }

    /** One pass of the loop of `_exact_match`: the chunk at i, its activation
        computed only when it matches the cue exactly, and the pick moved to it
        when that activation is at least the best so far. */
    method ExactStep(i: nat, cue: Cue, env: Env, threshold: real, ghost store0: seq<ChunkView>,
                     ghost cands: seq<Candidate>, scan: Scan)
      returns (next: Pass, scan': Scan)
      requires Separate(chunks) && i <= |chunks| == |store0|
      requires cands == ExactCandidates(store0, cue, env)
      requires ScanPrefix(cands, threshold, i) == Ok(scan)
      requires NoRaiseBefore(cands, i) && Store() == Spliced(Touched(store0, cands, ClockOf(env)), store0, i)
      modifies chunks
      ensures next.Stopped? ==>
                && ScanBest(cands, threshold).Err? && ScanBest(cands, threshold).error == next.error
                && Store() == Touched(store0, cands, ClockOf(env))
      ensures next.Finished? ==> ScanBest(cands, threshold) == Ok(scan') && Store() == Touched(store0, cands, ClockOf(env))
      ensures next.Moved? ==> next.position == i + 1 <= |chunks|
      ensures next.Moved? ==> ScanPrefix(cands, threshold, next.position) == Ok(scan')
      ensures next.Moved? ==>
                NoRaiseBefore(cands, next.position) && Store() == Spliced(Touched(store0, cands, ClockOf(env)), store0, next.position)
    {
      ghost var prev := Store();
      scan' := scan;
      if i == |chunks| {
        ExactEnd(store0, cands, ClockOf(env), threshold, i, scan, prev);
        return Finished, scan';
      }
      var cand := ConsiderExact(i, cue, env, store0[i]);
      assert cand == cands[i];
      if cand.Raise? {
        ExactRaise(store0, cands, ClockOf(env), threshold, i, prev, Store());
        return Stopped(cand.error), scan';
      }
      next := Moved(i + 1);
      ExactYield(store0, cands, ClockOf(env), threshold, i, next.position, scan, prev, Store());
      if cand.Eligible? {
        scan' := Improve(scan, i, cand.activation);
      }
    }

    /** One chunk of `_exact_match`'s loop: its activation is computed, and its
        memo refreshed, only when it matches the cue exactly. */
    method ConsiderExact(i: nat, cue: Cue, env: Env, ghost v: ChunkView) returns (cand: Candidate)
      requires i < |chunks| && chunks[i].View() == v && Separate(chunks)
      modifies chunks[i]
      ensures cand == ExactCandidate(v, cue, env, i)
      ensures Store() == old(Store())[i := if cand.Skip? then v else Refreshed(v, ClockOf(env))]
    {
      var c := chunks[i];
      if !Matches(cue, c.attributes) {
        return Skip;
      }
      var a := c.ComputeActivation(env, i);
      cand := AsCandidate(a);
    }

    /** `_Activations.__next__` from position `from` of the chunk list: the next
        chunk the iterator does not pass over, with its activation (lowered by the
        mismatch penalty under partial matching), or the end; a raising activation
        propagates. Only the chunk it stops at has its memo refreshed. */
    method NextActivation(from: nat, cue: Cue, env: Env, ghost store0: seq<ChunkView>, ghost cands: seq<Candidate>,
                          ghost after: seq<ChunkView>)
      returns (r: Result<Step>)
      requires from <= |chunks| == |store0| == |after| && Separate(chunks)
      requires Store() == Spliced(after, store0, from)
      requires cands == IteratorCandidates(store0, cue, env)
      modifies chunks
      ensures NextCandidate(cands, from) == |chunks| ==> r.Ok? && r.value.Stop? && Store() == old(Store())
      ensures NextCandidate(cands, from) < |chunks| ==>
                Store() == old(Store())[NextCandidate(cands, from) := Refreshed(store0[NextCandidate(cands, from)], ClockOf(env))]
      ensures NextCandidate(cands, from) < |chunks| ==> (r.Err? <==> cands[NextCandidate(cands, from)].Raise?)
      ensures NextCandidate(cands, from) < |chunks| && r.Err? ==> r.error == cands[NextCandidate(cands, from)].error
      ensures NextCandidate(cands, from) < |chunks| && r.Ok? ==>
                && r.value.Yield? && r.value.index == NextCandidate(cands, from)
                && r.value.activation == cands[NextCandidate(cands, from)].activation
    {
      var i := from;
      while i < |chunks| && IteratorPasses(cue, chunks[i].attributes, env.params.mismatch)
        invariant from <= i <= |chunks|
        invariant forall j :: from <= j < i ==> cands[j].Skip?
      {
        i := i + 1;
      }
      NextCandidateAt(cands, from, i);
      if i == |chunks| {
        return Ok(Stop);
      }
      assert Store()[i] == store0[i];
      var cand := ConsiderIterator(i, cue, env, store0[i]);
      assert cand == cands[i];
      if cand.Raise? {
        return Err(cand.error);
      }
      r := Ok(Yield(i, cand.activation));
    }

    /** The iterator's work on a chunk it does not pass over: the activation,
        then under partial matching the mismatch penalty times the summed
        similarities of the cue values to the chunk's. */
    method ConsiderIterator(i: nat, cue: Cue, env: Env, ghost v: ChunkView) returns (cand: Candidate)
      requires i < |chunks| && chunks[i].View() == v && Separate(chunks)
      requires !IteratorPasses(cue, v.attributes, env.params.mismatch)
      modifies chunks[i]
      ensures cand == IteratorCandidate(v, cue, env, i)
      ensures Store() == old(Store())[i := Refreshed(v, ClockOf(env))]
    {
      var c := chunks[i];
      var a := c.ComputeActivation(env, i);
      if a.Err? {
        return Raise(a.error);
      }
      if env.params.mismatch.Some? {
        return Eligible(a.value + MismatchTerm(env.params.mismatch.value, cue, c.attributes, env.similarity));
      }
      cand := Eligible(a.value);
    }

    /** `_partial_match`, corrected to compare each activation with the best so
        far: the chunk the iterator yields with the highest activation at least the
        threshold, the last of equals. */
    method PartialMatch(cue: Cue, draw: nat -> real) returns (r: Result<Option<Chunk>>)
      requires Valid()
      modifies chunks
      ensures Valid()
      ensures var cands := IteratorCandidates(old(Store()), cue, EnvOf(draw));
              var s := ScanBest(cands, params.threshold);
              && (r.Err? <==> s.Err?)
              && (r.Err? ==> r.error == s.error)
              && (r.Ok? ==> (r.value.None? <==> s.value.index.None?))
              && (r.Ok? && r.value.Some? ==> r.value.value == chunks[s.value.index.value])
              && Store() == Touched(old(Store()), cands, ClockOf(EnvOf(draw)))
    {
      DistinctChunks();
      var env := EnvOf(draw);
      ghost var cands := IteratorCandidates(Store(), cue, env);
      ghost var after := Touched(Store(), cands, ClockOf(env));
      TouchedTransparent(Store(), cands, ClockOf(env), params.optimizedLearning, time);
      assert StoreOk(after, time, params.optimizedLearning);
      var s := ScanPartial(cue, env, params.threshold);
      assert Store() == after;
      if s.Err? {
        return Err(s.error);
      }
      r := Ok(if s.value.index.Some? then Some(chunks[s.value.index.value]) else None);
    }

    /** The loop of `_partial_match` over what the iterator yields. */
    method ScanPartial(cue: Cue, env: Env, threshold: real) returns (r: Result<Scan>)
      requires Separate(chunks)
      modifies chunks
      ensures var s := ScanBest(IteratorCandidates(old(Store()), cue, env), threshold);
              && (r.Err? <==> s.Err?)
              && (r.Err? ==> r.error == s.error)
              && (r.Ok? ==> r.value == s.value)
      ensures Store() == Touched(old(Store()), IteratorCandidates(old(Store()), cue, env), ClockOf(env))
    {
      ghost var store0 := Store();
      ghost var cands := IteratorCandidates(store0, cue, env);
      ghost var after := Touched(store0, cands, ClockOf(env));
      var scan := Scan(None, threshold);
      var pos: nat := 0;
      SplicedStart(after, store0);
      while true
        invariant pos <= |chunks|
        invariant ScanPrefix(cands, threshold, pos) == Ok(scan)
        invariant NoRaiseBefore(cands, pos)
        invariant Store() == Spliced(after, store0, pos)
        decreases |chunks| - pos
      {
        var next;
        next, scan := PartialStep(pos, cue, env, threshold, store0, cands, scan);
        if next.Stopped? {
          return Err(next.error);
        }
        if next.Finished? {
          break;
        }
        pos := next.position;
      }
      r := Ok(scan);
    }

    /** One pass of `_partial_match`'s loop: the iterator's next yield, and the
        pick moved to it when its activation is at least the best so far. */
    method PartialStep(pos: nat, cue: Cue, env: Env, threshold: real, ghost store0: seq<ChunkView>,
                       ghost cands: seq<Candidate>, scan: Scan)
      returns (next: Pass, scan': Scan)
      requires Separate(chunks) && pos <= |chunks| == |store0|
      requires cands == IteratorCandidates(store0, cue, env)
      requires ScanPrefix(cands, threshold, pos) == Ok(scan)
      requires NoRaiseBefore(cands, pos) && Store() == Spliced(Touched(store0, cands, ClockOf(env)), store0, pos)
      modifies chunks
      ensures next.Stopped? ==>
                && ScanBest(cands, threshold).Err? && ScanBest(cands, threshold).error == next.error
                && Store() == Touched(store0, cands, ClockOf(env))
      ensures next.Finished? ==> ScanBest(cands, threshold) == Ok(scan') && Store() == Touched(store0, cands, ClockOf(env))
      ensures next.Moved? ==> pos < next.position <= |chunks|
      ensures next.Moved? ==> ScanPrefix(cands, threshold, next.position) == Ok(scan')
      ensures next.Moved? ==>
                NoRaiseBefore(cands, next.position) && Store() == Spliced(Touched(store0, cands, ClockOf(env)), store0, next.position)
    {
      ghost var prev := Store();
      var step := NextActivation(pos, cue, env, store0, cands, Touched(store0, cands, ClockOf(env)));
      scan' := scan;
      if step.Err? {
        next := Stopped(step.error);
      } else if step.value.Stop? {
        next := Finished;
      } else {
        scan' := Improve(scan, step.value.index, step.value.activation);
        next := Moved(step.value.index + 1);
      }
      PartialPass(store0, cands, ClockOf(env), threshold, pos, scan, step, next, scan', prev, Store());
    }

    /** `retrieve`: partial or exact matching of the cue. */
    method Retrieve(partial: bool, cue: Cue, draw: nat -> real) returns (r: Result<Option<Chunk>>)
      requires Valid()
      modifies chunks
      ensures Valid()
      ensures var env := EnvOf(draw);
              var cands := if partial then IteratorCandidates(old(Store()), cue, env)
                           else ExactCandidates(old(Store()), cue, env);
              var s := ScanBest(cands, params.threshold);
              && (r.Err? <==> s.Err?)
              && (r.Err? ==> r.error == s.error)
              && (r.Ok? ==> (r.value.None? <==> s.value.index.None?))
              && (r.Ok? && r.value.Some? ==> r.value.value == chunks[s.value.index.value])
              && Store() == Touched(old(Store()), cands, ClockOf(env))
    {
      if partial {
        r := PartialMatch(cue, draw);
      } else {
        r := ExactMatch(cue, draw);
      }
    }

    /** `blend`: the average of the outcome attribute over the chunks the
        iterator yields that hold it, each weighted by exp(activation /
        temperature); None when nothing is weighted. A raising activation, or an
        outcome value that is not a number, raises. */
    method Blend(outcome: string, cue: Cue, draw: nat -> real) returns (r: Result<Option<real>>)
      requires Valid()
      modifies chunks
      ensures Valid()
      ensures var b := BlendValue(BlendContributions(old(Store()), outcome, cue, EnvOf(draw)));
              && (r.Err? <==> b.Err?)
              && (r.Err? ==> r.error == b.error)
              && (r.Ok? ==> r.value == b.value)
      ensures Store() == Touched(old(Store()), BlendCandidates(old(Store()), outcome, cue, EnvOf(draw)), ClockOf(EnvOf(draw)))
    {
      DistinctChunks();
      var env := EnvOf(draw);
      ghost var bc := BlendCandidates(Store(), outcome, cue, env);
      ghost var after := Touched(Store(), bc, ClockOf(env));
      TouchedTransparent(Store(), bc, ClockOf(env), params.optimizedLearning, time);
      assert StoreOk(after, time, params.optimizedLearning);
      var t := BlendSums(outcome, cue, env);
      assert Store() == after;
      if t.Err? {
        return Err(t.error);
      }
      r := Ok(if t.value.weights == 0.0 then None else Some(t.value.weightedOutcomes / t.value.weights));
    }

    /** The loop of `blend`, accumulating `weights` and `weighted_outcomes`. */
    method BlendSums(outcome: string, cue: Cue, env: Env) returns (r: Result<Totals>)
      requires Separate(chunks) && env.params.temperature != 0.0
      modifies chunks
      ensures var s := Sums(BlendContributions(old(Store()), outcome, cue, env));
              && (r.Err? <==> s.Err?)
              && (r.Err? ==> r.error == s.error)
              && (r.Ok? ==> r.value == s.value)
      ensures Store() == Touched(old(Store()), BlendCandidates(old(Store()), outcome, cue, env), ClockOf(env))
    {
      ghost var store0 := Store();
      ghost var cands := IteratorCandidates(store0, cue, env);
      ghost var cs := BlendContributions(store0, outcome, cue, env);
      ghost var bc := BlendCandidates(store0, outcome, cue, env);
      ghost var after := Touched(store0, bc, ClockOf(env));
      BlendAgreement(store0, outcome, cue, env);
      var totals := Totals(0.0, 0.0);
      var pos: nat := 0;
      SplicedStart(after, store0);
      while true
        invariant pos <= |chunks|
        invariant SumsPrefix(cs, pos) == Ok(totals)
        invariant NoRaiseBefore(bc, pos)
        invariant Store() == Spliced(after, store0, pos)
        decreases |chunks| - pos
      {
        var next;
        next, totals := BlendStep(pos, outcome, cue, env, store0, cands, cs, bc, totals);
        if next.Stopped? {
          return Err(next.error);
        }
        if next.Finished? {
          break;
        }
        pos := next.position;
      }
      r := Ok(totals);
    }

    /** One pass of `blend`'s loop: the iterator's next yield, passed over when
        the chunk lacks the outcome attribute, and otherwise added to the sums. */
    method BlendStep(pos: nat, outcome: string, cue: Cue, env: Env, ghost store0: seq<ChunkView>,
                     ghost cands: seq<Candidate>, ghost cs: seq<Contribution>, ghost bc: seq<Candidate>, totals: Totals)
      returns (next: Pass, totals': Totals)
      requires Separate(chunks) && pos <= |chunks| == |store0| && env.params.temperature != 0.0
      requires cands == IteratorCandidates(store0, cue, env) && BlendAgrees(store0, cands, bc, cs, outcome, env)
      requires SumsPrefix(cs, pos) == Ok(totals)
      requires NoRaiseBefore(bc, pos) && Store() == Spliced(Touched(store0, bc, ClockOf(env)), store0, pos)
      modifies chunks
      ensures next.Stopped? ==> Sums(cs).Err? && Sums(cs).error == next.error && Store() == Touched(store0, bc, ClockOf(env))
      ensures next.Finished? ==> Sums(cs) == Ok(totals') && Store() == Touched(store0, bc, ClockOf(env))
      ensures next.Moved? ==> pos < next.position <= |chunks|
      ensures next.Moved? ==> SumsPrefix(cs, next.position) == Ok(totals')
      ensures next.Moved? ==>
                NoRaiseBefore(bc, next.position) && Store() == Spliced(Touched(store0, bc, ClockOf(env)), store0, next.position)
    {
      ghost var n := NextCandidate(cands, pos);
      ghost var prev := Store();
      var step := NextActivation(pos, cue, env, store0, cands, Touched(store0, bc, ClockOf(env)));
      totals' := totals;
      if step.Err? {
        BlendRaised(store0, outcome, env, pos, cands, bc, cs, n, prev, Store());
        return Stopped(step.error), totals';
      }
      if step.value.Stop? {
        BlendEnd(store0, outcome, env, pos, cands, bc, cs, prev, Store());
        return Finished, totals';
      }
      next, totals' := BlendTake(pos, step.value.index, step.value.activation, outcome, env, store0, cands, cs, bc, prev, totals);
    }

    /** The rest of a pass of `blend`'s loop once the iterator yields chunk
        `index` with `activation`: the chunk's contribution, added to the sums
        or ending the loop with its exception. */
    method BlendTake(pos: nat, index: nat, activation: real, outcome: string, env: Env, ghost store0: seq<ChunkView>,
                     ghost cands: seq<Candidate>, ghost cs: seq<Contribution>, ghost bc: seq<Candidate>,
                     ghost prev: seq<ChunkView>, totals: Totals)
      returns (next: Pass, totals': Totals)
      requires pos <= |chunks| == |store0| && BlendAgrees(store0, cands, bc, cs, outcome, env)
      requires SumsPrefix(cs, pos) == Ok(totals) && NoRaiseBefore(bc, pos)
      requires index == NextCandidate(cands, pos) && index < |chunks| && cands[index] == Eligible(activation)
      requires prev == Spliced(Touched(store0, bc, ClockOf(env)), store0, pos)
      requires Store() == prev[index := Refreshed(store0[index], ClockOf(env))]
      ensures !next.Finished?
      ensures next.Stopped? ==> Sums(cs).Err? && Sums(cs).error == next.error && Store() == Touched(store0, bc, ClockOf(env))
      ensures next.Moved? ==> pos < next.position <= |chunks|
      ensures next.Moved? ==> SumsPrefix(cs, next.position) == Ok(totals')
      ensures next.Moved? ==>
                NoRaiseBefore(bc, next.position) && Store() == Spliced(Touched(store0, bc, ClockOf(env)), store0, next.position)
    {
      assert Store()[index] == Refreshed(store0[index], ClockOf(env));
      var c := Contribute(chunks[index].attributes, activation, outcome, env.params.temperature, env.math.exp);
      assert BlendAgree(store0[index], cands[index], bc[index], cs[index], outcome, env);
      assert c == cs[index];
      var t := Add(Ok(totals), c);
      totals' := totals;
      if t.Err? {
        BlendRaised(store0, outcome, env, pos, cands, bc, cs, index, prev, Store());
        return Stopped(t.error), totals';
      }
      next := Moved(index + 1);
      BlendYield(store0, outcome, env, pos, cands, bc, cs, index, next.position, totals, t, prev, Store());
      totals' := t.value;
    }

    /** `spread`: ValueError without cue attributes; otherwise the accumulators
        are cleared first when asked, the vector is computed from the chunks'
        attributes, a vector that is missing or of the wrong length raises
        RuntimeError, and each chunk's accumulator takes its entry. */
    method Spread(autoClear: bool, cue: Cue) returns (o: Outcome)
      requires Valid()
      modifies chunks
      ensures Valid()
      ensures |cue| == 0 ==> o == Failure(ValueError) && Store() == old(Store())
      ensures |cue| > 0 ==>
                var base := if autoClear then Cleared(old(Store())) else old(Store());
                var v := SpreadingVector(cue, AttributesOf(base), params.w, params.mas, math.ln, hooks);
                && (v.Err? ==> o.Failure? && o.error == v.error && Store() == base)
                && (v.Ok? && |v.value| != |base| ==> o.Failure? && o.error == RuntimeError && Store() == base)
                && (v.Ok? && |v.value| == |base| ==> o.Success? && Store() == SpreadAll(base, v.value))
    {
      if |cue| == 0 {
        return Failure(ValueError);
      }
      if autoClear {
        ClearSpread();
      }
      o := SpreadCue(cue);
    }

    /** `spread` once the accumulators are cleared or kept: the vector for the
        cue over the current chunks, applied when it has one entry per chunk. */
    method SpreadCue(cue: Cue) returns (o: Outcome)
      requires Valid() && |cue| > 0
      modifies chunks
      ensures Valid()
      ensures var v := SpreadingVector(cue, AttributesOf(old(Store())), params.w, params.mas, math.ln, hooks);
              && (v.Err? ==> o.Failure? && o.error == v.error && Store() == old(Store()))
              && (v.Ok? && |v.value| != |old(Store())| ==> o.Failure? && o.error == RuntimeError && Store() == old(Store()))
              && (v.Ok? && |v.value| == |old(Store())| ==> o.Success? && Store() == SpreadAll(old(Store()), v.value))
    {
      var v := SpreadingVector(cue, AttributesOf(Store()), params.w, params.mas, math.ln, hooks);
      if v.Err? {
        return Failure(v.error);
      }
      if |v.value| != |chunks| {
        return Failure(RuntimeError);
      }
      SpreadKeepsStoreOk(Store(), v.value, time, params.optimizedLearning);
      SpreadVector(v.value);
      o := Success;
    }

    /** `spread`'s loop: each chunk's spreading activation setter called with its
        entry of the vector, in insertion order. */
    method SpreadVector(vector: seq<real>)
      requires |vector| == |chunks| && Separate(chunks)
      modifies chunks
      ensures Store() == SpreadAll(old(Store()), vector)
    {
      ghost var store0 := Store();
      ghost var after := SpreadAll(store0, vector);
      SplicedStart(after, store0);
      var i := 0;
      while i < |chunks|
        invariant i <= |chunks|
        invariant Store() == Spliced(after, store0, i)
      {
        SplicedStep(after, store0, i);
        SetSpreadingAt(i, Some(vector[i]));
        i := i + 1;
      }
      SplicedDone(after, store0, i);
    }

    /** `clear_spread`: every chunk's spreading activation set to None. */
    method ClearSpread()
      requires Valid()
      modifies chunks
      ensures Valid()
      ensures Store() == Cleared(old(Store()))
    {
      DistinctChunks();
      ClearKeepsStoreOk(Store(), time, params.optimizedLearning);
      ClearAll();
    }

    /** The loop of `clear_spread`, over the chunks in insertion order. */
    method ClearAll()
      requires Separate(chunks)
      modifies chunks
      ensures Store() == Cleared(old(Store()))
    {
      ghost var store0 := Store();
      ghost var after := Cleared(store0);
      SplicedStart(after, store0);
      var i := 0;
      while i < |chunks|
        invariant i <= |chunks|
        invariant Store() == Spliced(after, store0, i)
      {
        SplicedStep(after, store0, i);
        SetSpreadingAt(i, None);
        i := i + 1;
      }
      SplicedDone(after, store0, i);
    }

    /** The setter of the chunk at position i. */
    method SetSpreadingAt(i: nat, v: Option<real>)
      requires i < |chunks| && Separate(chunks)
      modifies chunks[i]
      ensures Store() == old(Store())[i := old(Store())[i].(spreading := Accumulate(old(Store())[i].spreading, v))]
    {
      chunks[i].SetSpreading(v);
    }
  }
}
