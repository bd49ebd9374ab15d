/** The chunk store as values: what `learn` and `forget` do to it, how a chunk's
    base-level activation is computed and memoised, and the candidates each
    retrieval and blending scan sees. */
module ChunkStore {
  import opened Values
  import opened Numerics
  import opened Parameters
  import opened Similarity
  import opened Selection
  import opened Spreading
  import opened Blending

  /** The times a chunk was learned, or under optimized learning how many times. */
  datatype References = Times(times: seq<real>) | Tally(count: int)

  /** `_base_activation_time` and `_base_activation`. */
  datatype BaseMemo = BaseMemo(time: real, value: real)

  /** A chunk's state. */
  datatype ChunkView = ChunkView(
    attributes: Attributes,
    creation: real,
    references: References,
    memo: Option<BaseMemo>,
    spreading: Option<real>,
    importance: real)

  predicate Sorted(ts: seq<real>)
  {
    forall a, b :: 0 <= a < b < |ts| ==> ts[a] <= ts[b]
  }

  /** The shape of every chunk a memory at this time and in this mode holds. */
  predicate ChunkOk(c: ChunkView, time: real, optimized: bool)
  {
    && |c.attributes| > 0
    && c.creation <= time
    && match c.references
       case Times(ts) =>
         !optimized && |ts| > 0 && Sorted(ts) && forall k :: 0 <= k < |ts| ==> c.creation <= ts[k] <= time
       case Tally(n) => optimized && n >= 1
  }

  /** No two chunks share a signature. Two sorted tuples of attribute/value pairs
      are equal exactly when the attribute maps are, so the map is the signature. */
  predicate Distinct(store: seq<ChunkView>)
  {
    forall a, b :: 0 <= a < b < |store| ==> store[a].attributes != store[b].attributes
  }

  predicate StoreOk(store: seq<ChunkView>, time: real, optimized: bool)
  {
    Distinct(store) && forall k :: 0 <= k < |store| ==> ChunkOk(store[k], time, optimized)
  }

  function AttributesOf(store: seq<ChunkView>): (r: seq<Attributes>)
    ensures |r| == |store| && forall k :: 0 <= k < |store| ==> r[k] == store[k].attributes
  {
    seq(|store|, k requires 0 <= k < |store| => store[k].attributes)
  }

  /** Where the chunk with this signature sits in the store, if it is there. */
  function IndexOf(store: seq<ChunkView>, attrs: Attributes): (r: Option<nat>)
    ensures r.None? <==> forall k :: 0 <= k < |store| ==> store[k].attributes != attrs
    ensures r.Some? ==> r.value < |store| && store[r.value].attributes == attrs
    ensures r.Some? ==> forall k :: 0 <= k < r.value ==> store[k].attributes != attrs
    decreases |store|
  {
    if store == [] then None
    else if store[0].attributes == attrs then Some(0)
    else
      match IndexOf(store[1..], attrs)
      case None => None
      case Some(k) => Some(k + 1)
  }

  /** A chunk as `Chunk.__init__` makes it: created now, never referenced, no
      memo, no spreading activation, importance 0. */
  function NewChunk(attrs: Attributes, time: real, optimized: bool): (r: ChunkView)
  {
    ChunkView(attrs, time, if optimized then Tally(0) else Times([]), None, None, 0.0)
  }

  /** One more reference at this time: the count grows by one, or the time is
      appended. A count treated as a list, or a list as a count, raises. */
  function Reinforce(refs: References, time: real, optimized: bool): (r: Result<References>)
    ensures r.Ok? <==> (optimized <==> refs.Tally?)
    ensures r.Ok? && optimized ==> r.value == Tally(refs.count + 1)
    ensures r.Ok? && !optimized ==> r.value == Times(refs.times + [time])
  {
    if optimized then
      if refs.Tally? then Ok(Tally(refs.count + 1)) else Err(TypeError)
    else
      if refs.Times? then Ok(Times(refs.times + [time])) else Err(AttributeError)
  }

  /** Every chunk keeps its references in the form the mode uses. */
  predicate ModeOk(store: seq<ChunkView>, optimized: bool)
  {
    forall k :: 0 <= k < |store| ==> (store[k].references.Tally? <==> optimized)
  }

  lemma {:induction false} StoreOkModeOk(store: seq<ChunkView>, time: real, optimized: bool)
    requires StoreOk(store, time, optimized)
    ensures ModeOk(store, optimized)
  {
    forall k | 0 <= k < |store|
      ensures store[k].references.Tally? <==> optimized
    {
      assert ChunkOk(store[k], time, optimized);
    }
  }

  /** Time passing keeps the store well formed. */
  lemma {:induction false} StoreOkLater(store: seq<ChunkView>, time: real, later: real, optimized: bool)
    requires StoreOk(store, time, optimized) && time <= later
    ensures StoreOk(store, later, optimized)
  {
    forall k | 0 <= k < |store|
      ensures ChunkOk(store[k], later, optimized)
    {
      assert ChunkOk(store[k], time, optimized);
    }
  }

  /** What `learn` leaves behind: the new store, and whether a chunk was created. */
  datatype Learned = Learned(store: seq<ChunkView>, created: bool)

  /** `learn`: with no attributes it raises ValueError; otherwise it finds the chunk
      with this signature, or appends a new one, adds a reference at the current
      time and sets the chunk's importance. */
  function Learn(store: seq<ChunkView>, attrs: Attributes, importance: real, time: real, optimized: bool): (r: Result<Learned>)
    ensures |attrs| == 0 ==> r.Err? && r.error == ValueError
    ensures r.Ok? ==> (r.value.created <==> forall k :: 0 <= k < |store| ==> store[k].attributes != attrs)
    ensures r.Ok? ==> |r.value.store| == |store| + (if r.value.created then 1 else 0)
    ensures r.Ok? ==> forall k :: 0 <= k < |store| && store[k].attributes != attrs ==> r.value.store[k] == store[k]
    ensures r.Ok? && r.value.created ==>
              r.value.store[|store|] ==
                ChunkView(attrs, time, if optimized then Tally(1) else Times([time]), None, None, importance)
    ensures r.Ok? && !r.value.created ==>
              exists k :: 0 <= k < |store| && store[k].attributes == attrs &&
                Reinforce(store[k].references, time, optimized).Ok? &&
                r.value.store[k] == store[k].(references := Reinforce(store[k].references, time, optimized).value,
                                              importance := importance)
    ensures r.Ok? ==> (Distinct(store) ==> Distinct(r.value.store))
  {
    if |attrs| == 0 then Err(ValueError)
    else
      match IndexOf(store, attrs)
      case None =>
        var c := NewChunk(attrs, time, optimized);
        var refs := Reinforce(c.references, time, optimized).value;
        Ok(Learned(store + [c.(references := refs, importance := importance)], true))
      case Some(k) =>
        var refs :- Reinforce(store[k].references, time, optimized);
        Ok(Learned(store[k := store[k].(references := refs, importance := importance)], false))
  }

  /** The position of the first occurrence of x. */
  function FirstIndex(ts: seq<real>, x: real): (i: nat)
    requires x in ts
    ensures i < |ts| && ts[i] == x && x !in ts[..i]
    decreases |ts|
  {
    if ts[0] == x then 0
    else
      var i := FirstIndex(ts[1..], x) + 1;
      assert ts[..i] == [ts[0]] + ts[1..][..i - 1];
      i
  }

  /** `Learn` of a new signature appends the new chunk. */
  lemma {:induction false} LearnAppends(store: seq<ChunkView>, attrs: Attributes, importance: real, time: real, optimized: bool)
    requires |attrs| > 0 && IndexOf(store, attrs).None?
    ensures Learn(store, attrs, importance, time, optimized).Ok?
    ensures Learn(store, attrs, importance, time, optimized).value.store ==
              store + [ChunkView(attrs, time, if optimized then Tally(1) else Times([time]), None, None, importance)]
  {
  }

  /** `Learn` of a known signature replaces that chunk with its reinforced self. */
  lemma {:induction false} LearnReplaces(store: seq<ChunkView>, attrs: Attributes, importance: real, time: real, optimized: bool)
    requires |attrs| > 0 && IndexOf(store, attrs).Some?
    requires Reinforce(store[IndexOf(store, attrs).value].references, time, optimized).Ok?
    ensures Learn(store, attrs, importance, time, optimized).Ok?
    ensures var k := IndexOf(store, attrs).value;
            Learn(store, attrs, importance, time, optimized).value.store ==
              store[k := store[k].(references := Reinforce(store[k].references, time, optimized).value,
                                   importance := importance)]
  {
  }

  /** `Learn` keeps the store well formed: signatures stay distinct, and the
      new or reinforced chunk keeps its references in the mode's form. */
  lemma {:induction false} LearnKeepsStoreOk(store: seq<ChunkView>, attrs: Attributes, importance: real, time: real, optimized: bool)
    requires |attrs| > 0 && StoreOk(store, time, optimized)
    ensures Learn(store, attrs, importance, time, optimized).Ok?
    ensures StoreOk(Learn(store, attrs, importance, time, optimized).value.store, time, optimized)
  {
    match IndexOf(store, attrs)
    case None =>
      LearnAppends(store, attrs, importance, time, optimized);
      var c := ChunkView(attrs, time, if optimized then Tally(1) else Times([time]), None, None, importance);
      assert ChunkOk(c, time, optimized);
      AppendKeepsStoreOk(store, c, time, optimized);
    case Some(k) =>
      var c := store[k];
      assert ChunkOk(c, time, optimized);
      LearnReplaces(store, attrs, importance, time, optimized);
      ReinforceKeepsChunkOk(c, importance, time, optimized);
      ReplaceKeepsStoreOk(store, k, c.(references := Reinforce(c.references, time, optimized).value,
                                       importance := importance), time, optimized);
  }

  /** A chunk with a new signature added at the end keeps the store well formed. */
  lemma {:induction false} AppendKeepsStoreOk(store: seq<ChunkView>, c: ChunkView, time: real, optimized: bool)
    requires StoreOk(store, time, optimized) && ChunkOk(c, time, optimized)
    requires forall k :: 0 <= k < |store| ==> store[k].attributes != c.attributes
    ensures StoreOk(store + [c], time, optimized)
  {
    var after := store + [c];
    assert forall k :: 0 <= k < |store| ==> after[k] == store[k];
  }

  /** A reference added now keeps a chunk well formed, whatever its importance. */
  lemma {:induction false} ReinforceKeepsChunkOk(c: ChunkView, importance: real, time: real, optimized: bool)
    requires ChunkOk(c, time, optimized)
    ensures Reinforce(c.references, time, optimized).Ok?
    ensures ChunkOk(c.(references := Reinforce(c.references, time, optimized).value, importance := importance), time, optimized)
  {
    if !optimized {
      var ts := c.references.times;
      var ts2 := ts + [time];
      assert forall k :: 0 <= k < |ts2| ==> c.creation <= ts2[k] <= time;
      assert Sorted(ts2) by {
        forall a, b | 0 <= a < b < |ts2| ensures ts2[a] <= ts2[b] {
          if b < |ts| { assert Sorted(ts); }
        }
      }
    }
  }

  /** The list without its first occurrence of x: `list.remove`. */
  function RemoveFirst(ts: seq<real>, x: real): (r: seq<real>)
    requires x in ts
    ensures |r| == |ts| - 1
    ensures multiset(r) == multiset(ts) - multiset{x}
  {
    var i := FirstIndex(ts, x);
    assert ts == ts[..i] + [x] + ts[i + 1..];
    ts[..i] + ts[i + 1..]
  }

  /** What `forget` leaves behind: the new store, and whether a learning was undone. */
  datatype Forgot = Forgot(store: seq<ChunkView>, undone: bool)

  /** The store without the chunk at k, the others in their order. */
  function Delete(store: seq<ChunkView>, k: nat): (r: seq<ChunkView>)
    requires k < |store|
    ensures |r| == |store| - 1
    ensures forall j :: 0 <= j < k ==> r[j] == store[j]
    ensures forall j :: k <= j < |r| ==> r[j] == store[j + 1]
  {
    store[..k] + store[k + 1..]
  }

  /** `forget`: with no attributes it raises ValueError. With no chunk of this
      signature, or (with lists of times) when `when` is not among the chunk's
      references, it reports False. Otherwise one reference goes, and the chunk
      goes with its last reference. Under optimized learning `when` is ignored. */
  function Forget(store: seq<ChunkView>, attrs: Attributes, when: real, optimized: bool): (r: Result<Forgot>)
    ensures |attrs| == 0 ==> r.Err? && r.error == ValueError
    ensures |attrs| > 0 && IndexOf(store, attrs).None? ==> r.Ok? && r.value == Forgot(store, false)
    ensures r.Ok? && !r.value.undone ==> r.value.store == store
    ensures r.Ok? && r.value.undone ==>
              && IndexOf(store, attrs).Some?
              && var k := IndexOf(store, attrs).value;
              var refs := store[k].references;
              && (optimized ==> refs.Tally? && (r.value.store == if refs.count == 1 then Delete(store, k)
                                                            else store[k := store[k].(references := Tally(refs.count - 1))]))
              && (!optimized ==> (refs.Times? && when in refs.times &&
                                  (r.value.store == if |refs.times| == 1 then Delete(store, k)
                                                    else store[k := store[k].(references := Times(RemoveFirst(refs.times, when)))])))
    ensures |attrs| > 0 && ModeOk(store, optimized) ==> r.Ok?
    ensures |attrs| > 0 && !optimized && IndexOf(store, attrs).Some? &&
            store[IndexOf(store, attrs).value].references.Times? ==>
              (r.Ok? && r.value.undone <==> when in store[IndexOf(store, attrs).value].references.times)
  {
    if |attrs| == 0 then Err(ValueError)
    else
      match IndexOf(store, attrs)
      case None => Ok(Forgot(store, false))
      case Some(k) =>
        var c := store[k];
        if optimized then
          if !c.references.Tally? then Err(TypeError)
          else
            var n := c.references.count - 1;
            Ok(Forgot(if n == 0 then Delete(store, k) else store[k := c.(references := Tally(n))], true))
        else if !c.references.Times? then Err(AttributeError)
        else if when !in c.references.times then Ok(Forgot(store, false))
        else
          var ts := RemoveFirst(c.references.times, when);
          Ok(Forgot(if ts == [] then Delete(store, k) else store[k := c.(references := Times(ts))], true))
  }

  /** `Forget` of a chunk whose references are a count. */
  lemma {:induction false} ForgetCounted(store: seq<ChunkView>, attrs: Attributes, when: real, k: nat)
    requires |attrs| > 0 && IndexOf(store, attrs) == Some(k) && store[k].references.Tally?
    ensures var n := store[k].references.count;
            Forget(store, attrs, when, true) ==
              Ok(Forgot(if n == 1 then Delete(store, k) else store[k := store[k].(references := Tally(n - 1))], true))
  {
  }

  /** `Forget` of a chunk whose references are a list of times. */
  lemma {:induction false} ForgetTimed(store: seq<ChunkView>, attrs: Attributes, when: real, k: nat)
    requires |attrs| > 0 && IndexOf(store, attrs) == Some(k) && store[k].references.Times?
    ensures var ts := store[k].references.times;
            Forget(store, attrs, when, false) ==
              Ok(Forgot(if when !in ts then store
                        else if |ts| == 1 then Delete(store, k)
                        else store[k := store[k].(references := Times(RemoveFirst(ts, when)))], when in ts))
  {
  }

  /** Sorted times that are all at most x have their occurrences of x at the end,
      so removing the first x from the list with an x appended gives it back. */
  lemma {:induction false} RemoveAppended(ts: seq<real>, x: real)
    requires Sorted(ts) && forall k :: 0 <= k < |ts| ==> ts[k] <= x
    ensures RemoveFirst(ts + [x], x) == ts
  {
    var s := ts + [x];
    var r := RemoveFirst(s, x);
    var i := FirstIndex(s, x);
    assert r == s[..i] + s[i + 1..];
    forall j | i <= j < |ts|
      ensures ts[j] == x
    {
      assert ts[i] <= ts[j] <= x;
    }
    assert |r| == |ts|;
    forall j | 0 <= j < |ts|
      ensures r[j] == ts[j]
    {
      if j < i {
        assert r[j] == s[j];
      } else {
        assert r[j] == s[j + 1] && ts[j] == x;
        if j + 1 < |ts| {
          assert s[j + 1] == ts[j + 1] && ts[i] <= ts[j + 1] <= x;
        }
      }
    }
  }

  /** `forget` at the current time undoes a `learn` that just happened: a chunk it
      created goes away again, and a reinforced chunk gets its references back
      (its importance keeps the value `learn` gave it). */
  lemma {:induction false} ForgetUndoesLearn(store: seq<ChunkView>, attrs: Attributes, importance: real, time: real, optimized: bool)
    requires StoreOk(store, time, optimized) && |attrs| > 0
    ensures Learn(store, attrs, importance, time, optimized).Ok?
    ensures var l := Learn(store, attrs, importance, time, optimized).value;
            var f := Forget(l.store, attrs, time, optimized);
            && f.Ok? && f.value.undone
            && (l.created ==> f.value.store == store)
            && (!l.created ==> exists k :: 0 <= k < |store| && f.value.store == store[k := store[k].(importance := importance)])
  {
    match IndexOf(store, attrs)
    case None =>
      LearnAppends(store, attrs, importance, time, optimized);
      ForgetRemovesAppended(store, attrs, importance, time, optimized);
    case Some(k) =>
      assert ChunkOk(store[k], time, optimized);
      LearnReplaces(store, attrs, importance, time, optimized);
      ForgetUndoesReinforce(store, attrs, importance, time, optimized, k);
  }

  /** Forgetting the chunk `learn` has just appended removes it again. */
  lemma {:induction false} ForgetRemovesAppended(store: seq<ChunkView>, attrs: Attributes, importance: real, time: real, optimized: bool)
    requires |attrs| > 0 && IndexOf(store, attrs).None?
    ensures var c := ChunkView(attrs, time, if optimized then Tally(1) else Times([time]), None, None, importance);
            Forget(store + [c], attrs, time, optimized) == Ok(Forgot(store, true))
  {
    var c := ChunkView(attrs, time, if optimized then Tally(1) else Times([time]), None, None, importance);
    var after := store + [c];
    assert after[|store|].attributes == attrs;
    assert forall j :: 0 <= j < |store| ==> after[j].attributes != attrs;
    assert IndexOf(after, attrs) == Some(|store|);
    assert Delete(after, |store|) == store;
  }

  /** Forgetting the reference `learn` has just added to a known chunk gives
      back that chunk's references; only its importance stays changed. */
  lemma {:induction false} ForgetUndoesReinforce(store: seq<ChunkView>, attrs: Attributes, importance: real, time: real,
                                                 optimized: bool, k: nat)
    requires StoreOk(store, time, optimized) && |attrs| > 0 && IndexOf(store, attrs) == Some(k)
    ensures Reinforce(store[k].references, time, optimized).Ok?
    ensures var c := store[k];
            var after := store[k := c.(references := Reinforce(c.references, time, optimized).value, importance := importance)];
            Forget(after, attrs, time, optimized) == Ok(Forgot(store[k := c.(importance := importance)], true))
  {
    var c := store[k];
    assert ChunkOk(c, time, optimized);
    var after := store[k := c.(references := Reinforce(c.references, time, optimized).value, importance := importance)];
    assert IndexOf(after, attrs) == Some(k) by {
      assert after[k].attributes == attrs;
      assert forall j :: 0 <= j < k ==> after[j].attributes == store[j].attributes;
    }
    var back := c.(importance := importance);
    assert after[k := back] == store[k := back];
    if optimized {
      ForgetTallyBack(after, attrs, time, k, back, c.references.count);
    } else {
      RemoveAppended(c.references.times, time);
      ForgetTimesBack(after, attrs, time, k, back, c.references.times);
    }
  }

  /** Under optimized learning, forgetting from a count above one lowers it. */
  lemma {:induction false} ForgetTallyBack(after: seq<ChunkView>, attrs: Attributes, time: real, k: nat, back: ChunkView, n: int)
    requires |attrs| > 0 && IndexOf(after, attrs) == Some(k) && n >= 1
    requires after[k].references == Tally(n + 1) && after[k].(references := Tally(n)) == back
    ensures Forget(after, attrs, time, true) == Ok(Forgot(after[k := back], true))
  {
  }

  /** Without it, forgetting the last of two or more times removes that time. */
  lemma {:induction false} ForgetTimesBack(after: seq<ChunkView>, attrs: Attributes, time: real, k: nat, back: ChunkView, ts: seq<real>)
    requires |attrs| > 0 && IndexOf(after, attrs) == Some(k) && |ts| > 0 && RemoveFirst(ts + [time], time) == ts
    requires after[k].references == Times(ts + [time]) && after[k].(references := Times(ts)) == back
    ensures Forget(after, attrs, time, false) == Ok(Forgot(after[k := back], true))
  {
    assert time in ts + [time];
  }

  /** `Forget` keeps the store well formed. */
  lemma {:induction false} ForgetKeepsStoreOk(store: seq<ChunkView>, attrs: Attributes, when: real, time: real, optimized: bool)
    requires StoreOk(store, time, optimized)
    requires Forget(store, attrs, when, optimized).Ok?
    ensures StoreOk(Forget(store, attrs, when, optimized).value.store, time, optimized)
  {
    var f := Forget(store, attrs, when, optimized).value;
    if f.undone {
      var k := IndexOf(store, attrs).value;
      var c := store[k];
      if f.store == Delete(store, k) {
        DeleteKeepsStoreOk(store, k, time, optimized);
      } else if optimized {
        ReplaceKeepsStoreOk(store, k, c.(references := Tally(c.references.count - 1)), time, optimized);
      } else {
        RemoveKeepsChunkOk(c, when, time);
        ReplaceKeepsStoreOk(store, k, c.(references := Times(RemoveFirst(c.references.times, when))), time, optimized);
      }
    }
  }

  lemma {:induction false} DeleteKeepsStoreOk(store: seq<ChunkView>, k: nat, time: real, optimized: bool)
    requires StoreOk(store, time, optimized) && k < |store|
    ensures StoreOk(Delete(store, k), time, optimized)
  {
    var r := Delete(store, k);
    forall a, b | 0 <= a < b < |r|
      ensures r[a].attributes != r[b].attributes
    {
      var a' := if a < k then a else a + 1;
      var b' := if b < k then b else b + 1;
      assert r[a] == store[a'] && r[b] == store[b'];
    }
  }

  lemma {:induction false} ReplaceKeepsStoreOk(store: seq<ChunkView>, k: nat, c: ChunkView, time: real, optimized: bool)
    requires StoreOk(store, time, optimized) && k < |store|
    requires c.attributes == store[k].attributes && ChunkOk(c, time, optimized)
    ensures StoreOk(store[k := c], time, optimized)
  {
  }

  lemma {:induction false} RemoveKeepsChunkOk(c: ChunkView, when: real, time: real)
    requires ChunkOk(c, time, false) && when in c.references.times && |c.references.times| > 1
    ensures ChunkOk(c.(references := Times(RemoveFirst(c.references.times, when))), time, false)
  {
    var ts := c.references.times;
    var i := FirstIndex(ts, when);
    var r := RemoveFirst(ts, when);
    assert r == ts[..i] + ts[i + 1..];
    forall a | 0 <= a < |r|
      ensures r[a] == ts[if a < i then a else a + 1]
    {
    }
  }

  /** What a base-level activation depends on besides the chunk. */
  datatype Clock = Clock(time: real, decay: real, lnOneMinusDecay: Option<real>, optimized: bool, math: Math)

  /** A ValueError inside the base-level computation becomes RuntimeError when the
      memory's time is at or before the chunk's creation. */
  function TimeError(c: ChunkView, time: real): (r: Error)
  {
    if time <= c.creation then RuntimeError else ValueError
  }

  /** The sum of (time - t) to the power minus decay over the reference times;
      None when some power is undefined (a domain ValueError). */
  function PowerSum(ts: seq<real>, time: real, decay: real, math: Math): (r: Option<real>)
    ensures r.None? <==> exists k :: 0 <= k < |ts| && PowRaises(time - ts[k], -decay)
    decreases |ts|
  {
    if ts == [] then Some(0.0)
    else if PowRaises(time - ts[0], -decay) then None
    else
      match PowerSum(ts[1..], time, decay, math)
      case None =>
        assert forall k :: 0 <= k < |ts[1..]| ==> ts[1..][k] == ts[k + 1];
        None
      case Some(s) =>
        assert forall k :: 1 <= k < |ts| ==> ts[k] == ts[1..][k - 1];
        Some(math.pow(time - ts[0], -decay) + s)
  }

  /** The base-level activation computed afresh. Optimized: ln(n) - ln(1 - d) -
      d * ln(t - creation); otherwise ln of the sum of the powers. A log or power
      outside its domain gives TimeError; the "illegal value" marker and a
      references value of the other mode give TypeError. */
  function FreshBase(c: ChunkView, k: Clock): (r: Result<real>)
    ensures r.Err? && r.error == RuntimeError ==> k.time <= c.creation
    ensures r.Err? && r.error == ValueError ==> k.time > c.creation
  {
    if k.optimized then
      match c.references
      case Times(_) => Err(TypeError)
      case Tally(n) =>
        if n <= 0 then Err(TimeError(c, k.time))
        else if k.lnOneMinusDecay.None? then Err(TypeError)
        else if k.time - c.creation <= 0.0 then Err(TimeError(c, k.time))
        else Ok(k.math.ln(n as real) - k.lnOneMinusDecay.value - k.decay * k.math.ln(k.time - c.creation))
    else
      match c.references
      case Tally(_) => Err(TypeError)
      case Times(ts) =>
        match PowerSum(ts, k.time, k.decay, k.math)
        case None => Err(TimeError(c, k.time))
        case Some(s) => if s <= 0.0 then Err(TimeError(c, k.time)) else Ok(k.math.ln(s))
  }

  /** At its creation time a well-formed chunk's base-level activation raises
      RuntimeError, under optimized learning (unless the decay marker is
      poisoned) and with lists of times when the decay is positive. */
  lemma {:induction false} BaseAtCreationRaises(c: ChunkView, k: Clock)
    requires ChunkOk(c, k.time, k.optimized) && k.time <= c.creation
    requires k.optimized ==> k.lnOneMinusDecay.Some?
    requires !k.optimized ==> k.decay > 0.0
    ensures FreshBase(c, k).Err? && FreshBase(c, k).error == RuntimeError
  {
    if !k.optimized {
      var ts := c.references.times;
      assert ts[0] == k.time;
      assert PowRaises(k.time - ts[0], -k.decay);
    }
  }

  /** Once time has passed a well-formed chunk's creation, the optimized
      base-level activation is defined unless the decay marker is poisoned. */
  lemma {:induction false} OptimizedBaseDefined(c: ChunkView, k: Clock)
    requires ChunkOk(c, k.time, k.optimized) && k.optimized && k.time > c.creation
    ensures FreshBase(c, k).Ok? <==> k.lnOneMinusDecay.Some?
    ensures FreshBase(c, k).Err? ==> FreshBase(c, k).error == TypeError
  {
  }

  /** `_get_base_activation`'s value: the memo when it was taken at the current
      time, and a fresh computation otherwise. */
  function CurrentBase(c: ChunkView, k: Clock): (r: Result<real>)
  {
    if c.memo.Some? && c.memo.value.time == k.time then Ok(c.memo.value.value) else FreshBase(c, k)
  }

  /** The chunk after `_get_base_activation`: the memo records a fresh value and
      the current time; a hit, or a computation that raised, changes nothing. */
  function Refreshed(c: ChunkView, k: Clock): (r: ChunkView)
    ensures r == c.(memo := r.memo)
  {
    if c.memo.Some? && c.memo.value.time == k.time then c
    else
      match FreshBase(c, k)
      case Ok(v) => c.(memo := Some(BaseMemo(k.time, v)))
      case Err(_) => c
  }

  /** The memo is transparent: asking again at the same time gives the same
      answer, and after a successful computation the answer comes from the memo. */
  lemma {:induction false} RefreshTransparent(c: ChunkView, k: Clock)
    ensures CurrentBase(Refreshed(c, k), k) == CurrentBase(c, k)
    ensures CurrentBase(c, k).Ok? ==> Refreshed(c, k).memo == Some(BaseMemo(k.time, CurrentBase(c, k).value))
  {
  }

  /** The memo is keyed on time alone: a chunk reinforced at the time its memo was
      taken keeps reporting the memoised value. */
  lemma {:induction false} MemoIgnoresReferences(c: ChunkView, k: Clock, refs: References)
    requires c.memo.Some? && c.memo.value.time == k.time
    ensures CurrentBase(c.(references := refs), k) == CurrentBase(c, k)
  {
  }

  /** Everything an activation depends on besides the chunk: the parameters, the
      time, the floating point functions, the similarity registry, and the draw
      `_make_noise` would take for the chunk at each position. */
  datatype Env = Env(params: Params, time: real, math: Math, similarity: SimilarityConfig, draw: nat -> real)

  function ClockOf(env: Env): (r: Clock)
  {
    Clock(env.time, env.params.decay, env.params.lnOneMinusDecay, env.params.optimizedLearning, env.math)
  }

  /** `Chunk._activation`: base-level activation plus spreading activation plus
      importance plus noise. */
  function Activation(c: ChunkView, env: Env, position: nat): (r: Result<real>)
    ensures r.Ok? <==> CurrentBase(c, ClockOf(env)).Ok?
    ensures r.Ok? && env.params.noise == 0.0 ==>
              r.value == CurrentBase(c, ClockOf(env)).value + c.spreading.GetOr(0.0) + c.importance
  {
    var base :- CurrentBase(c, ClockOf(env));
    Ok(base + SpreadTerm(c.spreading) + c.importance + NoiseTerm(env.params.noise, env.draw(position)))
  }

  function AsCandidate(a: Result<real>): (r: Candidate)
  {
    if a.Ok? then Eligible(a.value) else Raise(a.error)
  }

  /** What `_exact_match` sees of the chunk at this position: only a chunk with
      every cue attribute at the cue's value has its activation computed. */
  function ExactCandidate(c: ChunkView, cue: Cue, env: Env, position: nat): (r: Candidate)
    ensures !r.Skip? <==> Matches(cue, c.attributes)
  {
    if !Matches(cue, c.attributes) then Skip else AsCandidate(Activation(c, env, position))
  }

  function ExactCandidates(store: seq<ChunkView>, cue: Cue, env: Env): (r: seq<Candidate>)
    ensures |r| == |store|
    ensures forall k {:trigger r[k]} :: 0 <= k < |store| ==> r[k] == ExactCandidate(store[k], cue, env, k)
  {
    seq(|store|, k requires 0 <= k < |store| => ExactCandidate(store[k], cue, env, k))
  }

  /** The iterator passes over a chunk, without computing its activation, when
      it lacks a cue attribute, or when there is no mismatch penalty and some cue
      value differs. */
  predicate IteratorPasses(cue: Cue, attributes: Attributes, mismatch: Option<real>)
  {
    !KeysIn(cue, attributes) || (mismatch.None? && !Matches(cue, attributes))
  }

  /** What `_Activations.__next__` yields for the chunk at this position. A chunk
      lacking a cue attribute is passed over. With a mismatch penalty every other
      chunk is yielded, its activation lowered by the penalty times its similarity
      to the cue; without one only exact matches are. */
  function IteratorCandidate(c: ChunkView, cue: Cue, env: Env, position: nat): (r: Candidate)
    ensures r.Skip? <==> IteratorPasses(cue, c.attributes, env.params.mismatch)
    ensures !KeysIn(cue, c.attributes) ==> r.Skip?
    ensures env.params.mismatch.None? ==> r == ExactCandidate(c, cue, env, position)
    ensures env.params.mismatch.Some? && KeysIn(cue, c.attributes) ==> !r.Skip?
    ensures env.params.mismatch.Some? && env.params.mismatch.value >= 0.0 && r.Eligible? ==>
              Activation(c, env, position).Ok? && r.activation <= Activation(c, env, position).value
  {
    if !KeysIn(cue, c.attributes) then Skip
    else if env.params.mismatch.Some? then
      match Activation(c, env, position)
      case Ok(a) => Eligible(a + MismatchTerm(env.params.mismatch.value, cue, c.attributes, env.similarity))
      case Err(e) => Raise(e)
    else if !Matches(cue, c.attributes) then Skip
    else AsCandidate(Activation(c, env, position))
  }

  function IteratorCandidates(store: seq<ChunkView>, cue: Cue, env: Env): (r: seq<Candidate>)
    ensures |r| == |store|
    ensures forall k {:trigger r[k]} :: 0 <= k < |store| ==> r[k] == IteratorCandidate(store[k], cue, env, k)
  {
    seq(|store|, k requires 0 <= k < |store| => IteratorCandidate(store[k], cue, env, k))
  }

  /** Under partial matching, whatever the penalty, a chunk that matches the cue
      exactly is yielded with the activation exact matching computes for it. */
  lemma {:induction false} ExactMatchesKeepActivation(c: ChunkView, cue: Cue, env: Env, position: nat)
    requires env.params.mismatch.Some? && Matches(cue, c.attributes)
    ensures IteratorCandidate(c, cue, env, position) == ExactCandidate(c, cue, env, position)
  {
  }

  /** What a chunk adds to `blend`: nothing when the iterator passes it over or it
      lacks the outcome attribute, the weight exp(activation / temperature) and
      its outcome otherwise, and TypeError for an outcome that is not a number. */
  function BlendContribution(c: ChunkView, cand: Candidate, outcome: string, temperature: real, exp: real -> real): (r: Contribution)
    ensures cand.Skip? ==> r.Absent?
    ensures cand.Raise? ==> r == Raised(cand.error)
    ensures cand.Eligible? && outcome !in c.attributes ==> r.Absent?
    ensures r.Weighted? ==> outcome in c.attributes && c.attributes[outcome] == Num(r.value)
  {
    match cand
    case Skip => Absent
    case Raise(e) => Raised(e)
    case Eligible(a) => Contribute(c.attributes, a, outcome, temperature, exp)
  }

  /** The body of `blend`'s loop for a chunk the iterator yields with activation
      a: nothing without the outcome attribute; otherwise the weight
      exp(a / temperature) is computed first, so a zero temperature raises
      ZeroDivisionError before the outcome is read; then TypeError for an
      outcome that is not a number, or the weight with the outcome value. */
  function Contribute(attributes: Attributes, a: real, outcome: string, temperature: real, exp: real -> real): (r: Contribution)
    ensures outcome !in attributes <==> r.Absent?
    ensures r.Weighted? ==> outcome in attributes && attributes[outcome] == Num(r.value) && temperature != 0.0 && r.weight == exp(a / temperature)
    ensures outcome in attributes && temperature == 0.0 ==> r == Raised(ZeroDivisionError)
    ensures r.Raised? && temperature != 0.0 ==> r.error == TypeError && attributes[outcome].Str?
  {
    if outcome !in attributes then Absent
    else if temperature == 0.0 then Raised(ZeroDivisionError)
    else
      match attributes[outcome]
      case Num(v) => Weighted(exp(a / temperature), v)
      case Str(_) => Raised(TypeError)
  }

  function BlendContributions(store: seq<ChunkView>, outcome: string, cue: Cue, env: Env): (r: seq<Contribution>)
    ensures |r| == |store|
    ensures forall k {:trigger r[k]} :: 0 <= k < |store| ==>
              r[k] == BlendContribution(store[k], IteratorCandidate(store[k], cue, env, k), outcome,
                                        env.params.temperature, env.math.exp)
  {
    seq(|store|, k requires 0 <= k < |store| =>
      BlendContribution(store[k], IteratorCandidate(store[k], cue, env, k), outcome, env.params.temperature, env.math.exp))
  }

  /** When no chunk holds the outcome attribute and no activation raises,
      `blend` returns None. */
  lemma {:induction false} BlendWithoutOutcome(store: seq<ChunkView>, outcome: string, cue: Cue, env: Env)
    requires forall k :: 0 <= k < |store| ==> outcome !in store[k].attributes && CurrentBase(store[k], ClockOf(env)).Ok?
    ensures BlendValue(BlendContributions(store, outcome, cue, env)).Ok?
    ensures BlendValue(BlendContributions(store, outcome, cue, env)).value.None?
  {
    var cs := BlendContributions(store, outcome, cue, env);
    forall k | 0 <= k < |cs|
      ensures cs[k].Absent?
    {
      assert Activation(store[k], env, k).Ok?;
    }
    BlendOfNothing(cs);
  }

  /** The candidates as `blend`'s loop meets them: a contribution that raises
      (from the activation or from an outcome that is not a number) ends the loop,
      after the activation of its chunk has been computed. */
  function BlendCandidates(store: seq<ChunkView>, outcome: string, cue: Cue, env: Env): (r: seq<Candidate>)
    ensures |r| == |store|
    ensures forall k {:trigger r[k]} :: 0 <= k < |store| ==>
              r[k] == var cand := IteratorCandidate(store[k], cue, env, k);
                      var c := BlendContribution(store[k], cand, outcome, env.params.temperature, env.math.exp);
                      if c.Raised? then Raise(c.error) else cand
  {
    seq(|store|, k requires 0 <= k < |store| =>
      var cand := IteratorCandidate(store[k], cue, env, k);
      var c := BlendContribution(store[k], cand, outcome, env.params.temperature, env.math.exp);
      if c.Raised? then Raise(c.error) else cand)
  }

  /** How a chunk's iterator candidate, its candidate for `blend` and its
      contribution to the sums relate: a contribution that raises turns the
      candidate into a raise. */
  predicate BlendAgree(c: ChunkView, cand: Candidate, b: Candidate, contribution: Contribution, outcome: string, env: Env)
  {
    && contribution == BlendContribution(c, cand, outcome, env.params.temperature, env.math.exp)
    && b == (if contribution.Raised? then Raise(contribution.error) else cand)
  }

  predicate BlendAgrees(store: seq<ChunkView>, cands: seq<Candidate>, bc: seq<Candidate>, cs: seq<Contribution>,
                        outcome: string, env: Env)
  {
    && |cands| == |store| && |bc| == |store| && |cs| == |store|
    && forall j :: 0 <= j < |store| ==> BlendAgree(store[j], cands[j], bc[j], cs[j], outcome, env)
  }

  /** The three sequences `blend` is specified by agree chunk by chunk. */
  lemma {:induction false} BlendAgreement(store: seq<ChunkView>, outcome: string, cue: Cue, env: Env)
    ensures BlendAgrees(store, IteratorCandidates(store, cue, env), BlendCandidates(store, outcome, cue, env),
                        BlendContributions(store, outcome, cue, env), outcome, env)
  {
  }

  /** `blend`'s loop over what the iterator yields from `pos`: the chunks passed
      over add nothing, the stopping points agree with the iterator's, and the
      chunk it stops at raises in the loop exactly when its contribution does. */
  lemma {:induction false} BlendAdvance(store: seq<ChunkView>, cands: seq<Candidate>, bc: seq<Candidate>, cs: seq<Contribution>,
                     outcome: string, env: Env, pos: nat, n: nat)
    requires BlendAgrees(store, cands, bc, cs, outcome, env) && pos <= |store| && n == NextCandidate(cands, pos)
    ensures NextCandidate(bc, pos) == n
    ensures SumsPrefix(cs, n) == SumsPrefix(cs, pos)
    ensures n < |store| ==> (bc[n].Raise? <==> cs[n].Raised?)
    ensures n < |store| && cs[n].Raised? ==> bc[n].error == cs[n].error
    ensures n < |store| && !cs[n].Raised? && NoRaiseBefore(bc, pos) ==> NoRaiseBefore(bc, n + 1)
  {
    forall j | pos <= j < |store|
      ensures cands[j].Skip? <==> bc[j].Skip?
    {
      assert BlendAgree(store[j], cands[j], bc[j], cs[j], outcome, env);
    }
    NextCandidateAgree(cands, bc, pos);
    forall j | pos <= j < n
      ensures cs[j].Absent? && !bc[j].Raise?
    {
      assert cands[j].Skip? && BlendAgree(store[j], cands[j], bc[j], cs[j], outcome, env);
    }
    SumsPrefixSkip(cs, pos, n);
    if n < |store| {
      assert BlendAgree(store[n], cands[n], bc[n], cs[n], outcome, env);
      if !cs[n].Raised? && NoRaiseBefore(bc, pos) {
        forall j | 0 <= j < n + 1
          ensures !bc[j].Raise?
        {
          if j < pos {
          } else if j < n {
          } else {
            assert j == n;
          }
        }
      }
    }
  }

  /** `blend`'s loop when the iterator from position `pos` reaches the end of
      the chunks: with `prev` the store before the step and `cur` the store after
      it, the sums and the store are final. */
  lemma {:induction false} BlendEnd(store: seq<ChunkView>, outcome: string, env: Env, pos: nat,
                 cands: seq<Candidate>, bc: seq<Candidate>, cs: seq<Contribution>,
                 prev: seq<ChunkView>, cur: seq<ChunkView>)
    requires pos <= |store|
    requires BlendAgrees(store, cands, bc, cs, outcome, env)
    requires NoRaiseBefore(bc, pos) && prev == Spliced(Touched(store, bc, ClockOf(env)), store, pos)
    requires NextCandidate(cands, pos) == |store| && cur == prev
    ensures cur == Touched(store, bc, ClockOf(env))
    ensures Sums(cs) == SumsPrefix(cs, pos)
  {
    BlendAdvance(store, cands, bc, cs, outcome, env, pos, |store|);
    StoreStep(store, bc, ClockOf(env), pos, prev, cur);
    SumsPrefixWhole(cs);
  }

  /** `blend`'s loop when the chunk the iterator stops at, at position n, raises:
      computing its activation raised, or its outcome is not a number. The loop
      ends with that error and the store is final. */
  lemma {:induction false} BlendRaised(store: seq<ChunkView>, outcome: string, env: Env, pos: nat,
                    cands: seq<Candidate>, bc: seq<Candidate>, cs: seq<Contribution>, n: nat,
                    prev: seq<ChunkView>, cur: seq<ChunkView>)
    requires pos <= |store|
    requires BlendAgrees(store, cands, bc, cs, outcome, env)
    requires NoRaiseBefore(bc, pos) && SumsPrefix(cs, pos).Ok?
    requires prev == Spliced(Touched(store, bc, ClockOf(env)), store, pos)
    requires n == NextCandidate(cands, pos) && n < |store| && (cands[n].Raise? || cs[n].Raised?)
    requires cur == prev[n := Refreshed(store[n], ClockOf(env))]
    ensures cur == Touched(store, bc, ClockOf(env))
    ensures cs[n].Raised? && Sums(cs).Err? && Sums(cs).error == cs[n].error
    ensures cands[n].Raise? ==> cs[n].error == cands[n].error
  {
    BlendAdvance(store, cands, bc, cs, outcome, env, pos, n);
    StoreStep(store, bc, ClockOf(env), pos, prev, cur);
    BlendRaisedAt(cs, n);
  }

  /** `blend`'s loop when the chunk the iterator yields at position n adds to the
      sums without raising: `t` is the sums after it, and the store is part way
      at the position `to` after it. */
  lemma {:induction false} BlendYield(store: seq<ChunkView>, outcome: string, env: Env, pos: nat,
                   cands: seq<Candidate>, bc: seq<Candidate>, cs: seq<Contribution>, n: nat, to: nat,
                   totals: Totals, t: Result<Totals>, prev: seq<ChunkView>, cur: seq<ChunkView>)
    requires pos <= |store|
    requires BlendAgrees(store, cands, bc, cs, outcome, env)
    requires NoRaiseBefore(bc, pos) && SumsPrefix(cs, pos) == Ok(totals)
    requires prev == Spliced(Touched(store, bc, ClockOf(env)), store, pos)
    requires n == NextCandidate(cands, pos) && n < |store| && !cs[n].Raised? && to == n + 1
    requires t == Add(Ok(totals), cs[n]) && cur == prev[n := Refreshed(store[n], ClockOf(env))]
    ensures t.Ok? && SumsPrefix(cs, to) == Ok(t.value)
    ensures cur == Spliced(Touched(store, bc, ClockOf(env)), store, to)
    ensures NoRaiseBefore(bc, to)
  {
    BlendAdvance(store, cands, bc, cs, outcome, env, pos, n);
    StoreStep(store, bc, ClockOf(env), pos, prev, cur);
    SumsPrefixNext(cs, n, to);
  }

  /** `spread`'s update of every chunk's accumulator with its entry of the vector,
      through the corrected, cumulative setter. */
  function SpreadAll(store: seq<ChunkView>, vector: seq<real>): (r: seq<ChunkView>)
    requires |vector| == |store|
    ensures |r| == |store|
    ensures forall k {:trigger r[k]} :: 0 <= k < |store| ==>
              r[k] == store[k].(spreading := Accumulate(store[k].spreading, Some(vector[k])))
  {
    seq(|store|, k requires 0 <= k < |store| => store[k].(spreading := Accumulate(store[k].spreading, Some(vector[k]))))
  }

  /** `clear_spread`: every accumulator becomes None. */
  function Cleared(store: seq<ChunkView>): (r: seq<ChunkView>)
    ensures |r| == |store|
    ensures forall k {:trigger r[k]} :: 0 <= k < |store| ==> r[k] == store[k].(spreading := None)
  {
    seq(|store|, k requires 0 <= k < |store| => store[k].(spreading := None))
  }

  /** Spreading twice adds both vectors into every chunk's activation, and
      spreading right after clearing leaves exactly the new vector. */
  lemma {:induction false} SpreadAccumulates(store: seq<ChunkView>, v1: seq<real>, v2: seq<real>, k: nat)
    requires |v1| == |store| && |v2| == |store| && k < |store|
    ensures SpreadTerm(SpreadAll(SpreadAll(store, v1), v2)[k].spreading) == SpreadTerm(store[k].spreading) + v1[k] + v2[k]
    ensures SpreadTerm(SpreadAll(Cleared(store), v1)[k].spreading) == v1[k]
  {
    AccumulateAdds(store[k].spreading, v1[k]);
    AccumulateAdds(SpreadAll(store, v1)[k].spreading, v2[k]);
    AccumulateAdds(None, v1[k]);
  }

  /** Spreading and clearing touch only the accumulators, so the store stays
      well formed. */
  lemma {:induction false} SpreadKeepsStoreOk(store: seq<ChunkView>, vector: seq<real>, time: real, optimized: bool)
    requires |vector| == |store| && StoreOk(store, time, optimized)
    ensures StoreOk(SpreadAll(store, vector), time, optimized)
  {
  }

  lemma {:induction false} ClearKeepsStoreOk(store: seq<ChunkView>, time: real, optimized: bool)
    requires StoreOk(store, time, optimized)
    ensures StoreOk(Cleared(store), time, optimized)
  {
  }

  /** The store after a scan that computed, in order, the activation of every
      candidate it did not pass over, stopping at the first that raised. */
  function Touched(store: seq<ChunkView>, cands: seq<Candidate>, k: Clock): (r: seq<ChunkView>)
    requires |cands| == |store|
    ensures |r| == |store|
    ensures forall j {:trigger r[j]} :: 0 <= j < |store| ==>
              r[j] == if !cands[j].Skip? && NoRaiseBefore(cands, j) then Refreshed(store[j], k) else store[j]
  {
    seq(|store|, j requires 0 <= j < |store| =>
      if !cands[j].Skip? && NoRaiseBefore(cands, j) then Refreshed(store[j], k) else store[j])
  }

  /** A scan changes only memos, and every base-level activation it could ask for
      again at this time is the one it would have got before. */
  lemma {:induction false} TouchedTransparent(store: seq<ChunkView>, cands: seq<Candidate>, k: Clock, optimized: bool, time: real)
    requires |cands| == |store|
    ensures forall j :: 0 <= j < |store| ==>
              && Touched(store, cands, k)[j] == store[j].(memo := Touched(store, cands, k)[j].memo)
              && CurrentBase(Touched(store, cands, k)[j], k) == CurrentBase(store[j], k)
    ensures StoreOk(store, time, optimized) ==> StoreOk(Touched(store, cands, k), time, optimized)
  {
    var r := Touched(store, cands, k);
    forall j | 0 <= j < |store|
      ensures r[j] == store[j].(memo := r[j].memo) && CurrentBase(r[j], k) == CurrentBase(store[j], k)
    {
      RefreshTransparent(store[j], k);
    }
  }

  /** A scan that stops at a raising candidate leaves every later chunk alone. */
  lemma {:induction false} RaiseEndsScan(store: seq<ChunkView>, cands: seq<Candidate>, k: Clock, i: nat)
    requires |cands| == |store| && i < |cands| && cands[i].Raise?
    ensures forall j :: i < j < |store| ==> Touched(store, cands, k)[j] == store[j]
  {
    forall j | i < j < |store|
      ensures Touched(store, cands, k)[j] == store[j]
    {
      assert !NoRaiseBefore(cands, j);
    }
  }

  /** A candidate that raises ends `_exact_match`'s loop: the part-way store is
      the final one, and the scan reports that candidate's error. */
  lemma {:induction false} ScanStopped(store: seq<ChunkView>, cands: seq<Candidate>, k: Clock, threshold: real, i: nat)
    requires |cands| == |store| && i < |cands| && cands[i].Raise? && NoRaiseBefore(cands, i)
    ensures Spliced(Touched(store, cands, k), store, i + 1) == Touched(store, cands, k)
    ensures ScanBest(cands, threshold).Err? && ScanBest(cands, threshold).error == cands[i].error
  {
    RaiseEndsScan(store, cands, k, i);
    SplicedDone(Touched(store, cands, k), store, i + 1);
    ScanBestFirstError(cands, threshold, i);
  }

  /** `_exact_match` past its last chunk: the part-way store is the final one
      and the prefix scan is the whole scan. */
  lemma {:induction false} ExactEnd(store: seq<ChunkView>, cands: seq<Candidate>, k: Clock, threshold: real, i: nat,
                                    scan: Scan, prev: seq<ChunkView>)
    requires |cands| == |store| && i == |store| && ScanPrefix(cands, threshold, i) == Ok(scan)
    requires prev == Spliced(Touched(store, cands, k), store, i)
    ensures ScanBest(cands, threshold) == Ok(scan) && prev == Touched(store, cands, k)
  {
    ScanPrefixWhole(cands, threshold);
    SplicedDone(Touched(store, cands, k), store, i);
  }

  /** `_exact_match` at a chunk whose activation raises: the scan ends with that
      error, and the store is final. */
  lemma {:induction false} ExactRaise(store: seq<ChunkView>, cands: seq<Candidate>, k: Clock, threshold: real, i: nat,
                                      prev: seq<ChunkView>, cur: seq<ChunkView>)
    requires |cands| == |store| && i < |store| && NoRaiseBefore(cands, i) && cands[i].Raise?
    requires prev == Spliced(Touched(store, cands, k), store, i)
    requires cur == prev[i := Refreshed(store[i], k)]
    ensures ScanBest(cands, threshold).Err? && ScanBest(cands, threshold).error == cands[i].error
    ensures cur == Touched(store, cands, k)
  {
    SplicedStep(Touched(store, cands, k), store, i);
    ScanStopped(store, cands, k, threshold, i);
  }

  /** `_exact_match` at a chunk that does not raise: the scan and the part-way
      store both move on to position `to`, the next chunk. */
  lemma {:induction false} ExactYield(store: seq<ChunkView>, cands: seq<Candidate>, k: Clock, threshold: real, i: nat, to: nat,
                                      scan: Scan, prev: seq<ChunkView>, cur: seq<ChunkView>)
    requires |cands| == |store| && i < |store| && to == i + 1 && NoRaiseBefore(cands, i) && !cands[i].Raise?
    requires ScanPrefix(cands, threshold, i) == Ok(scan)
    requires prev == Spliced(Touched(store, cands, k), store, i)
    requires cur == prev[i := if cands[i].Skip? then store[i] else Refreshed(store[i], k)]
    ensures ScanPrefix(cands, threshold, to) == Ok(if cands[i].Eligible? then Improve(scan, i, cands[i].activation) else scan)
    ensures NoRaiseBefore(cands, to) && cur == Spliced(Touched(store, cands, k), store, to)
  {
    SplicedStep(Touched(store, cands, k), store, i);
    ScanPrefixStep(cands, threshold, i, scan);
  }

  /** A scan's store part way: the chunks before i as the scan leaves them, the
      rest as they were. */
  function Spliced(after: seq<ChunkView>, before: seq<ChunkView>, i: nat): (r: seq<ChunkView>)
    requires |after| == |before| && i <= |before|
    ensures |r| == |before|
    ensures forall j :: 0 <= j < i ==> r[j] == after[j]
    ensures forall j :: i <= j < |r| ==> r[j] == before[j]
  {
    after[..i] + before[i..]
  }

  lemma {:induction false} SplicedStep(after: seq<ChunkView>, before: seq<ChunkView>, i: nat)
    requires |after| == |before| && i < |before|
    ensures Spliced(after, before, i)[i := after[i]] == Spliced(after, before, i + 1)
  {
    assert Spliced(after, before, i)[i := after[i]] == Spliced(after, before, i + 1) by {
      var l, r := Spliced(after, before, i)[i := after[i]], Spliced(after, before, i + 1);
      assert |l| == |r|;
      forall j | 0 <= j < |l| ensures l[j] == r[j] { }
    }
  }

  /** Chunks the scan passed over are as they were, so the part-way store can
      move past them to the next chunk it touches. */
  lemma {:induction false} SplicedJump(after: seq<ChunkView>, before: seq<ChunkView>, from: nat, n: nat)
    requires |after| == |before| && from <= n < |before|
    requires forall j :: from <= j < n ==> after[j] == before[j]
    ensures Spliced(after, before, from)[n := after[n]] == Spliced(after, before, n + 1)
  {
    var l, r := Spliced(after, before, from)[n := after[n]], Spliced(after, before, n + 1);
    assert |l| == |r|;
    forall j | 0 <= j < |l| ensures l[j] == r[j] { }
  }

  /** `_partial_match`'s loop when the iterator from position `pos` reaches the
      end of the chunks: the scan and the store are final. */
  lemma {:induction false} PartialEnd(store: seq<ChunkView>, cands: seq<Candidate>, k: Clock, threshold: real, pos: nat,
                   prev: seq<ChunkView>, cur: seq<ChunkView>)
    requires |cands| == |store| && pos <= |store| && NoRaiseBefore(cands, pos)
    requires prev == Spliced(Touched(store, cands, k), store, pos)
    requires NextCandidate(cands, pos) == |cands| && cur == prev
    ensures cur == Touched(store, cands, k)
    ensures ScanBest(cands, threshold) == ScanPrefix(cands, threshold, pos)
  {
    StoreStep(store, cands, k, pos, prev, cur);
    ScanPrefixSkip(cands, threshold, pos, |cands|);
    ScanPrefixWhole(cands, threshold);
  }

  /** `_partial_match`'s loop when the next chunk the iterator reaches, at
      position n, raises: the scan ends with its error and the store is final. */
  lemma {:induction false} PartialRaise(store: seq<ChunkView>, cands: seq<Candidate>, k: Clock, threshold: real, pos: nat, n: nat,
                     prev: seq<ChunkView>, cur: seq<ChunkView>)
    requires |cands| == |store| && pos <= |store| && NoRaiseBefore(cands, pos)
    requires prev == Spliced(Touched(store, cands, k), store, pos)
    requires n == NextCandidate(cands, pos) && n < |cands| && cands[n].Raise?
    requires cur == prev[n := Refreshed(store[n], k)]
    ensures cur == Touched(store, cands, k)
    ensures ScanBest(cands, threshold).Err? && ScanBest(cands, threshold).error == cands[n].error
  {
    StoreStep(store, cands, k, pos, prev, cur);
    assert NoRaiseBefore(cands, n);
    ScanBestFirstError(cands, threshold, n);
  }

  /** `_partial_match`'s loop when the iterator yields the chunk at position n:
      the store is part way at the position after it. */
  lemma {:induction false} PartialYield(store: seq<ChunkView>, cands: seq<Candidate>, k: Clock, threshold: real, pos: nat, n: nat,
                     prev: seq<ChunkView>, cur: seq<ChunkView>)
    requires |cands| == |store| && pos <= |store| && NoRaiseBefore(cands, pos)
    requires prev == Spliced(Touched(store, cands, k), store, pos)
    requires n == NextCandidate(cands, pos) && n < |cands| && cands[n].Eligible?
    requires cur == prev[n := Refreshed(store[n], k)]
    ensures cur == Spliced(Touched(store, cands, k), store, n + 1)
    ensures NoRaiseBefore(cands, n + 1)
  {
    StoreStep(store, cands, k, pos, prev, cur);
  }

  /** One pass of `_partial_match`'s loop, from what the iterator's step did to
      how the pass ends: `next` and `scan2` are what the loop goes on with,
      `prev` and `cur` the store before and after the step. */
  lemma {:induction false} PartialPass(store: seq<ChunkView>, cands: seq<Candidate>, k: Clock, threshold: real, pos: nat,
                                       scan: Scan, step: Result<Step>, next: Pass, scan2: Scan,
                                       prev: seq<ChunkView>, cur: seq<ChunkView>)
    requires |cands| == |store| && pos <= |store| && NoRaiseBefore(cands, pos)
    requires ScanPrefix(cands, threshold, pos) == Ok(scan)
    requires prev == Spliced(Touched(store, cands, k), store, pos)
    requires NextCandidate(cands, pos) == |cands| ==> step.Ok? && step.value.Stop? && cur == prev
    requires NextCandidate(cands, pos) < |cands| ==>
               cur == prev[NextCandidate(cands, pos) := Refreshed(store[NextCandidate(cands, pos)], k)]
    requires NextCandidate(cands, pos) < |cands| ==> (step.Err? <==> cands[NextCandidate(cands, pos)].Raise?)
    requires NextCandidate(cands, pos) < |cands| && step.Err? ==> step.error == cands[NextCandidate(cands, pos)].error
    requires NextCandidate(cands, pos) < |cands| && step.Ok? ==>
               && step.value.Yield? && step.value.index == NextCandidate(cands, pos)
               && step.value.activation == cands[NextCandidate(cands, pos)].activation
    requires next == if step.Err? then Stopped(step.error) else if step.value.Stop? then Finished
                     else Moved(step.value.index + 1)
    requires scan2 == if step.Ok? && step.value.Yield? then Improve(scan, step.value.index, step.value.activation) else scan
    ensures next.Stopped? ==>
              && ScanBest(cands, threshold).Err? && ScanBest(cands, threshold).error == next.error
              && cur == Touched(store, cands, k)
    ensures next.Finished? ==> ScanBest(cands, threshold) == Ok(scan2) && cur == Touched(store, cands, k)
    ensures next.Moved? ==> pos < next.position <= |store|
    ensures next.Moved? ==> ScanPrefix(cands, threshold, next.position) == Ok(scan2)
    ensures next.Moved? ==>
              NoRaiseBefore(cands, next.position) && cur == Spliced(Touched(store, cands, k), store, next.position)
  {
    var n := NextCandidate(cands, pos);
    if step.Err? {
      PartialRaise(store, cands, k, threshold, pos, n, prev, cur);
    } else if step.value.Stop? {
      PartialEnd(store, cands, k, threshold, pos, prev, cur);
    } else {
      assert cands[n] == Eligible(step.value.activation);
      PartialYield(store, cands, k, threshold, pos, n, prev, cur);
      ScanPrefixYield(cands, threshold, pos, n, next.position, scan);
    }
  }

  /** The store across one step of the iterator from position `pos`: with `prev`
      the store before the step and `cur` the store after it, the end of the
      chunks or a raise leaves the scan's final store, and a yield the store
      part way at the position after it. */
  lemma {:induction false} StoreStep(store: seq<ChunkView>, cands: seq<Candidate>, k: Clock, pos: nat, prev: seq<ChunkView>, cur: seq<ChunkView>)
    requires |cands| == |store| && pos <= |store| && NoRaiseBefore(cands, pos)
    requires prev == Spliced(Touched(store, cands, k), store, pos)
    requires NextCandidate(cands, pos) == |cands| ==> cur == prev
    requires NextCandidate(cands, pos) < |cands| ==>
               cur == prev[NextCandidate(cands, pos) := Refreshed(store[NextCandidate(cands, pos)], k)]
    ensures NextCandidate(cands, pos) == |cands| ==> cur == Touched(store, cands, k)
    ensures NextCandidate(cands, pos) < |cands| && cands[NextCandidate(cands, pos)].Raise? ==>
              cur == Touched(store, cands, k)
    ensures NextCandidate(cands, pos) < |cands| && !cands[NextCandidate(cands, pos)].Raise? ==>
              cur == Spliced(Touched(store, cands, k), store, NextCandidate(cands, pos) + 1)
              && NoRaiseBefore(cands, NextCandidate(cands, pos) + 1)
  {
    var n := NextCandidate(cands, pos);
    IteratorStore(store, cands, k, pos);
    if n < |cands| && !cands[n].Raise? {
      assert NoRaiseBefore(cands, n);
    }
  }

  /** The part-way store of a scan over what the iterator yields, from `pos` to
      past the next chunk it stops at, or to the end. */
  lemma {:induction false} IteratorStore(store: seq<ChunkView>, cands: seq<Candidate>, k: Clock, pos: nat)
    requires |cands| == |store| && pos <= |store| && NoRaiseBefore(cands, pos)
    ensures var n := NextCandidate(cands, pos);
            var after := Touched(store, cands, k);
            && (n == |cands| ==> Spliced(after, store, pos) == after)
            && (n < |cands| ==> Spliced(after, store, pos)[n := Refreshed(store[n], k)] == Spliced(after, store, n + 1))
            && (n < |cands| && cands[n].Raise? ==> Spliced(after, store, n + 1) == after)
  {
    var n := NextCandidate(cands, pos);
    var after := Touched(store, cands, k);
    if n == |cands| {
      SplicedDone(after, store, pos);
    } else {
      assert NoRaiseBefore(cands, n);
      SplicedJump(after, store, pos, n);
      if cands[n].Raise? {
        RaiseEndsScan(store, cands, k, n);
        SplicedDone(after, store, n + 1);
      }
    }
  }

  /** Once the rest of the scan changes nothing, the part-way store is the final one. */
  lemma {:induction false} SplicedDone(after: seq<ChunkView>, before: seq<ChunkView>, i: nat)
    requires |after| == |before| && i <= |before|
    requires forall j :: i <= j < |before| ==> after[j] == before[j]
    ensures Spliced(after, before, i) == after
  {
  }

  lemma {:induction false} SplicedStart(after: seq<ChunkView>, before: seq<ChunkView>)
    requires |after| == |before|
    ensures Spliced(after, before, 0) == before
  {
  }

  /** What `_Activations.__next__` returns: the position and activation of the
      next chunk, or the end (StopIteration). */
  datatype Step = Stop | Yield(index: nat, activation: real)

  /** How one pass of a loop over the iterator ends: with the error of a chunk
      that raised, at the end of the chunks, or at the position after a yield. */
  datatype Pass = Stopped(error: Error) | Finished | Moved(position: nat)
}
