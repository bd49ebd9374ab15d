# A verified model of the pyactup declarative memory

pyactup is a Python implementation of the declarative memory of the ACT-R
cognitive architecture. A `Memory` holds chunks: maps from attribute names to
values. Each chunk remembers when it was learned, or under optimized learning
how often. The memory has a clock and a set of parameters: noise, decay,
temperature, retrieval threshold, mismatch penalty, and the spreading
activation weight W and maximum associative strength mas. It offers:

- `learn` and `forget`;
- retrieval by exact or partial matching, as an argmax over activations with
  a threshold floor;
- blending, a weighted average of an outcome attribute;
- spreading activation from a cue into per-chunk accumulators.

This project models that engine in Dafny and proves properties of the model.

The model is split into these modules:

- `Values`: attribute values, the exceptions the engine raises, `Option` and
  `Result`, and cues (the keyword arguments of `retrieve`, `blend` and
  `spread`, in their order).
- `Numerics`: the constants, and `math.log`, `math.pow` and `math.exp` as
  uninterpreted functions. Every property proved here holds whatever values
  those functions take.
- `Parameters`: the parameter state machine. It covers every guarded setter,
  the derived temperature, `reset`'s guard, and the sequence of assignments
  `Memory.__init__` makes.
- `Similarity`: `_similarity` and the mismatch term partial matching
  subtracts.
- `Selection`: the scan of `_exact_match` and `_partial_match`. `ScanBest` is
  the rule the code intends and `ScanLast` is the rule `_partial_match` runs
  as written.
- `Blending`: the two sums of `blend` and its division.
- `Spreading`: the source-by-chunk matrix, fans, associative strengths, the
  spreading vector, and the accumulator of the `spreading_activation`
  setter.
- `ChunkStore`: the store as values. It holds the value-level `Learn` and
  `Forget`, the memoised base-level activation, and the candidate each
  retrieval and blending scan sees for each chunk.
- `DeclarativeMemory`: the two classes.
  - `Chunk` has mutable references, memo, spreading accumulator and
    importance.
  - `Memory` has mutable parameters, time and chunk list.
  - Their methods carry the loops of the source and are proved against the
    functions of the other modules.

The dictionary of chunks is a `seq<Chunk>` in insertion order. Python
dictionaries keep that order, and it decides which chunk wins a tie and which
chunk receives which entry of the spreading vector. A chunk's signature, the
sorted tuple of its attribute/value pairs, is modelled by the attribute map
itself: two such tuples are equal exactly when the maps are.

Where the library's docstrings and its code disagree, the model follows the
code, except for the three defects listed under "## Findings". For each of
those the model states the code as written in a separate member, and the class
layer uses the corrected behaviour the docstrings describe:

- `_partial_match` picks the chunk of highest activation
  (`DeclarativeMemory.Memory.PartialMatch`, corrected).
- `Memory(...)` refuses a decay of 1 or more only under optimized learning
  (`DeclarativeMemory.Memory.New`, corrected).
- The `spreading_activation` setter adds every spread value, zero included
  (`DeclarativeMemory.Chunk.SetSpreading` and everything that spreads,
  corrected).

In the other disagreements the model follows the code:

- `_exact_match` compares with `>=`, so of two chunks with the same highest
  activation the later one is returned.
- The fan used by `_actr_sji` is counted per cue source: one more than the
  number of chunks holding that source's value.
- Without optimized learning and with a decay of 0, the base-level activation
  at a chunk's creation time is defined, since `math.pow(0, 0)` is 1. It is
  not an error.
- Under optimized learning `forget` ignores `when` and always removes one
  reference.

## Model

| member | source | states |
|---|---|---|
| Parameters.AssignTemperature | pyactup_v2.py:211-232 | the setter fails with ValueError, changing nothing, exactly when the effective temperature (the explicit value, or √2·noise when none is given) is below 0.01; on success the parameter is stored, the effective temperature is that value and at least 0.01, and no other parameter changes |
| Parameters.AssignNoise | pyactup_v2.py:162-173 | a negative noise fails with ValueError and changes nothing; otherwise the noise is set; an explicit temperature is kept; with none the temperature is re-derived as √2·noise, or falls back to an explicit temperature of 1 when that is too low; nothing else changes |
| Parameters.AssignDecay | pyactup_v2.py:186-197 | fails with ValueError exactly when the decay is negative, or at least 1 under optimized learning; the rejected decay ≥ 1 still poisons `_ln_1_mius_d`; a decay below 1 stores ln(1 − d); only decay and that cache change, and the parameter invariant is kept |
| Parameters.AssignThreshold | pyactup_v2.py:234-252 | never fails; the threshold property afterwards reads back the assigned value, and None (or −float max) stands for "no threshold"; nothing else changes |
| Parameters.CheckNonNegative | pyactup_v2.py:267-274 | the shared guard of mismatch, W and mas: ValueError exactly for a negative number, otherwise the value (or None) is kept and is non-negative |
| Parameters.AssignMismatch | pyactup_v2.py:267-274 | ValueError, changing nothing, exactly for a negative penalty; otherwise only the penalty changes |
| Parameters.AssignW | pyactup_v2.py:375-382 | ValueError, changing nothing, exactly for a negative W; otherwise only W changes |
| Parameters.AssignMas | pyactup_v2.py:389-396 | ValueError, changing nothing, exactly for a negative mas; otherwise only mas changes |
| Parameters.ResetParams | pyactup_v2.py:126-131 | RuntimeError, changing nothing, exactly when optimized learning is requested while the decay is at least 1; otherwise the flag takes the given value (or stays) and every other parameter is kept |
| Parameters.Configure | pyactup_v2.py:92-111 | construction succeeds exactly when the arguments are admissible; the resulting parameters are consistent and hold every argument given; every failure is ValueError (a negative noise, decay, mismatch, W or mas, or a temperature below 0.01) except optimized learning with decay ≥ 1, which gives RuntimeError from the closing `reset` |
| Parameters.AssignDecayBeforeReset | pyactup_v2.py:186-194 | the decay setter as `__init__` runs it: below 1 it is the ordinary setter, and from 1 on, reading the not-yet-set `_optimized_learning` raises AttributeError |
| Parameters.ConfigureAsWritten | pyactup_v2.py:101-111 | `__init__` as written: a non-negative noise with a decay of 1 or more raises AttributeError, and otherwise it agrees with the corrected construction |
| Parameters.DecayOneRejectedAtConstruction | pyactup_v2.py:104 | `Memory(decay=1)` raises AttributeError as written, while the corrected construction accepts it with decay 1 |
| Similarity.Similarity | pyactup_v2.py:349-368 | the result always lies in [−1, 0]; equal values give 0; without a function, or when it returns None, the result is −1; otherwise it is the function's value clamped to the mode's range, shifted down by one in the natural mode |
| Similarity.SimilaritySum | pyactup_v2.py:665-666 | the summed similarities over the cue lie between −(number of cue attributes) and 0, and are 0 on an exact match |
| Similarity.MismatchTerm | pyactup_v2.py:665-667 | a non-negative penalty lowers an activation by at most the penalty per cue attribute and never raises it; an exact match costs nothing |
| Similarity.Scaled | pyactup_v2.py:665 | a non-negative penalty times a similarity sum in [−n, 0] lies in [−penalty·n, 0], and is 0 on a zero sum |
| Selection.ScanBest | pyactup_v2.py:506-519 | the argmax of `_exact_match`: an error exactly when some candidate raises, and then the first one's error; with a pick, it is eligible, its activation is the best, at least the threshold and at least every eligible activation, and every later eligible activation is strictly lower (ties go to the later chunk); with no pick, every eligible activation is below the threshold |
| Selection.ScanLast | pyactup_v2.py:685-691 | `_partial_match` as written: an error exactly when some candidate raises; the pick is the last eligible candidate at or above the threshold, and with no pick every activation is below it |
| Selection.PartialMatchAsWrittenPicksLower | pyactup_v2.py:688 | of activations 2 and 1 with threshold 0, the as-written loop picks the second, lower one, while the corrected scan picks the first |
| Selection.ScanLastNoBetter | pyactup_v2.py:684-691 | when no candidate raises, the as-written and corrected scans agree on whether a chunk is found, and the as-written pick is never better |
| Selection.ScanLastTracksActivation | pyactup_v2.py:689-690 | the best value the as-written loop carries is the activation of its pick |
| Selection.NextCandidate | pyactup_v2.py:660-662 | where `_Activations.__next__` stops from a position: every candidate before it is passed over and the one it stops at is not, or it is the end |
| Selection.ScansSkip | pyactup_v2.py:509-510 | candidates that do not qualify leave both scans unchanged |
| Selection.ScanBestStep | pyactup_v2.py:515-518 | one more candidate: a raise ends the scan; otherwise the pick moves exactly when the candidate is eligible with an activation at least the best so far |
| Selection.ScanLastStep | pyactup_v2.py:688-690 | one more candidate as-written: the pick moves exactly when the activation is at least the threshold |
| Selection.NextCandidateAgree | pyactup_v2.py:660-662 | where the iterator stops depends only on which chunks it passes over |
| Selection.ScanBestFirstError | pyactup_v2.py:515 | the scan raises the error of the first candidate that raises |
| Selection.ScanPrefixIsScanBest | pyactup_v2.py:508-518 | the indexed scan over the first n candidates is the scan of that prefix |
| Selection.ScanPrefixSkip | pyactup_v2.py:509-510 | skipped candidates leave the indexed scan unchanged |
| Selection.ScanPrefixWhole | pyactup_v2.py:508-519 | over all candidates the indexed scan is the whole scan |
| Selection.ScanPrefixStep | pyactup_v2.py:515-518 | one non-raising candidate moves the indexed scan as the loop body does |
| Selection.NextCandidateAt | pyactup_v2.py:660-662 | the iterator stops at n exactly when everything before n is passed over and n is the end or a chunk it yields |
| Selection.ScanPrefixYield | pyactup_v2.py:687-690 | the scan over what the iterator yields: skip to the next yield, then take it |
| Blending.BlendOfNothing | pyactup_v2.py:734-737 | with no contributing chunk both sums are 0 and `blend` returns None |
| Blending.BlendRaises | pyactup_v2.py:720-727 | a contribution that raises makes the blend raise the first such error |
| Blending.SumsUpTo | pyactup_v2.py:716-727 | without a raising contribution the sums are defined |
| Blending.BlendOfOne | pyactup_v2.py:716-737 | with exactly one contributing chunk of non-zero weight, the blend is that chunk's outcome, whatever the weight |
| Blending.SumsOfOne | pyactup_v2.py:726-727 | with exactly one contributing chunk the sums are its weight and its weight times its outcome |
| Blending.BlendWithinRange | pyactup_v2.py:716-737 | with positive weights and at least one contribution, the blend lies between the smallest and the largest contributing outcome |
| Blending.StepBounded | pyactup_v2.py:726-727 | one positive-weight contribution keeps the weighted outcomes between lo and hi times the weights |
| Blending.SumsBounded | pyactup_v2.py:716-727 | the weighted outcomes stay between lo and hi times the weights over the whole loop |
| Blending.SumsPositive | pyactup_v2.py:726 | with positive weights the total weight is non-negative, and positive once something contributes |
| Blending.SumsSkip | pyactup_v2.py:721-722 | chunks without the outcome attribute leave both sums unchanged |
| Blending.SumsStep | pyactup_v2.py:723-727 | one more contribution adds to the sums as the loop body does |
| Blending.SumsPrefixIsSums | pyactup_v2.py:716-727 | the indexed sums over the first n contributions are the sums of that prefix |
| Blending.SumsPrefixWhole | pyactup_v2.py:716-727 | over all contributions the indexed sums are the sums |
| Blending.SumsPrefixSkip | pyactup_v2.py:721-722 | chunks that contribute nothing leave the indexed sums unchanged |
| Blending.SumsPrefixStuck | pyactup_v2.py:720-727 | once the loop has raised, later contributions change nothing |
| Blending.BlendRaisedAt | pyactup_v2.py:720-727 | the first raising contribution is the error of the sums and of the blend |
| Blending.SumsPrefixNext | pyactup_v2.py:723-727 | the indexed sums advance by one contribution |
| Spreading.SourceMatrix | pyactup_v2.py:563-575 | the built-in matching matrix has one row per cue source and one column per chunk |
| Spreading.SourceMatrixCell | pyactup_v2.py:565-569 | cell [j][i] holds exactly when source j's value occurs among chunk i's values, under any attribute name |
| Spreading.Count | pyactup_v2.py:582 | the number of true cells of a row is at most its length |
| Spreading.Fan | pyactup_v2.py:582 | a source's fan is between 1 and the number of chunks plus 1 |
| Spreading.CountIsCardinality | pyactup_v2.py:582 | the count of a row is the number of chunks holding the source's value |
| Spreading.DefaultSji | pyactup_v2.py:577-587 | the built-in strengths raise TypeError exactly when mas is unset, and otherwise give one strength per source |
| Spreading.Combine | pyactup_v2.py:630-636 | the elementwise product raises ValueError exactly when the weights (one per cue source), the strengths and the matrix rows do not have the same count, or the rows differ in length; otherwise it gives one sum per chunk |
| Spreading.MisshapenMatrixRaises | pyactup_v2.py:627-636 | a matching hook whose matrix lacks one row per cue source makes the vector computation raise ValueError |
| Spreading.SpreadingVector | pyactup_v2.py:622-638 | an unset W raises TypeError |
| Spreading.BuiltInVectorFits | pyactup_v2.py:622-638 | with the built-in computations and W and mas set, the vector has one entry per chunk, so `spread`'s length check passes |
| Spreading.ColumnOfUnrelated | pyactup_v2.py:636 | a column with no true cell sums to 0 |
| Spreading.UnrelatedChunkGetsNothing | pyactup_v2.py:622-638 | a chunk holding none of the cue's values gets spreading activation 0 |
| Spreading.SpreadTerm | pyactup_v2.py:855 | a missing accumulator counts as 0 in the activation |
| Spreading.AccumulateAdds | pyactup_v2.py:919-926 | spreading a value adds it to the chunk's spreading activation, and clearing removes it |
| Spreading.AccumulateAsWritten | pyactup_v2.py:919-926 | the setter as written overwrites the accumulator with the new value unless both are truthy, so a spread 0 leaves 0; it differs from the cumulative update exactly when 0 is spread onto a non-zero accumulator |
| Spreading.ZeroSpreadWipes | pyactup_v2.py:923-926 | spreading 0 onto an accumulator of 1 leaves 0 as written, and 1 under the cumulative update |
| ChunkStore.AttributesOf | pyactup_v2.py:568-569 | the chunks' attribute maps in store order |
| ChunkStore.IndexOf | pyactup_v2.py:430-431 | the lookup by signature: None exactly when no chunk has these attributes, and otherwise the position of the first one that has them |
| ChunkStore.Reinforce | pyactup_v2.py:436-439 | one more reference: the count grows by one, or the current time is appended; it succeeds exactly when the references have the mode's form |
| ChunkStore.StoreOkModeOk | pyactup_v2.py:436-439 | every chunk of a well-formed store keeps its references in the mode's form |
| ChunkStore.StoreOkLater | pyactup_v2.py:133-140 | time passing keeps the store well formed |
| ChunkStore.Learn | pyactup_v2.py:427-442 | no attributes raise ValueError; otherwise it reports creation exactly when no chunk had the signature; a new chunk is appended with one reference at the current time and the importance; otherwise that chunk is reinforced and takes the importance; every other chunk is unchanged and signatures stay distinct |
| ChunkStore.FirstIndex | pyactup_v2.py:466 | the position of the first occurrence of a time in a chunk's list |
| ChunkStore.LearnAppends | pyactup_v2.py:432-439 | learning a new signature appends exactly the new chunk |
| ChunkStore.LearnReplaces | pyactup_v2.py:436-441 | learning a known signature replaces that chunk by its reinforced self with the new importance |
| ChunkStore.LearnKeepsStoreOk | pyactup_v2.py:427-442 | learning keeps the store well formed |
| ChunkStore.AppendKeepsStoreOk | pyactup_v2.py:433-434 | a chunk of a new signature appended keeps the store well formed |
| ChunkStore.ReinforceKeepsChunkOk | pyactup_v2.py:436-441 | a reference added now keeps a chunk well formed |
| ChunkStore.RemoveFirst | pyactup_v2.py:466 | `list.remove`: one element fewer, and exactly one occurrence of the time gone |
| ChunkStore.Delete | pyactup_v2.py:469-470 | the store without the chunk at k, the others in order |
| ChunkStore.Forget | pyactup_v2.py:456-471 | no attributes raise ValueError; an absent signature, or a time not among the references, reports False and changes nothing; otherwise one reference goes, and the chunk goes exactly when its last one does; it succeeds whenever the store's references have the mode's form, and in list mode it reports True exactly when `when` is among them |
| ChunkStore.ForgetCounted | pyactup_v2.py:462-463 | under optimized learning forgetting decrements the count, ignoring `when`, and deletes the chunk at a count of one |
| ChunkStore.ForgetTimed | pyactup_v2.py:464-470 | with lists of times forgetting reports False and changes nothing when `when` is absent, and otherwise removes it and deletes a chunk left without references |
| ChunkStore.RemoveAppended | pyactup_v2.py:439 | removing the first occurrence of the current time from a sorted list with that time appended gives the list back |
| ChunkStore.ForgetUndoesLearn | pyactup_v2.py:427-471 | `forget` at the current time undoes `learn`: a created chunk goes away again, and a reinforced chunk gets its references back, keeping the new importance |
| ChunkStore.ForgetRemovesAppended | pyactup_v2.py:456-471 | forgetting a chunk just appended removes it |
| ChunkStore.ForgetUndoesReinforce | pyactup_v2.py:456-471 | forgetting the reference just added restores the chunk's references |
| ChunkStore.ForgetTallyBack | pyactup_v2.py:462-463 | a count above one is lowered by one |
| ChunkStore.ForgetTimesBack | pyactup_v2.py:464-466 | the last of two or more times is removed |
| ChunkStore.ForgetKeepsStoreOk | pyactup_v2.py:456-471 | forgetting keeps the store well formed |
| ChunkStore.DeleteKeepsStoreOk | pyactup_v2.py:469-470 | deleting a chunk keeps signatures distinct |
| ChunkStore.ReplaceKeepsStoreOk | pyactup_v2.py:462-466 | replacing a chunk by a well-formed one of the same signature keeps the store well formed |
| ChunkStore.RemoveKeepsChunkOk | pyactup_v2.py:466 | removing one of several times keeps the list sorted and non-empty |
| ChunkStore.PowerSum | pyactup_v2.py:904-905 | the sum of powers is undefined exactly when some power raises a domain error |
| ChunkStore.FreshBase | pyactup_v2.py:896-911 | a RuntimeError only at or before the chunk's creation, and a ValueError only after it |
| ChunkStore.BaseAtCreationRaises | pyactup_v2.py:907-909 | at or before its creation a chunk's base-level activation raises RuntimeError: under optimized learning, and with lists of times when the decay is positive |
| ChunkStore.OptimizedBaseDefined | pyactup_v2.py:899-902 | after creation the optimized activation is defined exactly when the decay marker is not poisoned, and otherwise raises TypeError |
| ChunkStore.Refreshed | pyactup_v2.py:912 | `_get_base_activation` changes nothing of a chunk but its memo |
| ChunkStore.RefreshTransparent | pyactup_v2.py:896-913 | asking again at the same time gives the same answer, and a successful computation is memoised with the current time |
| ChunkStore.MemoIgnoresReferences | pyactup_v2.py:897 | the memo is keyed on time alone: a chunk reinforced at the memo's time keeps reporting the memoised value |
| ChunkStore.Activation | pyactup_v2.py:851-857 | an activation is defined exactly when the base-level activation is; without noise it is base plus spreading plus importance |
| ChunkStore.ExactCandidate | pyactup_v2.py:509-515 | a chunk's activation is computed for `_exact_match` exactly when the chunk matches every cue attribute |
| ChunkStore.ExactCandidates | pyactup_v2.py:508-515 | one candidate per chunk, in store order |
| ChunkStore.IteratorCandidate | pyactup_v2.py:659-679 | the iterator passes over a chunk lacking a cue attribute, or, without a mismatch penalty, one that does not match exactly; with a penalty it yields every other chunk with an activation no higher than its unpenalised one; without one it agrees with exact matching |
| ChunkStore.IteratorCandidates | pyactup_v2.py:659-679 | one iterator candidate per chunk, in store order |
| ChunkStore.ExactMatchesKeepActivation | pyactup_v2.py:663-667 | under partial matching an exact match is yielded with its unpenalised activation |
| ChunkStore.BlendContribution | pyactup_v2.py:720-727 | a chunk passed over or without the outcome adds nothing, a raise propagates, and a weight comes with the chunk's numeric outcome |
| ChunkStore.Contribute | pyactup_v2.py:721-727 | a chunk adds nothing exactly when it lacks the outcome; otherwise a zero temperature raises ZeroDivisionError before the outcome is read, a non-number raises TypeError, and a number gives weight exp(a/temperature) with that outcome |
| ChunkStore.BlendContributions | pyactup_v2.py:720-727 | one contribution per chunk, in store order |
| ChunkStore.BlendWithoutOutcome | pyactup_v2.py:734-737 | when no chunk holds the outcome and no activation raises, `blend` returns None |
| ChunkStore.BlendCandidates | pyactup_v2.py:720-727 | the candidates as `blend` meets them: a raising contribution ends the loop |
| ChunkStore.BlendAgreement | pyactup_v2.py:720-727 | the iterator candidates, `blend`'s candidates and the contributions agree chunk by chunk |
| ChunkStore.BlendAdvance | pyactup_v2.py:720-722 | skipped chunks add nothing, and the chunk the loop stops at raises exactly when its contribution does |
| ChunkStore.BlendEnd | pyactup_v2.py:720 | at the end of the chunks the sums and the store are final |
| ChunkStore.BlendRaised | pyactup_v2.py:720-727 | a raising chunk ends the loop with its error and the store is final |
| ChunkStore.BlendYield | pyactup_v2.py:723-727 | a yielded chunk adds to the sums and the scan moves past it |
| ChunkStore.SpreadAll | pyactup_v2.py:549-552 | corrected: every chunk's accumulator takes its entry of the vector through the cumulative setter, nothing else changes |
| ChunkStore.Cleared | pyactup_v2.py:641-646 | every accumulator becomes None, nothing else changes |
| ChunkStore.SpreadAccumulates | pyactup_v2.py:528-552 | corrected: spreading twice adds both vectors into every chunk's activation, and spreading after a clear leaves exactly the new vector |
| ChunkStore.SpreadKeepsStoreOk | pyactup_v2.py:549-552 | spreading keeps the store well formed |
| ChunkStore.ClearKeepsStoreOk | pyactup_v2.py:641-646 | clearing keeps the store well formed |
| ChunkStore.Touched | pyactup_v2.py:508-518 | after a scan exactly the chunks whose activation was computed, up to the first that raised, have refreshed memos |
| ChunkStore.TouchedTransparent | pyactup_v2.py:896-913 | a scan changes only memos, never any answer at this time, and keeps the store well formed |
| ChunkStore.RaiseEndsScan | pyactup_v2.py:515 | a raising chunk leaves every later chunk untouched |
| ChunkStore.ScanStopped | pyactup_v2.py:515 | a raise ends `_exact_match` with that error and the final store |
| ChunkStore.ExactEnd | pyactup_v2.py:508-519 | past the last chunk the scan and store are final |
| ChunkStore.ExactRaise | pyactup_v2.py:515 | a raising chunk ends the scan with its error and the final store |
| ChunkStore.ExactYield | pyactup_v2.py:509-518 | a non-raising chunk moves the scan and the store on by one |
| ChunkStore.PartialEnd | pyactup_v2.py:687 | at the end of the iterator the scan and store are final |
| ChunkStore.PartialRaise | pyactup_v2.py:687 | a raising chunk ends the scan with its error and the final store |
| ChunkStore.PartialYield | pyactup_v2.py:687-690 | a yielded chunk moves the store past it |
| ChunkStore.PartialPass | pyactup_v2.py:687-690 | one pass of `_partial_match`'s loop ends in the scan's error, its final result, or the prefix scan past the yielded chunk |
| ChunkStore.StoreStep | pyactup_v2.py:659-679 | one step of the iterator leaves the scan's final store at the end or on a raise, and the store part way past a yield |
| ChunkStore.IteratorStore | pyactup_v2.py:659-679 | the part-way store across one step of the iterator |
| DeclarativeMemory.Chunk.constructor | pyactup_v2.py:833-843 | a new chunk is created now, with no references, no memo, no spreading activation and importance 0 |
| DeclarativeMemory.Chunk.GetBaseActivation | pyactup_v2.py:896-913 | returns the memo when it was taken at the current time and a fresh value otherwise, which the memo then records |
| DeclarativeMemory.Chunk.ComputeActivation | pyactup_v2.py:851-857 | returns the chunk's activation and refreshes its memo |
| DeclarativeMemory.Chunk.SetSpreading | pyactup_v2.py:919-926 | corrected: the setter adds the value to the accumulator, zero included, as its docstring says (as written a zero overwrites it, see `Spreading.AccumulateAsWritten`), and changes nothing else |
| DeclarativeMemory.Memory.Init | pyactup_v2.py:101-111 | a memory with the given parameters, time 0 and no chunks |
| DeclarativeMemory.Memory.New | pyactup_v2.py:92-111 | corrected (decay ≥ 1 refused only under optimized learning; as written see `Parameters.ConfigureAsWritten`): `Memory(...)` succeeds exactly for admissible arguments, with the error the construction gives otherwise; a new memory is valid, holds the configured parameters, time 0 and no chunks, and keeps the given `math`, similarity registry and hooks |
| DeclarativeMemory.Memory.Reset | pyactup_v2.py:119-131 | refused with RuntimeError, changing nothing, when optimized learning is requested with decay ≥ 1; otherwise the store is emptied, the time is 0 and every other parameter is kept |
| DeclarativeMemory.Memory.Advance | pyactup_v2.py:133-140 | a negative amount raises ValueError and changes nothing; otherwise the time grows by the amount and the new time is returned; time never decreases |
| DeclarativeMemory.Memory.SetNoise | pyactup_v2.py:162-173 | the noise setter as `Parameters.AssignNoise`, touching neither time nor chunks |
| DeclarativeMemory.Memory.SetDecay | pyactup_v2.py:186-197 | the decay setter as `Parameters.AssignDecay` |
| DeclarativeMemory.Memory.SetTemperature | pyactup_v2.py:211-221 | the temperature setter as `Parameters.AssignTemperature` |
| DeclarativeMemory.Memory.SetThreshold | pyactup_v2.py:247-252 | the threshold setter as `Parameters.AssignThreshold` |
| DeclarativeMemory.Memory.SetMismatch | pyactup_v2.py:267-274 | the mismatch setter as `Parameters.AssignMismatch` |
| DeclarativeMemory.Memory.SetW | pyactup_v2.py:375-382 | the W setter as `Parameters.AssignW` |
| DeclarativeMemory.Memory.SetMas | pyactup_v2.py:389-396 | the mas setter as `Parameters.AssignMas` |
| DeclarativeMemory.Memory.Learn | pyactup_v2.py:427-442 | succeeds exactly with attributes; the chunk store becomes what `ChunkStore.Learn` gives and the result says whether a chunk was created; the memory stays valid |
| DeclarativeMemory.Memory.LearnSome | pyactup_v2.py:429-442 | learning a non-empty signature, as `ChunkStore.Learn` |
| DeclarativeMemory.Memory.AppendChunk | pyactup_v2.py:433-439 | the new chunk, with its first reference and importance, goes at the end of the store |
| DeclarativeMemory.Memory.PushChunk | pyactup_v2.py:434 | a fresh chunk is added at the end of the store |
| DeclarativeMemory.Memory.UpdateChunk | pyactup_v2.py:436-441 | one chunk's references and importance change, no other chunk does |
| DeclarativeMemory.Memory.RemoveChunk | pyactup_v2.py:469-470 | the store loses the chunk at k, the others keep their order |
| DeclarativeMemory.Memory.Forget | pyactup_v2.py:456-471 | succeeds exactly with attributes; the store becomes what `ChunkStore.Forget` gives and the result says whether a learning was undone; the memory stays valid |
| DeclarativeMemory.Memory.ForgetSome | pyactup_v2.py:458-471 | forgetting a non-empty signature, as `ChunkStore.Forget` |
| DeclarativeMemory.Memory.ForgetCounting | pyactup_v2.py:462-471 | forgetting under optimized learning, as `ChunkStore.Forget` |
| DeclarativeMemory.Memory.ForgetTiming | pyactup_v2.py:464-471 | forgetting with lists of times, as `ChunkStore.Forget` |
| DeclarativeMemory.Memory.DropCount | pyactup_v2.py:462-470 | one reference fewer, and the chunk goes with its last one |
| DeclarativeMemory.Memory.DropTime | pyactup_v2.py:465-470 | reports True exactly when `when` is among the chunk's times; then its first occurrence goes, and the chunk goes with its last time |
| DeclarativeMemory.Memory.DistinctChunks | pyactup_v2.py:430-434 | distinct signatures make the chunks distinct objects |
| DeclarativeMemory.Memory.ExactMatch | pyactup_v2.py:502-519 | the result is the chunk `Selection.ScanBest` picks over the exact-match candidates (None when it picks none, the first raise propagated); exactly the chunks whose activation was computed get refreshed memos |
| DeclarativeMemory.Memory.ScanExact | pyactup_v2.py:506-519 | the loop computes `Selection.ScanBest` of the exact-match candidates, in insertion order |
| DeclarativeMemory.Memory.ExactStep | pyactup_v2.py:508-518 | one pass of the loop keeps the prefix scan and the part-way store, or ends with the scan's error or result |
| DeclarativeMemory.Memory.ConsiderExact | pyactup_v2.py:509-515 | the chunk's candidate, its memo refreshed exactly when its activation is computed |
| DeclarativeMemory.Memory.NextActivation | pyactup_v2.py:659-679 | returns the next chunk the iterator does not pass over with its (penalised) activation, or the end; a raise propagates; only that chunk's memo changes |
| DeclarativeMemory.Memory.ConsiderIterator | pyactup_v2.py:663-676 | the iterator candidate of a chunk it does not pass over, with its memo refreshed |
| DeclarativeMemory.Memory.PartialMatch | pyactup_v2.py:684-691 | the corrected `_partial_match`: the chunk `Selection.ScanBest` picks over what the iterator yields, None when there is none, the first raise propagated |
| DeclarativeMemory.Memory.ScanPartial | pyactup_v2.py:684-691 | the loop computes `Selection.ScanBest` of the iterator candidates |
| DeclarativeMemory.Memory.PartialStep | pyactup_v2.py:687-690 | one pass keeps the prefix scan and the part-way store, or ends with the scan's error or result |
| DeclarativeMemory.Memory.Retrieve | pyactup_v2.py:497-500 | partial or exact matching of the cue, with the same guarantees as each |
| DeclarativeMemory.Memory.Blend | pyactup_v2.py:716-737 | the result is `Blending.BlendValue` of the contributions: the weighted average, None when nothing is weighted, or the first error; only memos change |
| DeclarativeMemory.Memory.BlendSums | pyactup_v2.py:716-727 | the loop computes the two sums of the contributions, or the first error |
| DeclarativeMemory.Memory.BlendStep | pyactup_v2.py:720-727 | one pass keeps the prefix sums and the part-way store, or ends with their error or final value |
| DeclarativeMemory.Memory.BlendTake | pyactup_v2.py:721-727 | a yielded chunk's contribution is added to the sums, or ends the loop with its error |
| DeclarativeMemory.Memory.Spread | pyactup_v2.py:539-552 | no attributes raise ValueError; `auto_clear` clears first; a vector that fails or has the wrong length raises (RuntimeError for the length); otherwise every accumulator takes its entry through the corrected, cumulative setter |
| DeclarativeMemory.Memory.SpreadCue | pyactup_v2.py:546-552 | the vector for the cue is applied when it has one entry per chunk, and raises otherwise |
| DeclarativeMemory.Memory.SpreadVector | pyactup_v2.py:549-552 | corrected: each chunk's cumulative setter is called with its entry of the vector |
| DeclarativeMemory.Memory.ClearSpread | pyactup_v2.py:641-646 | every accumulator becomes None and the memory stays valid |
| DeclarativeMemory.Memory.ClearAll | pyactup_v2.py:643-646 | the loop clears every accumulator |
| DeclarativeMemory.Memory.SetSpreadingAt | pyactup_v2.py:551 | corrected: the cumulative setter of one chunk, no other chunk changes |

## Left out

- Default arguments: `advance(amount=1)`, `learn(importance=0)`,
  `retrieve(partial=False)` and `spread(auto_clear=False)` take their argument
  as a required parameter. A caller passes the default value explicitly, so no
  behaviour is lost.
- Distinct cue names: a cue is a sequence of name and value pairs, and the model
  does not require its names to be distinct, as Python keyword arguments are.
  A cue with a repeated name has no counterpart in the library; for such a cue
  the spreading vector counts that source twice.
- Noise: `_make_noise` draws from `random.uniform`. The model takes the draws
  as an input, one per chunk position, and zero noise adds nothing.
- The random default importance, used when `importance` is None. `learn`
  takes the resolved number.
- The values of `math.log`, `math.pow`, `math.exp` and `np.log`: they are
  uninterpreted functions. Only the domain errors of `math.pow` are modelled.
  Floating point rounding and overflow are not modelled.
- The transcendental caches `_cached_expt` and `_cached_ln`. They are a speed
  optimisation and do not change any result.
- `activation_history`, `__repr__`/`__str__` and the chunk name counter. They
  are diagnostics only.
- The module-level registration functions and toggles (`set_similarity_function`,
  `use_actr_similarity`, `set_sji_function`, `use_actr_sji`,
  `set_matching_source2chunk_function`, `use_actr_matching_source2chunk`).
  They are global mutable plugin slots, and the model takes the registry and
  the hooks as constants of a memory.
- A matching or strengths hook that raises. It is modelled as a hook that
  returns None, after which the built-in computation is used. Hooks receive
  the cue and the chunks' attribute maps rather than the memory object.
- A similarity function that raises. The exception escaping the iterator is
  not modelled.
- numpy broadcasting of size-one dimensions. Only the shape check of the
  elementwise product is modelled: the weights, strengths and matrix rows
  must each have one entry per cue source. A size-one dimension that numpy
  would broadcast is treated as a mismatch.
- Pickling and persistence.
- The iterator object of `_Activations`: its internal dictionary iterator is
  modelled as an explicit position in the chunk list.
- The "illegal value" string written to `_ln_1_mius_d`: it is modelled as
  None. Reading it gives TypeError, as subtracting a string would.
- Non-numeric arguments to the setters: values are real numbers or None, and
  None also stands for False.
- Spreading.SpreadingVector: its own contract states only the unset-W error.
  The shape of the vector and the zero entry of an unrelated chunk are stated
  by `Spreading.BuiltInVectorFits` and `Spreading.UnrelatedChunkGetsNothing`,
  for the built-in computations only.
- ChunkStore.FreshBase: the base-level value itself is not stated, since it
  is a value of the uninterpreted log and power functions. Only which error
  arises when is stated.
- ChunkStore.Activation: the value is stated only for zero noise. With noise
  the draw is added as `Numerics.NoiseTerm` says.

## Findings

| source | as written | input that shows it | evidently intended | confidence | as-written member | corrected member |
|---|---|---|---|---|---|---|
| pyactup_v2.py:688 | `_partial_match` compares each activation with the threshold instead of the best so far, so it returns the last chunk above the threshold | two chunks yielded with activations 2.0 then 1.0, threshold 0: returns the second | the chunk of highest activation at or above the threshold, as `_exact_match` and the docstring of `retrieve` say | not executed | Selection.PartialMatchAsWrittenPicksLower | DeclarativeMemory.Memory.PartialMatch |
| pyactup_v2.py:104 | `__init__` calls the decay setter before `reset` sets `_optimized_learning`, so a decay of 1 or more raises AttributeError even without optimized learning | `Memory(decay=1)` | decay ≥ 1 refused only under optimized learning, as the setter's documentation says | not executed | Parameters.DecayOneRejectedAtConstruction | Parameters.Configure |
| pyactup_v2.py:923 | the `spreading_activation` setter adds only when both the new value and the accumulator are truthy, so spreading 0 wipes the accumulator | accumulator 1.0, then a spread vector entry of 0.0: accumulator becomes 0.0 | values are added cumulatively, as the docstrings of `spread` and the setter say | not executed | Spreading.ZeroSpreadWipes | Spreading.AccumulateAdds |
