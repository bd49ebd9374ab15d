/** Values shared by every part of the declarative-memory model. */
module Values {

  /** An attribute value of a chunk. Python's ints, floats and booleans compare
      equal across types (1 == 1.0 == True), so every real-valued value is one
      case here; strings are the other hashable values the engine meets. */
  datatype Value = Num(r: real) | Str(s: string)

  /** The exception classes the engine raises. */
  datatype Error = ValueError | TypeError | RuntimeError | AttributeError | ZeroDivisionError

  datatype Option<T> = None | Some(value: T)
  {
    function GetOr(default: T): (r: T)
    {
      match this
      case Some(v) => v
      case None => default
    }
  }

  /** A value, or the exception raised instead of returning one. */
  datatype Result<T> = Ok(value: T) | Err(error: Error)
  {
    predicate IsFailure()
    {
      Err?
    }

    function PropagateFailure<U>(): (r: Result<U>)
      requires Err?
    {
      Err(error)
    }

    function Extract(): (r: T)
      requires Ok?
    {
      value
    }
  }

  /** The outcome of an operation that returns nothing. */
  datatype Outcome = Success | Failure(error: Error)

  /** Keyword arguments given as cues: attribute names with the values sought,
      in the order the caller wrote them. */
  type Cue = seq<(string, Value)>

  /** Every cue attribute is an attribute of the chunk: `conditions.keys() <= chunk.keys()`. */
  predicate KeysIn(cue: Cue, attributes: map<string, Value>)
  {
    forall k :: 0 <= k < |cue| ==> cue[k].0 in attributes
  }

  /** The chunk has every cue attribute, with the value the cue asks for. */
  predicate Matches(cue: Cue, attributes: map<string, Value>)
  {
    forall k :: 0 <= k < |cue| ==> cue[k].0 in attributes && attributes[cue[k].0] == cue[k].1
  }
}
