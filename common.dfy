/** Values shared by every part of the contrastive-loss model: optional values,
    results that carry the exception the Python code raises, and loss scalars
    that may be non-finite. */
module Common {

  datatype Option<+T> = None | Some(value: T)

  /** The exceptions raised along the modelled paths, one constructor per cause. */
  datatype Error =
    | AssertionFailed        // a Python `assert` that does not hold (AssertionError)
    | InvalidReduction       // ValueError: a reduction name the reduction lookup does not know
    | AvgFactorMisuse        // ValueError: avg_factor combined with a reduction other than mean/none
    | UnsupportedFileFormat  // ValueError: class-weight path with an unknown extension
    | InvalidClassIndex      // RuntimeError: one-hot encoding of a value outside the class range
    | ShapeMismatch          // RuntimeError: shapes the tensor library refuses to combine
    | EmptyConcatenation     // RuntimeError: concatenation of an empty list of tensors
    | IndexError             // IndexError: list position out of range
    | TypeError              // TypeError: operands Python cannot multiply
    | AttributeError         // AttributeError: a method called on an object that lacks it

  datatype Result<+T> = Ok(value: T) | Err(error: Error) {
    predicate IsFailure() { Err? }

    function PropagateFailure<U>(): Result<U>
      requires Err?
    {
      Err(error)
    }

    function Extract(): T
      requires Ok?
    {
      value
    }
  }

  /** A loss scalar: an exact real, or NaN / an infinity (division by zero,
      the mean of no elements). Non-finite values absorb every operation. */
  datatype Num = Finite(v: real) | NonFinite

  function Add(a: Num, b: Num): (r: Num)
    ensures r.Finite? <==> a.Finite? && b.Finite?
    ensures r.Finite? ==> r.v == a.v + b.v
  {
    if a.Finite? && b.Finite? then Finite(a.v + b.v) else NonFinite
  }

  function Mul(a: Num, b: Num): (r: Num)
    ensures r.Finite? <==> a.Finite? && b.Finite?
    ensures r.Finite? ==> r.v == a.v * b.v
  {
    if a.Finite? && b.Finite? then Finite(a.v * b.v) else NonFinite
  }

  /** Floating-point division: a zero divisor gives NaN or an infinity. */
  function Div(x: real, d: real): (r: Num)
    ensures r.Finite? <==> d != 0.0
    ensures r.Finite? ==> r.v * d == x
  {
    if d == 0.0 then NonFinite else Finite(x / d)
  }
}
