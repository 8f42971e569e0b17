/** Failures of the sensor arithmetic.  The Python code signals them by raising
    exceptions; here they are values, so every operation is total. */
module Results {

  /** The two exceptions the estimation arithmetic can raise. */
  datatype Error =
    | DivideByZero  // ZeroDivisionError from a float division by zero
    | DomainError   // ValueError from math.pow outside its domain

  datatype Result<+T> = Ok(value: T) | Err(error: Error) {

    predicate IsFailure() {
      Err?
    }

    function PropagateFailure<U>(): Result<U>
      requires Err?
    {
      Err(error)
    }

    function Extract(): T
      requires Ok?
    {
      value
    }
  }

  /** Float division `a / b`: fails exactly when the divisor is zero, and
      otherwise returns the quotient, the number that multiplied by `b` gives `a`. */
  function Div(a: real, b: real): (r: Result<real>)
    ensures r.Err? <==> b == 0.0
    ensures r.Err? ==> r.error == DivideByZero
    ensures r.Ok? ==> r.value * b == a
  {
    if b == 0.0 then Err(DivideByZero) else Ok(a / b)
  }
}
