/** Small wrapper datatypes shared by the modules of this model. */
module Common {

  /** An optional value: Go's nil-able pointers and `(value, ok)` results. */
  datatype Option<+T> = None | Some(value: T)

  /** A Go error value, reduced to the text its `Error()` method returns. */
  datatype Error = Error(message: string)

  /** A Go `(value, error)` pair where exactly one side is meaningful. */
  datatype Result<+T> = Ok(value: T) | Err(error: Error)

  /** The `n` consecutive runes starting at `lo`. */
  function Run(lo: char, n: nat): (r: string)
    requires lo as int + n <= 0xD800
    ensures |r| == n
  {
    seq(n, i requires 0 <= i < n => (lo as int + i) as char)
  }

  /** A rune is in a run exactly when its code lies in the run's range. */
  lemma InRun(c: char, lo: char, n: nat)
    requires lo as int + n <= 0xD800
    ensures c in Run(lo, n) <==> lo as int <= c as int < lo as int + n
  {
    if lo as int <= c as int < lo as int + n {
      assert Run(lo, n)[c as int - lo as int] == c;
    }
  }
}
