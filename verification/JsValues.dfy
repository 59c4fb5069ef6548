/**
 The JavaScript values the chart code computes with. A number is a real; `null` coerces to 0
 in arithmetic and comparisons; `undefined` becomes NaN, which makes every comparison false.
 */
module JsValues {

  datatype Option<+T> = None | Some(value: T)

  datatype JsNumber = Num(v: real) | Null | Undefined {

    /** `y || 0`, which is also what `null` and a missing value contribute to a sum. */
    function OrZero(): real {
      if Num? then v else 0.0
    }
  }

  /** `a < b` */
  predicate Less(a: JsNumber, b: JsNumber) {
    !a.Undefined? && !b.Undefined? && a.OrZero() < b.OrZero()
  }

  function Abs(r: real): real {
    if r < 0.0 then -r else r
  }

  function Max(a: real, b: real): real {
    if a < b then b else a
  }

  function Min(a: real, b: real): real {
    if a < b then a else b
  }
}
