/** The part of JavaScript's number semantics the model needs: the two infinities,
    NaN, `<` and `/`. Finite values are exact reals; IEEE rounding is not modelled. */
module JsNumber {

  datatype Num = Finite(value: real) | PosInf | NegInf | NaN

  /** JavaScript `a < b` on numbers: false as soon as either side is NaN. */
  predicate Less(a: Num, b: Num) {
    match (a, b)
    case (Finite(x), Finite(y)) => x < y
    case (NegInf, Finite(_)) => true
    case (NegInf, PosInf) => true
    case (Finite(_), PosInf) => true
    case _ => false
  }

  /** `a <= b` in the order of the extended reals (false when either side is NaN). */
  predicate AtMost(a: Num, b: Num) {
    a != NaN && b != NaN && (a == b || Less(a, b))
  }

  /** JavaScript `a / b` for finite operands: division by zero gives NaN for `0 / 0`
      and an infinity of the numerator's sign otherwise. */
  function Divide(a: real, b: real): (q: Num)
    ensures b != 0.0 ==> q.Finite? && q.value * b == a
    ensures b == 0.0 ==> (q == NaN <==> a == 0.0) && !q.Finite?
  {
    if b != 0.0 then Finite(a / b)
    else if a == 0.0 then NaN
    else if a > 0.0 then PosInf
    else NegInf
  }

  /** A share of a positive whole is a finite fraction between zero and one. */
  lemma DivideFraction(a: real, b: real)
    requires 0.0 <= a <= b && 0.0 < b
    ensures Divide(a, b).Finite? && 0.0 <= Divide(a, b).value <= 1.0
  {
  }

  lemma LessIsStrictOrder(a: Num, b: Num, c: Num)
    ensures !Less(a, a)
    ensures Less(a, b) ==> !Less(b, a)
    ensures Less(a, b) && Less(b, c) ==> Less(a, c)
  {
  }

  lemma AtMostTrans(a: Num, b: Num, c: Num)
    requires AtMost(a, b) && AtMost(b, c)
    ensures AtMost(a, c)
  {
    LessIsStrictOrder(a, b, c);
  }
}
