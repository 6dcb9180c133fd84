/**
  The statement formatters. The locale number formatter (`toLocaleString`) and
  `String(n)` are parameters; what is modelled is which magnitude each
  formatter prints and when it wraps it in parentheses, and the guard that
  falls back to `String` when the formatter is not a function.
 */
module Formatters {
  import opened JsMath

  /** The `fmt` argument: a number formatter, or something that is not a function. */
  datatype Formatter = Fn(f: real -> string) | NotAFunction

  /** `(${s})` */
  function Parens(s: string): (r: string)
    ensures |r| == |s| + 2 && r[0] == '(' && r[|r| - 1] == ')' && r[1..|r| - 1] == s
  {
    "(" + s + ")"
  }

  /** Generic signed number: a negative value prints as its magnitude in parentheses; the guard prints the signed value. */
  function FmtNormal(v: real, fmt: Formatter, str: real -> string): (r: string)
    ensures fmt.NotAFunction? ==> r == str(v)
    ensures fmt.Fn? && v < 0.0 ==> r == Parens(fmt.f(Abs(v)))
    ensures fmt.Fn? && v >= 0.0 ==> r == fmt.f(Abs(v))
  {
    match fmt
    case NotAFunction => str(v)
    case Fn(f) => if v < 0.0 then Parens(f(Abs(v))) else f(v)
  }

  /** Costs: a positive value prints in parentheses; the guard prints the magnitude. */
  function FmtCost(v: real, fmt: Formatter, str: real -> string): (r: string)
    ensures fmt.NotAFunction? ==> r == str(Abs(v))
    ensures fmt.Fn? && v > 0.0 ==> r == Parens(fmt.f(Abs(v)))
    ensures fmt.Fn? && v <= 0.0 ==> r == fmt.f(Abs(v))
  {
    match fmt
    case NotAFunction => str(Abs(v))
    case Fn(f) => if v > 0.0 then Parens(f(v)) else f(Abs(v))
  }

  /** Cash outflow as a negative value: with a formatter it prints as the generic signed format; without one, the plain magnitude. */
  function FmtNegToParens(v: real, fmt: Formatter, str: real -> string): (r: string)
    ensures fmt.NotAFunction? ==> r == str(Abs(v))
    ensures fmt.Fn? ==> r == FmtNormal(v, fmt, str)
  {
    match fmt
    case NotAFunction => str(Abs(v))
    case Fn(f) => if v < 0.0 then Parens(f(Abs(v))) else f(Abs(v))
  }

  /** Cash outflow as a positive value (tax, working capital): it prints as a cost, with or without a formatter. */
  function FmtPosToParens(v: real, fmt: Formatter, str: real -> string): (r: string)
    ensures r == FmtCost(v, fmt, str)
  {
    match fmt
    case NotAFunction => str(Abs(v))
    case Fn(f) => if v > 0.0 then Parens(f(Abs(v))) else f(Abs(v))
  }

  /** A cost prints as the generic format of its negation. */
  lemma CostIsNormalOfNegation(v: real, f: real -> string, str: real -> string)
    ensures FmtCost(v, Fn(f), str) == FmtNormal(-v, Fn(f), str)
  {
    assert Abs(-v) == Abs(v);
  }

  /**
    With a formatter, the generic and the cost format print the same magnitude
    and differ only in which sign they wrap: exactly one of them wraps a
    nonzero value, and neither wraps zero.
   */
  lemma SignDecidesParens(v: real, f: real -> string, str: real -> string)
    ensures FmtNormal(v, Fn(f), str) == (if v < 0.0 then Parens(f(Abs(v))) else f(Abs(v)))
    ensures FmtCost(v, Fn(f), str) == (if v > 0.0 then Parens(f(Abs(v))) else f(Abs(v)))
    ensures v == 0.0 ==> FmtNormal(v, Fn(f), str) == f(0.0) == FmtCost(v, Fn(f), str)
  {
  }
}
