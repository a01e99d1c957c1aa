/**
 * Severity levels of the `tracing` crate, as the event collector compares them.
 *
 * `tracing::Level` orders its five levels by verbosity: ERROR < WARN < INFO
 * < DEBUG < TRACE.  A test `a <= b` therefore reads "a is at least as severe
 * as b".
 */
module TracingLevel {

  datatype Level = Error | Warn | Info | Debug | Trace

  /** Position of a level in the crate's ordering; more verbose is larger. */
  function Verbosity(l: Level): nat
  {
    match l
    case Error => 0
    case Warn => 1
    case Info => 2
    case Debug => 3
    case Trace => 4
  }

  /** `a <= b` on `tracing::Level`. */
  predicate Le(a: Level, b: Level)
  {
    Verbosity(a) <= Verbosity(b)
  }

  /** `Le` is a total order on the five levels. */
  lemma LeIsTotalOrder(a: Level, b: Level, c: Level)
    ensures Le(a, a)
    ensures Le(a, b) && Le(b, a) ==> a == b
    ensures Le(a, b) && Le(b, c) ==> Le(a, c)
    ensures Le(a, b) || Le(b, a)
  {
  }

  /** ERROR is the least verbose level and TRACE the most verbose. */
  lemma ErrorLeastTraceGreatest(l: Level)
    ensures Le(Error, l)
    ensures Le(l, Trace)
    ensures Le(l, Error) ==> l == Error
    ensures Le(Trace, l) ==> l == Trace
  {
  }
}
