/** Times, and stretches of them. */
module Times {

  /** Times are in nanoseconds. */
  const SECOND := 1000000000
  const MINUTE := 60 * SECOND
  const HOUR := 60 * MINUTE

  function Min(a: int, b: int): int {
    if a < b then a else b
  }

  function Max(a: int, b: int): int {
    if a < b then b else a
  }

  /** Time to a grain. */
  function Floor(t: int, grain: int): int
    requires grain > 0
  {
    t / grain * grain
  }

  /** Time as a status keeps it. */
  function Seconds(t: int): int {
    Floor(t, SECOND)
  }

  function Hours(t: int): real {
    t as real / HOUR as real
  }

  /** A stretch of time, and what it's counted for. */
  datatype Span<T> = Span(from: int, to: int, what: T)

  function Length<T>(spans: seq<Span<T>>): int {
    if spans == [] then 0 else Length(spans[..|spans| - 1]) + (spans[|spans| - 1].to - spans[|spans| - 1].from)
  }

  lemma LengthJoins<T>(spans: seq<Span<T>>, span: Span<T>)
    ensures Length(spans + [span]) == Length(spans) + (span.to - span.from)
  {
    assert (spans + [span])[..|spans|] == spans;
  }
}
