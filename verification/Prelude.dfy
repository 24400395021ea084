/** Shared value types. */
module Prelude {

  datatype Option<+T> = None | Some(value: T)

  /** Bounds of Go's time.Duration, a signed 64-bit count of nanoseconds. */
  const MAX_DURATION: int := 0x7FFF_FFFF_FFFF_FFFF
  const MIN_DURATION: int := -0x8000_0000_0000_0000

  /** A time.Duration in nanoseconds. */
  type Duration = d: int | MIN_DURATION <= d <= MAX_DURATION

  /** time.Time.Sub: the difference, saturated at the bounds of a Duration. */
  function TimeSub(later: int, earlier: int): int {
    var d := later - earlier;
    if d > MAX_DURATION then MAX_DURATION
    else if d < MIN_DURATION then MIN_DURATION
    else d
  }

  /** Time elapsed since an instant; the zero time.Time (None) lies further back than any
      Duration can express, so the difference saturates. */
  function Since(then_: Option<int>, now: int): int {
    match then_
    case None => MAX_DURATION
    case Some(t) => TimeSub(now, t)
  }

  /** Consecutive stamps are at least gap apart. */
  ghost predicate Spaced(stamps: seq<int>, gap: int) {
    forall i | 0 < i < |stamps| :: stamps[i - 1] + gap <= stamps[i]
  }

  lemma SpacedSnoc(stamps: seq<int>, gap: int, stamp: int)
    requires Spaced(stamps, gap) && (stamps != [] ==> stamps[|stamps| - 1] + gap <= stamp)
    ensures Spaced(stamps + [stamp], gap)
  {}

  function Min(a: int, b: int): int { if a < b then a else b }

  lemma Multiply(a: int, b: int, gap: int)
    requires gap > 0 && a < b
    ensures a * gap + gap <= b * gap
  {
    assert (b - a - 1) * gap >= 0;
    assert b * gap == (b - a - 1) * gap + a * gap + gap;
  }

  lemma PlusOne(a: int, gap: int)
    ensures (a + 1) * gap == a * gap + gap
  {}

  lemma QuotientBound(count: int, length: int, gap: int)
    requires gap > 0 && count * gap <= length
    ensures count <= length / gap
  {
    var q := length / gap;
    PlusOne(q, gap);
    assert length < (q + 1) * gap;
    if q < count {
      Multiply(q, count, gap);
    }
  }

  lemma EmptyOrNot(ports: set<int>)
    ensures |ports| == 0 <==> forall p :: p !in ports
  {
    if forall p :: p !in ports {
      assert ports == {};
    }
  }
}
