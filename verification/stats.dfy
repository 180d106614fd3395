/**
 * The score update of a turn (App.tsx:58-62): each score moves by the
 * outcome's change and is then saturated into [0, 100], never wrapped and
 * never rejected.
 */
module Stats {
  import opened Types

  const StatFloor := 0
  const StatCeiling := 100

  predicate InRange(v: int) {
    StatFloor <= v <= StatCeiling
  }

  /** Every score of `s` lies in [0, 100]. */
  predicate InBounds(s: PlayerStats) {
    InRange(s.bonding) && InRange(s.resilience) && InRange(s.confidence)
  }

  /** The change that moves no score. */
  const NoChange := StatChanges(0, 0, 0)

  /** `Math.min`. */
  function Min(a: int, b: int): int {
    if a <= b then a else b
  }

  /** `Math.max`. */
  function Max(a: int, b: int): int {
    if a >= b then a else b
  }

  /** `Math.max(0, Math.min(100, v))`. */
  function Clamp(v: int): (r: int)
    ensures InRange(r)
    ensures InRange(v) ==> r == v
    ensures v < StatFloor ==> r == StatFloor
    ensures v > StatCeiling ==> r == StatCeiling
  {
    Max(StatFloor, Min(StatCeiling, v))
  }

  /** New scores from the current ones and an outcome's changes, each score on its own. */
  function ApplyDelta(current: PlayerStats, delta: StatChanges): (r: PlayerStats)
    ensures InBounds(r)
    ensures InRange(current.bonding + delta.bonding) ==> r.bonding == current.bonding + delta.bonding
    ensures InRange(current.resilience + delta.resilience) ==> r.resilience == current.resilience + delta.resilience
    ensures InRange(current.confidence + delta.confidence) ==> r.confidence == current.confidence + delta.confidence
    ensures InBounds(current) && delta == NoChange ==> r == current
  {
    PlayerStats(
      Clamp(current.bonding + delta.bonding),
      Clamp(current.resilience + delta.resilience),
      Clamp(current.confidence + delta.confidence))
  }

  function Dist(a: int, b: int): nat {
    if a >= b then a - b else b - a
  }

  /** Reference view of the clamp: it picks the point of [0, 100] closest to `v`. */
  lemma ClampIsNearest(v: int, y: int)
    requires InRange(y)
    ensures Dist(Clamp(v), v) <= Dist(y, v)
  {
  }

  /** ... and it is the only such point, so the clamp is exactly "nearest in range". */
  lemma NearestIsClamp(v: int, y: int)
    requires InRange(y)
    requires forall z :: InRange(z) ==> Dist(y, v) <= Dist(z, v)
    ensures y == Clamp(v)
  {
    var c := Clamp(v);
    assert Dist(y, v) <= Dist(c, v);
  }

  /** Saturating, not wrapping: a larger sum never yields a smaller score. */
  lemma ClampMonotone(v: int, w: int)
    requires v <= w
    ensures Clamp(v) <= Clamp(w)
  {
  }

  /** Each new score depends on its own old score and its own change only. */
  lemma ApplyDeltaFieldsIndependent(a: PlayerStats, d: StatChanges, a': PlayerStats, d': StatChanges)
    ensures a.bonding == a'.bonding && d.bonding == d'.bonding
            ==> ApplyDelta(a, d).bonding == ApplyDelta(a', d').bonding
    ensures a.resilience == a'.resilience && d.resilience == d'.resilience
            ==> ApplyDelta(a, d).resilience == ApplyDelta(a', d').resilience
    ensures a.confidence == a'.confidence && d.confidence == d'.confidence
            ==> ApplyDelta(a, d).confidence == ApplyDelta(a', d').confidence
  {
  }

  /** A change in one score never disturbs the other two. */
  lemma ApplyDeltaOneField(current: PlayerStats, k: int)
    requires InBounds(current)
    ensures ApplyDelta(current, StatChanges(k, 0, 0)) == current.(bonding := Clamp(current.bonding + k))
    ensures ApplyDelta(current, StatChanges(0, k, 0)) == current.(resilience := Clamp(current.resilience + k))
    ensures ApplyDelta(current, StatChanges(0, 0, k)) == current.(confidence := Clamp(current.confidence + k))
  {
  }
}
