/**
 * State discretisation of TrainerBot (`getState`): distance to the nearest fresh
 * enemy, own energy and fresh-enemy count, each put in a bucket by half-open
 * thresholds, and the three labels joined with "-".
 */
module TrainerState {
  import opened Wrappers
  import opened Keys
  import opened Arena

  datatype Range = Close | Mid | Far
  datatype Vitality = HighEnergy | MidEnergy | LowEnergy
  datatype Crowd = Crowded | Few | Duel

  /** One discretised observation. */
  datatype Situation = Situation(range: Range, vitality: Vitality, crowd: Crowd)

  /** Enemies not seen for more than this many ticks are ignored. */
  const FreshWindow: int := 60
  /** The distance assumed when no enemy is fresh. */
  const NoEnemyDistance: real := 1000.0
  const Separator: char := '-'

  /** Distance buckets: below 250, below 600, the rest. */
  function RangeOf(d: real): (r: Range)
    ensures r == Close <==> d < 250.0
    ensures r == Mid <==> 250.0 <= d < 600.0
    ensures r == Far <==> 600.0 <= d
  {
    if d < 250.0 then Close else if d < 600.0 then Mid else Far
  }

  /** Energy buckets: above 60, above 25, the rest. */
  function VitalityOf(energy: real): (v: Vitality)
    ensures v == HighEnergy <==> 60.0 < energy
    ensures v == MidEnergy <==> 25.0 < energy <= 60.0
    ensures v == LowEnergy <==> energy <= 25.0
  {
    if energy > 60.0 then HighEnergy else if energy > 25.0 then MidEnergy else LowEnergy
  }

  /** Count buckets: more than 4, more than 1, the rest (no enemy counts as a duel). */
  function CrowdOf(count: nat): (c: Crowd)
    ensures c == Crowded <==> 4 < count
    ensures c == Few <==> 1 < count <= 4
    ensures c == Duel <==> count <= 1
  {
    if count > 4 then Crowded else if count > 1 then Few else Duel
  }

  /** The buckets of one observation; no fresh enemy means the distance 1000. */
  function Classify(nearest: Option<real>, energy: real, count: nat): (s: Situation)
    ensures nearest.None? ==> s.range == Far
    ensures count <= 1 ==> s.crowd == Duel
  {
    Situation(RangeOf(nearest.GetOr(NoEnemyDistance)), VitalityOf(energy), CrowdOf(count))
  }

  /** What `getState` observes of the enemy map and the host readings. */
  ghost function Observe(enemies: Enemies, snap: Snapshot, dist: Metric): Situation {
    Classify(
      NearestDistance(enemies, snap.me, snap.time, FreshWindow, dist), snap.energy,
      |FreshNames(enemies, snap.time, FreshWindow)|)
  }

  function RangeLabel(r: Range): string {
    match r
    case Close => "CLOSE"
    case Mid => "MID"
    case Far => "FAR"
  }

  function VitalityLabel(v: Vitality): string {
    match v
    case HighEnergy => "HIGH"
    case MidEnergy => "MID"
    case LowEnergy => "LOW"
  }

  function CrowdLabel(c: Crowd): string {
    match c
    case Crowded => "CROWD"
    case Few => "FEW"
    case Duel => "DUEL"
  }

  /** The three labels of a situation, in key order. */
  function Labels(s: Situation): seq<string> {
    [RangeLabel(s.range), VitalityLabel(s.vitality), CrowdLabel(s.crowd)]
  }

  /** The state key: the three labels joined with "-". */
  function Key(s: Situation): (k: string)
    ensures k == RangeLabel(s.range) + [Separator] + VitalityLabel(s.vitality) + [Separator] + CrowdLabel(s.crowd)
  {
    Join(Labels(s), Separator)
  }

  /** No label holds the separator, and each label names one bucket. */
  lemma LabelsDistinct(a: Situation, b: Situation)
    ensures forall i :: 0 <= i < 3 ==> Free(Labels(a)[i], Separator)
    ensures Labels(a) == Labels(b) ==> a == b
  {
  }

  /** Equal situations give equal keys and distinct situations never share a key. */
  lemma KeyInjective(a: Situation, b: Situation)
    ensures Key(a) == Key(b) <==> a == b
  {
    if Key(a) == Key(b) {
      LabelsDistinct(a, b);
      LabelsDistinct(b, a);
      JoinPartsInjective(Labels(a), Labels(b), Separator);
    }
  }
}
