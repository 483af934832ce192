/**
 * State discretisation of UltraMeleeBot (`buildState`): distance to the nearest fresh
 * enemy, own energy, fresh-enemy count and distance to the nearest wall, each put in a
 * bucket by half-open thresholds, and the four labels joined with "|".
 */
module UltraState {
  import opened Wrappers
  import opened Keys
  import opened Arena

  datatype Range = VeryClose | Close | Mid | Far
  datatype Vitality = HighEnergy | MidEnergy | LowEnergy
  datatype Crowd = Many | Few | Duel | Alone
  datatype Zone = Wall | Center

  /** One discretised observation. */
  datatype Situation = Situation(range: Range, vitality: Vitality, crowd: Crowd, zone: Zone)

  /** Enemies not seen for more than this many ticks are ignored. */
  const FreshWindow: int := 40
  /** The distance assumed when no enemy is fresh. */
  const NoEnemyDistance: real := 1000.0
  const Separator: char := '|'

  /** Distance buckets: below 150, below 300, below 600, the rest. */
  function RangeOf(d: real): (r: Range)
    ensures r == VeryClose <==> d < 150.0
    ensures r == Close <==> 150.0 <= d < 300.0
    ensures r == Mid <==> 300.0 <= d < 600.0
    ensures r == Far <==> 600.0 <= d
  {
    if d < 150.0 then VeryClose else if d < 300.0 then Close else if d < 600.0 then Mid else Far
  }

  /** Energy buckets: above 70, above 30, the rest. */
  function VitalityOf(energy: real): (v: Vitality)
    ensures v == HighEnergy <==> 70.0 < energy
    ensures v == MidEnergy <==> 30.0 < energy <= 70.0
    ensures v == LowEnergy <==> energy <= 30.0
  {
    if energy > 70.0 then HighEnergy else if energy > 30.0 then MidEnergy else LowEnergy
  }

  /** Count buckets: 5 or more, 3 or more, 1 or more, none. */
  function CrowdOf(count: nat): (c: Crowd)
    ensures c == Many <==> 5 <= count
    ensures c == Few <==> 3 <= count < 5
    ensures c == Duel <==> 1 <= count < 3
    ensures c == Alone <==> count == 0
  {
    if count >= 5 then Many else if count >= 3 then Few else if count >= 1 then Duel else Alone
  }

  /** Wall buckets: nearer than 80, the rest. */
  function ZoneOf(wallDist: real): (z: Zone)
    ensures z == Wall <==> wallDist < 80.0
  {
    if wallDist < 80.0 then Wall else Center
  }

  /** Position of a distance bucket from nearest to farthest. */
  function RangeRank(r: Range): nat {
    match r
    case VeryClose => 0
    case Close => 1
    case Mid => 2
    case Far => 3
  }

  /** A larger distance never falls in a nearer bucket. */
  lemma RangeMonotone(d1: real, d2: real)
    requires d1 <= d2
    ensures RangeRank(RangeOf(d1)) <= RangeRank(RangeOf(d2))
  {
  }

  /** The distance to the nearest wall: the least of the four distances to the walls. */
  function WallDistance(snap: Snapshot): (d: real)
    ensures d <= snap.me.x && d <= snap.width - snap.me.x
    ensures d <= snap.me.y && d <= snap.height - snap.me.y
    ensures d == snap.me.x || d == snap.width - snap.me.x || d == snap.me.y || d == snap.height - snap.me.y
  {
    var dx := if snap.me.x <= snap.width - snap.me.x then snap.me.x else snap.width - snap.me.x;
    var dy := if snap.me.y <= snap.height - snap.me.y then snap.me.y else snap.height - snap.me.y;
    if dx <= dy then dx else dy
  }

  /** The buckets of one observation; no fresh enemy means the distance 1000. */
  function Classify(nearest: Option<real>, energy: real, count: nat, wallDist: real): (s: Situation)
    ensures nearest.None? ==> s.range == Far
  {
    Situation(RangeOf(nearest.GetOr(NoEnemyDistance)), VitalityOf(energy), CrowdOf(count), ZoneOf(wallDist))
  }

  /** What `buildState` observes of the enemy map and the host readings. */
  ghost function Observe(enemies: Enemies, snap: Snapshot, dist: Metric): Situation {
    Classify(
      NearestDistance(enemies, snap.me, snap.time, FreshWindow, dist), snap.energy,
      |FreshNames(enemies, snap.time, FreshWindow)|, WallDistance(snap))
  }

  function RangeLabel(r: Range): string {
    match r
    case VeryClose => "VERY_CLOSE"
    case Close => "CLOSE"
    case Mid => "MID"
    case Far => "FAR"
  }

  function VitalityLabel(v: Vitality): string {
    match v
    case HighEnergy => "HIGH"
    case MidEnergy => "MID"
    case LowEnergy => "LOW"
  }

  function CrowdLabel(c: Crowd): string {
    match c
    case Many => "MANY"
    case Few => "FEW"
    case Duel => "DUEL"
    case Alone => "ALONE"
  }

  function ZoneLabel(z: Zone): string {
    match z
    case Wall => "WALL"
    case Center => "CENTER"
  }

  /** The four labels of a situation, in key order. */
  function Labels(s: Situation): seq<string> {
    [RangeLabel(s.range), VitalityLabel(s.vitality), CrowdLabel(s.crowd), ZoneLabel(s.zone)]
  }

  /** The state key: the four labels joined with "|". */
  function Key(s: Situation): (k: string)
    ensures k == RangeLabel(s.range) + [Separator] + VitalityLabel(s.vitality) + [Separator] +
      CrowdLabel(s.crowd) + [Separator] + ZoneLabel(s.zone)
  {
    Join(Labels(s), Separator)
  }

  /** No label holds the separator, and each label names one bucket. */
  lemma LabelsDistinct(a: Situation, b: Situation)
    ensures forall i :: 0 <= i < 4 ==> Free(Labels(a)[i], Separator)
    ensures Labels(a) == Labels(b) ==> a == b
  {
  }

  /** Equal situations give equal keys and distinct situations never share a key. */
  lemma KeyInjective(a: Situation, b: Situation)
    ensures Key(a) == Key(b) <==> a == b
  {
    if Key(a) == Key(b) {
      LabelsDistinct(a, b);
      LabelsDistinct(b, a);
      JoinPartsInjective(Labels(a), Labels(b), Separator);
    }
  }
}
