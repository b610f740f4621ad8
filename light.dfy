/** light.c: the bounded light table (`lights[MAX_LIGHTS]`, `num_lights`) and
    the per-surface light intensity, which sums distance-attenuated
    contributions of the lights a shadow ray can reach and caps the sum at 1. */
module Light {
  import opened Common
  import opened Raycast

  type LightSource = Cell

  /** Cut-off radius of a light's influence, in grid units. */
  const MaxLightDist: real := 20.0
  /** Factor each attenuated contribution is multiplied by. */
  const Boost: real := 1.5
  /** Lights nearer than this are never shadow-tested. */
  const ShadowMinDist: real := 1.0
  /** How far the shadow ray's origin is pulled back along the incoming ray. */
  const ShadowBias: real := 0.01
  /** How far past the light's centre the shadow ray may travel. */
  const ShadowOvershoot: real := 1.0

  // ---------------------------------------------------------------------------
  // The table as a sequence

  /** `add_light`: append while there is room, otherwise leave the table alone. */
  function Appended(s: seq<LightSource>, l: LightSource): (r: seq<LightSource>)
    ensures |s| <= MaxLights ==> |r| <= MaxLights
    ensures |r| == if |s| < MaxLights then |s| + 1 else |s|
    ensures |r| > |s| <==> |s| < MaxLights
    ensures |r| >= |s| && r[..|s|] == s
    ensures |r| > |s| ==> r[|s|] == l
  {
    if |s| < MaxLights then s + [l] else s
  }

  /** Index of the first entry equal to `l`, or `|s|` when there is none. */
  function FirstIndex(s: seq<LightSource>, l: LightSource): (i: nat)
    ensures i <= |s|
    ensures i < |s| ==> s[i] == l
    ensures forall j :: 0 <= j < i ==> s[j] != l
  {
    if s == [] then 0
    else if s[0] == l then 0
    else 1 + FirstIndex(s[1..], l)
  }

  /** `remove_light`: overwrite the first entry equal to `l` with the last
      entry and drop the last position; no change when `l` is absent. */
  function Removed(s: seq<LightSource>, l: LightSource): seq<LightSource> {
    var i := FirstIndex(s, l);
    if i == |s| then s else s[i := s[|s| - 1]][..|s| - 1]
  }

  /** Removing deletes exactly one copy of `l` when there is one, and nothing otherwise. */
  lemma RemovedMultiset(s: seq<LightSource>, l: LightSource)
    ensures l in s ==> |Removed(s, l)| == |s| - 1 &&
                       multiset(Removed(s, l)) == multiset(s) - multiset{l}
    ensures l !in s ==> Removed(s, l) == s
  {
    var i := FirstIndex(s, l);
    if i < |s| {
      var n := |s|;
      var last := s[n - 1];
      var front := s[..i];
      if i == n - 1 {
        assert s == front + [l];
        assert Removed(s, l) == front;
      } else {
        var back := s[i + 1..n - 1];
        assert s == front + [l] + back + [last];
        assert Removed(s, l) == front + [last] + back;
        calc {
          multiset(s);
          multiset(front) + multiset{l} + multiset(back) + multiset{last};
          multiset(Removed(s, l)) + multiset{l};
        }
      }
    } else {
      assert l !in s;
    }
  }

  /** Adding a light while there is room and then removing the same coordinate
      restores the original multiset of lights. */
  lemma AddThenRemove(s: seq<LightSource>, l: LightSource)
    requires |s| < MaxLights
    ensures multiset(Removed(Appended(s, l), l)) == multiset(s)
  {
    RemovedMultiset(s + [l], l);
  }

  /** Adding a coordinate the table does not hold and removing it again gives
      back the very same table, order included, whether or not it was full. */
  lemma AppendedThenRemoved(s: seq<LightSource>, l: LightSource)
    requires l !in s
    ensures Removed(Appended(s, l), l) == s
  {
    if |s| < MaxLights {
      var t := s + [l];
      assert t[|s|] == l;
      assert t[|s| := t[|t| - 1]][..|t| - 1] == s;
    } else {
      RemovedMultiset(s, l);
    }
  }

  /** No coordinate occurs twice. */
  ghost predicate Distinct(s: seq<LightSource>) {
    forall m :: multiset(s)[m] <= 1
  }

  /** Every light sits on an in-grid emitter block and no light is listed twice. */
  ghost predicate LightsMatchGrid(grid: array3<byte>, s: seq<LightSource>)
    requires IsMap(grid)
    reads grid
  {
    (forall m :: m in s ==> InBounds(m) && At(grid, m) == Emitter) && Distinct(s)
  }

  /** Removing a coordinate from a table without repeats leaves none of it behind. */
  lemma RemovedDistinct(s: seq<LightSource>, l: LightSource)
    requires Distinct(s)
    ensures Distinct(Removed(s, l)) && l !in Removed(s, l)
    ensures forall m :: m in Removed(s, l) ==> m in s
  {
    RemovedMultiset(s, l);
    if l in s {
      forall m ensures multiset(Removed(s, l))[m] <= 1 {
        assert multiset(Removed(s, l))[m] <= multiset(s)[m];
      }
      assert multiset(Removed(s, l))[l] == 0;
      forall m | m in Removed(s, l) ensures m in s {
        assert m in multiset(Removed(s, l));
      }
    }
  }

  /** Appending a coordinate the table does not hold keeps it free of repeats. */
  lemma AppendedDistinct(s: seq<LightSource>, l: LightSource)
    requires Distinct(s) && l !in s
    ensures Distinct(Appended(s, l))
    ensures forall m :: m in Appended(s, l) ==> m in s || m == l
  {
    if |s| < MaxLights {
      assert Appended(s, l) == s + [l];
      forall m ensures multiset(s + [l])[m] <= 1 {
        assert multiset(s + [l]) == multiset(s) + multiset{l};
      }
    }
  }

  // ---------------------------------------------------------------------------
  // The table in place

  class LightTable {
    const lights: array<LightSource>
    var count: int

    ghost predicate Valid()
      reads this
    {
      lights.Length == MaxLights && 0 <= count <= MaxLights
    }

    /** The live entries `lights[0..num_lights)`. */
    ghost function Contents(): (s: seq<LightSource>)
      requires Valid()
      reads this, lights
      ensures |s| == count
    {
      lights[..count]
    }

    constructor ()
      ensures Valid() && Contents() == [] && fresh(lights)
    {
      lights := new LightSource[MaxLights](_ => Cell(0, 0, 0));
      count := 0;
    }

    /** `reset_lights`. */
    method Reset()
      requires Valid()
      modifies this
      ensures Valid() && Contents() == []
    {
      count := 0;
    }

    /** `add_light`. */
    method Add(l: LightSource)
      requires Valid()
      modifies this, lights
      ensures Valid()
      ensures Contents() == Appended(old(Contents()), l)
    {
      if count < MaxLights {
        lights[count] := l;
        count := count + 1;
      }
    }

    /** `remove_light`: a linear scan for the first match, which is overwritten
        by the last live entry. */
    method Remove(l: LightSource)
      requires Valid()
      modifies this, lights
      ensures Valid()
      ensures Contents() == Removed(old(Contents()), l)
    {
      var i := 0;
      while i < count
        invariant 0 <= i <= count
        invariant count == old(count) && lights[..] == old(lights[..])
        invariant forall j :: 0 <= j < i ==> lights[j] != l
      {
        if lights[i] == l {
          ghost var s := lights[..count];
          assert FirstIndex(s, l) == i;
          count := count - 1;
          lights[i] := lights[count];
          assert lights[..count] == s[i := s[|s| - 1]][..|s| - 1];
          return;
        }
        i := i + 1;
      }
      assert FirstIndex(lights[..count], l) == count;
    }

    /** `calculate_light_intensity`: the shadow query is the grid traversal
        itself; the square root is the parameter `sqrtf`. */
    method LightIntensity(grid: array3<byte>, hit: Vec3, dir: Vec3, sqrtf: real -> real) returns (r: real)
      requires Valid() && IsMap(grid)
      ensures r == Intensity(grid, Contents(), hit, dir, sqrtf)
      ensures 0.0 <= r <= 1.0
    {
      var lightIntensity := 0.0;
      var i := 0;
      while i < count
        invariant 0 <= i <= count
        invariant lightIntensity == SumContributions(grid, lights[..i], hit, dir, sqrtf)
      {
        var l := lights[i];
        var d := Offset(l, hit);
        var distSq := SquaredNorm(d);
        var dist := sqrtf(distSq);
        ghost var before := lightIntensity;

        if dist < MaxLightDist {
          var shadowHit := false;
          if dist > ShadowMinDist {
            var ldir := Vec3(d.x / dist, d.y / dist, d.z / dist);
            var c := CastRay(grid, ShadowOrigin(hit, dir), ldir, dist + ShadowOvershoot);
            if c.Hit? {
              shadowHit := c.cell != l;
            }
          }
          assert shadowHit == Occluded(grid, l, hit, dir, dist);
          if !shadowHit {
            var normDist := dist / MaxLightDist;
            var attenuation := 1.0 - Square(normDist);
            if attenuation > 0.0 {
              lightIntensity := lightIntensity + attenuation * Boost;
            }
            assert lightIntensity == before + Falloff(dist);
          }
        }
        assert lightIntensity == before + Contribution(grid, l, hit, dir, sqrtf);
        assert lights[..i + 1] == lights[..i] + [l];
        i := i + 1;
      }
      assert lights[..count] == Contents();
      if lightIntensity > 1.0 {
        lightIntensity := 1.0;
      }
      r := lightIntensity;
    }
  }

  // ---------------------------------------------------------------------------
  // Intensity as a value

  /** Vector from the surface point to the centre of the light's cell. */
  function Offset(l: LightSource, hit: Vec3): Vec3 {
    Vec3(l.x as real + 0.5 - hit.x, l.y as real + 0.5 - hit.y, l.z as real + 0.5 - hit.z)
  }

  function SquaredNorm(v: Vec3): real {
    v.x * v.x + v.y * v.y + v.z * v.z
  }

  function LightDistance(l: LightSource, hit: Vec3, sqrtf: real -> real): real {
    sqrtf(SquaredNorm(Offset(l, hit)))
  }

  /** The shadow ray starts slightly before the surface, against the incoming ray. */
  function ShadowOrigin(hit: Vec3, dir: Vec3): Vec3 {
    Vec3(hit.x - dir.x * ShadowBias, hit.y - dir.y * ShadowBias, hit.z - dir.z * ShadowBias)
  }

  /** Quadratic fall-off with the boost, counted only while positive. */
  function Falloff(dist: real): (a: real)
    ensures 0.0 <= a <= Boost
    ensures dist >= MaxLightDist || dist <= -MaxLightDist ==> a == 0.0
  {
    var normDist := dist / MaxLightDist;
    Scaled(1.0 - Square(normDist))
  }

  function Square(n: real): (sq: real)
    ensures sq >= 0.0
  {
    n * n
  }

  /** A positive attenuation times the boost; anything else adds nothing. */
  function Scaled(attenuation: real): (a: real)
    ensures attenuation <= 1.0 ==> 0.0 <= a <= Boost
  {
    if attenuation > 0.0 then attenuation * Boost else 0.0
  }

  /** The fall-off never grows as the light gets farther away. */
  lemma FalloffMonotone(d1: real, d2: real)
    requires 0.0 <= d1 <= d2
    ensures Falloff(d2) <= Falloff(d1)
  {
    var n1, n2 := d1 / MaxLightDist, d2 / MaxLightDist;
    assert 0.0 <= n1 <= n2;
    assert n1 * n1 <= n1 * n2 <= n2 * n2;
    assert Square(n1) <= Square(n2);
  }

  /** A light is blocked when it is farther than the minimum distance and the
      shadow ray hits a cell other than the light's own. */
  function Occluded(grid: array3<byte>, l: LightSource, hit: Vec3, dir: Vec3, dist: real): bool
    requires IsMap(grid)
    reads grid
  {
    dist > ShadowMinDist &&
    var d := Offset(l, hit);
    var c := Cast(grid, ShadowOrigin(hit, dir), Vec3(d.x / dist, d.y / dist, d.z / dist),
                  dist + ShadowOvershoot);
    c.Hit? && c.cell != l
  }

  /** What one light adds to the running sum. */
  function Contribution(grid: array3<byte>, l: LightSource, hit: Vec3, dir: Vec3, sqrtf: real -> real): (c: real)
    requires IsMap(grid)
    reads grid
    ensures 0.0 <= c <= Boost
    ensures LightDistance(l, hit, sqrtf) >= MaxLightDist ==> c == 0.0
  {
    var dist := LightDistance(l, hit, sqrtf);
    if dist < MaxLightDist then
      if Occluded(grid, l, hit, dir, dist) then 0.0 else Falloff(dist)
    else 0.0
  }

  /** A shadow ray that stops on the light's own cell, or on nothing, leaves
      the light visible; one stopped by any other cell blocks it. */
  lemma ShadowRule(grid: array3<byte>, l: LightSource, hit: Vec3, dir: Vec3, sqrtf: real -> real)
    requires IsMap(grid)
    requires ShadowMinDist < LightDistance(l, hit, sqrtf) < MaxLightDist
    ensures var dist := LightDistance(l, hit, sqrtf);
            var d := Offset(l, hit);
            var c := Cast(grid, ShadowOrigin(hit, dir), Vec3(d.x / dist, d.y / dist, d.z / dist),
                          dist + ShadowOvershoot);
            Contribution(grid, l, hit, dir, sqrtf) == if c.Hit? && c.cell != l then 0.0 else Falloff(dist)
  {
  }

  /** The running sum over the lights in table order. */
  function SumContributions(grid: array3<byte>, ls: seq<LightSource>, hit: Vec3, dir: Vec3,
                            sqrtf: real -> real): (s: real)
    requires IsMap(grid)
    reads grid
    ensures 0.0 <= s <= Boost * |ls| as real
  {
    if ls == [] then 0.0
    else SumContributions(grid, ls[..|ls| - 1], hit, dir, sqrtf) +
         Contribution(grid, ls[|ls| - 1], hit, dir, sqrtf)
  }

  /** The light intensity at a surface point: the running sum capped at 1. */
  function Intensity(grid: array3<byte>, ls: seq<LightSource>, hit: Vec3, dir: Vec3,
                     sqrtf: real -> real): (r: real)
    requires IsMap(grid)
    reads grid
    ensures 0.0 <= r <= 1.0
    ensures ls == [] ==> r == 0.0
  {
    var s := SumContributions(grid, ls, hit, dir, sqrtf);
    if s > 1.0 then 1.0 else s
  }

  /** Lights at or beyond the cut-off radius add nothing: with every light
      that far away the surface is pitch black. */
  lemma {:induction false} FarLightsAreDark(grid: array3<byte>, ls: seq<LightSource>, hit: Vec3,
                                            dir: Vec3, sqrtf: real -> real)
    requires IsMap(grid)
    requires forall i :: 0 <= i < |ls| ==> LightDistance(ls[i], hit, sqrtf) >= MaxLightDist
    ensures Intensity(grid, ls, hit, dir, sqrtf) == 0.0
  {
    if ls != [] {
      FarLightsAreDark(grid, ls[..|ls| - 1], hit, dir, sqrtf);
    }
  }
}
