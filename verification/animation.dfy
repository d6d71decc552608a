/** AnimateAnimal and its three variants, reduced to what they do to the
    animal's transform: the local positions they write, in order, and the
    rotation they add about the local vertical axis. Random draws and the
    per-frame values (sine offsets, rotation steps) are inputs. */
module Animation {
  import opened Wrappers
  import opened Geometry

  datatype Variant = Vibrate | Bounce | Rotate

  /** The animal's local transform: its position and the degrees it has
      turned about its vertical axis. */
  datatype Transform = Transform(localPosition: Vec3, spin: real)

  /** What one variant does: the positions it writes, in order, and the turn it adds. */
  datatype Effect = Effect(writes: seq<Vec3>, turn: real)

  /** The random and frame-timed inputs of one run: the integer draw behind
      Random.Range(0, 3), the points of Random.insideUnitSphere by step, the
      per-frame vertical offsets of the bounce and the per-frame degrees of the spin. */
  datatype Draws = Draws(typeDraw: nat, sphere: nat -> Vec3, bounceWave: seq<real>, spinSteps: seq<real>)

  const VariantCount: int := 3
  const VibrateSteps: nat := 10
  const JitterRadius: real := 0.1

  /** Random.Range on integers: the upper bound is excluded. */
  function RandomRange(lo: int, hi: int, draw: nat): (r: int)
    requires lo < hi
    ensures lo <= r < hi
  {
    lo + draw % (hi - lo)
  }

  /** Every value of the range can be drawn. */
  lemma RandomRangeReachesAll(lo: int, hi: int, r: int)
    requires lo <= r < hi
    ensures RandomRange(lo, hi, r - lo) == r
  {
  }

  /** The switch of AnimateAnimal: 0 vibrates, 1 bounces, 2 rotates, any
      other value matches no case. */
  function VariantOf(animationType: int): (v: Option<Variant>)
    ensures v.Some? <==> 0 <= animationType < VariantCount
  {
    if animationType == 0 then Some(Vibrate)
    else if animationType == 1 then Some(Bounce)
    else if animationType == 2 then Some(Rotate)
    else None
  }

  /** The position after a sequence of writes: the last write wins. */
  function Replay(start: Vec3, writes: seq<Vec3>): Vec3
    decreases |writes|
  {
    if |writes| == 0 then start else Replay(writes[0], writes[1..])
  }

  lemma {:induction false} ReplayEndsAtLastWrite(start: Vec3, writes: seq<Vec3>)
    ensures |writes| > 0 ==> Replay(start, writes) == writes[|writes| - 1]
    ensures |writes| == 0 ==> Replay(start, writes) == start
    decreases |writes|
  {
    if |writes| > 0 {
      ReplayEndsAtLastWrite(writes[0], writes[1..]);
    }
  }

  function Apply(t: Transform, e: Effect): Transform {
    Transform(Replay(t.localPosition, e.writes), t.spin + e.turn)
  }

  /** The first i iterations of the jitter loop are done; the rest write a
      random point of the sphere, scaled by the jitter radius, around the original. */
  function JitterFrom(original: Vec3, sphere: nat -> Vec3, i: nat): (w: seq<Vec3>)
    requires i <= VibrateSteps
    ensures |w| == VibrateSteps - i
    ensures forall k :: 0 <= k < |w| ==> Sub(w[k], original) == Scale(JitterRadius, sphere(i + k))
    decreases VibrateSteps - i
  {
    if i == VibrateSteps then []
    else
      var p := Add(original, Scale(JitterRadius, sphere(i)));
      assert Sub(p, original) == Scale(JitterRadius, sphere(i));
      [p] + JitterFrom(original, sphere, i + 1)
  }

  /** VibrateAnimal: ten jittered positions, then the original position again. */
  function VibrateAnimal(original: Vec3, sphere: nat -> Vec3): (e: Effect)
    ensures |e.writes| == VibrateSteps + 1
    ensures e.writes[VibrateSteps] == original
    ensures forall k :: 0 <= k < VibrateSteps ==>
      Sub(e.writes[k], original) == Scale(JitterRadius, sphere(k))
    ensures e.turn == 0.0
  {
    Effect(JitterFrom(original, sphere, 0) + [original], 0.0)
  }

  /** BounceAnimal: one write per frame that moves only the vertical coordinate. */
  function BounceAnimal(original: Vec3, wave: seq<real>): (e: Effect)
    ensures |e.writes| == |wave|
    ensures forall k :: 0 <= k < |wave| ==>
      && e.writes[k].x == original.x
      && e.writes[k].z == original.z
      && e.writes[k].y - original.y == wave[k]
    ensures e.turn == 0.0
    decreases |wave|
  {
    if |wave| == 0 then Effect([], 0.0)
    else
      var rest := BounceAnimal(original, wave[1..]);
      Effect([Vec3(original.x, original.y + wave[0], original.z)] + rest.writes, 0.0)
  }

  /** The total of the per-frame rotation steps. */
  function Sum(steps: seq<real>): real
    decreases |steps|
  {
    if |steps| == 0 then 0.0 else steps[0] + Sum(steps[1..])
  }

  /** RotateAnimal: each frame turns the animal by that frame's step and
      never writes its position. */
  function RotateAnimal(steps: seq<real>): (e: Effect)
    ensures e.writes == []
    ensures e.turn == Sum(steps)
    decreases |steps|
  {
    if |steps| == 0 then Effect([], 0.0)
    else
      var rest := RotateAnimal(steps[1..]);
      Effect(rest.writes, steps[0] + rest.turn)
  }

  /** A spin split across two runs of frames turns by the sum of the two turns. */
  lemma {:induction false} RotateTurnsAdd(a: seq<real>, b: seq<real>)
    ensures RotateAnimal(a + b).turn == RotateAnimal(a).turn + RotateAnimal(b).turn
    ensures RotateAnimal(a + b).writes == []
    decreases |a|
  {
    if |a| > 0 {
      assert (a + b)[1..] == a[1..] + b;
      RotateTurnsAdd(a[1..], b);
    } else {
      assert a + b == b;
    }
  }

  /** The effect of the chosen variant; a type outside the switch does nothing. */
  function RunVariant(kind: Option<Variant>, original: Vec3, d: Draws): Effect {
    match kind
    case Some(Vibrate) => VibrateAnimal(original, d.sphere)
    case Some(Bounce) => BounceAnimal(original, d.bounceWave)
    case Some(Rotate) => RotateAnimal(d.spinSteps)
    case None => Effect([], 0.0)
  }

  /** One run of AnimateAnimal: the chosen variant, every position written
      (the variant's, then the restore) and the transform at the end. */
  datatype Run = Run(variant: Option<Variant>, writes: seq<Vec3>, final: Transform)

  /** AnimateAnimal: whichever variant is drawn, the animal ends at the
      position it had before the animation; only the spin variant changes
      its rotation, and that change is kept. */
  function AnimateAnimal(t: Transform, d: Draws): (r: Run)
    ensures r.variant.Some?
    ensures r.final.localPosition == t.localPosition
    ensures Replay(t.localPosition, r.writes) == t.localPosition
    ensures r.final.spin == t.spin + (if r.variant == Some(Rotate) then Sum(d.spinSteps) else 0.0)
  {
    var original := t.localPosition;
    var kind := VariantOf(RandomRange(0, VariantCount, d.typeDraw));
    var effect := RunVariant(kind, original, d);
    var moved := Apply(t, effect);
    var restored := Apply(moved, Effect([original], 0.0));
    ReplayEndsAtLastWrite(t.localPosition, effect.writes + [original]);
    ReplayEndsAtLastWrite(moved.localPosition, [original]);
    Run(kind, effect.writes + [original], restored)
  }

  /** Each of the three variants can be drawn. */
  lemma EveryVariantCanBeDrawn(t: Transform, d: Draws, v: Variant)
    ensures exists draw: nat :: AnimateAnimal(t, d.(typeDraw := draw)).variant == Some(v)
  {
    var draw: nat := match v case Vibrate => 0 case Bounce => 1 case Rotate => 2;
    assert AnimateAnimal(t, d.(typeDraw := draw)).variant == Some(v);
  }

  /** The jitter loop restores the position on its own. */
  lemma {:induction false} VibrateRestoresByItself(start: Vec3, original: Vec3, sphere: nat -> Vec3)
    ensures Replay(start, VibrateAnimal(original, sphere).writes) == original
  {
    ReplayEndsAtLastWrite(start, VibrateAnimal(original, sphere).writes);
  }

  /** Every jittered position lies within the jitter radius of the original,
      as the points drawn lie inside the unit sphere. */
  lemma VibrateStaysNear(original: Vec3, sphere: nat -> Vec3, k: nat)
    requires k < VibrateSteps
    requires Dot(sphere(k), sphere(k)) <= 1.0
    ensures var off := Sub(VibrateAnimal(original, sphere).writes[k], original);
      Dot(off, off) <= JitterRadius * JitterRadius
  {
    var p := sphere(k);
    var off := Scale(JitterRadius, p);
    DotScale(JitterRadius, p, off);
    assert Dot(p, off) == Dot(off, p);
    DotScale(JitterRadius, p, p);
    assert Dot(off, off) == JitterRadius * (JitterRadius * Dot(p, p));
  }

  /** The bounce ends at its last frame's height, which need not be the
      original: whenever the last frame's offset is not zero, the animal
      stays displaced without the dispatcher's restore. */
  lemma BounceAloneMayEndDisplaced(original: Vec3, wave: seq<real>)
    requires |wave| > 0 && wave[|wave| - 1] != 0.0
    ensures Replay(original, BounceAnimal(original, wave).writes) != original
  {
    ReplayEndsAtLastWrite(original, BounceAnimal(original, wave).writes);
  }

  /** The spin leaves the position untouched. */
  lemma RotateKeepsPosition(t: Transform, steps: seq<real>)
    ensures Apply(t, RotateAnimal(steps)).localPosition == t.localPosition
  {
  }
}
