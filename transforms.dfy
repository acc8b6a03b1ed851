/** The per-vertex arithmetic of Scale, Translate, Rotate and of the vertex placement
    go/model.go applies when saving. Coordinates are reals; math.Cos and math.Sin of
    each angle are inputs (a `Turn`). */
module Transforms {
  import opened ObjRecords

  /** The cosine and sine of one rotation angle. */
  datatype Turn = Turn(cos: real, sin: real)

  /** A rotation by angle 0. */
  const NoTurn := Turn(1.0, 0.0)

  /** cos² + sin² = 1, as for every real angle. */
  predicate Unit(t: Turn) {
    t.cos * t.cos + t.sin * t.sin == 1.0
  }

  /** The rotation by the opposite angle. */
  function Reverse(t: Turn): Turn {
    Turn(t.cos, -t.sin)
  }

  function Scaled(v: Vertex, sx: real, sy: real, sz: real): Vertex {
    Vertex(v.x * sx, v.y * sy, v.z * sz)
  }

  function Translated(v: Vertex, tx: real, ty: real, tz: real): Vertex {
    Vertex(v.x + tx, v.y + ty, v.z + tz)
  }

  function RotatedX(v: Vertex, t: Turn): Vertex {
    Vertex(v.x, v.y * t.cos - v.z * t.sin, v.y * t.sin + v.z * t.cos)
  }

  function RotatedY(v: Vertex, t: Turn): Vertex {
    Vertex(v.x * t.cos + v.z * t.sin, v.y, -v.x * t.sin + v.z * t.cos)
  }

  function RotatedZ(v: Vertex, t: Turn): Vertex {
    Vertex(v.x * t.cos - v.y * t.sin, v.x * t.sin + v.y * t.cos, v.z)
  }

  /** Rotate: about X, then about Y, then about Z. */
  function Rotated(v: Vertex, rx: Turn, ry: Turn, rz: Turn): Vertex {
    RotatedZ(RotatedY(RotatedX(v, rx), ry), rz)
  }

  /** The position go/model.go's SaveToFile prints: scaled by `scale`, then shifted. */
  function Placed(v: Vertex, scale: real, tx: real, ty: real, tz: real): Vertex {
    Vertex(v.x * scale + tx, v.y * scale + ty, v.z * scale + tz)
  }

  function SquaredLength(v: Vertex): real {
    v.x * v.x + v.y * v.y + v.z * v.z
  }

  // ---------------------------------------------------------------- rotation

  /** A turn in a plane keeps the squared distance from the axis. */
  lemma PlaneTurnLength(a: real, b: real, t: Turn)
    requires Unit(t)
    ensures (a * t.cos - b * t.sin) * (a * t.cos - b * t.sin) + (a * t.sin + b * t.cos) * (a * t.sin + b * t.cos)
         == a * a + b * b
  {
    var c, s := t.cos, t.sin;
    calc {
      (a * c - b * s) * (a * c - b * s) + (a * s + b * c) * (a * s + b * c);
      a * a * (c * c + s * s) + b * b * (c * c + s * s);
      { assert c * c + s * s == 1.0; }
      a * a + b * b;
    }
  }

  /** Rotate keeps every vertex at the same distance from the origin. */
  lemma RotationKeepsLength(v: Vertex, rx: Turn, ry: Turn, rz: Turn)
    requires Unit(rx) && Unit(ry) && Unit(rz)
    ensures SquaredLength(Rotated(v, rx, ry, rz)) == SquaredLength(v)
  {
    var v1 := RotatedX(v, rx);
    PlaneTurnLength(v.y, v.z, rx);
    var v2 := RotatedY(v1, ry);
    PlaneTurnLength(v1.z, v1.x, ry);
    assert v2.x == v1.z * ry.sin + v1.x * ry.cos;
    PlaneTurnLength(v2.x, v2.y, rz);
  }

  /** A turn in a plane is undone by the opposite turn. */
  lemma PlaneTurnBack(a: real, b: real, t: Turn)
    requires Unit(t)
    ensures var a1, b1 := a * t.cos - b * t.sin, a * t.sin + b * t.cos;
      a1 * t.cos + b1 * t.sin == a && -a1 * t.sin + b1 * t.cos == b
  {
    var c, s := t.cos, t.sin;
    var a1, b1 := a * c - b * s, a * s + b * c;
    calc {
      a1 * c + b1 * s;
      a * (c * c + s * s);
      { assert c * c + s * s == 1.0; }
      a;
    }
    calc {
      -a1 * s + b1 * c;
      b * (c * c + s * s);
      { assert c * c + s * s == 1.0; }
      b;
    }
  }

  /** Rotating about one axis and then by the opposite angle restores the vertex. */
  lemma RotateXBack(v: Vertex, t: Turn)
    requires Unit(t)
    ensures RotatedX(RotatedX(v, t), Reverse(t)) == v
  {
    PlaneTurnBack(v.y, v.z, t);
  }

  lemma RotateYBack(v: Vertex, t: Turn)
    requires Unit(t)
    ensures RotatedY(RotatedY(v, t), Reverse(t)) == v
  {
    PlaneTurnBack(v.z, v.x, t);
  }

  lemma RotateZBack(v: Vertex, t: Turn)
    requires Unit(t)
    ensures RotatedZ(RotatedZ(v, t), Reverse(t)) == v
  {
    PlaneTurnBack(v.x, v.y, t);
  }

  /** Rotate is undone by the opposite angles applied about Z, then Y, then X. */
  lemma RotationInverse(v: Vertex, rx: Turn, ry: Turn, rz: Turn)
    requires Unit(rx) && Unit(ry) && Unit(rz)
    ensures RotatedX(RotatedY(RotatedZ(Rotated(v, rx, ry, rz), Reverse(rz)), Reverse(ry)), Reverse(rx)) == v
  {
    RotateZBack(RotatedY(RotatedX(v, rx), ry), rz);
    RotateYBack(RotatedX(v, rx), ry);
    RotateXBack(v, rx);
  }

  /** Rotating by angle 0 about every axis changes nothing. */
  lemma NoRotation(v: Vertex)
    ensures Rotated(v, NoTurn, NoTurn, NoTurn) == v
  {
  }

  // ---------------------------------------------------------------- scale and translate

  /** Translating back by the opposite shift restores the vertex. */
  lemma TranslationInverse(v: Vertex, tx: real, ty: real, tz: real)
    ensures Translated(Translated(v, tx, ty, tz), -tx, -ty, -tz) == v
  {
  }

  /** Two scalings are one scaling by the products. */
  lemma ScalingComposes(v: Vertex, a: Vertex, b: Vertex)
    ensures Scaled(Scaled(v, a.x, a.y, a.z), b.x, b.y, b.z) == Scaled(v, a.x * b.x, a.y * b.y, a.z * b.z)
  {
    assert v.x * a.x * b.x == v.x * (a.x * b.x);
    assert v.y * a.y * b.y == v.y * (a.y * b.y);
    assert v.z * a.z * b.z == v.z * (a.z * b.z);
  }

  /** A vertex reached from `origin` by scalings and translations: each coordinate is
      the original one times a factor, plus an offset. */
  function Affine(origin: Vertex, factor: Vertex, offset: Vertex): Vertex {
    Vertex(origin.x * factor.x + offset.x, origin.y * factor.y + offset.y, origin.z * factor.z + offset.z)
  }

  /** Scaling a vertex of the form origin * factor + offset scales both the factor
      and the offset; project/model.go's Scale scales the vertices and the translation
      accumulators alike. */
  lemma ScaleKeepsOffset(origin: Vertex, factor: Vertex, offset: Vertex, sx: real, sy: real, sz: real)
    ensures Scaled(Affine(origin, factor, offset), sx, sy, sz)
         == Affine(origin, Vertex(factor.x * sx, factor.y * sy, factor.z * sz), Scaled(offset, sx, sy, sz))
  {
    assert (origin.x * factor.x + offset.x) * sx == origin.x * (factor.x * sx) + offset.x * sx;
    assert (origin.y * factor.y + offset.y) * sy == origin.y * (factor.y * sy) + offset.y * sy;
    assert (origin.z * factor.z + offset.z) * sz == origin.z * (factor.z * sz) + offset.z * sz;
  }

  /** ... and its Translate adds the same shift to both. */
  lemma TranslateKeepsOffset(origin: Vertex, factor: Vertex, offset: Vertex, tx: real, ty: real, tz: real)
    ensures Translated(Affine(origin, factor, offset), tx, ty, tz)
         == Affine(origin, factor, Translated(offset, tx, ty, tz))
  {
  }

  /** With scale 1 the placement of go/model.go is the translation of project/model.go. */
  lemma PlacementIsTranslation(v: Vertex, tx: real, ty: real, tz: real)
    ensures Placed(v, 1.0, tx, ty, tz) == Translated(v, tx, ty, tz)
  {
  }

  /** The two variants disagree when a translation is followed by a rotation:
      project/model.go shifts the vertices and then turns them, go/model.go turns the
      vertices and adds the accumulated shift when saving. Turning the origin shifted
      by one along X a quarter turn about Z gives (0, 1, 0) in the first and (1, 0, 0)
      in the second. */
  lemma TranslateThenRotateDiffers()
    ensures var v, quarter := Vertex(0.0, 0.0, 0.0), Turn(0.0, 1.0);
      && Rotated(Translated(v, 1.0, 0.0, 0.0), NoTurn, NoTurn, quarter) == Vertex(0.0, 1.0, 0.0)
      && Placed(Rotated(v, NoTurn, NoTurn, quarter), 1.0, 1.0, 0.0, 0.0) == Vertex(1.0, 0.0, 0.0)
  {
    var v, quarter := Vertex(0.0, 0.0, 0.0), Turn(0.0, 1.0);
    var shifted := Vertex(1.0, 0.0, 0.0);
    NoRotation(shifted);
    assert RotatedY(RotatedX(shifted, NoTurn), NoTurn) == shifted;
    assert RotatedZ(shifted, quarter) == Vertex(0.0, 1.0, 0.0);
    assert RotatedY(RotatedX(v, NoTurn), NoTurn) == v;
    assert RotatedZ(v, quarter) == v;
  }
}
