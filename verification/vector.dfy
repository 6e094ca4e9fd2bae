/**
 * The mutable three-component vector of the plugin API, modelled as an
 * immutable value of three reals. Every method that mutates its receiver and
 * returns it for chaining becomes a function from the receiver's old state to
 * its new state; the non-mutating twins return a fresh value and so cannot
 * change the receiver at all.
 */
module Vectors {
  import opened Lang
  import opened Serialization

  datatype Vector = Vector(x: real, y: real, z: real)

  const Origin: Vector := Vector(0.0, 0.0, 0.0)

  /** Threshold of the fuzzy `equals` and of `isNormalized`. */
  const Epsilon: real := 0.000001

  /** The runtime class name of a plain vector, as `getClass()` reports it. */
  const VectorClass: string := "org.bukkit.util.Vector"

  /** The sine and cosine the rotations call. They are left uninterpreted:
      a lemma that needs a trigonometric fact states it as a precondition. */
  datatype Trig = Trig(sin: real -> real, cos: real -> real)

  function Square(r: real): real {
    r * r
  }

  function Abs(r: real): real {
    if r < 0.0 then -r else r
  }

  // ---------------------------------------------------------------------
  // Component-wise arithmetic
  // ---------------------------------------------------------------------

  function Add(v: Vector, o: Vector): Vector {
    Vector(v.x + o.x, v.y + o.y, v.z + o.z)
  }

  function Subtract(v: Vector, o: Vector): Vector {
    Vector(v.x - o.x, v.y - o.y, v.z - o.z)
  }

  /** Component-wise product with another vector. */
  function Multiply(v: Vector, o: Vector): Vector {
    Vector(v.x * o.x, v.y * o.y, v.z * o.z)
  }

  /** The `int`, `float` and `double` scalar overloads: all three widen the
      factor to a double, so over the reals they are one operation. */
  function Scale(v: Vector, m: real): Vector {
    Vector(v.x * m, v.y * m, v.z * m)
  }

  /** Component-wise quotient. A zero divisor component makes Java produce an
      infinite or NaN component, which the reals cannot hold: the model
      reports that case as `None`. */
  function Divide(v: Vector, o: Vector): (r: Option<Vector>)
    ensures r.None? <==> o.x == 0.0 || o.y == 0.0 || o.z == 0.0
    ensures r.Some? ==> Multiply(r.value, o) == v
  {
    if o.x == 0.0 || o.y == 0.0 || o.z == 0.0 then None
    else Some(Vector(v.x / o.x, v.y / o.y, v.z / o.z))
  }

  /** `copy` overwrites all three components with the argument's. */
  function Copy(v: Vector, o: Vector): (r: Vector)
    ensures r == o
  {
    v.(x := o.x).(y := o.y).(z := o.z)
  }

  function Zero(v: Vector): (r: Vector)
    ensures IsZero(r)
  {
    v.(x := 0.0).(y := 0.0).(z := 0.0)
  }

  /** The exact, non-fuzzy zero test. */
  predicate IsZero(v: Vector) {
    v.x == 0.0 && v.y == 0.0 && v.z == 0.0
  }

  function SetX(v: Vector, a: real): (r: Vector)
    ensures r.x == a && r.y == v.y && r.z == v.z
  {
    v.(x := a)
  }

  function SetY(v: Vector, a: real): (r: Vector)
    ensures r.y == a && r.x == v.x && r.z == v.z
  {
    v.(y := a)
  }

  function SetZ(v: Vector, a: real): (r: Vector)
    ensures r.z == a && r.x == v.x && r.y == v.y
  {
    v.(z := a)
  }

  // ---------------------------------------------------------------------
  // Products, lengths and distances
  // ---------------------------------------------------------------------

  function Dot(v: Vector, o: Vector): real {
    v.x * o.x + v.y * o.y + v.z * o.z
  }

  function LengthSquared(v: Vector): real {
    Square(v.x) + Square(v.y) + Square(v.z)
  }

  function DistanceSquared(v: Vector, o: Vector): real {
    Square(v.x - o.x) + Square(v.y - o.y) + Square(v.z - o.z)
  }

  /** The in-place cross product: all three new components are computed from
      the old state before any of them is stored. */
  function CrossProduct(v: Vector, o: Vector): Vector {
    var newX := v.y * o.z - o.y * v.z;
    var newY := v.z * o.x - o.z * v.x;
    var newZ := v.x * o.y - o.x * v.y;
    v.(x := newX).(y := newY).(z := newZ)
  }

  /** The cross product as a new vector. */
  function GetCrossProduct(v: Vector, o: Vector): Vector {
    Vector(v.y * o.z - o.y * v.z, v.z * o.x - o.z * v.x, v.x * o.y - o.x * v.y)
  }

  /** The in-place midpoint. */
  function Midpoint(v: Vector, o: Vector): Vector {
    v.(x := (v.x + o.x) / 2.0).(y := (v.y + o.y) / 2.0).(z := (v.z + o.z) / 2.0)
  }

  /** The midpoint as a new vector. */
  function GetMidpoint(v: Vector, o: Vector): Vector {
    Vector((v.x + o.x) / 2.0, (v.y + o.y) / 2.0, (v.z + o.z) / 2.0)
  }

  // ---------------------------------------------------------------------
  // Containment and bounds
  // ---------------------------------------------------------------------

  /** Closed-box containment; `min` and `max` are used as given, not swapped. */
  predicate IsInAABB(v: Vector, min: Vector, max: Vector) {
    v.x >= min.x && v.x <= max.x && v.y >= min.y && v.y <= max.y && v.z >= min.z && v.z <= max.z
  }

  /** Closed-ball containment; `isInSphere` squares `origin - v`, the
      opposite difference to `distanceSquared`. */
  predicate IsInSphere(v: Vector, origin: Vector, radius: real) {
    Square(origin.x - v.x) + Square(origin.y - v.y) + Square(origin.z - v.z) <= Square(radius)
  }

  predicate IsNormalized(v: Vector) {
    Abs(LengthSquared(v) - 1.0) < Epsilon
  }

  function Min(a: real, b: real): real {
    if a <= b then a else b
  }

  function Max(a: real, b: real): real {
    if a >= b then a else b
  }

  /** The component-wise minimum of two vectors. */
  function GetMinimum(v1: Vector, v2: Vector): (r: Vector)
    ensures r.x <= v1.x && r.x <= v2.x && (r.x == v1.x || r.x == v2.x)
    ensures r.y <= v1.y && r.y <= v2.y && (r.y == v1.y || r.y == v2.y)
    ensures r.z <= v1.z && r.z <= v2.z && (r.z == v1.z || r.z == v2.z)
  {
    Vector(Min(v1.x, v2.x), Min(v1.y, v2.y), Min(v1.z, v2.z))
  }

  /** The component-wise maximum of two vectors. */
  function GetMaximum(v1: Vector, v2: Vector): (r: Vector)
    ensures r.x >= v1.x && r.x >= v2.x && (r.x == v1.x || r.x == v2.x)
    ensures r.y >= v1.y && r.y >= v2.y && (r.y == v1.y || r.y == v2.y)
    ensures r.z >= v1.z && r.z >= v2.z && (r.z == v1.z || r.z == v2.z)
  {
    Vector(Max(v1.x, v2.x), Max(v1.y, v2.y), Max(v1.z, v2.z))
  }

  // ---------------------------------------------------------------------
  // Rotations
  // ---------------------------------------------------------------------

  /** Rotation about the x axis by the right-hand rule; x is never written. */
  function RotateAroundX(v: Vector, angle: real, trig: Trig): (r: Vector)
    ensures r.x == v.x
  {
    var c := trig.cos(angle);
    var s := trig.sin(angle);
    var y := c * v.y - s * v.z;
    var z := s * v.y + c * v.z;
    SetZ(SetY(v, y), z)
  }

  /** Rotation about the y axis; y is never written. */
  function RotateAroundY(v: Vector, angle: real, trig: Trig): (r: Vector)
    ensures r.y == v.y
  {
    var c := trig.cos(angle);
    var s := trig.sin(angle);
    var x := c * v.x + s * v.z;
    var z := -s * v.x + c * v.z;
    SetZ(SetX(v, x), z)
  }

  /** Rotation about the z axis; z is never written. */
  function RotateAroundZ(v: Vector, angle: real, trig: Trig): (r: Vector)
    ensures r.z == v.z
  {
    var c := trig.cos(angle);
    var s := trig.sin(angle);
    var x := c * v.x - s * v.y;
    var y := s * v.x + c * v.y;
    SetY(SetX(v, x), y)
  }

  const NullAxis: Exception := IllegalArgument("The provided axis vector was null")

  /** The arbitrary-axis rotation formula with cosine `c` and sine `s`:
      the axis scaled by `(v . axis) (1 - c)`, plus `v` scaled by `c`, plus
      `axis x v` scaled by `s`. */
  function AxisRotation(v: Vector, axis: Vector, c: real, s: real): Vector {
    var d := Dot(v, axis);
    var xPrime := axis.x * d * (1.0 - c) + v.x * c + (-axis.z * v.y + axis.y * v.z) * s;
    var yPrime := axis.y * d * (1.0 - c) + v.y * c + (axis.z * v.x - axis.x * v.z) * s;
    var zPrime := axis.z * d * (1.0 - c) + v.z * c + (-axis.y * v.x + axis.x * v.y) * s;
    SetZ(SetY(SetX(v, xPrime), yPrime), zPrime)
  }

  /** `rotateAroundNonUnitAxis`: rejects a null axis before anything else,
      then rotates about the axis as given (a non-unit axis scales the result). */
  function RotateAroundNonUnitAxis(v: Vector, axis: Option<Vector>, angle: real, trig: Trig): (r: Result<Vector>)
    ensures axis.None? <==> r == Err(NullAxis)
    ensures axis.Some? ==> r == Ok(AxisRotation(v, axis.value, trig.cos(angle), trig.sin(angle)))
  {
    match axis
    case None => Err(NullAxis)
    case Some(a) => Ok(AxisRotation(v, a, trig.cos(angle), trig.sin(angle)))
  }

  /** `rotateAroundAxis`: rejects a null axis, then rotates about the axis,
      first normalizing a copy of it when it is not already a unit vector.
      Normalization needs a square root and is supplied by the caller. */
  function RotateAroundAxis(v: Vector, axis: Option<Vector>, angle: real, trig: Trig, normalize: Vector -> Vector): (r: Result<Vector>)
    ensures axis.None? <==> r == Err(NullAxis)
    ensures axis.Some? && IsNormalized(axis.value) ==> r == RotateAroundNonUnitAxis(v, axis, angle, trig)
    ensures axis.Some? && !IsNormalized(axis.value) ==> r == RotateAroundNonUnitAxis(v, Some(normalize(axis.value)), angle, trig)
  {
    match axis
    case None => Err(NullAxis)
    case Some(a) =>
      RotateAroundNonUnitAxis(v, Some(if IsNormalized(a) then a else normalize(a)), angle, trig)
  }

  // ---------------------------------------------------------------------
  // Equality
  // ---------------------------------------------------------------------

  /** `equals`: the other object must be a vector of the receiver's exact
      runtime class whose components each differ by less than `Epsilon`. */
  predicate Equals(v: Vector, runtimeClass: string, obj: Ref<Vector>) {
    match obj
    case Instance(c, o) =>
      Abs(v.x - o.x) < Epsilon && Abs(v.y - o.y) < Epsilon && Abs(v.z - o.z) < Epsilon && runtimeClass == c
    case _ => false
  }

  // ---------------------------------------------------------------------
  // Serialization
  // ---------------------------------------------------------------------

  const ComponentKeys: seq<string> := ["x", "y", "z"]

  /** `serialize`: the three components under "x", "y" and "z", in that order. */
  function Serialize(v: Vector): (r: seq<Entry>)
    ensures KeysOf(r) == ComponentKeys
    ensures DistinctKeys(r)
    ensures forall i :: 0 <= i < |r| ==> r[i].value.DoubleValue?
  {
    [Entry("x", DoubleValue(v.x)), Entry("y", DoubleValue(v.y)), Entry("z", DoubleValue(v.z))]
  }

  /** A component key that `deserialize` accepts: absent, or holding a double. */
  predicate Readable(m: map<string, Value>, key: string) {
    key !in m || m[key].DoubleValue?
  }

  /** The component value `deserialize` reads for `key`, defaulting to 0. */
  function ComponentOrZero(m: map<string, Value>, key: string): real
    requires Readable(m, key)
  {
    if key in m then m[key].d else 0.0
  }

  /** Reads one component: an absent key gives 0; a present `null` fails when
      unboxed; a present value of another type fails the cast to `Double`. */
  function ReadComponent(m: map<string, Value>, key: string): (r: Result<real>)
    ensures r.Ok? <==> Readable(m, key)
    ensures r.Ok? ==> r.value == ComponentOrZero(m, key)
    ensures r.Err? ==> r.error == (if m[key].NullValue? then NullPointer(key) else ClassCast(key))
  {
    if key !in m then Ok(0.0)
    else match m[key]
      case DoubleValue(d) => Ok(d)
      case NullValue => Err(NullPointer(key))
      case _ => Err(ClassCast(key))
  }

  /** `deserialize`: reads "x", then "y", then "z"; other keys are ignored. */
  function Deserialize(m: map<string, Value>): (r: Result<Vector>)
    ensures r.Ok? <==> Readable(m, "x") && Readable(m, "y") && Readable(m, "z")
    ensures r.Ok? ==> r.value == Vector(ComponentOrZero(m, "x"), ComponentOrZero(m, "y"), ComponentOrZero(m, "z"))
    ensures !Readable(m, "x") ==> r == Err(ReadComponent(m, "x").error)
    ensures Readable(m, "x") && !Readable(m, "y") ==> r == Err(ReadComponent(m, "y").error)
    ensures Readable(m, "x") && Readable(m, "y") && !Readable(m, "z") ==> r == Err(ReadComponent(m, "z").error)
  {
    var x :- ReadComponent(m, "x");
    var y :- ReadComponent(m, "y");
    var z :- ReadComponent(m, "z");
    Ok(Vector(x, y, z))
  }

  // =====================================================================
  // Properties
  // =====================================================================

  /** `add` then `subtract` of the same vector restores the receiver, and so
      does the opposite order. */
  lemma AddSubtractRoundTrip(v: Vector, o: Vector)
    ensures Subtract(Add(v, o), o) == v
    ensures Add(Subtract(v, o), o) == v
  {
  }

  /** Dividing a product by the same divisor restores the receiver. */
  lemma MultiplyDivideRoundTrip(v: Vector, o: Vector)
    requires o.x != 0.0 && o.y != 0.0 && o.z != 0.0
    ensures Divide(Multiply(v, o), o) == Some(v)
  {
    MulDivCancel(v.x, o.x);
    MulDivCancel(v.y, o.y);
    MulDivCancel(v.z, o.z);
    var p := Multiply(v, o);
    assert p.x == v.x * o.x && p.y == v.y * o.y && p.z == v.z * o.z;
    assert p.x / o.x == v.x && p.y / o.y == v.y && p.z / o.z == v.z;
    assert Divide(p, o) == Some(Vector(p.x / o.x, p.y / o.y, p.z / o.z));
  }

  lemma MulDivCancel(a: real, b: real)
    requires b != 0.0
    ensures (a * b) / b == a
  {
    var q := (a * b) / b;
    assert q * b == a * b;
    assert (q - a) * b == 0.0;
  }

  /** The scalar overloads agree with the component-wise product by a
      vector holding the factor three times. */
  lemma ScaleIsUniformMultiply(v: Vector, m: real)
    ensures Scale(v, m) == Multiply(v, Vector(m, m, m))
  {
  }

  lemma ScaleDot(v: Vector, o: Vector, m: real)
    ensures Dot(Scale(v, m), o) == m * Dot(v, o)
  {
  }

  /** `isZero` holds exactly for the origin; `zero` always lands there. */
  lemma IsZeroIffOrigin(v: Vector)
    ensures IsZero(v) <==> v == Origin
    ensures Zero(v) == Origin
  {
  }

  /** A vector has zero squared length exactly when it is zero. */
  lemma LengthSquaredZeroIffIsZero(v: Vector)
    ensures LengthSquared(v) == 0.0 <==> IsZero(v)
    ensures LengthSquared(v) >= 0.0
  {
    SquareNonNegative(v.x);
    SquareNonNegative(v.y);
    SquareNonNegative(v.z);
    if LengthSquared(v) == 0.0 {
      assert Square(v.x) == 0.0 && Square(v.y) == 0.0 && Square(v.z) == 0.0;
      SquareZero(v.x);
      SquareZero(v.y);
      SquareZero(v.z);
    }
  }

  lemma SquareNonNegative(r: real)
    ensures Square(r) >= 0.0
  {
  }

  lemma SquareZero(r: real)
    requires Square(r) == 0.0
    ensures r == 0.0
  {
    if r != 0.0 {
      MulDivCancel(r, r);
    }
  }

  /** Setting a component to its own value changes nothing; a second set of
      the same component overrides the first; sets of different components
      commute. */
  lemma SetterLaws(v: Vector, a: real, b: real)
    ensures SetX(v, v.x) == v && SetY(v, v.y) == v && SetZ(v, v.z) == v
    ensures SetX(SetX(v, a), b) == SetX(v, b)
    ensures SetY(SetY(v, a), b) == SetY(v, b)
    ensures SetZ(SetZ(v, a), b) == SetZ(v, b)
    ensures SetX(SetY(v, a), b) == SetY(SetX(v, b), a)
    ensures SetY(SetZ(v, a), b) == SetZ(SetY(v, b), a)
    ensures SetX(SetZ(v, a), b) == SetZ(SetX(v, b), a)
  {
  }

  lemma DotSymmetric(v: Vector, o: Vector)
    ensures Dot(v, o) == Dot(o, v)
  {
  }

  lemma DotSelfIsLengthSquared(v: Vector)
    ensures Dot(v, v) == LengthSquared(v)
  {
  }

  /** `distanceSquared` is the squared length of the difference, in either order. */
  lemma DistanceSquaredOfDifference(v: Vector, o: Vector)
    ensures DistanceSquared(v, o) == LengthSquared(Subtract(v, o))
    ensures DistanceSquared(v, o) == DistanceSquared(o, v)
  {
    assert Square(v.x - o.x) == Square(o.x - v.x);
    assert Square(v.y - o.y) == Square(o.y - v.y);
    assert Square(v.z - o.z) == Square(o.z - v.z);
  }

  /** A point is in the sphere exactly when its squared distance from the
      centre is at most the squared radius. */
  lemma IsInSphereIffDistance(v: Vector, origin: Vector, radius: real)
    ensures IsInSphere(v, origin, radius) <==> DistanceSquared(v, origin) <= radius * radius
  {
    DistanceSquaredOfDifference(origin, v);
  }

  /** The in-place cross product and its non-mutating twin agree. */
  lemma CrossProductAgrees(v: Vector, o: Vector)
    ensures CrossProduct(v, o) == GetCrossProduct(v, o)
  {
  }

  /** The cross product is orthogonal to both operands. */
  lemma CrossIsOrthogonal(v: Vector, o: Vector)
    ensures Dot(GetCrossProduct(v, o), v) == 0.0
    ensures Dot(GetCrossProduct(v, o), o) == 0.0
  {
  }

  /** Swapping the operands negates the cross product; a vector crossed with
      itself is zero. */
  lemma CrossAnticommutes(v: Vector, o: Vector)
    ensures GetCrossProduct(v, o) == Scale(GetCrossProduct(o, v), -1.0)
    ensures IsZero(GetCrossProduct(v, v))
  {
  }

  /** Lagrange's identity: the squared length of the cross product is the
      product of the squared lengths less the squared dot product. */
  lemma CrossLengthSquared(v: Vector, o: Vector)
    ensures LengthSquared(GetCrossProduct(v, o)) == LengthSquared(v) * LengthSquared(o) - Dot(v, o) * Dot(v, o)
  {
  }

  /** The in-place midpoint and its non-mutating twin agree; the midpoint is
      half of the sum and is equally far from both ends. */
  lemma MidpointAgrees(v: Vector, o: Vector)
    ensures Midpoint(v, o) == GetMidpoint(v, o)
    ensures Scale(GetMidpoint(v, o), 2.0) == Add(v, o)
    ensures DistanceSquared(GetMidpoint(v, o), v) == DistanceSquared(GetMidpoint(v, o), o)
  {
  }

  /** Both inputs, and their midpoint, lie in the box spanned by their
      component-wise minimum and maximum. */
  lemma BoundingBoxContains(v1: Vector, v2: Vector)
    ensures IsInAABB(v1, GetMinimum(v1, v2), GetMaximum(v1, v2))
    ensures IsInAABB(v2, GetMinimum(v1, v2), GetMaximum(v1, v2))
    ensures IsInAABB(GetMidpoint(v1, v2), GetMinimum(v1, v2), GetMaximum(v1, v2))
  {
  }

  /** The box spanned by `getMinimum` and `getMaximum` is the smallest box
      holding both inputs: any box holding both holds it. */
  lemma BoundingBoxIsSmallest(v1: Vector, v2: Vector, min: Vector, max: Vector)
    requires IsInAABB(v1, min, max) && IsInAABB(v2, min, max)
    ensures IsInAABB(GetMinimum(v1, v2), min, max)
    ensures IsInAABB(GetMaximum(v1, v2), min, max)
  {
  }

  /** The axis rotations are the arbitrary-axis rotation about the unit
      axes. */
  lemma AxisRotationsAgree(v: Vector, angle: real, trig: Trig)
    ensures RotateAroundNonUnitAxis(v, Some(Vector(1.0, 0.0, 0.0)), angle, trig) == Ok(RotateAroundX(v, angle, trig))
    ensures RotateAroundNonUnitAxis(v, Some(Vector(0.0, 1.0, 0.0)), angle, trig) == Ok(RotateAroundY(v, angle, trig))
    ensures RotateAroundNonUnitAxis(v, Some(Vector(0.0, 0.0, 1.0)), angle, trig) == Ok(RotateAroundZ(v, angle, trig))
  {
    var c := trig.cos(angle);
    var s := trig.sin(angle);
    RotationAboutUnitX(v, c, s);
    RotationAboutUnitY(v, c, s);
    RotationAboutUnitZ(v, c, s);
    assert RotateAroundX(v, angle, trig) == Vector(v.x, c * v.y - s * v.z, s * v.y + c * v.z);
    assert RotateAroundY(v, angle, trig) == Vector(c * v.x + s * v.z, v.y, -s * v.x + c * v.z);
    assert RotateAroundZ(v, angle, trig) == Vector(c * v.x - s * v.y, s * v.x + c * v.y, v.z);
  }

  lemma RotationAboutUnitX(v: Vector, c: real, s: real)
    ensures AxisRotation(v, Vector(1.0, 0.0, 0.0), c, s) == Vector(v.x, c * v.y - s * v.z, s * v.y + c * v.z)
  {
    var a := Vector(1.0, 0.0, 0.0);
    var d := Dot(v, a);
    assert d == v.x;
    AlongAxisTerm(v.x, c);
    assert a.x * d * (1.0 - c) + v.x * c + (-a.z * v.y + a.y * v.z) * s == v.x;
    assert a.y * d * (1.0 - c) + v.y * c + (a.z * v.x - a.x * v.z) * s == c * v.y - s * v.z;
    assert a.z * d * (1.0 - c) + v.z * c + (-a.y * v.x + a.x * v.y) * s == s * v.y + c * v.z;
  }

  lemma RotationAboutUnitY(v: Vector, c: real, s: real)
    ensures AxisRotation(v, Vector(0.0, 1.0, 0.0), c, s) == Vector(c * v.x + s * v.z, v.y, -s * v.x + c * v.z)
  {
    var a := Vector(0.0, 1.0, 0.0);
    var d := Dot(v, a);
    assert d == v.y;
    AlongAxisTerm(v.y, c);
    assert a.x * d * (1.0 - c) + v.x * c + (-a.z * v.y + a.y * v.z) * s == c * v.x + s * v.z;
    assert a.y * d * (1.0 - c) + v.y * c + (a.z * v.x - a.x * v.z) * s == v.y;
    assert a.z * d * (1.0 - c) + v.z * c + (-a.y * v.x + a.x * v.y) * s == -s * v.x + c * v.z;
  }

  lemma RotationAboutUnitZ(v: Vector, c: real, s: real)
    ensures AxisRotation(v, Vector(0.0, 0.0, 1.0), c, s) == Vector(c * v.x - s * v.y, s * v.x + c * v.y, v.z)
  {
    var a := Vector(0.0, 0.0, 1.0);
    var d := Dot(v, a);
    assert d == v.z;
    AlongAxisTerm(v.z, c);
    assert a.x * d * (1.0 - c) + v.x * c + (-a.z * v.y + a.y * v.z) * s == c * v.x - s * v.y;
    assert a.y * d * (1.0 - c) + v.y * c + (a.z * v.x - a.x * v.z) * s == s * v.x + c * v.y;
    assert a.z * d * (1.0 - c) + v.z * c + (-a.y * v.x + a.x * v.y) * s == v.z;
  }

  /** The along-axis and cosine terms of a component that lies on the axis
      add back up to the component. */
  lemma AlongAxisTerm(a: real, c: real)
    ensures 1.0 * a * (1.0 - c) + a * c == a
  {
  }

  /** With cosine 1 and sine 0 (a rotation by 0) every rotation is the identity. */
  lemma RotationByZero(v: Vector, axis: Vector, angle: real, trig: Trig)
    requires trig.cos(angle) == 1.0 && trig.sin(angle) == 0.0
    ensures RotateAroundX(v, angle, trig) == v
    ensures RotateAroundY(v, angle, trig) == v
    ensures RotateAroundZ(v, angle, trig) == v
    ensures RotateAroundNonUnitAxis(v, Some(axis), angle, trig) == Ok(v)
  {
    var d := Dot(v, axis);
    assert axis.x * d * (1.0 - 1.0) == 0.0 && axis.y * d * (1.0 - 1.0) == 0.0 && axis.z * d * (1.0 - 1.0) == 0.0;
    assert (-axis.z * v.y + axis.y * v.z) * 0.0 == 0.0;
    assert (axis.z * v.x - axis.x * v.z) * 0.0 == 0.0;
    assert (-axis.y * v.x + axis.x * v.y) * 0.0 == 0.0;
  }

  /** With sin^2 + cos^2 = 1 the axis rotations preserve squared length. */
  lemma AxisRotationsPreserveLength(v: Vector, angle: real, trig: Trig)
    requires Square(trig.cos(angle)) + Square(trig.sin(angle)) == 1.0
    ensures LengthSquared(RotateAroundX(v, angle, trig)) == LengthSquared(v)
    ensures LengthSquared(RotateAroundY(v, angle, trig)) == LengthSquared(v)
    ensures LengthSquared(RotateAroundZ(v, angle, trig)) == LengthSquared(v)
  {
    RotationXPreservesLength(v, angle, trig);
    RotationYPreservesLength(v, angle, trig);
    RotationZPreservesLength(v, angle, trig);
  }

  lemma RotationXPreservesLength(v: Vector, angle: real, trig: Trig)
    requires Square(trig.cos(angle)) + Square(trig.sin(angle)) == 1.0
    ensures LengthSquared(RotateAroundX(v, angle, trig)) == LengthSquared(v)
  {
    var c, s := trig.cos(angle), trig.sin(angle);
    assert RotateAroundX(v, angle, trig) == Vector(v.x, c * v.y - s * v.z, s * v.y + c * v.z);
    PlaneRotationPreservesLength(v.y, v.z, c, s);
  }

  lemma RotationYPreservesLength(v: Vector, angle: real, trig: Trig)
    requires Square(trig.cos(angle)) + Square(trig.sin(angle)) == 1.0
    ensures LengthSquared(RotateAroundY(v, angle, trig)) == LengthSquared(v)
  {
    var c, s := trig.cos(angle), trig.sin(angle);
    assert RotateAroundY(v, angle, trig) == Vector(c * v.x + s * v.z, v.y, -s * v.x + c * v.z);
    PlaneRotationPreservesLength(v.z, v.x, c, s);
  }

  lemma RotationZPreservesLength(v: Vector, angle: real, trig: Trig)
    requires Square(trig.cos(angle)) + Square(trig.sin(angle)) == 1.0
    ensures LengthSquared(RotateAroundZ(v, angle, trig)) == LengthSquared(v)
  {
    var c, s := trig.cos(angle), trig.sin(angle);
    assert RotateAroundZ(v, angle, trig) == Vector(c * v.x - s * v.y, s * v.x + c * v.y, v.z);
    PlaneRotationPreservesLength(v.x, v.y, c, s);
  }

  lemma PlaneRotationPreservesLength(a: real, b: real, c: real, s: real)
    requires Square(c) + Square(s) == 1.0
    ensures Square(c * a - s * b) + Square(s * a + c * b) == Square(a) + Square(b)
    ensures Square(c * b + s * a) + Square(-s * b + c * a) == Square(a) + Square(b)
  {
    calc {
      Square(c * a - s * b) + Square(s * a + c * b);
      (Square(c) + Square(s)) * (Square(a) + Square(b));
      Square(a) + Square(b);
    }
  }

  /** Rotating about any axis scales the component along the axis by
      `|axis|^2 (1 - c) + c`: the sine term, `axis x v`, is orthogonal to the
      axis and contributes nothing. */
  lemma AxisRotationAlongAxis(v: Vector, axis: Vector, c: real, s: real)
    ensures Dot(AxisRotation(v, axis, c, s), axis) == Dot(v, axis) * (LengthSquared(axis) * (1.0 - c) + c)
  {
    var k := Dot(v, axis) * (1.0 - c);
    var along := Scale(axis, k);
    var scaled := Scale(v, c);
    var across := Scale(GetCrossProduct(axis, v), s);
    AxisRotationDecomposes(v, axis, c, s);
    DotAdd(Add(along, scaled), across, axis);
    DotAdd(along, scaled, axis);
    ScaleDotSelf(axis, k);
    ScaleDot(v, axis, c);
    CrossDotVanishes(axis, v, s);
  }

  /** The rotation formula as a sum: the part along the axis, the scaled
      vector and the scaled cross product of the axis with the vector. */
  lemma AxisRotationDecomposes(v: Vector, axis: Vector, c: real, s: real)
    ensures AxisRotation(v, axis, c, s)
         == Add(Add(Scale(axis, Dot(v, axis) * (1.0 - c)), Scale(v, c)), Scale(GetCrossProduct(axis, v), s))
  {
    var r := AxisRotation(v, axis, c, s);
    var q := Add(Add(Scale(axis, Dot(v, axis) * (1.0 - c)), Scale(v, c)), Scale(GetCrossProduct(axis, v), s));
    var d := Dot(v, axis);
    var k := d * (1.0 - c);
    RegroupSum(axis.x, d, c, v.x, axis.z, v.y, axis.y, v.z, s);
    RegroupDifference(axis.y, d, c, v.y, axis.z, v.x, axis.x, v.z, s);
    RegroupSum(axis.z, d, c, v.z, axis.y, v.x, axis.x, v.y, s);
    assert r.x == axis.x * d * (1.0 - c) + v.x * c + (-axis.z * v.y + axis.y * v.z) * s;
    assert q.x == axis.x * k + v.x * c + (axis.y * v.z - v.y * axis.z) * s;
    assert r.y == axis.y * d * (1.0 - c) + v.y * c + (axis.z * v.x - axis.x * v.z) * s;
    assert q.y == axis.y * k + v.y * c + (axis.z * v.x - v.z * axis.x) * s;
    assert r.z == axis.z * d * (1.0 - c) + v.z * c + (-axis.y * v.x + axis.x * v.y) * s;
    assert q.z == axis.z * k + v.z * c + (axis.x * v.y - v.x * axis.y) * s;
  }

  /** The x and z components of `AxisRotationDecomposes`, on plain reals. */
  lemma RegroupSum(a: real, d: real, c: real, w: real, p: real, q: real, m: real, n: real, s: real)
    ensures a * d * (1.0 - c) + w * c + (-p * q + m * n) * s == a * (d * (1.0 - c)) + w * c + (m * n - q * p) * s
  {
  }

  /** The y component of `AxisRotationDecomposes`, on plain reals. */
  lemma RegroupDifference(a: real, d: real, c: real, w: real, p: real, q: real, m: real, n: real, s: real)
    ensures a * d * (1.0 - c) + w * c + (p * q - m * n) * s == a * (d * (1.0 - c)) + w * c + (p * q - n * m) * s
  {
  }

  lemma DotAdd(p: Vector, q: Vector, o: Vector)
    ensures Dot(Add(p, q), o) == Dot(p, o) + Dot(q, o)
  {
  }

  lemma ScaleDotSelf(v: Vector, m: real)
    ensures Dot(Scale(v, m), v) == m * LengthSquared(v)
  {
  }

  lemma CrossDotVanishes(v: Vector, o: Vector, m: real)
    ensures Dot(Scale(GetCrossProduct(v, o), m), v) == 0.0
  {
  }

  /** A rotation about a unit axis leaves the component along the axis
      unchanged, and leaves the axis itself fixed. */
  lemma UnitAxisRotationFixesAxis(v: Vector, axis: Vector, angle: real, trig: Trig)
    requires LengthSquared(axis) == 1.0
    ensures Dot(RotateAroundNonUnitAxis(v, Some(axis), angle, trig).value, axis) == Dot(v, axis)
    ensures RotateAroundNonUnitAxis(axis, Some(axis), angle, trig) == Ok(axis)
  {
    var c := trig.cos(angle);
    var s := trig.sin(angle);
    AxisRotationAlongAxis(v, axis, c, s);
    UnitFactor(Dot(v, axis), c);
    UnitAxisIsFixed(axis, c, s);
  }

  lemma UnitFactor(d: real, c: real)
    ensures d * (1.0 * (1.0 - c) + c) == d
  {
  }

  lemma UnitAxisIsFixed(axis: Vector, c: real, s: real)
    requires LengthSquared(axis) == 1.0
    ensures AxisRotation(axis, axis, c, s) == axis
  {
    var d := Dot(axis, axis);
    DotSelfIsLengthSquared(axis);
    assert d == 1.0;
    var r := AxisRotation(axis, axis, c, s);
    assert r.x == axis.x * d * (1.0 - c) + axis.x * c + (-axis.z * axis.y + axis.y * axis.z) * s;
    assert r.y == axis.y * d * (1.0 - c) + axis.y * c + (axis.z * axis.x - axis.x * axis.z) * s;
    assert r.z == axis.z * d * (1.0 - c) + axis.z * c + (-axis.y * axis.x + axis.x * axis.y) * s;
    AlongAxisTerm(axis.x, c);
    AlongAxisTerm(axis.y, c);
    AlongAxisTerm(axis.z, c);
  }

  /** `equals` is reflexive and symmetric. */
  lemma EqualsReflexiveSymmetric(v: Vector, w: Vector, c: string, d: string)
    ensures Equals(v, c, Instance(c, v))
    ensures Equals(v, c, Instance(d, w)) <==> Equals(w, d, Instance(c, v))
  {
  }

  /** `equals` rejects null, non-vectors and vectors of another runtime class. */
  lemma EqualsRejects(v: Vector, w: Vector, c: string, d: string)
    ensures !Equals(v, c, Null) && !Equals(v, c, Unrelated)
    ensures c != d ==> !Equals(v, c, Instance(d, w))
  {
  }

  /** Because of the epsilon fuzz, `equals` is not transitive. */
  lemma EqualsNotTransitive()
    ensures exists u: Vector, v: Vector, w: Vector ::
      Equals(u, VectorClass, Instance(VectorClass, v)) && Equals(v, VectorClass, Instance(VectorClass, w))
      && !Equals(u, VectorClass, Instance(VectorClass, w))
  {
    var u := Origin;
    var v := Vector(Epsilon * 0.75, 0.0, 0.0);
    var w := Vector(Epsilon * 1.5, 0.0, 0.0);
    assert Equals(u, VectorClass, Instance(VectorClass, v));
    assert Equals(v, VectorClass, Instance(VectorClass, w));
    assert !Equals(u, VectorClass, Instance(VectorClass, w));
  }

  /** Deserializing what `serialize` wrote gives back the same components. */
  lemma SerializeRoundTrip(v: Vector)
    ensures Deserialize(ToMap(Serialize(v))) == Ok(v)
  {
    var entries := Serialize(v);
    ToMapHoldsEveryEntry(entries);
    assert ToMap(entries)["x"] == DoubleValue(v.x) by { assert entries[0].key == "x"; }
    assert ToMap(entries)["y"] == DoubleValue(v.y) by { assert entries[1].key == "y"; }
    assert ToMap(entries)["z"] == DoubleValue(v.z) by { assert entries[2].key == "z"; }
  }

  /** Missing keys read as 0; an empty map is the origin. */
  lemma MissingKeysDefaultToZero(m: map<string, Value>)
    requires "x" !in m && "y" !in m && "z" !in m
    ensures Deserialize(m) == Ok(Origin)
  {
  }

  /** An integer component, as a hand-written configuration file may hold,
      is not a double and fails the cast. */
  lemma IntegerComponentFailsCast(m: map<string, Value>, i: int)
    ensures Deserialize(m["x" := IntegerValue(i)]) == Err(ClassCast("x"))
  {
  }

  /** Keys other than "x", "y" and "z" do not influence `deserialize`. */
  lemma DeserializeIgnoresOtherKeys(m: map<string, Value>, m': map<string, Value>)
    requires forall k :: k in ComponentKeys ==> (k in m <==> k in m') && (k in m ==> m[k] == m'[k])
    ensures Deserialize(m) == Deserialize(m')
  {
    assert "x" in ComponentKeys && "y" in ComponentKeys && "z" in ComponentKeys;
  }
}
