# Bukkit `Vector` and banner `Pattern`, modelled in Dafny

This project models two value types of the Bukkit plugin API.

- `org.bukkit.util.Vector` is a mutable vector of three doubles. It offers
  component-wise arithmetic, dot and cross products, box and sphere
  containment, rotations, fuzzy equality and a key/value serialized form.
- `org.bukkit.block.banner.Pattern` pairs a dye colour with a pattern type.
  It can be rebuilt from a serialized map. The pattern type is looked up
  first among legacy identifiers and then in a registry.

Modules:

- `Lang` (`lang.dfy`) holds the Java runtime pieces: a nullable reference
  (`Option`), the thrown exceptions (`Exception`), value-or-exception
  (`Result`), and the argument of `equals(Object)` (`Ref`).
- `Serialization` (`serialization.dfy`) is the generic serialized form. A
  `serialize` call yields an ordered list of entries, because
  `Vector.serialize` builds a `LinkedHashMap` and `Pattern.serialize` an
  `ImmutableMap`, and both keep insertion order. A deserializer reads a map.
  `ToMap` puts the entries in order, and a later put replaces an earlier one.
- `Vectors` (`vector.dfy`) models `Vector` as a datatype of three
  mathematical reals. Each mutating method returns its receiver for
  chaining. Here each one is a function from the receiver's old state to its
  new state, and the result stands for the returned receiver. The
  non-mutating twins (`GetMidpoint`, `GetCrossProduct`, `GetMinimum`,
  `GetMaximum`) build a fresh value.
- `BannerPatterns` (`pattern.dfy`) models `Pattern`. It is generic in the
  colour type `C` and the pattern type `P`. The colour and pattern-type
  tables are a `Lookups` parameter.

Modelling choices:

- Sine and cosine are the fields of a `Trig` parameter and are not
  interpreted. A lemma that needs a trigonometric fact takes it as a
  precondition. Examples are `sin^2 + cos^2 = 1`, or cosine 1 and sine 0 for
  a zero angle.
- `rotateAroundAxis` normalizes an axis that is not already a unit vector.
  Normalizing needs a square root, so the caller supplies it as the
  `normalize` parameter.
- A serialized value is a string, a double, an integer or `null`.
  `Vector.deserialize` tells them apart as follows. An absent key reads
  as 0. A present `null` fails when it is unboxed (`NullPointer`). Any other
  non-double fails the cast (`ClassCast`).
- `Vector.equals` keeps its epsilon of 0.000001 and its exact-runtime-class
  check. The runtime class is a string.
- `Pattern.hashCode` is computed with Java's 32-bit `int` wrap-around
  (`Wrap`). Wrapping after every operation gives the same result as wrapping
  once at the end, so `Wrap` is applied once per statement of `Pattern.hashCode`.

## Model

| member | source | states |
|---|---|---|
| Vectors.AddSubtractRoundTrip | BukkitApi/org/bukkit/util/Vector.java:112-134 | `Vectors.Add` and `Vectors.Subtract` model `add` and `subtract` (no ensures of their own); `add` then `subtract` of the same vector restores all three components; so does `subtract` then `add` |
| Vectors.Divide | BukkitApi/org/bukkit/util/Vector.java:162-168 | component-wise quotient; fails (no finite result) exactly when a divisor component is 0; otherwise the quotient multiplied back by the divisor is the receiver |
| Vectors.MultiplyDivideRoundTrip | BukkitApi/org/bukkit/util/Vector.java:146-168 | `Vectors.Multiply` models the vector `multiply` (no ensures of its own); `multiply` then `divide` by the same vector with no zero component restores the receiver |
| Vectors.ScaleIsUniformMultiply | BukkitApi/org/bukkit/util/Vector.java:301-341 | `Vectors.Scale` models the scalar overloads (no ensures of its own); the `int`, `float` and `double` scalar `multiply` overloads equal the component-wise product with the vector (m, m, m) |
| Vectors.ScaleDot | BukkitApi/org/bukkit/util/Vector.java:318-354 | scaling a vector scales its dot product by the same factor |
| Vectors.Copy | BukkitApi/org/bukkit/util/Vector.java:178-184 | after `copy(o)` the vector is exactly `o`, whatever the receiver held before |
| Vectors.Zero | BukkitApi/org/bukkit/util/Vector.java:441-447 | after `zero`, `isZero` holds |
| Vectors.IsZeroIffOrigin | BukkitApi/org/bukkit/util/Vector.java:441-456 | `Vectors.IsZero` models `isZero` (no ensures of its own); `isZero` holds exactly when x, y and z are all 0; `zero` always yields the origin |
| Vectors.LengthSquaredZeroIffIsZero | BukkitApi/org/bukkit/util/Vector.java:211-213 | `lengthSquared` is never negative, and is 0 exactly when `isZero` holds |
| Vectors.SetX | BukkitApi/org/bukkit/util/Vector.java:728-760 | `setX` stores the new x and leaves y and z unchanged |
| Vectors.SetY | BukkitApi/org/bukkit/util/Vector.java:770-802 | `setY` stores the new y and leaves x and z unchanged |
| Vectors.SetZ | BukkitApi/org/bukkit/util/Vector.java:812-844 | `setZ` stores the new z and leaves x and y unchanged |
| Vectors.SetterLaws | BukkitApi/org/bukkit/util/Vector.java:728-844 | setting a component to its own value changes nothing; a second set of a component overrides the first; sets of different components commute |
| Vectors.DotSymmetric | BukkitApi/org/bukkit/util/Vector.java:352-354 | `Vectors.Dot` models `dot` (no ensures of its own); `a.dot(b) == b.dot(a)` |
| Vectors.DotSelfIsLengthSquared | BukkitApi/org/bukkit/util/Vector.java:211-213 | `Vectors.LengthSquared` models `lengthSquared` (no ensures of its own); `v.dot(v)` equals `v.lengthSquared()` |
| Vectors.DistanceSquaredOfDifference | BukkitApi/org/bukkit/util/Vector.java:242-244 | `Vectors.DistanceSquared` models `distanceSquared` (no ensures of its own); `distanceSquared` is the squared length of the difference and is symmetric in its operands |
| Vectors.IsInSphereIffDistance | BukkitApi/org/bukkit/util/Vector.java:500-502 | `isInSphere(o, r)` holds exactly when `distanceSquared(o) <= r*r`, although `isInSphere` squares `o - v` rather than `v - o`; `Vectors.IsInSphere` models `isInSphere` |
| Vectors.CrossProductAgrees | BukkitApi/org/bukkit/util/Vector.java:374-414 | `Vectors.CrossProduct` and `Vectors.GetCrossProduct` model `crossProduct` and `getCrossProduct` (no ensures of their own); the in-place `crossProduct` and `getCrossProduct` yield the same components |
| Vectors.CrossIsOrthogonal | BukkitApi/org/bukkit/util/Vector.java:352-414 | the cross product has zero dot product with both operands |
| Vectors.CrossAnticommutes | BukkitApi/org/bukkit/util/Vector.java:408-414 | swapping the operands negates the cross product; a vector crossed with itself is zero |
| Vectors.CrossLengthSquared | BukkitApi/org/bukkit/util/Vector.java:408-414 | Lagrange's identity: the cross product's squared length is the product of the squared lengths minus the squared dot product |
| Vectors.MidpointAgrees | BukkitApi/org/bukkit/util/Vector.java:268-290 | `Vectors.Midpoint` and `Vectors.GetMidpoint` model `midpoint` and `getMidpoint` (no ensures of their own); `midpoint` and `getMidpoint` yield the same components; twice the midpoint is the sum; the midpoint is equally far from both inputs |
| Vectors.GetMinimum | BukkitApi/org/bukkit/util/Vector.java:1031-1034 | each component is the smaller of the two inputs' components |
| Vectors.GetMaximum | BukkitApi/org/bukkit/util/Vector.java:1047-1050 | each component is the larger of the two inputs' components |
| Vectors.BoundingBoxContains | BukkitApi/org/bukkit/util/Vector.java:487-489 | `Vectors.IsInAABB` models `isInAABB` (no ensures of its own); both inputs and their midpoint satisfy `isInAABB(getMinimum(v1,v2), getMaximum(v1,v2))` |
| Vectors.BoundingBoxIsSmallest | BukkitApi/org/bukkit/util/Vector.java:487-489 | every box holding both inputs also holds their component-wise minimum and maximum |
| Vectors.RotateAroundX | BukkitApi/org/bukkit/util/Vector.java:525-533 | rotation about the x axis leaves x unchanged |
| Vectors.RotateAroundY | BukkitApi/org/bukkit/util/Vector.java:547-555 | rotation about the y axis leaves y unchanged |
| Vectors.RotateAroundZ | BukkitApi/org/bukkit/util/Vector.java:569-577 | rotation about the z axis leaves z unchanged |
| Vectors.RotateAroundNonUnitAxis | BukkitApi/org/bukkit/util/Vector.java:627-649 | a null axis fails with an illegal-argument error, and only a null axis does; a non-null axis gives the arbitrary-axis rotation formula |
| Vectors.RotateAroundAxis | BukkitApi/org/bukkit/util/Vector.java:600-605 | `Vectors.IsNormalized` models `isNormalized` (Vector.java:509-511), used for the choice; a null axis fails with an illegal-argument error; a unit axis is used as given; any other axis is normalized first |
| Vectors.AxisRotationsAgree | BukkitApi/org/bukkit/util/Vector.java:525-649 | `rotateAroundX/Y/Z` equal `rotateAroundNonUnitAxis` about (1,0,0), (0,1,0) and (0,0,1) |
| Vectors.RotationByZero | BukkitApi/org/bukkit/util/Vector.java:525-649 | with cosine 1 and sine 0 every rotation leaves the vector unchanged |
| Vectors.AxisRotationsPreserveLength | BukkitApi/org/bukkit/util/Vector.java:525-577 | when sin^2 + cos^2 = 1 the axis rotations keep `lengthSquared` |
| Vectors.AxisRotationDecomposes | BukkitApi/org/bukkit/util/Vector.java:636-648 | `Vectors.AxisRotation` is the formula of Vector.java:636-648 (no ensures of its own); the rotated vector is the axis scaled by (v . axis)(1 - cos), plus v scaled by cos, plus the cross product axis x v scaled by sin |
| Vectors.AxisRotationAlongAxis | BukkitApi/org/bukkit/util/Vector.java:627-649 | the component along the axis is scaled by \|axis\|^2 (1 - cos) + cos; the sine term contributes nothing to it |
| Vectors.UnitAxisRotationFixesAxis | BukkitApi/org/bukkit/util/Vector.java:627-649 | about a unit axis the component along the axis is kept, and the axis itself is a fixed point |
| Vectors.EqualsReflexiveSymmetric | BukkitApi/org/bukkit/util/Vector.java:858-867 | `Vectors.Equals` models `equals` (no ensures of its own); `equals` is reflexive and symmetric |
| Vectors.EqualsRejects | BukkitApi/org/bukkit/util/Vector.java:858-867 | `equals` is false for null, for non-vectors and for a vector of another runtime class |
| Vectors.EqualsNotTransitive | BukkitApi/org/bukkit/util/Vector.java:42-42 | the epsilon fuzz makes `equals` non-transitive: three vectors exist with u = v and v = w but u != w |
| Vectors.Serialize | BukkitApi/org/bukkit/util/Vector.java:1130-1138 | the serialized form has exactly the keys "x", "y", "z" in that order, each holding a double |
| Vectors.ReadComponent | BukkitApi/org/bukkit/util/Vector.java:1142-1154 | an absent key reads 0; a double reads as itself; a present null fails with a null-pointer error; any other value fails with a cast error |
| Vectors.Deserialize | BukkitApi/org/bukkit/util/Vector.java:1141-1157 | succeeds exactly when each of "x", "y", "z" is absent or a double; the result takes present values and defaults absent ones to 0; the first bad key in x, y, z order decides the error |
| Vectors.SerializeRoundTrip | BukkitApi/org/bukkit/util/Vector.java:1130-1157 | `deserialize(serialize(v))` reproduces v's components |
| Vectors.MissingKeysDefaultToZero | BukkitApi/org/bukkit/util/Vector.java:1142-1156 | a map without any component key deserializes to the origin |
| Vectors.IntegerComponentFailsCast | BukkitApi/org/bukkit/util/Vector.java:1146-1148 | an integer under "x" fails the cast to `Double` |
| Vectors.DeserializeIgnoresOtherKeys | BukkitApi/org/bukkit/util/Vector.java:1141-1157 | two maps that agree on "x", "y" and "z" deserialize alike |
| Serialization.ToMap | BukkitApi/org/bukkit/util/Vector.java:1131-1135 | the map built by putting the entries in order has exactly the entries' keys, and the last entry's value wins |
| Serialization.ToMapHoldsEntry | BukkitApi/org/bukkit/util/Vector.java:1131-1135 | with distinct keys the entry at any one index survives into the map, because no later put has its key |
| Serialization.ToMapHoldsEveryEntry | BukkitApi/org/bukkit/util/Vector.java:1131-1135 | with distinct keys every entry's value survives into the map |
| BannerPatterns.GetString | BukkitApi/org/bukkit/block/banner/Pattern.java:62-68 | returns the mapped value exactly when it is a string; otherwise (absent, null or not a string) fails with a missing-element error naming the key |
| BannerPatterns.FromMap | BukkitApi/org/bukkit/block/banner/Pattern.java:47-60 | on success both keys hold strings, the colour is the colour lookup's answer, and the pattern type comes from the legacy identifiers or, when they have none, from the registry; on failure the error is a missing-element, illegal-argument or null-check error |
| BannerPatterns.ColorReadFirst | BukkitApi/org/bukkit/block/banner/Pattern.java:48-50 | the colour is validated before the pattern key, so a map lacking both fails on "color" |
| BannerPatterns.UnknownColorFailsFirst | BukkitApi/org/bukkit/block/banner/Pattern.java:48-50 | an unknown colour name fails with an illegal-argument error before the pattern key is read |
| BannerPatterns.MissingPatternFails | BukkitApi/org/bukkit/block/banner/Pattern.java:50-50 | with a good colour, a missing or non-string "pattern" fails with a missing-element error |
| BannerPatterns.LegacyIdentifierWins | BukkitApi/org/bukkit/block/banner/Pattern.java:51-59 | `BannerPatterns.ResolvePatternType` models the legacy-then-registry lookup of Pattern.java:51-55 (no ensures of its own); a pattern type found by legacy identifier is the one constructed |
| BannerPatterns.RegistryIgnoredWhenLegacyResolves | BukkitApi/org/bukkit/block/banner/Pattern.java:51-55 | the registry is consulted only when the legacy lookup yields null: with a legacy hit, any registry gives the same outcome |
| BannerPatterns.RegistryFallback | BukkitApi/org/bukkit/block/banner/Pattern.java:53-59 | when the legacy lookup yields null, the registry's pattern type is constructed |
| BannerPatterns.BothLookupsFail | BukkitApi/org/bukkit/block/banner/Pattern.java:53-57 | when both lookups yield null, construction fails with a null-check error naming the value |
| BannerPatterns.FromMapIgnoresOtherKeys | BukkitApi/org/bukkit/block/banner/Pattern.java:47-60 | two maps that agree on "color" and "pattern" construct alike |
| BannerPatterns.Serialize | BukkitApi/org/bukkit/block/banner/Pattern.java:72-77 | a null colour fails with a null-pointer error before the pattern type is looked at, and a null pattern type fails next; otherwise exactly two entries, under the distinct keys "color" and "pattern" in that order, holding the colour's name and the pattern type's key as strings |
| BannerPatterns.RoundTrip | BukkitApi/org/bukkit/block/banner/Pattern.java:47-77 | if both fields have names and the tables map those names back to the colour and pattern type, `serialize` succeeds and the map constructor rebuilds the pattern |
| BannerPatterns.EqualsIffSameClassAndFields | BukkitApi/org/bukkit/block/banner/Pattern.java:113-123 | `BannerPatterns.Equals` models `equals` (no ensures of its own); `equals` holds exactly for an instance of the same runtime class with equal colour and pattern type |
| BannerPatterns.Wrap | BukkitApi/org/bukkit/block/banner/Pattern.java:106-111 | the 32-bit result is congruent to the exact value modulo 2^32 |
| BannerPatterns.HashCode | BukkitApi/org/bukkit/block/banner/Pattern.java:105-111 | the step-by-step 32-bit hash equals the wrapped closed form 97*97*3 + 97*colourHash + patternHash |
| BannerPatterns.WrapMultiplyAdd | BukkitApi/org/bukkit/block/banner/Pattern.java:108-109 | wrapping an intermediate hash does not change the next wrapped hash |
| BannerPatterns.NullFieldsHash | BukkitApi/org/bukkit/block/banner/Pattern.java:105-111 | a pattern whose colour and pattern type hash to 0, as the null branches do, hashes to 28227 |
| BannerPatterns.EqualsImpliesSameHash | BukkitApi/org/bukkit/block/banner/Pattern.java:105-123 | equal patterns have equal `hashCode` |

## Left out

- Floating point: the model uses reals, so NaN, infinities, overflow and
  `-0.0` do not arise. That leaves out `checkFinite`, `normalizeZeros`, and
  the IEEE rounding of every operation.
- `Vectors.Divide`: a zero divisor component gives an infinite or NaN
  component in Java. The model reports `None` in that case instead of a
  vector.
- `length`, `distance`, `normalize`, `angle`: these need a square root or
  an arc cosine. The model has only the squared forms. `rotateAroundAxis`
  takes normalization as a parameter.
- The values of `Math.sin` and `Math.cos` are not modelled. Rotation
  lemmas state the trigonometric facts they need as preconditions.
- `getRandom`: it is nondeterministic.
- `getBlockX/Y/Z`, `toLocation`, `toBlockVector`, the JOML conversions,
  `toString`, `Vector.hashCode` and `clone`: these are conversions to
  foreign types, number formatting or bit-level hashing. `clone` is the
  identity on a value type.
- The constructors of `Vector`: the datatype constructor covers them, since
  `int` and `float` arguments widen exactly to reals.
- `DyeColor`, `PatternType`, `NamespacedKey`, the registry behind
  `Bukkit.getUnsafe()`, and the `hashCode` and `toString` of colours and
  pattern types are not part of this model. They are parameters. An unknown
  colour name is taken to throw an illegal-argument error, as an enum
  `valueOf` does.
- Error detail strings: two are Java's messages. `Vectors.NullAxis` is the
  message of `rotateAroundAxis` and `rotateAroundNonUnitAxis` verbatim, and
  `BannerPatterns.UnknownPatternType` is the null-check message of the map
  constructor with the key filled in. The others only name the offending
  key or value: `NoSuchElement(key)` from `getString`, the
  `"No enum constant " + name` of an unknown colour, the `ClassCast` and
  `NullPointer` details of `Vector.deserialize`, and the `NullPointer`
  details of `Pattern.serialize`.
- `BannerPatterns.RoundTrip`: this holds only under assumptions about the
  unseen tables, which it states as preconditions. `Pattern` itself does
  not promise a round trip.
- `BannerPatterns.HashCode`: the null checks on the two fields are not
  written out as branches. The two-argument constructor stores its
  arguments unchecked, so a pattern with null fields exists. The colour and
  pattern-type hashes are parameters, and instantiating the field types with
  `Option` and giving `None` the hash 0 reproduces the `: 0` branches.
  `BannerPatterns.NullFieldsHash` states the resulting value, 28227.
- Mutation and aliasing: the value model has no aliasing. `crossProduct`,
  the `rotateAround*` methods and `rotateAroundNonUnitAxis` read every
  input before writing the receiver. `add`, `subtract`, `multiply`,
  `divide`, `copy` and `midpoint` write one component before reading the
  next. Each of their statements reads only the same-named component of
  the argument, which has not been written yet. So calls such as
  `v.add(v)` or `v.crossProduct(v)` mean the same as in the model.
- `Chunk` and the event classes: an interface the host server implements,
  and passive data carriers whose dispatch is external.
