/**
 * The banner pattern value type: a dye colour paired with a pattern type.
 * The colour palette and the pattern-type tables live outside this model, so
 * the type is generic in both and every lookup into them is a parameter.
 */
module BannerPatterns {
  import opened Lang
  import opened Serialization

  const ColorKey: string := "color"
  const PatternKey: string := "pattern"

  /** A pattern of colour `C` and pattern type `P`. The two-argument
      constructor and the getters are the datatype's constructor and fields. */
  datatype Pattern<C, P> = Pattern(color: C, pattern: P)

  /** The lookups the map constructor and `serialize` delegate to the colour
      and pattern-type tables.
      - `legacyColor`: colour by (possibly legacy) name; `None` when the name
        is unknown, where the enum lookup throws an illegal-argument error.
      - `byIdentifier`: pattern type by its short legacy identifier.
      - `registry`: pattern type registered under the namespaced key the
        string parses to.
      - `colorName`, `patternKey`: the strings `serialize` writes; `None`
        when the field is null, where `toString` or `getKey` throws a
        null-pointer error. */
  datatype Lookups<!C, !P> = Lookups(
    legacyColor: string -> Option<C>,
    byIdentifier: string -> Option<P>,
    registry: string -> Option<P>,
    colorName: C -> Option<string>,
    patternKey: P -> Option<string>)

  /** Reads `key` and insists on a string: an absent key, a `null` and a
      value of another type all fail alike. */
  function GetString(m: map<string, Value>, key: string): (r: Result<string>)
    ensures r.Ok? <==> key in m && m[key].StringValue?
    ensures r.Ok? ==> r.value == m[key].s
    ensures r.Err? ==> r.error == NoSuchElement(key)
  {
    if key in m && m[key].StringValue? then Ok(m[key].s) else Err(NoSuchElement(key))
  }

  /** The legacy identifier table first; the registry only when it has no entry. */
  function ResolvePatternType<C, P>(value: string, lookups: Lookups<C, P>): Option<P> {
    match lookups.byIdentifier(value)
    case Some(p) => Some(p)
    case None => lookups.registry(value)
  }

  function UnknownPatternType(value: string): Exception {
    NullPointer("Pattern type for key " + value + " cannot be null")
  }

  /** The deserializing constructor. It reads and resolves the colour, then
      reads the pattern string and resolves it through the legacy identifiers
      and then the registry. */
  function FromMap<C, P>(m: map<string, Value>, lookups: Lookups<C, P>): (r: Result<Pattern<C, P>>)
    ensures r.Ok? ==> ColorKey in m && m[ColorKey].StringValue? && lookups.legacyColor(m[ColorKey].s) == Some(r.value.color)
    ensures r.Ok? ==> PatternKey in m && m[PatternKey].StringValue?
    ensures r.Ok? ==>
      || lookups.byIdentifier(m[PatternKey].s) == Some(r.value.pattern)
      || (lookups.byIdentifier(m[PatternKey].s).None? && lookups.registry(m[PatternKey].s) == Some(r.value.pattern))
    ensures r.Err? ==> r.error.NoSuchElement? || r.error.IllegalArgument? || r.error.NullPointer?
  {
    var colorName :- GetString(m, ColorKey);
    match lookups.legacyColor(colorName)
    case None => Err(IllegalArgument("No enum constant " + colorName))
    case Some(color) =>
      var value :- GetString(m, PatternKey);
      match ResolvePatternType(value, lookups)
      case None => Err(UnknownPatternType(value))
      case Some(patternType) => Ok(Pattern(color, patternType))
  }

  /** `serialize`: exactly two entries, the colour under "color" and the
      pattern type's key under "pattern". The colour's name is taken first,
      so a null colour fails before the pattern type is looked at. */
  function Serialize<C, P>(p: Pattern<C, P>, lookups: Lookups<C, P>): (r: Result<seq<Entry>>)
    ensures r.Ok? <==> lookups.colorName(p.color).Some? && lookups.patternKey(p.pattern).Some?
    ensures lookups.colorName(p.color).None? ==> r == Err(NullPointer(ColorKey))
    ensures lookups.colorName(p.color).Some? && lookups.patternKey(p.pattern).None? ==> r == Err(NullPointer(PatternKey))
    ensures r.Ok? ==> KeysOf(r.value) == [ColorKey, PatternKey] && DistinctKeys(r.value)
    ensures r.Ok? ==> ToMap(r.value).Keys == {ColorKey, PatternKey} && |ToMap(r.value)| == 2
    ensures r.Ok? ==> ToMap(r.value)[ColorKey] == StringValue(lookups.colorName(p.color).value)
    ensures r.Ok? ==> ToMap(r.value)[PatternKey] == StringValue(lookups.patternKey(p.pattern).value)
  {
    match lookups.colorName(p.color)
    case None => Err(NullPointer(ColorKey))
    case Some(name) =>
      match lookups.patternKey(p.pattern)
      case None => Err(NullPointer(PatternKey))
      case Some(key) =>
        var entries := [Entry(ColorKey, StringValue(name)), Entry(PatternKey, StringValue(key))];
        assert ToMap(entries).Keys == {ColorKey, PatternKey} by {
          var keys := KeysOf(entries);
          assert keys == [ColorKey, PatternKey];
          forall k ensures k in ToMap(entries) <==> k in {ColorKey, PatternKey} {
            assert k in keys <==> k == keys[0] || k == keys[1];
          }
        }
        ToMapHoldsEveryEntry(entries);
        Ok(entries)
  }

  /** `equals`: the other object must have the receiver's exact runtime class
      and the same colour and pattern type. */
  predicate Equals<C(==), P(==)>(p: Pattern<C, P>, runtimeClass: string, obj: Ref<Pattern<C, P>>) {
    match obj
    case Instance(c, q) => runtimeClass == c && p.color == q.color && p.pattern == q.pattern
    case _ => false
  }

  // ---------------------------------------------------------------------
  // 32-bit hashing
  // ---------------------------------------------------------------------

  const TwoTo32: int := 0x1_0000_0000

  type Int32 = x: int | -0x8000_0000 <= x < 0x8000_0000

  /** Java's `int` overflow: the value congruent to `x` modulo 2^32. */
  function Wrap(x: int): (r: Int32)
    ensures (r - x) % TwoTo32 == 0
  {
    var u := (x + 0x8000_0000) % TwoTo32;
    assert (u - (x + 0x8000_0000)) % TwoTo32 == 0;
    u - 0x8000_0000
  }

  /** `hashCode`: starting from 3, fold in the colour's and the pattern
      type's hashes with multiplier 97, in 32-bit arithmetic. The two hashes
      come from classes outside the model and are parameters. */
  function HashCode<C, P>(p: Pattern<C, P>, colorHash: C -> Int32, patternHash: P -> Int32): (h: Int32)
    ensures h == Wrap(97 * 97 * 3 + 97 * colorHash(p.color) + patternHash(p.pattern))
  {
    var hash: Int32 := 3;
    var hash1 := Wrap(97 * hash + colorHash(p.color));
    var hash2 := Wrap(97 * hash1 + patternHash(p.pattern));
    WrapMultiplyAdd(97 * hash + colorHash(p.color), 97, patternHash(p.pattern));
    hash2
  }

  /** Wrapping an intermediate result does not change the final wrapped one. */
  lemma WrapMultiplyAdd(a: int, k: int, b: int)
    ensures Wrap(k * Wrap(a) + b) == Wrap(k * a + b)
  {
    var w := Wrap(a);
    var q := (w - a) / TwoTo32;
    assert w - a == q * TwoTo32;
    assert k * w + b == (k * a + b) + (k * q) * TwoTo32;
    WrapShift(k * a + b, k * q);
  }

  lemma WrapShift(x: int, n: int)
    ensures Wrap(x + n * TwoTo32) == Wrap(x)
  {
    var y := x + n * TwoTo32;
    assert (y + 0x8000_0000) % TwoTo32 == (x + 0x8000_0000) % TwoTo32 by {
      ModShift(x + 0x8000_0000, n);
    }
  }

  lemma ModShift(x: int, n: int)
    ensures (x + n * TwoTo32) % TwoTo32 == x % TwoTo32
  {
    var r := x % TwoTo32;
    var q := x / TwoTo32;
    assert x == q * TwoTo32 + r;
    assert x + n * TwoTo32 == (q + n) * TwoTo32 + r;
  }

  // =====================================================================
  // Properties
  // =====================================================================

  /** The colour is read and resolved before the pattern key is looked at:
      a map without a string colour fails on "color" whatever else it holds. */
  lemma ColorReadFirst<C, P>(m: map<string, Value>, lookups: Lookups<C, P>)
    requires ColorKey !in m || !m[ColorKey].StringValue?
    ensures FromMap(m, lookups) == Err(NoSuchElement(ColorKey))
  {
  }

  /** An unknown colour name fails before the pattern key is looked at. */
  lemma UnknownColorFailsFirst<C, P>(m: map<string, Value>, lookups: Lookups<C, P>)
    requires ColorKey in m && m[ColorKey].StringValue?
    requires lookups.legacyColor(m[ColorKey].s).None?
    ensures FromMap(m, lookups) == Err(IllegalArgument("No enum constant " + m[ColorKey].s))
  {
  }

  /** With a good colour, a missing or non-string pattern fails on "pattern". */
  lemma MissingPatternFails<C, P>(m: map<string, Value>, lookups: Lookups<C, P>)
    requires ColorKey in m && m[ColorKey].StringValue? && lookups.legacyColor(m[ColorKey].s).Some?
    requires PatternKey !in m || !m[PatternKey].StringValue?
    ensures FromMap(m, lookups) == Err(NoSuchElement(PatternKey))
  {
  }

  /** A pattern type found by its legacy identifier is taken as it is. */
  lemma LegacyIdentifierWins<C, P>(m: map<string, Value>, lookups: Lookups<C, P>, color: C, p: P)
    requires ColorKey in m && m[ColorKey].StringValue? && lookups.legacyColor(m[ColorKey].s) == Some(color)
    requires PatternKey in m && m[PatternKey].StringValue?
    requires lookups.byIdentifier(m[PatternKey].s) == Some(p)
    ensures FromMap(m, lookups) == Ok(Pattern(color, p))
  {
  }

  /** The registry is consulted only when the legacy identifier is unknown:
      when it is known, no registry can change the outcome. */
  lemma RegistryIgnoredWhenLegacyResolves<C, P>(m: map<string, Value>, lookups: Lookups<C, P>, registry: string -> Option<P>)
    requires PatternKey in m && m[PatternKey].StringValue?
    requires lookups.byIdentifier(m[PatternKey].s).Some?
    ensures FromMap(m, lookups) == FromMap(m, lookups.(registry := registry))
  {
  }

  /** When the legacy identifier is unknown the registry decides. */
  lemma RegistryFallback<C, P>(m: map<string, Value>, lookups: Lookups<C, P>, color: C, p: P)
    requires ColorKey in m && m[ColorKey].StringValue? && lookups.legacyColor(m[ColorKey].s) == Some(color)
    requires PatternKey in m && m[PatternKey].StringValue?
    requires lookups.byIdentifier(m[PatternKey].s).None?
    requires lookups.registry(m[PatternKey].s) == Some(p)
    ensures FromMap(m, lookups) == Ok(Pattern(color, p))
  {
  }

  /** When both lookups fail, construction fails the null check. */
  lemma BothLookupsFail<C, P>(m: map<string, Value>, lookups: Lookups<C, P>)
    requires ColorKey in m && m[ColorKey].StringValue? && lookups.legacyColor(m[ColorKey].s).Some?
    requires PatternKey in m && m[PatternKey].StringValue?
    requires lookups.byIdentifier(m[PatternKey].s).None? && lookups.registry(m[PatternKey].s).None?
    ensures FromMap(m, lookups) == Err(UnknownPatternType(m[PatternKey].s))
  {
  }

  /** Keys other than "color" and "pattern" do not influence construction. */
  lemma FromMapIgnoresOtherKeys<C, P>(m: map<string, Value>, m': map<string, Value>, lookups: Lookups<C, P>)
    requires ColorKey in m <==> ColorKey in m'
    requires ColorKey in m ==> m[ColorKey] == m'[ColorKey]
    requires PatternKey in m <==> PatternKey in m'
    requires PatternKey in m ==> m[PatternKey] == m'[PatternKey]
    ensures FromMap(m, lookups) == FromMap(m', lookups)
  {
  }

  /** The round trip holds exactly when the tables are consistent with the
      names `serialize` writes: the colour name resolves back to the colour,
      and the pattern key resolves back to the pattern type, through the
      legacy identifiers or, when they do not know it, the registry. */
  lemma RoundTrip<C, P>(p: Pattern<C, P>, lookups: Lookups<C, P>)
    requires lookups.colorName(p.color).Some?
    requires lookups.legacyColor(lookups.colorName(p.color).value) == Some(p.color)
    requires lookups.patternKey(p.pattern).Some?
    requires ResolvePatternType(lookups.patternKey(p.pattern).value, lookups) == Some(p.pattern)
    ensures Serialize(p, lookups).Ok?
    ensures FromMap(ToMap(Serialize(p, lookups).value), lookups) == Ok(p)
  {
    var entries := Serialize(p, lookups).value;
    ToMapHoldsEveryEntry(entries);
    assert entries[0].key == ColorKey && entries[1].key == PatternKey;
  }

  /** `equals` holds exactly for an instance of the same runtime class with
      the same colour and pattern type. */
  lemma EqualsIffSameClassAndFields<C, P>(p: Pattern<C, P>, runtimeClass: string, obj: Ref<Pattern<C, P>>)
    ensures Equals(p, runtimeClass, obj) <==> obj == Instance(runtimeClass, p)
  {
  }

  /** A pattern built by the two-argument constructor may hold nulls; a field
      whose hash is 0, as the `: 0` branches give for null, adds nothing. */
  lemma NullFieldsHash<C, P>(p: Pattern<C, P>, colorHash: C -> Int32, patternHash: P -> Int32)
    requires colorHash(p.color) == 0 && patternHash(p.pattern) == 0
    ensures HashCode(p, colorHash, patternHash) == 28227
  {
  }

  /** Equal patterns have equal hash codes. */
  lemma EqualsImpliesSameHash<C, P>(p: Pattern<C, P>, q: Pattern<C, P>, runtimeClass: string, otherClass: string,
                                           colorHash: C -> Int32, patternHash: P -> Int32)
    requires Equals(p, runtimeClass, Instance(otherClass, q))
    ensures HashCode(p, colorHash, patternHash) == HashCode(q, colorHash, patternHash)
  {
  }
}
