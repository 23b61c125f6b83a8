/** The Chinese zodiac tables of the client: the animal of a birth year, the traits of an animal
    and the element colour an animal is drawn in. */
module Zodiac {
  import opened Wrappers

  /** The twelve animals, in cycle order; 1900 is a year of the Rat. */
  const ZODIAC_ANIMALS: seq<string> :=
    ["Rat", "Ox", "Tiger", "Rabbit", "Dragon", "Snake",
     "Horse", "Goat", "Monkey", "Rooster", "Dog", "Pig"]

  /** The year the cycle is counted from. */
  const ANCHOR_YEAR: int := 1900

  /** The traits of each animal. */
  const ZODIAC_TRAITS: map<string, string> := map[
    "Rat" := "clever and ambitious",
    "Ox" := "stubborn tank",
    "Tiger" := "brave and confident",
    "Rabbit" := "gentle and elegant",
    "Dragon" := "chaotic visionary",
    "Snake" := "sneaky legend",
    "Horse" := "energetic and free-spirited",
    "Goat" := "creative and empathetic",
    "Monkey" := "mischievous genius",
    "Rooster" := "observant and hardworking",
    "Dog" := "loyal and honest",
    "Pig" := "generous and easy-going"
  ]

  /** The traits given to a sign the table does not know. */
  const DEFAULT_TRAITS: string := "mysterious"

  // The colour of each element
  const WOOD: string := "#4CAF50"
  const FIRE: string := "#FF5722"
  const EARTH: string := "#8D6E63"
  const METAL: string := "#9E9E9E"
  const WATER: string := "#2196F3"

  /** The colour given to a sign that is not one of the twelve animals. */
  const DEFAULT_PURPLE: string := "#9C27B0"

  /** JavaScript's `%` on integers: the quotient is truncated toward zero, so the remainder has
      the sign of the dividend (Dafny's own `%` never goes negative). */
  function JsRem(a: int, b: int): (r: int)
    requires b != 0
    ensures a >= 0 ==> 0 <= r < Abs(b)
    ensures a < 0 ==> r <= 0 && 0 < r + Abs(b)
  {
    if a >= 0 then a % Abs(b) else -((-a) % Abs(b))
  }

  function Abs(x: int): nat {
    if x < 0 then -x else x
  }

  /** The position in the cycle computed by `getZodiacSign`: the truncated remainder of the
      distance from 1900, moved up by 12 when it is negative. */
  function AnimalIndex(birthYear: int): nat {
    var index := JsRem(birthYear - ANCHOR_YEAR, 12);
    var positiveIndex := if index < 0 then index + 12 else index;
    positiveIndex
  }

  /** `getZodiacSign(birthYear)`. */
  function GetZodiacSign(birthYear: int): (sign: string)
    ensures sign in ZODIAC_ANIMALS
  {
    assert AnimalIndex(birthYear) < 12;
    ZODIAC_ANIMALS[AnimalIndex(birthYear)]
  }

  /** The fixed-up truncated remainder is the mathematical (Euclidean) residue, for every year,
      before 1900 as well as after. */
  lemma AnimalIndexIsResidue(birthYear: int)
    ensures AnimalIndex(birthYear) == (birthYear - ANCHOR_YEAR) % 12
  {
    var d := birthYear - ANCHOR_YEAR;
    var index := JsRem(d, 12);
    if d < 0 {
      var q := (-d) / 12;
      assert -d == 12 * q + (-d) % 12;
      assert d == 12 * (-q - 1) + (index + 12);
    }
  }

  /** The animal of a year is the one the table lists at the year's residue. */
  lemma GetZodiacSignIsCycle(birthYear: int)
    ensures GetZodiacSign(birthYear) == ZODIAC_ANIMALS[(birthYear - ANCHOR_YEAR) % 12]
  {
    AnimalIndexIsResidue(birthYear);
  }

  /** The two anchor years of the table. */
  lemma AnchorYears()
    ensures GetZodiacSign(1900) == "Rat"
    ensures GetZodiacSign(2000) == "Dragon"
    ensures GetZodiacSign(1899) == "Pig"
  {
    assert AnimalIndex(1900) == 0;
    assert AnimalIndex(2000) == 4;
    assert AnimalIndex(1899) == 11;
  }

  /** The animals repeat every twelve years. */
  lemma ZodiacPeriodic(birthYear: int)
    ensures GetZodiacSign(birthYear + 12) == GetZodiacSign(birthYear)
  {
    var d := birthYear - ANCHOR_YEAR;
    AnimalIndexIsResidue(birthYear);
    AnimalIndexIsResidue(birthYear + 12);
    assert (d + 12) % 12 == d % 12 by {
      assert d + 12 == 12 * (d / 12 + 1) + d % 12;
    }
    assert AnimalIndex(birthYear + 12) == AnimalIndex(birthYear);
  }

  /** The year after a year of some animal belongs to the next animal of the cycle, and the Pig
      is followed by the Rat. */
  lemma ZodiacSuccessor(birthYear: int)
    ensures GetZodiacSign(birthYear + 1) == ZODIAC_ANIMALS[(AnimalIndex(birthYear) + 1) % 12]
  {
    AnimalIndexIsResidue(birthYear);
    AnimalIndexIsResidue(birthYear + 1);
    NextResidue(birthYear - ANCHOR_YEAR);
  }

  /** One step forward moves the residue modulo 12 one step forward, round the cycle. */
  lemma NextResidue(d: int)
    ensures (d + 1) % 12 == (d % 12 + 1) % 12
  {
    var q, r := d / 12, d % 12;
    assert d == 12 * q + r;
    if r < 11 {
      assert d + 1 == 12 * q + (r + 1);
    } else {
      assert d + 1 == 12 * (q + 1);
    }
  }

  /** `getZodiacTraits(sign)`: the table entry when the sign has a non-empty one, otherwise
      `'mysterious'`. The lookup is by own property, which is what the source evidently
      intends; `GetZodiacTraitsAsWritten` models the inherited lookup the source performs. */
  function GetZodiacTraits(sign: string): (traits: string)
    ensures sign in ZODIAC_TRAITS ==> traits == ZODIAC_TRAITS[sign]
    ensures sign !in ZODIAC_TRAITS ==> traits == DEFAULT_TRAITS
  {
    if sign in ZODIAC_TRAITS && ZODIAC_TRAITS[sign] != "" then ZODIAC_TRAITS[sign] else DEFAULT_TRAITS
  }

  /** The traits table has exactly the twelve animals as keys. */
  lemma TraitsCoverAnimals(sign: string)
    ensures sign in ZODIAC_TRAITS <==> sign in ZODIAC_ANIMALS
  {
  }

  /** Every animal a year can have has real traits, never the default. */
  lemma TraitsOfEverySign(birthYear: int)
    ensures GetZodiacTraits(GetZodiacSign(birthYear)) != DEFAULT_TRAITS
  {
    var sign := GetZodiacSign(birthYear);
    TraitsCoverAnimals(sign);
  }

  /** What a property lookup on a JavaScript object literal yields: one of its own string
      values, or a member inherited from `Object.prototype` (a function or an object). */
  datatype PropertyValue = Text(s: string) | Inherited(name: string)

  /** The members every object literal inherits from `Object.prototype`. */
  const OBJECT_PROTOTYPE_MEMBERS: set<string> := {
    "constructor", "hasOwnProperty", "isPrototypeOf", "propertyIsEnumerable",
    "toLocaleString", "toString", "valueOf", "__proto__",
    "__defineGetter__", "__defineSetter__", "__lookupGetter__", "__lookupSetter__"
  }

  /** `table[key]` on an object literal: its own property first, then the prototype chain;
      `undefined` (here `None`) when neither has the key. */
  function LookupProperty(table: map<string, string>, key: string): Option<PropertyValue> {
    if key in table then Some(Text(table[key]))
    else if key in OBJECT_PROTOTYPE_MEMBERS then Some(Inherited(key))
    else None
  }

  /** `getZodiacTraits` exactly as written: `ZODIAC_TRAITS[zodiacSign] || 'mysterious'`, where an
      inherited member is truthy and is returned. */
  function GetZodiacTraitsAsWritten(sign: string): (v: PropertyValue)
    ensures v.Inherited? <==> sign in OBJECT_PROTOTYPE_MEMBERS
  {
    match LookupProperty(ZODIAC_TRAITS, sign)
    case Some(Text(s)) => if s != "" then Text(s) else Text(DEFAULT_TRAITS)
    case Some(Inherited(name)) => Inherited(name)
    case None => Text(DEFAULT_TRAITS)
  }

  /** As written, `getZodiacTraits('constructor')` returns `Object`'s constructor function
      instead of a string. */
  lemma TraitsAsWrittenLeakInheritedMember()
    ensures GetZodiacTraitsAsWritten("constructor") == Inherited("constructor")
    ensures GetZodiacTraits("constructor") == DEFAULT_TRAITS
  {
  }

  /** On every sign that is not an `Object.prototype` member, the source's lookup and the
      corrected one agree. */
  lemma TraitsAsWrittenAgreeElsewhere(sign: string)
    requires sign !in OBJECT_PROTOTYPE_MEMBERS
    ensures GetZodiacTraitsAsWritten(sign) == Text(GetZodiacTraits(sign))
  {
  }

  /** `getZodiacColor(sign)`. */
  function GetZodiacColor(sign: string): string {
    if sign == "Rat" || sign == "Ox" then WATER
    else if sign == "Tiger" || sign == "Rabbit" then WOOD
    else if sign == "Dragon" || sign == "Snake" then FIRE
    else if sign == "Horse" || sign == "Goat" then EARTH
    else if sign == "Monkey" || sign == "Rooster" then METAL
    else if sign == "Dog" || sign == "Pig" then EARTH
    else DEFAULT_PURPLE
  }

  /** The element colours of the six consecutive pairs of animals. */
  const PAIR_COLORS: seq<string> := [WATER, WOOD, FIRE, EARTH, METAL, EARTH]

  /** Consecutive animals share a colour: the animal at position `i` of the cycle has the colour of
      pair `i / 2`. */
  lemma ColorByPair(i: nat)
    requires i < 12
    ensures GetZodiacColor(ZODIAC_ANIMALS[i]) == PAIR_COLORS[i / 2]
  {
  }

  /** The default purple is given exactly to the signs that are not animals. */
  lemma ColorDefaultIff(sign: string)
    ensures GetZodiacColor(sign) == DEFAULT_PURPLE <==> sign !in ZODIAC_ANIMALS
  {
  }

  /** No birth year's animal is drawn in the default purple. */
  lemma NoYearGetsPurple(birthYear: int)
    ensures GetZodiacColor(GetZodiacSign(birthYear)) != DEFAULT_PURPLE
  {
    ColorDefaultIff(GetZodiacSign(birthYear));
  }
}
