/** The recipe service's request canonicalisation: list and filter
    normalisation, the fixed-order key string, the cache key, and the
    prompt handed to the generator. */
module RecipesService {
  import opened Outcomes
  import opened Text
  import opened Ordering
  import opened RecipesDto
  import opened JsonValues
  import opened Hashing

  // ---------------------------------------------------------------------
  // Lists: map(trim/lower), filter(first occurrence), sort
  // ---------------------------------------------------------------------

  /** `xs.map(i => i.trim().toLowerCase())`. */
  function CanonAll(xs: seq<string>): (r: seq<string>)
    ensures |r| == |xs|
    ensures forall k :: 0 <= k < |xs| ==> r[k] == Canon(xs[k])
  {
    seq(|xs|, k requires 0 <= k < |xs| => Canon(xs[k]))
  }

  /** The canonical forms of the elements of a list. */
  function CanonSet(xs: seq<string>): set<string> {
    set x | x in xs :: Canon(x)
  }

  lemma CanonAllElements(xs: seq<string>)
    ensures Elements(CanonAll(xs)) == CanonSet(xs)
  {
    var r := CanonAll(xs);
    forall y | y in Elements(r) ensures y in CanonSet(xs) {
      var k :| 0 <= k < |r| && r[k] == y;
      assert xs[k] in xs;
    }
    forall y | y in CanonSet(xs) ensures y in Elements(r) {
      var x :| x in xs && Canon(x) == y;
      var k :| 0 <= k < |xs| && xs[k] == x;
      assert r[k] == y;
    }
  }

  /** The map/filter/sort chain: the canonical forms of the elements, once
      each, in increasing order. */
  function CanonicalList(xs: seq<string>): (r: seq<string>)
    ensures StrictlySorted(r)
    ensures Elements(r) == CanonSet(xs)
    ensures forall k :: 0 <= k < |r| ==> Canonical(r[k])
  {
    var c := CanonAll(xs);
    var d := Dedupe(c);
    var r := Sort(d);
    CanonAllElements(xs);
    SortDistinctStrictly(d);
    SetOfMultiset(r, d);
    forall k | 0 <= k < |r| ensures Canonical(r[k]) {
      assert r[k] in Elements(r);
      var j :| 0 <= j < |c| && c[j] == r[k];
    }
    r
  }

  /** Two lists whose elements have the same canonical forms (in any order,
      with any repetition, case or surrounding whitespace) canonicalise to
      the same list. */
  lemma CanonicalListDetermined(xs: seq<string>, ys: seq<string>)
    requires CanonSet(xs) == CanonSet(ys)
    ensures CanonicalList(xs) == CanonicalList(ys)
  {
    StrictlySortedUnique(CanonicalList(xs), CanonicalList(ys));
  }

  /** Canonicalising a canonical list changes nothing. */
  lemma CanonicalListIdempotent(xs: seq<string>)
    ensures CanonicalList(CanonicalList(xs)) == CanonicalList(xs)
  {
    var r := CanonicalList(xs);
    CanonSetOfCanonical(r);
    StrictlySortedUnique(CanonicalList(r), r);
  }

  lemma CanonSetOfCanonical(r: seq<string>)
    requires forall k :: 0 <= k < |r| ==> Canonical(r[k])
    ensures CanonSet(r) == Elements(r)
  {
    forall y | y in Elements(r) ensures y in CanonSet(r) {
      var k :| 0 <= k < |r| && r[k] == y;
      CanonOfCanonical(y);
      assert r[k] in r;
    }
    forall y | y in CanonSet(r) ensures y in Elements(r) {
      var x :| x in r && Canon(x) == y;
      var k :| 0 <= k < |r| && r[k] == x;
      CanonOfCanonical(x);
    }
  }

  lemma CanonSetEmpty(xs: seq<string>)
    ensures CanonSet(xs) == {} <==> xs == []
  {
    if xs != [] {
      assert Canon(xs[0]) in CanonSet(xs);
    }
  }

  /** `normalizeIngredients`: the canonical list joined with commas. It is
      the comma-join of what `normalizeFilter` makes of the same array, the
      empty list included. */
  function NormalizeIngredients(xs: seq<string>): (r: string)
    ensures r == Join(",", NormalizeArray(xs))
  {
    CanonSetEmpty(xs);
    ElementsEmpty(CanonicalList(xs));
    Join(",", CanonicalList(xs))
  }

  /** Lists with the same canonical elements give the same ingredient string. */
  lemma NormalizeIngredientsDetermined(xs: seq<string>, ys: seq<string>)
    requires CanonSet(xs) == CanonSet(ys)
    ensures NormalizeIngredients(xs) == NormalizeIngredients(ys)
  {
    CanonicalListDetermined(xs, ys);
  }

  /** What `normalizeFilter` does to an array field: a non-empty array is
      canonicalised, an empty one is left as it is. */
  function NormalizeArray(xs: seq<string>): (r: seq<string>)
    ensures xs == [] ==> r == []
    ensures xs != [] ==> StrictlySorted(r) && Elements(r) == CanonSet(xs)
  {
    if |xs| == 0 then xs else CanonicalList(xs)
  }

  // ---------------------------------------------------------------------
  // Filters
  // ---------------------------------------------------------------------

  /** The keys of a `RecipesInputDto`, in declaration order. */
  datatype Field = Ingredients | Diet | Allergies | MaxMinutes | Cuisine | AllowedMethods | OutputLang

  const FieldOrder: seq<Field> := [Ingredients, Diet, Allergies, MaxMinutes, Cuisine, AllowedMethods, OutputLang]

  /** Whether the object has the key as an own property. */
  predicate HasField(f: RecipesInput, k: Field) {
    match k
    case Ingredients => true
    case Diet => f.diet.Some?
    case Allergies => f.allergies.Some?
    case MaxMinutes => f.maxMinutes.Some?
    case Cuisine => f.cuisine.Some?
    case AllowedMethods => f.allowedMethods.Some?
    case OutputLang => !f.outputLang.Undefined?
  }

  function CanonOption(s: Option<string>): Option<string> {
    match s
    case None => None
    case Some(v) => Some(Canon(v))
  }

  /** `trim().toLowerCase()` applied when the value is a string; `null`
      and `undefined` are kept. */
  function CanonNullable(s: NullableString): NullableString {
    if s.Given? then Given(Canon(s.value)) else s
  }

  function NormalizeArrayOption(xs: Option<seq<string>>): Option<seq<string>> {
    match xs
    case None => None
    case Some(v) => Some(NormalizeArray(v))
  }

  /** The position of a key in `FieldOrder`. */
  function FieldIndex(k: Field): (i: nat)
    ensures i < |FieldOrder| && FieldOrder[i] == k
  {
    match k
    case Ingredients => 0
    case Diet => 1
    case Allergies => 2
    case MaxMinutes => 3
    case Cuisine => 4
    case AllowedMethods => 5
    case OutputLang => 6
  }

  lemma FieldOrderIndex(i: nat)
    requires i < |FieldOrder|
    ensures FieldIndex(FieldOrder[i]) == i
  {
  }

  /** The filter with its first `n` keys (in `FieldOrder`) normalised and
      the rest as given. */
  function NormalizeFields(f: RecipesInput, n: nat): RecipesInput {
    RecipesInput(
      if FieldIndex(Ingredients) < n then NormalizeArray(f.ingredients) else f.ingredients,
      if FieldIndex(Diet) < n then CanonOption(f.diet) else f.diet,
      if FieldIndex(Allergies) < n then NormalizeArrayOption(f.allergies) else f.allergies,
      f.maxMinutes,
      if FieldIndex(Cuisine) < n then CanonOption(f.cuisine) else f.cuisine,
      if FieldIndex(AllowedMethods) < n then NormalizeArrayOption(f.allowedMethods) else f.allowedMethods,
      if FieldIndex(OutputLang) < n then CanonNullable(f.outputLang) else f.outputLang)
  }

  /** The overwrite of one key in the loop body: an array field by its
      canonical list, a string field by its canonical form. */
  function NormalizeField(f: RecipesInput, k: Field): RecipesInput {
    match k
    case Ingredients => f.(ingredients := NormalizeArray(f.ingredients))
    case Diet => f.(diet := CanonOption(f.diet))
    case Allergies => f.(allergies := NormalizeArrayOption(f.allergies))
    case MaxMinutes => f
    case Cuisine => f.(cuisine := CanonOption(f.cuisine))
    case AllowedMethods => f.(allowedMethods := NormalizeArrayOption(f.allowedMethods))
    case OutputLang => f.(outputLang := CanonNullable(f.outputLang))
  }

  /** The canonical filter: the request with every key normalised. */
  function Normalized(f: RecipesInput): RecipesInput {
    NormalizeFields(f, |FieldOrder|)
  }

  /** In the canonical filter every string field is trimmed and lower-cased,
      every non-empty array field is strictly increasing over the canonical
      forms of its elements, an empty array stays empty, `max_minutes` is
      copied and absent fields stay absent. */
  lemma NormalizedCanonical(f: RecipesInput)
    ensures var r := Normalized(f);
      && r.diet == CanonOption(f.diet) && r.cuisine == CanonOption(f.cuisine)
      && r.outputLang == CanonNullable(f.outputLang)
      && r.maxMinutes == f.maxMinutes
      && r.ingredients == NormalizeArray(f.ingredients)
      && (r.allergies.Some? <==> f.allergies.Some?)
      && (r.allowedMethods.Some? <==> f.allowedMethods.Some?)
      && (f.allergies == Some([]) ==> r.allergies == Some([]))
      && (f.allowedMethods == Some([]) ==> r.allowedMethods == Some([]))
      && (f.allergies.Some? && f.allergies.value != [] ==>
            StrictlySorted(r.allergies.value) && Elements(r.allergies.value) == CanonSet(f.allergies.value))
      && (f.allowedMethods.Some? && f.allowedMethods.value != [] ==>
            StrictlySorted(r.allowedMethods.value) && Elements(r.allowedMethods.value) == CanonSet(f.allowedMethods.value))
  {
  }

  /** Normalising the key at the next position extends the normalised
      prefix by one. */
  lemma NormalizeFieldStep(f: RecipesInput, k: Field)
    ensures NormalizeField(NormalizeFields(f, FieldIndex(k)), k) == NormalizeFields(f, FieldIndex(k) + 1)
  {
    match k
    case Ingredients =>
    case Diet =>
    case Allergies =>
    case MaxMinutes =>
    case Cuisine =>
    case AllowedMethods =>
    case OutputLang =>
  }

  /** Overwriting a key the object does not have would change nothing, so
      skipping it keeps the prefix. */
  lemma AbsentFieldUnchanged(c: RecipesInput, k: Field)
    requires !HasField(c, k)
    ensures NormalizeField(c, k) == c
  {
  }

  /** `normalizeFilter`: copies the request, then visits its keys in order
      and overwrites each it has with its normalised value. */
  method NormalizeFilter(input: RecipesInput) returns (normalized: RecipesInput)
    ensures normalized == Normalized(input)
  {
    normalized := input;
    for i := 0 to |FieldOrder|
      invariant normalized == NormalizeFields(input, i)
    {
      var key := FieldOrder[i];
      FieldOrderIndex(i);
      NormalizeFieldStep(input, key);
      if !HasField(normalized, key) {
        AbsentFieldUnchanged(normalized, key);
        continue;
      }
      normalized := NormalizeField(normalized, key);
    }
  }

  lemma CanonOptionIdempotent(s: Option<string>)
    ensures CanonOption(CanonOption(s)) == CanonOption(s)
  {
    if s.Some? {
      CanonIdempotent(s.value);
    }
  }

  lemma CanonNullableIdempotent(s: NullableString)
    ensures CanonNullable(CanonNullable(s)) == CanonNullable(s)
  {
    if s.Given? {
      CanonIdempotent(s.value);
    }
  }

  lemma NormalizeArrayIdempotent(xs: seq<string>)
    ensures NormalizeArray(NormalizeArray(xs)) == NormalizeArray(xs)
  {
    if xs != [] {
      CanonicalListIdempotent(xs);
      CanonSetEmpty(xs);
      assert NormalizeArray(xs) != [] by {
        var y := Canon(xs[0]);
        assert y in CanonSet(xs);
      }
    }
  }

  /** The canonical filter, field by field. */
  lemma NormalizedFields(f: RecipesInput)
    ensures Normalized(f) == RecipesInput(NormalizeArray(f.ingredients), CanonOption(f.diet),
      NormalizeArrayOption(f.allergies), f.maxMinutes, CanonOption(f.cuisine),
      NormalizeArrayOption(f.allowedMethods), CanonNullable(f.outputLang))
  {
  }

  /** Normalising a normalised filter returns it unchanged. */
  lemma NormalizedIdempotent(f: RecipesInput)
    ensures Normalized(Normalized(f)) == Normalized(f)
  {
    NormalizedFields(f);
    NormalizedFields(Normalized(f));
    CanonOptionIdempotent(f.diet);
    CanonOptionIdempotent(f.cuisine);
    CanonNullableIdempotent(f.outputLang);
    NormalizeArrayIdempotent(f.ingredients);
    if f.allergies.Some? {
      NormalizeArrayIdempotent(f.allergies.value);
    }
    if f.allowedMethods.Some? {
      NormalizeArrayIdempotent(f.allowedMethods.value);
    }
  }

  /** Normalisation keeps a valid request valid. */
  lemma NormalizedValid(f: RecipesInput)
    requires ValidInput(f)
    ensures ValidInput(Normalized(f))
  {
  }

  /** Two array fields that mean the same: both absent, or both present with
      the same canonical elements. */
  predicate SameArray(a: Option<seq<string>>, b: Option<seq<string>>) {
    (a.None? && b.None?) || (a.Some? && b.Some? && CanonSet(a.value) == CanonSet(b.value))
  }

  /** Two filters that differ only in the case and surrounding whitespace of
      their strings and in the order, repetition, case and whitespace of
      their array elements. */
  predicate Equivalent(f: RecipesInput, g: RecipesInput) {
    && CanonSet(f.ingredients) == CanonSet(g.ingredients)
    && CanonOption(f.diet) == CanonOption(g.diet)
    && SameArray(f.allergies, g.allergies)
    && f.maxMinutes == g.maxMinutes
    && CanonOption(f.cuisine) == CanonOption(g.cuisine)
    && SameArray(f.allowedMethods, g.allowedMethods)
    && CanonNullable(f.outputLang) == CanonNullable(g.outputLang)
  }

  lemma NormalizeArrayDetermined(xs: seq<string>, ys: seq<string>)
    requires CanonSet(xs) == CanonSet(ys)
    ensures NormalizeArray(xs) == NormalizeArray(ys)
  {
    CanonSetEmpty(xs);
    CanonSetEmpty(ys);
    if xs != [] {
      CanonicalListDetermined(xs, ys);
    }
  }

  /** Equivalent filters normalise to the same filter. */
  lemma EquivalentNormalizeEqual(f: RecipesInput, g: RecipesInput)
    requires Equivalent(f, g)
    ensures Normalized(f) == Normalized(g)
  {
    NormalizeArrayDetermined(f.ingredients, g.ingredients);
    if f.allergies.Some? {
      NormalizeArrayDetermined(f.allergies.value, g.allergies.value);
    }
    if f.allowedMethods.Some? {
      NormalizeArrayDetermined(f.allowedMethods.value, g.allowedMethods.value);
    }
  }

  // ---------------------------------------------------------------------
  // The key string and the cache key
  // ---------------------------------------------------------------------

  /** A string field inside a template literal: an absent one prints as
      `undefined`. */
  function Interpolate(s: Option<string>): string {
    match s
    case None => "undefined"
    case Some(v) => v
  }

  /** `output_lang` inside a template literal: `undefined`, `null` or the
      string itself. */
  function InterpolateNullable(s: NullableString): string {
    match s
    case Undefined => "undefined"
    case Null => "null"
    case Given(v) => v
  }

  /** JavaScript truthiness of an optional string: present and non-empty. */
  predicate Truthy(s: Option<string>) {
    s.Some? && s.value != ""
  }

  /** The `name=value` part appended when its field passes its `if`. */
  function OptionalPart(present: bool, prefix: string, value: string): seq<string> {
    if present then [prefix + value] else []
  }

  /** The parts of the key string, in their fixed order: `recipe:<output_lang>`,
      then `diet`, `allergies`, `max_minutes`, `cuisine`, `allowed_methods`.
      A string or number field takes part when truthy, an array field
      whenever present (an empty array too); arrays are comma-joined. */
  function KeyParts(f: RecipesInput): (r: seq<string>)
    ensures |r| >= 1 && r[0] == "recipe:" + InterpolateNullable(f.outputLang)
  {
    ["recipe:" + InterpolateNullable(f.outputLang)]
    + OptionalPart(Truthy(f.diet), "diet=", Interpolate(f.diet))
    + OptionalPart(f.allergies.Some?, "allergies=", if f.allergies.Some? then Join(",", f.allergies.value) else "")
    + OptionalPart(f.maxMinutes.Some? && f.maxMinutes.value != 0, "max_minutes=",
                   if f.maxMinutes.Some? then IntToString(f.maxMinutes.value) else "")
    + OptionalPart(Truthy(f.cuisine), "cuisine=", Interpolate(f.cuisine))
    + OptionalPart(f.allowedMethods.Some?, "allowed_methods=",
                   if f.allowedMethods.Some? then Join(",", f.allowedMethods.value) else "")
  }

  /** `serializeRecipeFilter`: pushes the parts onto a list, then joins the
      list with `:`. */
  method SerializeRecipeFilter(input: RecipesInput) returns (key: string)
    ensures key == Join(":", KeyParts(input))
  {
    var parts := ["recipe:" + InterpolateNullable(input.outputLang)];
    ghost var before := parts;
    if Truthy(input.diet) {
      parts := parts + ["diet=" + input.diet.value];
    }
    assert parts == before + OptionalPart(Truthy(input.diet), "diet=", Interpolate(input.diet));
    before := parts;
    if input.allergies.Some? {
      parts := parts + ["allergies=" + Join(",", input.allergies.value)];
    }
    assert parts == before + OptionalPart(input.allergies.Some?, "allergies=",
      if input.allergies.Some? then Join(",", input.allergies.value) else "");
    before := parts;
    if input.maxMinutes.Some? && input.maxMinutes.value != 0 {
      parts := parts + ["max_minutes=" + IntToString(input.maxMinutes.value)];
    }
    assert parts == before + OptionalPart(input.maxMinutes.Some? && input.maxMinutes.value != 0, "max_minutes=",
      if input.maxMinutes.Some? then IntToString(input.maxMinutes.value) else "");
    before := parts;
    if Truthy(input.cuisine) {
      parts := parts + ["cuisine=" + input.cuisine.value];
    }
    assert parts == before + OptionalPart(Truthy(input.cuisine), "cuisine=", Interpolate(input.cuisine));
    before := parts;
    if input.allowedMethods.Some? {
      parts := parts + ["allowed_methods=" + Join(",", input.allowedMethods.value)];
    }
    assert parts == before + OptionalPart(input.allowedMethods.Some?, "allowed_methods=",
      if input.allowedMethods.Some? then Join(",", input.allowedMethods.value) else "");
    key := Join(":", parts);
  }

  /** The key string of a filter, as `serializeRecipeFilter` returns it. */
  function SerializedFilter(f: RecipesInput): string {
    Join(":", KeyParts(f))
  }

  /** The key string always starts with `recipe:` followed by the language. */
  lemma SerializedFilterPrefix(f: RecipesInput)
    ensures var p := "recipe:" + InterpolateNullable(f.outputLang);
      |p| <= |SerializedFilter(f)| && SerializedFilter(f)[..|p|] == p
  {
    var parts := KeyParts(f);
    if |parts| > 1 {
      JoinCons(":", parts[0], parts[1..]);
      assert parts == [parts[0]] + parts[1..];
    }
  }

  /** A key segment starts with its field's label. */
  predicate Labelled(p: string, tag: string) {
    |tag| <= |p| && p[..|tag|] == tag
  }

  /** The key string has a segment with this tag. */
  predicate HasSegment(f: RecipesInput, tag: string) {
    exists p :: p in KeyParts(f) && Labelled(p, tag)
  }

  /** Two labels that differ at a position both have: a segment behind one
      does not carry the other. */
  lemma LabelMismatch(tag: string, other: string, v: string, k: nat)
    requires k < |tag| && k < |other| && tag[k] != other[k]
    ensures !Labelled(other + v, tag)
  {
    assert (other + v)[k] == other[k];
  }

  /** Every segment of the key string is the language head or one label
      followed by its value, the label's field passing its `if`. */
  lemma KeyPartsShape(f: RecipesInput)
    ensures forall p :: p in KeyParts(f) ==>
      || p == "recipe:" + InterpolateNullable(f.outputLang)
      || (Truthy(f.diet) && p == "diet=" + (Interpolate(f.diet)))
      || (f.allergies.Some? && p == "allergies=" + (if f.allergies.Some? then Join(",", f.allergies.value) else ""))
      || (f.maxMinutes.Some? && f.maxMinutes.value != 0 && p == "max_minutes=" + (if f.maxMinutes.Some? then IntToString(f.maxMinutes.value) else ""))
      || (Truthy(f.cuisine) && p == "cuisine=" + (Interpolate(f.cuisine)))
      || (f.allowedMethods.Some? && p == "allowed_methods=" + (if f.allowedMethods.Some? then Join(",", f.allowedMethods.value) else ""))
  {
  }

  lemma DietSegment(f: RecipesInput)
    ensures HasSegment(f, "diet=") <==> Truthy(f.diet)
    ensures Truthy(f.diet) ==> "diet=" + f.diet.value in KeyParts(f)
  {
    KeyPartsShape(f);
    forall p | p in KeyParts(f) && Labelled(p, "diet=") ensures Truthy(f.diet) {
      LabelMismatch("diet=", "recipe:", InterpolateNullable(f.outputLang), 0);
      LabelMismatch("diet=", "allergies=", if f.allergies.Some? then Join(",", f.allergies.value) else "", 0);
      LabelMismatch("diet=", "max_minutes=", if f.maxMinutes.Some? then IntToString(f.maxMinutes.value) else "", 0);
      LabelMismatch("diet=", "cuisine=", Interpolate(f.cuisine), 0);
      LabelMismatch("diet=", "allowed_methods=", if f.allowedMethods.Some? then Join(",", f.allowedMethods.value) else "", 0);
    }
    if Truthy(f.diet) {
      assert Labelled("diet=" + f.diet.value, "diet=");
    }
  }

  lemma AllergiesSegment(f: RecipesInput)
    ensures HasSegment(f, "allergies=") <==> f.allergies.Some?
    ensures f.allergies.Some? ==> "allergies=" + Join(",", f.allergies.value) in KeyParts(f)
  {
    KeyPartsShape(f);
    forall p | p in KeyParts(f) && Labelled(p, "allergies=") ensures f.allergies.Some? {
      LabelMismatch("allergies=", "recipe:", InterpolateNullable(f.outputLang), 0);
      LabelMismatch("allergies=", "diet=", Interpolate(f.diet), 0);
      LabelMismatch("allergies=", "max_minutes=", if f.maxMinutes.Some? then IntToString(f.maxMinutes.value) else "", 0);
      LabelMismatch("allergies=", "cuisine=", Interpolate(f.cuisine), 0);
      LabelMismatch("allergies=", "allowed_methods=", if f.allowedMethods.Some? then Join(",", f.allowedMethods.value) else "", 3);
    }
    if f.allergies.Some? {
      assert Labelled("allergies=" + Join(",", f.allergies.value), "allergies=");
    }
  }

  lemma MaxMinutesSegment(f: RecipesInput)
    ensures HasSegment(f, "max_minutes=") <==> f.maxMinutes.Some? && f.maxMinutes.value != 0
    ensures f.maxMinutes.Some? && f.maxMinutes.value != 0 ==> "max_minutes=" + IntToString(f.maxMinutes.value) in KeyParts(f)
  {
    KeyPartsShape(f);
    forall p | p in KeyParts(f) && Labelled(p, "max_minutes=") ensures f.maxMinutes.Some? && f.maxMinutes.value != 0 {
      LabelMismatch("max_minutes=", "recipe:", InterpolateNullable(f.outputLang), 0);
      LabelMismatch("max_minutes=", "diet=", Interpolate(f.diet), 0);
      LabelMismatch("max_minutes=", "allergies=", if f.allergies.Some? then Join(",", f.allergies.value) else "", 0);
      LabelMismatch("max_minutes=", "cuisine=", Interpolate(f.cuisine), 0);
      LabelMismatch("max_minutes=", "allowed_methods=", if f.allowedMethods.Some? then Join(",", f.allowedMethods.value) else "", 0);
    }
    if f.maxMinutes.Some? && f.maxMinutes.value != 0 {
      assert Labelled("max_minutes=" + IntToString(f.maxMinutes.value), "max_minutes=");
    }
  }

  lemma CuisineSegment(f: RecipesInput)
    ensures HasSegment(f, "cuisine=") <==> Truthy(f.cuisine)
    ensures Truthy(f.cuisine) ==> "cuisine=" + f.cuisine.value in KeyParts(f)
  {
    KeyPartsShape(f);
    forall p | p in KeyParts(f) && Labelled(p, "cuisine=") ensures Truthy(f.cuisine) {
      LabelMismatch("cuisine=", "recipe:", InterpolateNullable(f.outputLang), 0);
      LabelMismatch("cuisine=", "diet=", Interpolate(f.diet), 0);
      LabelMismatch("cuisine=", "allergies=", if f.allergies.Some? then Join(",", f.allergies.value) else "", 0);
      LabelMismatch("cuisine=", "max_minutes=", if f.maxMinutes.Some? then IntToString(f.maxMinutes.value) else "", 0);
      LabelMismatch("cuisine=", "allowed_methods=", if f.allowedMethods.Some? then Join(",", f.allowedMethods.value) else "", 0);
    }
    if Truthy(f.cuisine) {
      assert Labelled("cuisine=" + f.cuisine.value, "cuisine=");
    }
  }

  lemma AllowedMethodsSegment(f: RecipesInput)
    ensures HasSegment(f, "allowed_methods=") <==> f.allowedMethods.Some?
    ensures f.allowedMethods.Some? ==> "allowed_methods=" + Join(",", f.allowedMethods.value) in KeyParts(f)
  {
    KeyPartsShape(f);
    forall p | p in KeyParts(f) && Labelled(p, "allowed_methods=") ensures f.allowedMethods.Some? {
      LabelMismatch("allowed_methods=", "recipe:", InterpolateNullable(f.outputLang), 0);
      LabelMismatch("allowed_methods=", "diet=", Interpolate(f.diet), 0);
      LabelMismatch("allowed_methods=", "allergies=", if f.allergies.Some? then Join(",", f.allergies.value) else "", 3);
      LabelMismatch("allowed_methods=", "max_minutes=", if f.maxMinutes.Some? then IntToString(f.maxMinutes.value) else "", 0);
      LabelMismatch("allowed_methods=", "cuisine=", Interpolate(f.cuisine), 0);
    }
    if f.allowedMethods.Some? {
      assert Labelled("allowed_methods=" + Join(",", f.allowedMethods.value), "allowed_methods=");
    }
  }

  /** Segment by segment, the key string carries a field exactly when the
      field passes its `if`: a truthy `diet`, `max_minutes` or `cuisine`, a
      present `allergies` or `allowed_methods` array (an empty one too).
      The segment is then the label followed by the value. */
  lemma KeyPartsJustified(f: RecipesInput)
    ensures HasSegment(f, "diet=") <==> Truthy(f.diet)
    ensures Truthy(f.diet) ==> "diet=" + f.diet.value in KeyParts(f)
    ensures HasSegment(f, "allergies=") <==> f.allergies.Some?
    ensures f.allergies.Some? ==> "allergies=" + Join(",", f.allergies.value) in KeyParts(f)
    ensures HasSegment(f, "max_minutes=") <==> f.maxMinutes.Some? && f.maxMinutes.value != 0
    ensures f.maxMinutes.Some? && f.maxMinutes.value != 0 ==> "max_minutes=" + IntToString(f.maxMinutes.value) in KeyParts(f)
    ensures HasSegment(f, "cuisine=") <==> Truthy(f.cuisine)
    ensures Truthy(f.cuisine) ==> "cuisine=" + f.cuisine.value in KeyParts(f)
    ensures HasSegment(f, "allowed_methods=") <==> f.allowedMethods.Some?
    ensures f.allowedMethods.Some? ==> "allowed_methods=" + Join(",", f.allowedMethods.value) in KeyParts(f)
  {
    DietSegment(f);
    AllergiesSegment(f);
    MaxMinutesSegment(f);
    CuisineSegment(f);
    AllowedMethodsSegment(f);
  }

  /** A `null` and an absent `output_lang` give different key strings:
      `recipe:null` and `recipe:undefined`. */
  lemma NullLangKeyDiffers(f: RecipesInput)
    ensures SerializedFilter(f.(outputLang := Null)) != SerializedFilter(f.(outputLang := Undefined))
  {
    var a, b := f.(outputLang := Null), f.(outputLang := Undefined);
    SerializedFilterPrefix(a);
    SerializedFilterPrefix(b);
    assert SerializedFilter(a)[7] == ("recipe:" + "null")[7] == 'n';
    assert SerializedFilter(b)[7] == ("recipe:" + "undefined")[7] == 'u';
  }

  /** With every optional field set, the key string lists all six parts in
      their fixed order. */
  lemma SerializedFullFilter(f: RecipesInput)
    requires Truthy(f.diet) && f.allergies.Some? && f.maxMinutes.Some? && f.maxMinutes.value != 0
    requires Truthy(f.cuisine) && f.allowedMethods.Some?
    ensures SerializedFilter(f) ==
      ("recipe:" + InterpolateNullable(f.outputLang)) + ":" +
      (("diet=" + f.diet.value) + ":" +
      (("allergies=" + Join(",", f.allergies.value)) + ":" +
      (("max_minutes=" + IntToString(f.maxMinutes.value)) + ":" +
      (("cuisine=" + f.cuisine.value) + ":" +
      ("allowed_methods=" + Join(",", f.allowedMethods.value))))))
  {
    var a0 := "recipe:" + InterpolateNullable(f.outputLang);
    var a1 := "diet=" + f.diet.value;
    var a2 := "allergies=" + Join(",", f.allergies.value);
    var a3 := "max_minutes=" + IntToString(f.maxMinutes.value);
    var a4 := "cuisine=" + f.cuisine.value;
    var a5 := "allowed_methods=" + Join(",", f.allowedMethods.value);
    assert KeyParts(f) == [a0, a1, a2, a3, a4, a5];
    JoinCons(":", a4, [a5]);
    JoinCons(":", a3, [a4, a5]);
    JoinCons(":", a2, [a3, a4, a5]);
    JoinCons(":", a1, [a2, a3, a4, a5]);
    JoinCons(":", a0, [a1, a2, a3, a4, a5]);
  }

  /** With no optional field taking part, the key string is `recipe:` and
      the language alone. */
  lemma SerializedBareFilter(f: RecipesInput)
    requires !Truthy(f.diet) && f.allergies.None? && (f.maxMinutes.None? || f.maxMinutes.value == 0)
    requires !Truthy(f.cuisine) && f.allowedMethods.None?
    ensures SerializedFilter(f) == "recipe:" + InterpolateNullable(f.outputLang)
  {
    assert KeyParts(f) == ["recipe:" + InterpolateNullable(f.outputLang)];
  }

  /** `ingredients` never enters the key string. */
  lemma SerializedFilterIgnoresIngredients(f: RecipesInput, xs: seq<string>)
    ensures SerializedFilter(f.(ingredients := xs)) == SerializedFilter(f)
  {
  }

  /** A present but empty array still yields its segment, with nothing
      after the `=`. */
  lemma EmptyAllergiesPart(f: RecipesInput)
    requires f.allergies == Some([])
    ensures "allergies=" in KeyParts(f)
  {
    var i := if Truthy(f.diet) then 2 else 1;
    assert KeyParts(f)[i] == "allergies=";
  }

  /** `generateRedisKey`: the hex SHA-256 digest of the key string. The key
      is 64 hexadecimal digits and does not depend on `ingredients`. */
  function RecipeKey(hash: string -> Digest, f: RecipesInput): (k: string)
    ensures IsHexDigest(k)
    ensures k == hash(SerializedFilter(f.(ingredients := [])))
  {
    hash(SerializedFilter(f))
  }

  /** Equivalent requests get the same cache key once normalised. */
  lemma EquivalentFiltersShareKey(hash: string -> Digest, f: RecipesInput, g: RecipesInput)
    requires Equivalent(f, g)
    ensures RecipeKey(hash, Normalized(f)) == RecipeKey(hash, Normalized(g))
  {
    EquivalentNormalizeEqual(f, g);
  }

  /** The key string is not injective: a `:` inside a value can imitate a
      later part, so two different canonical filters share a key (the diet
      `d:cuisine=c` alone, and the diet `d` with the cuisine `c`). */
  lemma SerializedFilterAmbiguous(d: string, c: string)
    requires Canonical(d) && Canonical(c) && d != "" && c != ""
    ensures var f := RecipesInput([], Some(d + ":cuisine=" + c), None, None, None, None, Undefined);
            var g := RecipesInput([], Some(d), None, None, Some(c), None, Undefined);
            f != g && Normalized(f) == f && Normalized(g) == g && SerializedFilter(f) == SerializedFilter(g)
  {
    CanonicalSplice(d, ":cuisine=", c);
    CanonicalFilter(RecipesInput([], Some(d + ":cuisine=" + c), None, None, None, None, Undefined));
    CanonicalFilter(RecipesInput([], Some(d), None, None, Some(c), None, Undefined));
    DietImitatesCuisine(d, c);
  }

  /** Lower-case text between two non-empty canonical strings keeps the
      whole canonical. */
  lemma CanonicalSplice(d: string, m: string, c: string)
    requires Canonical(d) && Canonical(c) && d != "" && c != "" && IsLower(m)
    ensures Canonical(d + m + c)
  {
    var s := d + m + c;
    assert s[0] == d[0] && s[|s| - 1] == c[|c| - 1];
    forall k | 0 <= k < |s|
      ensures !('A' <= s[k] <= 'Z')
    {
      if k < |d| {
        assert s[k] == d[k];
      } else if k < |d| + |m| {
        assert s[k] == m[k - |d|];
      } else {
        assert s[k] == c[k - |d| - |m|];
      }
    }
  }

  /** A filter with no arrays and canonical string fields is its own
      normal form. */
  lemma CanonicalFilter(f: RecipesInput)
    requires f.ingredients == [] && f.allergies.None? && f.allowedMethods.None?
    requires f.diet.Some? ==> Canonical(f.diet.value)
    requires f.cuisine.Some? ==> Canonical(f.cuisine.value)
    requires f.outputLang.Given? ==> Canonical(f.outputLang.value)
    ensures Normalized(f) == f
  {
    if f.diet.Some? {
      CanonOfCanonical(f.diet.value);
    }
    if f.cuisine.Some? {
      CanonOfCanonical(f.cuisine.value);
    }
    if f.outputLang.Given? {
      CanonOfCanonical(f.outputLang.value);
    }
  }

  /** A diet value `d:cuisine=c` gives the same key string as the diet `d`
      together with the cuisine `c`. */
  lemma DietImitatesCuisine(d: string, c: string)
    requires d != "" && c != ""
    ensures var f := RecipesInput([], Some(d + ":cuisine=" + c), None, None, None, None, Undefined);
            var g := RecipesInput([], Some(d), None, None, Some(c), None, Undefined);
            SerializedFilter(f) == SerializedFilter(g)
  {
    var f := RecipesInput([], Some(d + ":cuisine=" + c), None, None, None, None, Undefined);
    var g := RecipesInput([], Some(d), None, None, Some(c), None, Undefined);
    var head, p, q := "recipe:" + "undefined", "diet=" + d, "cuisine=" + c;
    assert KeyParts(f) == [head, "diet=" + (d + ":cuisine=" + c)];
    assert KeyParts(g) == [head, p, q];
    JoinCons(":", p, [q]);
    JoinCons(":", head, [p, q]);
    JoinCons(":", head, ["diet=" + (d + ":cuisine=" + c)]);
    assert "diet=" + (d + ":cuisine=" + c) == p + ":" + q;
  }

  // ---------------------------------------------------------------------
  // The generation prompt
  // ---------------------------------------------------------------------

  const DefaultMaxRecipes: nat := 5

  /** The indentation the template literal carries on its continuation lines. */
  const Indent: string := "            "

  /** The fixed opening of the task prompt, up to the output language; it
      names the recipe count. */
  const PreambleHead: string :=
    "Goal: Generate exactly " + IntToString(DefaultMaxRecipes) + " recipes.\n"
    + Indent + "Each step must be clear and actionable, 2\U{2013}3 short sentences if needed.\n"
    + Indent + "List all necessary ingredients.\n"
    + Indent + "Max 2 substitutions.\n"
    + Indent + "ALL fields (title, steps, reasons, method, difficulty, substitutions, ingredients) MUST be in "

  function TaskPreamble(outputLang: NullableString): string {
    PreambleHead + InterpolateNullable(outputLang) + ".\n" + Indent
  }

  /** One sentence appended to the task prompt. */
  datatype Clause =
    | IngredientsClause(items: seq<string>)
    | DietClause(diet: string)
    | AllergiesClause(items: seq<string>)
    | TimeClause(minutes: int)
    | CuisineClause(style: string)
    | MethodsClause(items: seq<string>)

  /** The position of a sentence kind in the fixed order. */
  function ClauseRank(c: Clause): nat {
    match c
    case IngredientsClause(_) => 0
    case DietClause(_) => 1
    case AllergiesClause(_) => 2
    case TimeClause(_) => 3
    case CuisineClause(_) => 4
    case MethodsClause(_) => 5
  }

  /** A sentence belongs in the prompt for `f` when it carries the field's
      value and the field passes its `if`: the ingredient list always (the
      array is required, so always truthy), diet, time and cuisine when
      truthy, allergies and methods when non-empty. */
  predicate Justified(f: RecipesInput, c: Clause) {
    match c
    case IngredientsClause(xs) => xs == f.ingredients
    case DietClause(d) => f.diet == Some(d) && d != ""
    case AllergiesClause(xs) => f.allergies == Some(xs) && xs != []
    case TimeClause(n) => f.maxMinutes == Some(n) && n != 0
    case CuisineClause(s) => f.cuisine == Some(s) && s != ""
    case MethodsClause(xs) => f.allowedMethods == Some(xs) && xs != []
  }

  /** The openings of the sentences, and the end of the time sentence. */
  const IngredientsLead: string := " Ingredients available: "
  const DietLead: string := " Diet constraint: "
  const AllergiesLead: string := " Allergies to avoid: "
  const TimeLead: string := " Max cooking time: "
  const CuisineLead: string := " Cuisine style: "
  const MethodsLead: string := " Allowed cooking methods: "
  const MinutesEnd: string := " minutes."

  function RenderClause(c: Clause): string {
    match c
    case IngredientsClause(xs) => IngredientsLead + Join(", ", xs) + "."
    case DietClause(d) => DietLead + d + "."
    case AllergiesClause(xs) => AllergiesLead + Join(", ", xs) + "."
    case TimeClause(n) => TimeLead + IntToString(n) + MinutesEnd
    case CuisineClause(s) => CuisineLead + s + "."
    case MethodsClause(xs) => MethodsLead + Join(", ", xs) + "."
  }

  /** The sentences appear in strictly increasing rank. */
  predicate InRankOrder(cs: seq<Clause>) {
    forall i, j :: 0 <= i < j < |cs| ==> ClauseRank(cs[i]) < ClauseRank(cs[j])
  }

  lemma AppendInRankOrder(a: seq<Clause>, b: seq<Clause>, n: nat)
    requires InRankOrder(a) && |b| <= 1
    requires forall i :: 0 <= i < |a| ==> ClauseRank(a[i]) < n
    requires forall i :: 0 <= i < |b| ==> ClauseRank(b[i]) == n
    ensures InRankOrder(a + b)
    ensures forall i :: 0 <= i < |a + b| ==> ClauseRank((a + b)[i]) < n + 1
  {
  }

  function OptionalClause(present: bool, c: Clause): seq<Clause> {
    if present then [c] else []
  }

  /** The sentences of the task prompt: exactly the justified ones, in the
      fixed order ingredients, diet, allergies, time, cuisine, methods. */
  function PromptClauses(f: RecipesInput): (r: seq<Clause>)
    ensures |r| >= 1 && r[0] == IngredientsClause(f.ingredients)
    ensures InRankOrder(r)
  {
    var r0 := [IngredientsClause(f.ingredients)];
    var r1 := OptionalClause(Truthy(f.diet), DietClause(Interpolate(f.diet)));
    var r2 := OptionalClause(f.allergies.Some? && f.allergies.value != [],
                             AllergiesClause(if f.allergies.Some? then f.allergies.value else []));
    var r3 := OptionalClause(f.maxMinutes.Some? && f.maxMinutes.value != 0,
                             TimeClause(if f.maxMinutes.Some? then f.maxMinutes.value else 0));
    var r4 := OptionalClause(Truthy(f.cuisine), CuisineClause(Interpolate(f.cuisine)));
    var r5 := OptionalClause(f.allowedMethods.Some? && f.allowedMethods.value != [],
                             MethodsClause(if f.allowedMethods.Some? then f.allowedMethods.value else []));
    AppendInRankOrder(r0, r1, 1);
    AppendInRankOrder(r0 + r1, r2, 2);
    AppendInRankOrder(r0 + r1 + r2, r3, 3);
    AppendInRankOrder(r0 + r1 + r2 + r3, r4, 4);
    AppendInRankOrder(r0 + r1 + r2 + r3 + r4, r5, 5);
    r0 + r1 + r2 + r3 + r4 + r5
  }

  /** The sentence list as its six pieces. */
  lemma PromptClausesPieces(f: RecipesInput)
    ensures PromptClauses(f)
         == [IngredientsClause(f.ingredients)]
          + OptionalClause(Truthy(f.diet), DietClause(Interpolate(f.diet)))
          + OptionalClause(f.allergies.Some? && f.allergies.value != [],
                           AllergiesClause(if f.allergies.Some? then f.allergies.value else []))
          + OptionalClause(f.maxMinutes.Some? && f.maxMinutes.value != 0,
                           TimeClause(if f.maxMinutes.Some? then f.maxMinutes.value else 0))
          + OptionalClause(Truthy(f.cuisine), CuisineClause(Interpolate(f.cuisine)))
          + OptionalClause(f.allowedMethods.Some? && f.allowedMethods.value != [],
                           MethodsClause(if f.allowedMethods.Some? then f.allowedMethods.value else []))
  {
  }

  /** The prompt carries exactly the justified sentences. */
  lemma PromptClausesJustified(f: RecipesInput)
    ensures forall c :: c in PromptClauses(f) <==> Justified(f, c)
  {
    var r0 := [IngredientsClause(f.ingredients)];
    var r1 := OptionalClause(Truthy(f.diet), DietClause(Interpolate(f.diet)));
    var r2 := OptionalClause(f.allergies.Some? && f.allergies.value != [],
                             AllergiesClause(if f.allergies.Some? then f.allergies.value else []));
    var r3 := OptionalClause(f.maxMinutes.Some? && f.maxMinutes.value != 0,
                             TimeClause(if f.maxMinutes.Some? then f.maxMinutes.value else 0));
    var r4 := OptionalClause(Truthy(f.cuisine), CuisineClause(Interpolate(f.cuisine)));
    var r5 := OptionalClause(f.allowedMethods.Some? && f.allowedMethods.value != [],
                             MethodsClause(if f.allowedMethods.Some? then f.allowedMethods.value else []));
    PromptClausesPieces(f);
    forall c ensures c in PromptClauses(f) <==> Justified(f, c) {
      assert c in PromptClauses(f) <==> c in r0 || c in r1 || c in r2 || c in r3 || c in r4 || c in r5;
      match c
      case IngredientsClause(_) =>
      case DietClause(_) =>
      case AllergiesClause(_) =>
      case TimeClause(_) =>
      case CuisineClause(_) =>
      case MethodsClause(_) =>
    }
  }

  function RenderAll(cs: seq<Clause>): string {
    if cs == [] then "" else RenderClause(cs[0]) + RenderAll(cs[1..])
  }

  lemma {:induction false} RenderAllAppend(a: seq<Clause>, b: seq<Clause>)
    ensures RenderAll(a + b) == RenderAll(a) + RenderAll(b)
  {
    if a != [] {
      assert (a + b)[0] == a[0] && (a + b)[1..] == a[1..] + b;
      RenderAllAppend(a[1..], b);
      assert RenderAll(a + b) == RenderClause(a[0]) + RenderAll(a[1..] + b);
      Associative(RenderClause(a[0]), RenderAll(a[1..]), RenderAll(b));
    } else {
      assert a + b == b;
    }
  }

  /** The task prompt for a filter. */
  function TaskPrompt(f: RecipesInput): string {
    TaskPreamble(f.outputLang) + RenderAll(PromptClauses(f))
  }

  /** The prompt assembly of `findRecipes`: the preamble, grown with `+=` by
      one sentence per field that passes its test. */
  method BuildTaskPrompt(input: RecipesInput) returns (prompt: string)
    ensures prompt == TaskPrompt(input)
  {
    ghost var head := TaskPreamble(input.outputLang);
    ghost var clauses: seq<Clause> := [];
    ghost var before: string;
    prompt := TaskPreamble(input.outputLang);
    assert prompt == head + RenderAll(clauses);

    before := prompt;
    prompt := prompt + (IngredientsLead + Join(", ", input.ingredients) + ".");
    assert prompt == head + RenderAll(clauses + OptionalClause(true, IngredientsClause(input.ingredients))) by {
      ExtendPrompt(head, clauses, before, prompt, true, IngredientsClause(input.ingredients));
    }
    clauses := clauses + OptionalClause(true, IngredientsClause(input.ingredients));
    assert clauses == [IngredientsClause(input.ingredients)];

    before := prompt;
    if Truthy(input.diet) {
      prompt := prompt + (DietLead + input.diet.value + ".");
    }
    assert prompt == head + RenderAll(clauses + OptionalClause(Truthy(input.diet), DietClause(Interpolate(input.diet)))) by {
      ExtendPrompt(head, clauses, before, prompt, Truthy(input.diet), DietClause(Interpolate(input.diet)));
    }
    clauses := clauses + OptionalClause(Truthy(input.diet), DietClause(Interpolate(input.diet)));

    before := prompt;
    if input.allergies.Some? && |input.allergies.value| > 0 {
      prompt := prompt + (AllergiesLead + Join(", ", input.allergies.value) + ".");
    }
    ghost var present := input.allergies.Some? && input.allergies.value != [];
    ghost var c := AllergiesClause(if input.allergies.Some? then input.allergies.value else []);
    assert prompt == head + RenderAll(clauses + OptionalClause(present, c)) by {
      ExtendPrompt(head, clauses, before, prompt, present, c);
    }
    clauses := clauses + OptionalClause(present, c);

    before := prompt;
    if input.maxMinutes.Some? && input.maxMinutes.value != 0 {
      prompt := prompt + (TimeLead + IntToString(input.maxMinutes.value) + MinutesEnd);
    }
    present := input.maxMinutes.Some? && input.maxMinutes.value != 0;
    c := TimeClause(if input.maxMinutes.Some? then input.maxMinutes.value else 0);
    assert prompt == head + RenderAll(clauses + OptionalClause(present, c)) by {
      ExtendPrompt(head, clauses, before, prompt, present, c);
    }
    clauses := clauses + OptionalClause(present, c);

    before := prompt;
    if Truthy(input.cuisine) {
      prompt := prompt + (CuisineLead + input.cuisine.value + ".");
    }
    assert prompt == head + RenderAll(clauses + OptionalClause(Truthy(input.cuisine), CuisineClause(Interpolate(input.cuisine)))) by {
      ExtendPrompt(head, clauses, before, prompt, Truthy(input.cuisine), CuisineClause(Interpolate(input.cuisine)));
    }
    clauses := clauses + OptionalClause(Truthy(input.cuisine), CuisineClause(Interpolate(input.cuisine)));

    before := prompt;
    if input.allowedMethods.Some? && |input.allowedMethods.value| > 0 {
      prompt := prompt + (MethodsLead + Join(", ", input.allowedMethods.value) + ".");
    }
    present := input.allowedMethods.Some? && input.allowedMethods.value != [];
    c := MethodsClause(if input.allowedMethods.Some? then input.allowedMethods.value else []);
    assert prompt == head + RenderAll(clauses + OptionalClause(present, c)) by {
      ExtendPrompt(head, clauses, before, prompt, present, c);
    }
    clauses := clauses + OptionalClause(present, c);

    PromptClausesPieces(input);
  }

  /** One `+=` step: appending a sentence that passed its test appends its
      rendering to the rendered list. */
  lemma ExtendPrompt(head: string, clauses: seq<Clause>, before: string, after: string, present: bool, c: Clause)
    requires before == head + RenderAll(clauses)
    requires after == if present then before + RenderClause(c) else before
    ensures after == head + RenderAll(clauses + OptionalClause(present, c))
  {
    var more := OptionalClause(present, c);
    RenderAllAppend(clauses, more);
    if present {
      RenderSingle(c);
      Associative(head, RenderAll(clauses), RenderClause(c));
    } else {
      assert RenderAll(more) == "";
      assert RenderAll(clauses) + "" == RenderAll(clauses);
    }
  }

  lemma Associative(a: string, b: string, c: string)
    ensures (a + b) + c == a + (b + c)
  {
  }

  lemma RenderSingle(c: Clause)
    ensures RenderAll([c]) == RenderClause(c)
  {
    assert [c][1..] == [];
    assert RenderAll([c][1..]) == "";
  }

  /** What `findRecipes` returns for a reply of the model client: the
      client's error as thrown, or the reply text parsed as JSON. */
  function RecipesFromReply(reply: Result<string, Failure>, codec: Codec): (r: Result<Json, Failure>)
    ensures reply.Err? ==> r == Err(reply.error)
    ensures reply.Ok? ==> r == ParseJson(codec, reply.value)
  {
    match reply
    case Err(e) => Err(e)
    case Ok(text) => ParseJson(codec, text)
  }

  /** `findRecipes`: builds the prompt, sends it to the model client (the
      parameter `respond`), and parses the reply text. */
  method FindRecipes(input: RecipesInput, respond: string -> Result<string, Failure>, codec: Codec)
    returns (r: Result<Json, Failure>)
    ensures r == RecipesFromReply(respond(TaskPrompt(input)), codec)
  {
    var prompt := BuildTaskPrompt(input);
    var reply := respond(prompt);
    match reply {
      case Err(e) => r := Err(e);
      case Ok(text) => r := ParseJson(codec, text);
    }
  }
}
