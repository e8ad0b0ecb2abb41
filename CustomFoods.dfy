/**
  The custom-food helpers: merging a user-supplied catalog into the original
  one slot by slot, and checking that a raw catalog (foods as key/value
  records, as read from JSON) has the four meal slots, none empty, and every
  food carries the six required fields.
*/
module CustomFoods {
  import opened Wrappers
  import opened Foods

  // ---------------------------------------------------------------------------
  // Merging

  /** A slot's list, with a missing key read as the empty list. */
  function Lookup<T>(m: map<string, seq<T>>, k: string): seq<T>
  {
    if k in m then m[k] else []
  }

  /** The merged catalog: every key of either input, the original foods followed by the custom ones. */
  function Merge<T>(original: map<string, seq<T>>, custom: map<string, seq<T>>): map<string, seq<T>>
  {
    map k | k in original.Keys + custom.Keys :: Lookup(original, k) + Lookup(custom, k)
  }

  /** `merge_food_data`: one fresh list per key, extended with the original and then the custom foods. */
  method MergeFoodData<T>(original: map<string, seq<T>>, custom: map<string, seq<T>>) returns (merged: map<string, seq<T>>)
    ensures merged == Merge(original, custom)
  {
    merged := map[];
    var pending := original.Keys + custom.Keys;
    while pending != {}
      invariant pending <= original.Keys + custom.Keys
      invariant merged.Keys == (original.Keys + custom.Keys) - pending
      invariant forall k | k in merged :: merged[k] == Lookup(original, k) + Lookup(custom, k)
      decreases pending
    {
      var mealType :| mealType in pending;
      var foods: seq<T> := [];
      if mealType in original {
        foods := foods + original[mealType];
      }
      if mealType in custom {
        foods := foods + custom[mealType];
      }
      assert foods == Lookup(original, mealType) + Lookup(custom, mealType);
      merged := merged[mealType := foods];
      pending := pending - {mealType};
    }
  }

  /**
    The merged key set is the union of the inputs' key sets; each merged slot
    holds the original foods, in order, followed by the custom foods, in order,
    so its length is the sum of the two.
  */
  lemma MergeSlot<T>(original: map<string, seq<T>>, custom: map<string, seq<T>>, k: string)
    ensures Merge(original, custom).Keys == original.Keys + custom.Keys
    ensures k in Merge(original, custom) ==>
      var merged := Merge(original, custom)[k];
      && |merged| == |Lookup(original, k)| + |Lookup(custom, k)|
      && merged[..|Lookup(original, k)|] == Lookup(original, k)
      && merged[|Lookup(original, k)|..] == Lookup(custom, k)
  {
  }

  /** Merging with an empty catalog on either side changes nothing. */
  lemma MergeIdentity<T>(m: map<string, seq<T>>)
    ensures Merge(m, map[]) == m
    ensures Merge(map[], m) == m
  {
    assert forall k | k in m :: Lookup(m, k) + Lookup(map[], k) == m[k];
    assert forall k | k in m :: Lookup(map[], k) + Lookup(m, k) == m[k];
  }

  lemma MergeKeys<T>(a: map<string, seq<T>>, b: map<string, seq<T>>)
    ensures Merge(a, b).Keys == a.Keys + b.Keys
  {
  }

  /** Reading any key of a merge, present or not, gives the two inputs' lists joined. */
  lemma LookupMerge<T>(a: map<string, seq<T>>, b: map<string, seq<T>>, k: string)
    ensures Lookup(Merge(a, b), k) == Lookup(a, k) + Lookup(b, k)
  {
    if k !in a && k !in b {
      assert Lookup(a, k) + Lookup(b, k) == [];
    }
  }

  /** Every key reads the same from both groupings of three merges. */
  lemma LookupMergeAssociative<T>(a: map<string, seq<T>>, b: map<string, seq<T>>, c: map<string, seq<T>>, k: string)
    ensures Lookup(Merge(Merge(a, b), c), k) == Lookup(Merge(a, Merge(b, c)), k)
  {
    var ab, bc := Merge(a, b), Merge(b, c);
    calc {
      Lookup(Merge(ab, c), k);
      { LookupMerge(ab, c, k); }
      Lookup(ab, k) + Lookup(c, k);
      { LookupMerge(a, b, k); }
      (Lookup(a, k) + Lookup(b, k)) + Lookup(c, k);
      Lookup(a, k) + (Lookup(b, k) + Lookup(c, k));
      { LookupMerge(b, c, k); }
      Lookup(a, k) + Lookup(bc, k);
      { LookupMerge(a, bc, k); }
      Lookup(Merge(a, bc), k);
    }
  }

  /** Merging three catalogs gives the same result however the merges are grouped. */
  lemma MergeAssociative<T>(a: map<string, seq<T>>, b: map<string, seq<T>>, c: map<string, seq<T>>)
    ensures Merge(Merge(a, b), c) == Merge(a, Merge(b, c))
  {
    MergeKeys(a, b);
    MergeKeys(b, c);
    MergeKeys(Merge(a, b), c);
    MergeKeys(a, Merge(b, c));
    var left, right := Merge(Merge(a, b), c), Merge(a, Merge(b, c));
    forall k | k in left ensures left[k] == right[k] {
      LookupMergeAssociative(a, b, c, k);
    }
  }

  // ---------------------------------------------------------------------------
  // Validation

  /** The fields every food must carry, in the order they are checked. */
  const RequiredFoodFields: seq<string> := ["name", "calories", "protein", "carbs", "fat", "category"]

  /** A raw catalog: slot key to a list of foods, each a record of named fields. */
  type RawCatalog<V> = map<string, seq<map<string, V>>>

  predicate HasRequiredFields<V>(food: map<string, V>)
  {
    forall g | 0 <= g < |RequiredFoodFields| :: RequiredFoodFields[g] in food
  }

  /** The slot is present, not empty, and all its foods carry every required field. */
  predicate SlotIsValid<V>(foods: RawCatalog<V>, mealType: string)
  {
    && mealType in foods
    && |foods[mealType]| > 0
    && forall i | 0 <= i < |foods[mealType]| :: HasRequiredFields(foods[mealType][i])
  }

  /** The meal slots checked before slot number `t` all passed. */
  predicate SlotsValidBefore<V>(foods: RawCatalog<V>, t: nat)
  {
    forall u | 0 <= u < t && u < |MealTypes| :: SlotIsValid(foods, MealTypes[u])
  }

  predicate IsValidCatalog<V>(foods: RawCatalog<V>)
  {
    SlotsValidBefore(foods, |MealTypes|)
  }

  /** What the check reports; `slot`, `item` and `field` index MealTypes, the slot's list and RequiredFoodFields. */
  datatype ValidationError =
    | MissingMealType(slot: nat)
    | NoFoodItems(slot: nat)
    | MissingField(slot: nat, item: nat, field: nat)

  /** `e` names a real failure, and nothing the check visits before it fails. */
  predicate IsFirstFailure<V>(foods: RawCatalog<V>, e: ValidationError)
  {
    match e
    case MissingMealType(t) =>
      t < |MealTypes| && SlotsValidBefore(foods, t) && MealTypes[t] !in foods
    case NoFoodItems(t) =>
      t < |MealTypes| && SlotsValidBefore(foods, t) && MealTypes[t] in foods && |foods[MealTypes[t]]| == 0
    case MissingField(t, i, f) =>
      && t < |MealTypes| && SlotsValidBefore(foods, t) && MealTypes[t] in foods
      && i < |foods[MealTypes[t]]|
      && (forall j | 0 <= j < i :: HasRequiredFields(foods[MealTypes[t]][j]))
      && f < |RequiredFoodFields|
      && (forall g | 0 <= g < f :: RequiredFoodFields[g] in foods[MealTypes[t]][i])
      && RequiredFoodFields[f] !in foods[MealTypes[t]][i]
  }

  /**
    `validate_food_data`: true exactly when the catalog is valid; otherwise the
    failure it reports (and returns false on) is the first one met walking the
    slots in order, each slot's foods in order, and each food's fields in order.
  */
  method ValidateFoodData<V>(foods: RawCatalog<V>) returns (valid: bool, error: Option<ValidationError>)
    ensures valid <==> IsValidCatalog(foods)
    ensures valid <==> error.None?
    ensures error.Some? ==> IsFirstFailure(foods, error.value)
  {
    for t := 0 to |MealTypes|
      invariant SlotsValidBefore(foods, t)
    {
      var mealType := MealTypes[t];
      if mealType !in foods {
        return false, Some(MissingMealType(t));
      }
      var list := foods[mealType];
      if |list| == 0 {
        return false, Some(NoFoodItems(t));
      }
      for i := 0 to |list|
        invariant forall j | 0 <= j < i :: HasRequiredFields(list[j])
      {
        var food := list[i];
        for f := 0 to |RequiredFoodFields|
          invariant forall g | 0 <= g < f :: RequiredFoodFields[g] in food
        {
          if RequiredFoodFields[f] !in food {
            return false, Some(MissingField(t, i, f));
          }
        }
      }
    }
    return true, None;
  }

  /** At most one failure can be the first, so the report is determined by the catalog. */
  lemma FirstFailureUnique<V>(foods: RawCatalog<V>, e1: ValidationError, e2: ValidationError)
    requires IsFirstFailure(foods, e1) && IsFirstFailure(foods, e2)
    ensures e1 == e2
  {
  }

  /** A missing required slot makes the catalog invalid. */
  lemma MissingMealTypeInvalid<V>(foods: RawCatalog<V>, t: nat)
    requires t < |MealTypes| && MealTypes[t] !in foods
    ensures !IsValidCatalog(foods)
  {
    assert !SlotIsValid(foods, MealTypes[t]);
  }

  /** An empty required slot makes the catalog invalid. */
  lemma EmptyMealTypeInvalid<V>(foods: RawCatalog<V>, t: nat)
    requires t < |MealTypes| && MealTypes[t] in foods && |foods[MealTypes[t]]| == 0
    ensures !IsValidCatalog(foods)
  {
    assert !SlotIsValid(foods, MealTypes[t]);
  }

  /** A food of a required slot lacking a required field makes the catalog invalid. */
  lemma MissingFieldInvalid<V>(foods: RawCatalog<V>, t: nat, i: nat, f: nat)
    requires t < |MealTypes| && MealTypes[t] in foods && i < |foods[MealTypes[t]]|
    requires f < |RequiredFoodFields| && RequiredFoodFields[f] !in foods[MealTypes[t]][i]
    ensures !IsValidCatalog(foods)
  {
    assert !HasRequiredFields(foods[MealTypes[t]][i]);
    assert !SlotIsValid(foods, MealTypes[t]);
  }

  /**
    Merging a valid custom catalog into an original whose required slots hold
    only complete foods gives a valid catalog.
  */
  lemma MergeKeepsValid<V>(original: RawCatalog<V>, custom: RawCatalog<V>)
    requires IsValidCatalog(custom)
    requires forall u | 0 <= u < |MealTypes| && MealTypes[u] in original ::
      forall i | 0 <= i < |original[MealTypes[u]]| :: HasRequiredFields(original[MealTypes[u]][i])
    ensures IsValidCatalog(Merge(original, custom))
  {
    var merged := Merge(original, custom);
    forall u | 0 <= u < |MealTypes| ensures SlotIsValid(merged, MealTypes[u]) {
      var t := MealTypes[u];
      assert SlotIsValid(custom, t);
      var o, c := Lookup(original, t), Lookup(custom, t);
      assert merged[t] == o + c;
      forall i | 0 <= i < |merged[t]| ensures HasRequiredFields(merged[t][i]) {
        if i < |o| {
          assert merged[t][i] == o[i];
        } else {
          assert merged[t][i] == c[i - |o|];
        }
      }
    }
  }
}
