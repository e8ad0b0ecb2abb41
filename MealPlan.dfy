/**
  The meal-plan generator of the app: the catalog as loaded, the parsed allergy
  terms, the preference/allergen filter with its fallback to the full slot list,
  and the day-by-day plan with its nutrition totals. The random draws are
  supplied by the caller as indices, so every property holds for every draw.
*/
module MealPlan {
  import opened Wrappers
  import opened Foods
  import opened Text

  /** The preference that switches the filter off ("no special preference"). */
  const NoPreference: string := "无特殊偏好"

  // ---------------------------------------------------------------------------
  // Loading the catalog

  /** What reading the catalog file produced; the reading itself is not modelled. */
  datatype FileOutcome = Parsed(foods: Catalog) | FileNotFound | InvalidJson

  /** The catalog used when the file is missing or malformed: four empty slots. */
  function EmptyCatalog(): (foods: Catalog)
    ensures foods.Keys == set t | t in MealTypes
    ensures forall t | t in foods :: foods[t] == []
  {
    map[Breakfast := [], Lunch := [], Dinner := [], Snacks := []]
  }

  /**
    The outcome of loading: a parsed catalog gets every missing meal slot added
    as an empty list and keeps everything else; a failed read gives EmptyCatalog.
  */
  method LoadFoodData(file: FileOutcome) returns (foods: Catalog)
    ensures forall t | t in MealTypes :: t in foods
    ensures file.Parsed? ==> foods.Keys == file.foods.Keys + set t | t in MealTypes
    ensures file.Parsed? ==> forall k | k in file.foods :: foods[k] == file.foods[k]
    ensures file.Parsed? ==> forall t | t in MealTypes && t !in file.foods :: foods[t] == []
    ensures !file.Parsed? ==> foods == EmptyCatalog()
  {
    if !file.Parsed? {
      return EmptyCatalog();
    }
    foods := file.foods;
    for i := 0 to |MealTypes|
      invariant foods.Keys == file.foods.Keys + set t | t in MealTypes[..i]
      invariant forall k | k in file.foods :: foods[k] == file.foods[k]
      invariant forall k | k in foods && k !in file.foods :: foods[k] == []
    {
      if MealTypes[i] !in foods {
        foods := foods[MealTypes[i] := []];
      }
    }
    assert MealTypes[..|MealTypes|] == MealTypes;
  }

  // ---------------------------------------------------------------------------
  // Allergy terms

  /** Each comma-separated piece with surrounding whitespace removed. */
  function StripAll(pieces: seq<string>): seq<string>
  {
    seq(|pieces|, k requires 0 <= k < |pieces| => Strip(pieces[k]))
  }

  /** The non-empty stripped pieces, lower-cased, in order. */
  function LowerNonBlank(stripped: seq<string>): (terms: seq<string>)
    ensures |terms| <= |stripped|
    decreases |stripped|
  {
    if stripped == [] then []
    else if stripped[0] == [] then LowerNonBlank(stripped[1..])
    else [Lower(stripped[0])] + LowerNonBlank(stripped[1..])
  }

  /** Every term is the lower-cased form of a non-empty stripped piece; the returned index says which. */
  lemma {:induction false} LowerNonBlankOrigin(stripped: seq<string>, i: nat) returns (k: nat)
    requires i < |LowerNonBlank(stripped)|
    ensures k < |stripped| && stripped[k] != [] && LowerNonBlank(stripped)[i] == Lower(stripped[k])
    decreases |stripped|
  {
    var rest := LowerNonBlank(stripped[1..]);
    if stripped[0] == [] {
      k := LowerNonBlankOrigin(stripped[1..], i);
      k := k + 1;
    } else if i == 0 {
      k := 0;
    } else {
      assert LowerNonBlank(stripped)[i] == rest[i - 1];
      k := LowerNonBlankOrigin(stripped[1..], i - 1);
      k := k + 1;
    }
  }

  /** Every non-empty stripped piece gives a term. */
  lemma {:induction false} LowerNonBlankComplete(stripped: seq<string>, k: nat)
    requires k < |stripped| && stripped[k] != []
    ensures Lower(stripped[k]) in LowerNonBlank(stripped)
    decreases |stripped|
  {
    if k > 0 {
      LowerNonBlankComplete(stripped[1..], k - 1);
      assert stripped[1..][k - 1] == stripped[k];
    }
  }

  /** An allergy term as the program uses it: non-empty, unpadded, lower-case, comma-free. */
  predicate WellFormedTerm(t: string)
  {
    && t != [] && ',' !in t
    && !IsSpace(t[0]) && !IsSpace(t[|t| - 1])
    && forall j | 0 <= j < |t| :: !IsUpperAscii(t[j])
  }

  /** A non-blank, comma-free piece gives a well-formed term. */
  lemma TermShape(piece: string)
    requires Strip(piece) != [] && ',' !in piece
    ensures WellFormedTerm(Lower(Strip(piece)))
  {
    var start := StripIsSlice(piece);
    var stripped := Strip(piece);
    assert forall k | 0 <= k < |stripped| :: stripped[k] == piece[start + k];
  }

  /**
    `allergies_list`: the allergy text box split on commas, each piece stripped
    and lower-cased, blank pieces dropped. Every non-blank piece gives a term,
    every term comes from a non-blank piece, and every term is well formed.
  */
  function ParseAllergies(text: string): (terms: seq<string>)
    ensures forall p | p in Split(text, ',') && Strip(p) != [] :: Lower(Strip(p)) in terms
    ensures forall t | t in terms :: exists p | p in Split(text, ',') :: Strip(p) != [] && t == Lower(Strip(p))
    ensures forall i | 0 <= i < |terms| :: WellFormedTerm(terms[i])
  {
    var pieces := Split(text, ',');
    var stripped := StripAll(pieces);
    var terms := LowerNonBlank(stripped);
    forall p | p in pieces && Strip(p) != [] ensures Lower(Strip(p)) in terms {
      var k :| 0 <= k < |pieces| && pieces[k] == p;
      LowerNonBlankComplete(stripped, k);
    }
    forall i | 0 <= i < |terms| ensures WellFormedTerm(terms[i]) {
      var k := LowerNonBlankOrigin(stripped, i);
      TermShape(pieces[k]);
    }
    forall t | t in terms ensures exists p | p in pieces :: Strip(p) != [] && t == Lower(Strip(p)) {
      var i :| 0 <= i < |terms| && terms[i] == t;
      var k := LowerNonBlankOrigin(stripped, i);
      assert pieces[k] in pieces;
    }
    terms
  }

  // ---------------------------------------------------------------------------
  // The filter

  /** Some category of the food is one of the chosen preferences. */
  predicate MatchesPreference(food: Food, prefs: seq<string>)
  {
    exists p | p in prefs :: p in food.category
  }

  /** Some allergy term occurs in the lower-cased food name. */
  predicate ContainsAllergen(food: Food, allergies: seq<string>)
  {
    exists a | a in allergies :: IsSubstring(a, Lower(food.name))
  }

  /** The per-food test applied when a preference is chosen. */
  predicate Keep(food: Food, prefs: seq<string>, allergies: seq<string>)
  {
    MatchesPreference(food, prefs) && !ContainsAllergen(food, allergies)
  }

  /** The foods of `foods` that pass Keep, in their original order. */
  function KeepOnly(foods: seq<Food>, prefs: seq<string>, allergies: seq<string>): (kept: seq<Food>)
    ensures |kept| <= |foods|
    ensures forall i | 0 <= i < |kept| :: Keep(kept[i], prefs, allergies)
    decreases |foods|
  {
    if foods == [] then []
    else (if Keep(foods[0], prefs, allergies) then [foods[0]] else []) + KeepOnly(foods[1..], prefs, allergies)
  }

  /** With no allergy terms no food counts as containing an allergen. */
  lemma NoAllergiesExcludeNothing(food: Food)
    ensures !ContainsAllergen(food, [])
  {
  }

  /**
    An empty allergy term occurs in every name, so it would exclude every food;
    this is why blank pieces never become terms.
  */
  lemma EmptyTermExcludesEveryFood(food: Food, allergies: seq<string>)
    requires [] in allergies
    ensures ContainsAllergen(food, allergies)
  {
    assert OccursAt([], Lower(food.name), 0);
  }

  /** Choosing more preferences and fewer allergy terms never removes a food the filter kept. */
  lemma KeepWidens(food: Food, prefs: seq<string>, allergies: seq<string>, prefs': seq<string>, allergies': seq<string>)
    requires forall p | p in prefs :: p in prefs'
    requires forall a | a in allergies' :: a in allergies
    requires Keep(food, prefs, allergies)
    ensures Keep(food, prefs', allergies')
  {
  }

  /** Filtering a concatenation filters each part and keeps them in order. */
  lemma {:induction false} KeepOnlyAppend(a: seq<Food>, b: seq<Food>, prefs: seq<string>, allergies: seq<string>)
    ensures KeepOnly(a + b, prefs, allergies) == KeepOnly(a, prefs, allergies) + KeepOnly(b, prefs, allergies)
    decreases |a|
  {
    if a == [] {
      assert a + b == b;
    } else {
      assert (a + b)[0] == a[0];
      assert (a + b)[1..] == a[1..] + b;
      KeepOnlyAppend(a[1..], b, prefs, allergies);
    }
  }

  /** A food survives the filter exactly when it is in the list and passes Keep. */
  lemma {:induction false} KeepOnlyMembers(foods: seq<Food>, prefs: seq<string>, allergies: seq<string>, x: Food)
    ensures x in KeepOnly(foods, prefs, allergies) <==> x in foods && Keep(x, prefs, allergies)
    decreases |foods|
  {
    if foods != [] {
      KeepOnlyMembers(foods[1..], prefs, allergies, x);
      assert x in foods <==> x == foods[0] || x in foods[1..];
    }
  }

  /** `a` is `b` with some items removed, the rest in their original order. */
  predicate IsSubsequence(a: seq<Food>, b: seq<Food>)
    decreases |b|
  {
    if a == [] then true
    else if b == [] then false
    else if a[0] == b[0] then IsSubsequence(a[1..], b[1..])
    else IsSubsequence(a, b[1..])
  }

  /** Every list is a subsequence of any list that extends it at the front. */
  lemma {:induction false} SubsequenceOfCons(a: seq<Food>, x: Food, b: seq<Food>)
    requires IsSubsequence(a, b)
    ensures IsSubsequence(a, [x] + b)
    decreases |b|, 1
  {
    var xb := [x] + b;
    assert xb[1..] == b;
    if a != [] && a[0] == x {
      SubsequenceDropFirst(a, b);
    }
  }

  /** Dropping the first item keeps a subsequence a subsequence. */
  lemma {:induction false} SubsequenceDropFirst(a: seq<Food>, b: seq<Food>)
    requires a != [] && IsSubsequence(a, b)
    ensures IsSubsequence(a[1..], b)
    decreases |b|, 0
  {
    if b == [] {
      assert false;
    } else if a[0] == b[0] {
      SubsequenceOfCons(a[1..], b[0], b[1..]);
      assert [b[0]] + b[1..] == b;
    } else {
      SubsequenceDropFirst(a, b[1..]);
      SubsequenceOfCons(a[1..], b[0], b[1..]);
      assert [b[0]] + b[1..] == b;
    }
  }

  /** The filter only removes foods: what it keeps stays in the catalog order. */
  lemma {:induction false} KeepOnlySubsequence(foods: seq<Food>, prefs: seq<string>, allergies: seq<string>)
    ensures IsSubsequence(KeepOnly(foods, prefs, allergies), foods)
    decreases |foods|
  {
    if foods != [] {
      var rest := KeepOnly(foods[1..], prefs, allergies);
      KeepOnlySubsequence(foods[1..], prefs, allergies);
      if Keep(foods[0], prefs, allergies) {
        var kept := [foods[0]] + rest;
        assert kept[1..] == rest;
      } else {
        assert KeepOnly(foods, prefs, allergies) == rest;
        SubsequenceOfCons(rest, foods[0], foods[1..]);
        assert [foods[0]] + foods[1..] == foods;
      }
    }
  }

  /** One slot's list after the preference filter: untouched when "no preference" is chosen. */
  function FilterSlot(foods: seq<Food>, prefs: seq<string>, allergies: seq<string>): seq<Food>
  {
    if NoPreference in prefs then foods else KeepOnly(foods, prefs, allergies)
  }

  /** Every slot of the catalog after the preference filter. */
  function PreferenceFiltered(foodsDb: Catalog, prefs: seq<string>, allergies: seq<string>): Catalog
  {
    map k | k in foodsDb :: FilterSlot(foodsDb[k], prefs, allergies)
  }

  /** A slot the filter emptied goes back to the slot's full catalog list. */
  function WithFallback(filtered: Catalog, foodsDb: Catalog): (result: Catalog)
    requires filtered.Keys <= foodsDb.Keys
    ensures result.Keys == filtered.Keys
    ensures forall k | k in result :: result[k] == [] <==> filtered[k] == [] && foodsDb[k] == []
    ensures forall k | k in result :: result[k] == filtered[k] || result[k] == foodsDb[k]
    ensures forall k | k in result && filtered[k] != [] :: result[k] == filtered[k]
  {
    map k | k in filtered :: if filtered[k] == [] then foodsDb[k] else filtered[k]
  }

  /** Falling back a second time changes nothing. */
  lemma WithFallbackIdempotent(filtered: Catalog, foodsDb: Catalog)
    requires filtered.Keys <= foodsDb.Keys
    ensures WithFallback(WithFallback(filtered, foodsDb), foodsDb) == WithFallback(filtered, foodsDb)
  {
  }

  /** The slot lists the plan is drawn from. */
  function FinalFoods(foodsDb: Catalog, prefs: seq<string>, allergies: seq<string>): Catalog
  {
    WithFallback(PreferenceFiltered(foodsDb, prefs, allergies), foodsDb)
  }

  /** With "no preference" chosen the filter and the fallback leave the catalog as it is. */
  lemma NoPreferenceKeepsCatalog(foodsDb: Catalog, prefs: seq<string>, allergies: seq<string>)
    requires NoPreference in prefs
    ensures FinalFoods(foodsDb, prefs, allergies) == foodsDb
  {
  }

  /**
    What a slot is drawn from: the preference-filtered list, or the full list
    when that is empty; so a non-empty slot stays non-empty, and every food drawn
    is a catalog food of that slot.
  */
  lemma FinalFoodsSlot(foodsDb: Catalog, prefs: seq<string>, allergies: seq<string>, k: string)
    requires k in foodsDb
    ensures var final := FinalFoods(foodsDb, prefs, allergies);
      && final.Keys == foodsDb.Keys
      && final[k] == (if FilterSlot(foodsDb[k], prefs, allergies) == [] then foodsDb[k]
                      else FilterSlot(foodsDb[k], prefs, allergies))
      && (foodsDb[k] != [] ==> final[k] != [])
      && (forall x | x in final[k] :: x in foodsDb[k])
  {
    forall x | x in KeepOnly(foodsDb[k], prefs, allergies) ensures x in foodsDb[k] {
      KeepOnlyMembers(foodsDb[k], prefs, allergies, x);
    }
  }

  /**
    When a preference is chosen and the filter left something in the slot, every
    food of the slot matches a preference and contains no allergy term, and every
    catalog food of the slot that does so is there.
  */
  lemma FinalFoodsRespectPreferences(foodsDb: Catalog, prefs: seq<string>, allergies: seq<string>, k: string)
    requires k in foodsDb
    requires NoPreference !in prefs
    requires KeepOnly(foodsDb[k], prefs, allergies) != []
    ensures var final := FinalFoods(foodsDb, prefs, allergies);
      forall x :: x in final[k] <==> x in foodsDb[k] && Keep(x, prefs, allergies)
  {
    forall x ensures x in KeepOnly(foodsDb[k], prefs, allergies) <==> x in foodsDb[k] && Keep(x, prefs, allergies) {
      KeepOnlyMembers(foodsDb[k], prefs, allergies, x);
    }
  }

  /** The filtering loop of the generator, slot by slot and food by food. */
  method FilterFoods(foodsDb: Catalog, prefs: seq<string>, allergies: seq<string>) returns (filtered: Catalog)
    ensures filtered == PreferenceFiltered(foodsDb, prefs, allergies)
  {
    filtered := map[];
    var pending := foodsDb.Keys;
    while pending != {}
      invariant pending <= foodsDb.Keys
      invariant filtered.Keys == foodsDb.Keys - pending
      invariant forall k | k in filtered :: filtered[k] == FilterSlot(foodsDb[k], prefs, allergies)
      decreases pending
    {
      var mealType :| mealType in pending;
      var foodsList := foodsDb[mealType];
      if NoPreference in prefs {
        filtered := filtered[mealType := foodsList];
      } else {
        var kept := [];
        for i := 0 to |foodsList|
          invariant kept == KeepOnly(foodsList[..i], prefs, allergies)
        {
          KeepOnlyAppend(foodsList[..i], [foodsList[i]], prefs, allergies);
          assert foodsList[..i + 1] == foodsList[..i] + [foodsList[i]];
          if Keep(foodsList[i], prefs, allergies) {
            kept := kept + [foodsList[i]];
          }
        }
        assert foodsList[..|foodsList|] == foodsList;
        filtered := filtered[mealType := kept];
      }
      pending := pending - {mealType};
    }
  }

  /** The fallback loop: each slot the filter emptied is replaced by its catalog list. */
  method ApplyFallback(filtered: Catalog, foodsDb: Catalog) returns (result: Catalog)
    requires filtered.Keys <= foodsDb.Keys
    ensures result == WithFallback(filtered, foodsDb)
  {
    result := filtered;
    var pending := filtered.Keys;
    while pending != {}
      invariant pending <= filtered.Keys
      invariant result.Keys == filtered.Keys
      invariant forall k | k in pending :: result[k] == filtered[k]
      invariant forall k | k in filtered && k !in pending :: result[k] == WithFallback(filtered, foodsDb)[k]
      decreases pending
    {
      var mealType :| mealType in pending;
      if result[mealType] == [] {
        result := result[mealType := foodsDb[mealType]];
      }
      pending := pending - {mealType};
    }
  }

  // ---------------------------------------------------------------------------
  // Nutrition

  datatype Nutrition = Nutrition(calories: int, protein: int, carbs: int, fat: int)

  function Plus(a: Nutrition, b: Nutrition): Nutrition
  {
    Nutrition(a.calories + b.calories, a.protein + b.protein, a.carbs + b.carbs, a.fat + b.fat)
  }

  function FoodNutrition(food: Food): Nutrition
  {
    Nutrition(food.calories, food.protein, food.carbs, food.fat)
  }

  /** Field-by-field sum of the nutrition of a list of foods. */
  function Total(items: seq<Food>): Nutrition
    decreases |items|
  {
    if items == [] then Nutrition(0, 0, 0, 0) else Plus(FoodNutrition(items[0]), Total(items[1..]))
  }

  /** The total of a day's five foods, field by field. */
  lemma TotalOfFive(plan: DayPlan)
    requires |plan.snacks| == 2
    ensures var s := [plan.breakfast, plan.lunch, plan.dinner, plan.snacks[0], plan.snacks[1]];
      && Meals(plan) == s
      && Total(s) == Nutrition(
           s[0].calories + s[1].calories + s[2].calories + s[3].calories + s[4].calories,
           s[0].protein + s[1].protein + s[2].protein + s[3].protein + s[4].protein,
           s[0].carbs + s[1].carbs + s[2].carbs + s[3].carbs + s[4].carbs,
           s[0].fat + s[1].fat + s[2].fat + s[3].fat + s[4].fat)
  {
    var s := [plan.breakfast, plan.lunch, plan.dinner, plan.snacks[0], plan.snacks[1]];
    assert Total([s[4]]) == Plus(FoodNutrition(s[4]), Total([]));
    assert [s[3], s[4]][1..] == [s[4]];
    assert Total([s[3], s[4]]) == Plus(FoodNutrition(s[3]), Total([s[4]]));
    assert [s[2], s[3], s[4]][1..] == [s[3], s[4]];
    assert Total([s[2], s[3], s[4]]) == Plus(FoodNutrition(s[2]), Total([s[3], s[4]]));
    assert [s[1], s[2], s[3], s[4]][1..] == [s[2], s[3], s[4]];
    assert Total([s[1], s[2], s[3], s[4]]) == Plus(FoodNutrition(s[1]), Total([s[2], s[3], s[4]]));
    assert s[1..] == [s[1], s[2], s[3], s[4]];
  }

  /** The total of a concatenation is the sum of the totals. */
  lemma {:induction false} TotalAppend(a: seq<Food>, b: seq<Food>)
    ensures Total(a + b) == Plus(Total(a), Total(b))
    decreases |a|
  {
    if a == [] {
      assert a + b == b;
    } else {
      assert (a + b)[0] == a[0];
      assert (a + b)[1..] == a[1..] + b;
      TotalAppend(a[1..], b);
    }
  }

  /** Moving one item to the front leaves the total unchanged. */
  lemma {:induction false} TotalMoveToFront(items: seq<Food>, i: nat)
    requires i < |items|
    ensures Total([items[i]] + items[..i] + items[i + 1..]) == Total(items)
  {
    var x := items[i];
    TotalAppend([x] + items[..i], items[i + 1..]);
    TotalAppend([x], items[..i]);
    TotalAppend(items[..i], [x] + items[i + 1..]);
    TotalAppend([x], items[i + 1..]);
    assert items == items[..i] + ([x] + items[i + 1..]);
  }

  /** Taking the same element out of two lists with equal multisets leaves equal multisets. */
  lemma MultisetRemoveAt(a: seq<Food>, b: seq<Food>, i: nat)
    requires a != [] && i < |b| && b[i] == a[0]
    requires multiset(a) == multiset(b)
    ensures multiset(a[1..]) == multiset(b[..i] + b[i + 1..])
  {
    assert a == [a[0]] + a[1..];
    assert b == b[..i] + [b[i]] + b[i + 1..];
    calc {
      multiset(a[1..]);
      multiset(a) - multiset{a[0]};
      multiset(b) - multiset{b[i]};
      multiset(b[..i]) + multiset(b[i + 1..]);
      multiset(b[..i] + b[i + 1..]);
    }
  }

  /** The total does not depend on the order of the items. */
  lemma {:induction false} TotalPermutation(a: seq<Food>, b: seq<Food>)
    requires multiset(a) == multiset(b)
    ensures Total(a) == Total(b)
    decreases |a|
  {
    if a != [] {
      assert a[0] in multiset(b);
      var i :| 0 <= i < |b| && b[i] == a[0];
      var rest := b[..i] + b[i + 1..];
      MultisetRemoveAt(a, b, i);
      TotalPermutation(a[1..], rest);
      TotalMoveToFront(b, i);
      assert [b[i]] + b[..i] + b[i + 1..] == [a[0]] + rest;
    } else {
      assert b == [];
    }
  }

  // ---------------------------------------------------------------------------
  // Generation

  /** One day of the plan: three meals, two snacks and their totals. */
  datatype DayPlan = DayPlan(
    title: string,
    breakfast: Food,
    lunch: Food,
    dinner: Food,
    snacks: seq<Food>,
    nutrition: Nutrition)

  /** The five foods of a day, in the order the totals add them. */
  function Meals(plan: DayPlan): seq<Food>
  {
    [plan.breakfast, plan.lunch, plan.dinner] + plan.snacks
  }

  /** The caller-supplied outcome of the five random draws of one day. */
  datatype Draw = Draw(breakfast: nat, lunch: nat, dinner: nat, snack1: nat, snack2: nat)

  /** Why a draw fails: the slot key is absent, or the slot has no foods. */
  datatype GenerationError = MissingMealType(mealType: string) | NoFoods(mealType: string)

  /** The key a day is stored under: "第 {day} 天". */
  function DayLabel(day: nat): (title: string)
    ensures |title| >= 5 && title[..2] == "第 " && title[|title| - 2..] == " 天"
    ensures forall i | 2 <= i < |title| - 2 :: '0' <= title[i] <= '9'
    ensures DecimalValue(title[2..|title| - 2]) == day
    ensures title[2] == '0' ==> day == 0
  {
    var digits := NatToString(day);
    var title := "第 " + digits + " 天";
    assert title[2..|title| - 2] == digits;
    DecimalRoundTrip(day);
    title
  }

  /** Different days get different labels, so the plan has one entry per day. */
  lemma DayLabelInjective(a: nat, b: nat)
    requires DayLabel(a) == DayLabel(b)
    ensures a == b
  {
    var la, lb := DayLabel(a), DayLabel(b);
    assert NatToString(a) == la[2..|la| - 2];
    assert NatToString(b) == lb[2..|lb| - 2];
    NatToStringInjective(a, b);
  }

  /** How drawing from a slot fails, if it does. */
  function SlotError(foods: Catalog, mealType: string): Option<GenerationError>
  {
    if mealType !in foods then Some(MissingMealType(mealType))
    else if foods[mealType] == [] then Some(NoFoods(mealType))
    else None
  }

  /** The failure the first day meets: the first unusable slot in breakfast, lunch, dinner, snacks order. */
  function FirstUnavailable(foods: Catalog): (e: Option<GenerationError>)
    ensures e.None? <==> forall t | t in MealTypes :: t in foods && foods[t] != []
    ensures forall u | 0 <= u < |MealTypes| && SlotError(foods, MealTypes[u]).Some?
                       && (forall v | 0 <= v < u :: SlotError(foods, MealTypes[v]).None?) ::
      e == SlotError(foods, MealTypes[u])
  {
    assert MealTypes[0] == Breakfast && MealTypes[1] == Lunch && MealTypes[2] == Dinner && MealTypes[3] == Snacks;
    if SlotError(foods, Breakfast).Some? then SlotError(foods, Breakfast)
    else if SlotError(foods, Lunch).Some? then SlotError(foods, Lunch)
    else if SlotError(foods, Dinner).Some? then SlotError(foods, Dinner)
    else SlotError(foods, Snacks)
  }

  /** A drawn index lies inside its slot whenever the slot can be drawn from. */
  predicate Fits(foods: Catalog, mealType: string, i: nat)
  {
    mealType in foods && foods[mealType] != [] ==> i < |foods[mealType]|
  }

  predicate DrawFits(foods: Catalog, draw: Draw)
  {
    && Fits(foods, Breakfast, draw.breakfast)
    && Fits(foods, Lunch, draw.lunch)
    && Fits(foods, Dinner, draw.dinner)
    && Fits(foods, Snacks, draw.snack1)
    && Fits(foods, Snacks, draw.snack2)
  }

  /** `random.choice` on one slot, with the draw given as an index. */
  function Choice(foods: Catalog, mealType: string, i: nat): (r: Result<Food, GenerationError>)
    requires Fits(foods, mealType, i)
    ensures r.Err? <==> SlotError(foods, mealType).Some?
    ensures r.Err? ==> SlotError(foods, mealType) == Some(r.error)
    ensures r.Ok? ==> r.value in foods[mealType] && r.value == foods[mealType][i]
  {
    if mealType !in foods then Err(MissingMealType(mealType))
    else if foods[mealType] == [] then Err(NoFoods(mealType))
    else Ok(foods[mealType][i])
  }

  /** Day `day` of a plan drawn from `foods` with `draw`, its totals summed over its five foods. */
  predicate IsPlannedDay(plan: DayPlan, foods: Catalog, day: nat, draw: Draw)
  {
    && plan.title == DayLabel(day)
    && Breakfast in foods && draw.breakfast < |foods[Breakfast]|
    && Lunch in foods && draw.lunch < |foods[Lunch]|
    && Dinner in foods && draw.dinner < |foods[Dinner]|
    && Snacks in foods && draw.snack1 < |foods[Snacks]| && draw.snack2 < |foods[Snacks]|
    && plan.breakfast == foods[Breakfast][draw.breakfast]
    && plan.lunch == foods[Lunch][draw.lunch]
    && plan.dinner == foods[Dinner][draw.dinner]
    && plan.snacks == [foods[Snacks][draw.snack1], foods[Snacks][draw.snack2]]
    && plan.nutrition == Total(Meals(plan))
  }

  /**
    `generate_meal_plan(days)`: filter, fall back, then one plan per day 1..days.
    The first day fails exactly when some slot is missing or empty after the
    fallback, reporting the first such slot; otherwise the plan has one entry
    per day, drawn from the final slot lists.
  */
  method GenerateMealPlan(foodsDb: Catalog, prefs: seq<string>, allergies: seq<string>, days: int, draws: seq<Draw>)
    returns (r: Result<seq<DayPlan>, GenerationError>)
    requires days <= |draws|
    requires forall d | 0 <= d < |draws| :: DrawFits(FinalFoods(foodsDb, prefs, allergies), draws[d])
    ensures var final := FinalFoods(foodsDb, prefs, allergies);
      r.Err? <==> days >= 1 && FirstUnavailable(final).Some?
    ensures r.Err? ==> FirstUnavailable(FinalFoods(foodsDb, prefs, allergies)) == Some(r.error)
    ensures r.Ok? ==> |r.value| == (if days > 0 then days else 0)
    ensures r.Ok? ==> forall d | 0 <= d < |r.value| ::
      IsPlannedDay(r.value[d], FinalFoods(foodsDb, prefs, allergies), d + 1, draws[d])
  {
    var filtered := FilterFoods(foodsDb, prefs, allergies);
    filtered := ApplyFallback(filtered, foodsDb);
    var plan: seq<DayPlan> := [];
    var day := 1;
    while day <= days
      invariant 1 <= day <= (if days > 0 then days else 0) + 1
      invariant |plan| == day - 1 <= |draws|
      invariant day > 1 ==> FirstUnavailable(filtered).None?
      invariant forall d | 0 <= d < |plan| :: IsPlannedDay(plan[d], filtered, d + 1, draws[d])
    {
      var dayPlan := PlanDay(filtered, day, draws[day - 1]);
      if dayPlan.Err? {
        return Err(dayPlan.error);
      }
      plan := plan + [dayPlan.value];
      day := day + 1;
    }
    return Ok(plan);
  }

  /**
    One pass of the day loop: draw breakfast, lunch, dinner and two snacks in
    that order, failing at the first slot that cannot be drawn from, and add up
    the five foods' nutrition.
  */
  method PlanDay(foods: Catalog, day: nat, draw: Draw) returns (r: Result<DayPlan, GenerationError>)
    requires DrawFits(foods, draw)
    ensures r.Err? <==> FirstUnavailable(foods).Some?
    ensures r.Err? ==> FirstUnavailable(foods) == Some(r.error)
    ensures r.Ok? ==> IsPlannedDay(r.value, foods, day, draw)
  {
    var breakfast := Choice(foods, Breakfast, draw.breakfast);
    if breakfast.Err? {
      return Err(breakfast.error);
    }
    var lunch := Choice(foods, Lunch, draw.lunch);
    if lunch.Err? {
      return Err(lunch.error);
    }
    var dinner := Choice(foods, Dinner, draw.dinner);
    if dinner.Err? {
      return Err(dinner.error);
    }
    var snack1 := Choice(foods, Snacks, draw.snack1);
    if snack1.Err? {
      return Err(snack1.error);
    }
    var snack2 := Choice(foods, Snacks, draw.snack2).value;
    var b, l, d, s1 := breakfast.value, lunch.value, dinner.value, snack1.value;
    var nutrition := Nutrition(
      b.calories + l.calories + d.calories + s1.calories + snack2.calories,
      b.protein + l.protein + d.protein + s1.protein + snack2.protein,
      b.carbs + l.carbs + d.carbs + s1.carbs + snack2.carbs,
      b.fat + l.fat + d.fat + s1.fat + snack2.fat);
    var dayPlan := DayPlan(DayLabel(day), b, l, d, [s1, snack2], nutrition);
    TotalOfFive(dayPlan);
    return Ok(dayPlan);
  }

  /**
    If the catalog has all four slots and none is empty, no choice of
    preferences or allergies makes generation fail.
  */
  lemma FallbackPreventsFailure(foodsDb: Catalog, prefs: seq<string>, allergies: seq<string>)
    requires forall t | t in MealTypes :: t in foodsDb && foodsDb[t] != []
    ensures FirstUnavailable(FinalFoods(foodsDb, prefs, allergies)).None?
  {
    FinalFoodsSlot(foodsDb, prefs, allergies, Breakfast);
    FinalFoodsSlot(foodsDb, prefs, allergies, Lunch);
    FinalFoodsSlot(foodsDb, prefs, allergies, Dinner);
    FinalFoodsSlot(foodsDb, prefs, allergies, Snacks);
  }

  /**
    Every food of a planned day is a catalog food of its slot, and the day's
    totals are the sums over its five foods in any order.
  */
  lemma PlannedDayFromCatalog(plan: DayPlan, foodsDb: Catalog, prefs: seq<string>, allergies: seq<string>, day: nat, draw: Draw)
    requires IsPlannedDay(plan, FinalFoods(foodsDb, prefs, allergies), day, draw)
    ensures Breakfast in foodsDb && plan.breakfast in foodsDb[Breakfast]
    ensures Lunch in foodsDb && plan.lunch in foodsDb[Lunch]
    ensures Dinner in foodsDb && plan.dinner in foodsDb[Dinner]
    ensures Snacks in foodsDb && |plan.snacks| == 2 && plan.snacks[0] in foodsDb[Snacks] && plan.snacks[1] in foodsDb[Snacks]
    ensures plan.nutrition.calories == plan.breakfast.calories + plan.lunch.calories + plan.dinner.calories
                                       + plan.snacks[0].calories + plan.snacks[1].calories
    ensures forall items | multiset(items) == multiset(Meals(plan)) :: plan.nutrition == Total(items)
  {
    var final := FinalFoods(foodsDb, prefs, allergies);
    FinalFoodsSlot(foodsDb, prefs, allergies, Breakfast);
    FinalFoodsSlot(foodsDb, prefs, allergies, Lunch);
    FinalFoodsSlot(foodsDb, prefs, allergies, Dinner);
    FinalFoodsSlot(foodsDb, prefs, allergies, Snacks);
    assert plan.breakfast in final[Breakfast];
    assert plan.lunch in final[Lunch];
    assert plan.dinner in final[Dinner];
    assert plan.snacks[0] in final[Snacks] && plan.snacks[1] in final[Snacks];
    TotalOfFive(plan);
    forall items | multiset(items) == multiset(Meals(plan)) ensures plan.nutrition == Total(items) {
      TotalPermutation(items, Meals(plan));
    }
  }

  /** The days of a generated plan carry pairwise different labels. */
  lemma PlanLabelsDistinct(plan: seq<DayPlan>, foods: Catalog, draws: seq<Draw>)
    requires |plan| <= |draws|
    requires forall d | 0 <= d < |plan| :: IsPlannedDay(plan[d], foods, d + 1, draws[d])
    ensures forall i, j | 0 <= i < j < |plan| :: plan[i].title != plan[j].title
  {
    forall i, j | 0 <= i < j < |plan| ensures plan[i].title != plan[j].title {
      if plan[i].title == plan[j].title {
        DayLabelInjective(i + 1, j + 1);
      }
    }
  }
}
