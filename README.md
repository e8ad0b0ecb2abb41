# Meal-plan generator: a Dafny model

This project models the logic behind a small Streamlit app that builds a
personalised weekly meal plan. It covers:

- **Profile calculations** (`Profile.dfy`).
  - The BMI band shown next to the BMI: underweight, normal, overweight or obese.
  - The daily calorie target: the Mifflin-St Jeor basal metabolic rate, times an activity factor, plus a goal adjustment, rounded.
  - Arithmetic is on exact reals. Python's `round` is modelled as round-half-even on the exact value.
  - Example: a 30-year-old, 70 kg, 170 cm, sedentary and keeping weight gets 1941 kcal (male) and 1742 kcal (female).
- **Allergy terms** (`MealPlan.dfy`, with `Text.dfy`). The text box is split on commas. Each piece is stripped of whitespace (Python's `str.isspace` set) and lower-cased. Blank pieces are dropped.
- **Meal-plan generation** (`MealPlan.dfy`).
  - Loading the catalog. A missing file or a JSON syntax error gives four empty slots. Otherwise missing slots are added as empty lists.
  - The preference and allergen filter, applied slot by slot. The "无特殊偏好" (no preference) choice bypasses it.
  - The fallback. A slot the filter emptied goes back to its full catalog list.
  - The day loop. Each day draws one breakfast, one lunch, one dinner and two snacks, sums calories, protein, carbs and fat over the five foods, and is stored under the label "第 {day} 天".
  - `random.choice` becomes a caller-supplied index per draw (`Draw`), so every property holds for every possible draw.
  - Where the program would raise `KeyError` (a missing slot) or `IndexError` (an empty slot) on the first day, the model returns an error naming the first such slot.
- **Custom-food helpers** (`CustomFoods.dfy`).
  - `merge_food_data`: key-wise concatenation of two slot maps, original foods first.
  - `validate_food_data`: the four required slots exist, none is empty, and every food in them has the six required fields. It reports the first failure met.

Supporting modules:

- `Wrappers.dfy`: `Option` and `Result`.
- `Foods.dfy`: the `Food` record, the catalog type and the four meal-slot keys.
- `Text.dfy`: Python's `strip`, ASCII `lower`, `split`, `in` on strings and `str(n)`. Its lemmas are the split/join round trip behind the allergy parsing and the decimal round trip that keeps the day labels distinct.

## Model

| member | source | states |
|---|---|---|
| Profile.ClassifyBmi | app.py:69-77 | the band is underweight iff BMI < 18.5, normal iff 18.5 <= BMI < 24, overweight iff 24 <= BMI < 28, obese iff BMI >= 28 (exactly one band per BMI) |
| Profile.ClassifyBmiMonotone | app.py:70-77 | a larger BMI never lands in a lighter band |
| Profile.ClassifyBmiBoundaries | app.py:70-77 | 18.5, 24 and 28 each belong to the heavier band |
| Profile.DefaultProfileBmi | app.py:64-77 | the sidebar defaults (70 kg, 170 cm) give a BMI between 24.2 and 24.3, shown as "超重" |
| Profile.StatusLabelInjective | app.py:70-77 | the four bands are shown with four different labels |
| Profile.ActivityFactor | app.py:80-86 | every activity multiplier lies between 1.2 and 1.9 |
| Profile.ActivityFactorIncreasing | app.py:80-86 | a more active tier has a strictly larger multiplier |
| Profile.CalorieAdjustment | app.py:91-95 | the adjustment is negative iff losing weight, zero iff keeping weight, positive iff gaining muscle |
| Profile.BmrSlopes | app.py:113-116 | each extra kilogram adds 10 kcal, each extra centimetre 6.25 kcal, each extra year takes 5 kcal away |
| Profile.BmrSexGap | app.py:113-116 | for identical weight, height and age the male BMR exceeds the female BMR by exactly 166 |
| Profile.RoundHalfEven | app.py:124 | the rounded value is within 1/2 of the input, and on a tie it is the even neighbour |
| Profile.RoundHalfEvenUnique | app.py:124 | those two properties determine the rounded value uniquely |
| Profile.RoundHalfEvenMonotone | app.py:124 | rounding preserves order |
| Profile.CalculateCalories | app.py:111-124 | the target is within 1/2 of BMR × activity factor + goal adjustment |
| Profile.GoalOrdering | app.py:91-97 | for the same profile and activity level, the lose-weight target <= the keep-weight target <= the gain-muscle target |
| Profile.CalculateCaloriesExample | app.py:111-124 | the 30-year-old, 70 kg, 170 cm, sedentary, keep-weight profile gets 1941 kcal (male) and 1742 kcal (female) |
| MealPlan.EmptyCatalog | app.py:31-36 | the default catalog has exactly the four meal-slot keys, each with an empty list |
| MealPlan.LoadFoodData | app.py:38-54 | a parsed catalog keeps every key and list and gains each missing meal slot as an empty list; a missing file or a JSON syntax error gives the empty catalog |
| Text.Strip | app.py:108 | `strip()`: a non-empty result starts and ends with a non-space character |
| Text.StripIsSlice | app.py:108 | the stripped text is a contiguous slice of the input with only whitespace before and after it |
| Text.StripEmptyIffBlank | app.py:108 | a piece strips to the empty string iff it is all whitespace (the `if item.strip()` test) |
| Text.Lower | app.py:108 | `lower()`: same length; each capital A-Z becomes its small letter (code + 32); every other character, Chinese ones included, is unchanged; no capital is left |
| Text.LowerIdempotent | app.py:108 | lower-casing twice is lower-casing once |
| Text.Split | app.py:108 | `split(",")`: at least one piece, none containing the separator |
| Text.JoinSplit | app.py:108 | joining the pieces of a split with the separator gives back the text |
| Text.SplitJoin | app.py:108 | splitting a join of separator-free pieces gives back the pieces |
| Text.SplitPrefix | app.py:108 | splitting text that begins with a separator-free prefix glues the prefix onto the first piece |
| MealPlan.LowerNonBlank | app.py:108 | keeping the non-blank pieces never yields more terms than pieces |
| MealPlan.LowerNonBlankOrigin | app.py:108 | every term is the lower-cased form of some non-blank stripped piece |
| MealPlan.LowerNonBlankComplete | app.py:108 | every non-blank stripped piece contributes its lower-cased form |
| MealPlan.TermShape | app.py:108 | a non-blank, comma-free piece gives a non-empty, unpadded, lower-case, comma-free term |
| MealPlan.ParseAllergies | app.py:108 | `allergies_list`: every non-blank comma-separated piece gives its stripped, lower-cased term; every term is the stripped, lower-cased form of some non-blank piece; every term is well formed |
| MealPlan.KeepOnly | app.py:150-155 | the filtered list is no longer than the slot and every food in it matches a preference and contains no allergy term |
| MealPlan.NoAllergiesExcludeNothing | app.py:154 | with no allergy terms no food is excluded as containing an allergen |
| MealPlan.EmptyTermExcludesEveryFood | app.py:154 | an empty term would be a substring of every lower-cased name and exclude every food (why blank pieces are dropped) |
| MealPlan.KeepWidens | app.py:152-154 | a food that passes the test still passes with more preferences and fewer allergy terms |
| MealPlan.KeepOnlyAppend | app.py:150-155 | filtering a concatenation is the concatenation of the filtered parts |
| MealPlan.KeepOnlyMembers | app.py:150-155 | a food survives the filter iff it is in the slot, some category matches a preference, and no allergy term is a substring of its lower-cased name |
| MealPlan.KeepOnlySubsequence | app.py:150-155 | the filtered slot keeps the catalog's order: it is a subsequence of the slot's list |
| MealPlan.FilterFoods | app.py:144-155 | the filtering loop yields, per catalog key, the list untouched under "no preference" and otherwise exactly the foods passing the test, in order |
| MealPlan.ApplyFallback | app.py:158-160 | the fallback loop replaces exactly the emptied slots by their catalog lists and keeps the others |
| MealPlan.WithFallback | app.py:158-160 | same keys; a slot the filter left non-empty keeps its filtered list; a slot ends up empty iff both its filtered and its catalog list are empty; each slot is either its filtered list or its catalog list |
| MealPlan.WithFallbackIdempotent | app.py:158-160 | falling back a second time changes nothing |
| MealPlan.NoPreferenceKeepsCatalog | app.py:146-147 | with "no preference" chosen, filter plus fallback return the catalog unchanged |
| MealPlan.FinalFoodsSlot | app.py:144-160 | each final slot is the filtered list, or the full list when that is empty; a non-empty slot stays non-empty; every food in it is a catalog food of the slot |
| MealPlan.FinalFoodsRespectPreferences | app.py:149-160 | when the filter left something, a food is in the final slot iff it is in the catalog slot and passes the preference and allergen test |
| MealPlan.TotalOfFive | app.py:172-182 | a day's total is, field by field, the sum over breakfast, lunch, dinner and the two snacks |
| MealPlan.TotalAppend | app.py:172-182 | the total of a concatenation is the sum of the totals |
| MealPlan.TotalMoveToFront | app.py:172-182 | moving one food to the front leaves the total unchanged |
| MealPlan.TotalPermutation | app.py:172-182 | the total does not depend on the order of the foods |
| MealPlan.DayLabel | app.py:184 | the label is "第 ", then decimal digits with no leading zero, then " 天", and the digits read back as the day number |
| MealPlan.DayLabelInjective | app.py:184 | different day numbers give different labels "第 {day} 天" |
| Text.NatToString | app.py:184 | `str(day)`: non-empty, decimal digits only, no leading zero |
| Text.DecimalRoundTrip | app.py:184 | reading back the decimal text of a number gives the number |
| Text.NatToStringInjective | app.py:184 | different numbers have different decimal texts |
| MealPlan.FirstUnavailable | app.py:165-168 | there is no failing slot iff all four slots are present and non-empty; otherwise the reported failure is that of the first bad slot in breakfast, lunch, dinner, snacks order |
| MealPlan.Choice | app.py:165-168 | `random.choice` on a slot fails iff the slot is missing or empty, reporting which; otherwise it returns the slot's food at the drawn index, a member of the slot |
| MealPlan.PlanDay | app.py:164-182 | one day fails iff some slot is missing or empty, reporting the first in breakfast, lunch, dinner, snacks order; otherwise the day holds the drawn foods, its label and their exact totals |
| MealPlan.GenerateMealPlan | app.py:140-186 | fails iff days >= 1 and a final slot is missing or empty (reporting the first); otherwise it gives max(days, 0) days, day d labelled "第 d 天" and drawn from the filtered-with-fallback slots, with exact totals |
| MealPlan.FallbackPreventsFailure | app.py:158-168 | if the catalog's four slots are non-empty, no preferences or allergies make generation fail |
| MealPlan.PlannedDayFromCatalog | app.py:158-182 | every food of a planned day is a catalog food of its slot, the calorie total is the sum of the five calories, and the totals are order-independent |
| MealPlan.PlanLabelsDistinct | app.py:163-184 | the days of a plan carry pairwise different labels, so none overwrites another |
| CustomFoods.MergeFoodData | custom_foods.py:27-52 | the merge loop builds, for every key of either input, the original foods followed by the custom foods |
| CustomFoods.MergeSlot | custom_foods.py:41-50 | the merged keys are the union of the input keys; each merged list is the original list (missing = empty) followed by the custom list, in order, and its length is the sum |
| CustomFoods.MergeIdentity | custom_foods.py:38-52 | merging with an empty catalog on either side changes nothing |
| CustomFoods.MergeKeys | custom_foods.py:41-42 | the merged key set is the union of the two key sets |
| CustomFoods.LookupMerge | custom_foods.py:42-50 | reading any key of a merge, present or not, gives the two inputs' lists joined |
| CustomFoods.LookupMergeAssociative | custom_foods.py:42-50 | every key reads the same from both groupings of three merges |
| CustomFoods.MergeAssociative | custom_foods.py:27-52 | merging three catalogs gives the same result however the merges are grouped |
| CustomFoods.ValidateFoodData | custom_foods.py:54-85 | returns true iff every required slot exists, is non-empty, and has only foods with all six fields; on false it reports the first failure in slot, food and field order |
| CustomFoods.FirstFailureUnique | custom_foods.py:64-85 | at most one failure is the first, so the reported failure is determined by the catalog |
| CustomFoods.MissingMealTypeInvalid | custom_foods.py:68-71 | a missing required slot makes the catalog invalid |
| CustomFoods.EmptyMealTypeInvalid | custom_foods.py:74-76 | an empty required slot makes the catalog invalid |
| CustomFoods.MissingFieldInvalid | custom_foods.py:79-83 | a food in a required slot lacking a required field makes the catalog invalid |
| CustomFoods.MergeKeepsValid | custom_foods.py:27-85 | merging a valid custom catalog into an original whose required-slot foods are complete gives a valid catalog |

## Left out

- The Streamlit page: the sidebar widgets, metrics, tabs, charts, markdown output and the generate button. These are user-interface plumbing. Their inputs (age, sex, weight, height, activity level, goal, preferences, allergy text, days) are parameters instead.
- Load failures other than a missing file and a JSON syntax error: the program catches only `FileNotFoundError` and `JSONDecodeError`, so a file that is not UTF-8 raises out of `load_food_data`. A JSON top level other than an object is not modelled either; it usually raises at app.py:45-46. `FileOutcome` has no case for these.
- Profile.Bmi: only the band of the default profile is proved. General facts about the division (such as the BMI growing with the weight) are not stated, because the solver does not settle that nonlinear real arithmetic.
- JSON file reading in `load_food_data` and `load_custom_foods`. The model takes the read's outcome (`FileOutcome`) as a parameter. `load_custom_foods` itself, which only reads a file and reports errors, is not modelled.
- The `st.warning` and `st.error` messages of loading and validation. Validation returns the structured failure instead of printing it.
- The pandas table, the CSV export and the macro-percentage display. These are formatting only.
- The random number source. Draws are caller-supplied indices. Their range is a precondition on the non-empty slots.
- Profile.CalculateCalories: does not model binary floating point. The target is computed on exact reals, so a float product that lands on the other side of a .5 could round differently in the program.
- The proof that a more active level never lowers the calorie target is not included. The rounding proof over products of reals with `Floor` is out of reach of the solver.
- Text.Lower: lower-cases ASCII letters only. Python's `lower` also maps non-ASCII capitals. Allergen matching on non-ASCII capital letters is therefore not modelled.
- Nutrition values are integers. A catalog with fractional calories or macros is not modelled.
- Foods lacking a field in the generator (a `KeyError` in the program): the `Food` record always has all six fields, so this case cannot be represented. Validation works on raw key/value records instead.
- Python errors on the first day are returned as `Err`: `KeyError` for a missing slot and `IndexError` for an empty one.
- Aliasing: the program stores references to catalog lists and food records, so mutating them later would show through. Catalogs here are values. That merging leaves both inputs unchanged therefore holds by construction.
- The commented example code and the `__main__` demo at the end of `custom_foods.py`.
