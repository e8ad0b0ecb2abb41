/**
  The food catalog shared by the meal-plan generator and the custom-food helpers:
  a food record and a catalog mapping each meal slot to its ordered list of foods.
*/
module Foods {

  /** One catalog entry; nutrition figures are whole numbers (kcal and grams). */
  datatype Food = Food(
    name: string,
    calories: int,
    protein: int,
    carbs: int,
    fat: int,
    category: seq<string>)

  /** Meal slot key to the ordered list of foods for that slot. */
  type Catalog = map<string, seq<Food>>

  const Breakfast: string := "breakfast"
  const Lunch: string := "lunch"
  const Dinner: string := "dinner"
  const Snacks: string := "snacks"

  /** The four meal slots, in the order the program visits them. */
  const MealTypes: seq<string> := [Breakfast, Lunch, Dinner, Snacks]
}
