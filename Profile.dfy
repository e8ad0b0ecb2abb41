/**
  The two pure calculations of the profile sidebar: the BMI band shown next to
  the BMI, and the daily calorie target (Mifflin-St Jeor basal rate times an
  activity factor plus a goal adjustment, rounded). Arithmetic is on exact reals.
*/
module Profile {

  datatype Sex = Male | Female

  /** The five activity tiers of the sidebar and their multipliers. */
  datatype ActivityLevel = Sedentary | Light | Moderate | Active | VeryActive

  /** Position of a tier from least to most active. */
  function ActivityRank(level: ActivityLevel): nat
  {
    match level
    case Sedentary => 0
    case Light => 1
    case Moderate => 2
    case Active => 3
    case VeryActive => 4
  }

  function ActivityFactor(level: ActivityLevel): (factor: real)
    ensures 1.2 <= factor <= 1.9
  {
    match level
    case Sedentary => 1.2
    case Light => 1.375
    case Moderate => 1.55
    case Active => 1.725
    case VeryActive => 1.9
  }

  /** A more active tier has a strictly larger multiplier. */
  lemma ActivityFactorIncreasing(a: ActivityLevel, b: ActivityLevel)
    requires ActivityRank(a) < ActivityRank(b)
    ensures ActivityFactor(a) < ActivityFactor(b)
  {
  }

  /** The three health goals and their signed calorie adjustments. */
  datatype HealthGoal = LoseWeight | KeepWeight | GainMuscle

  function CalorieAdjustment(goal: HealthGoal): (adjustment: int)
    ensures adjustment < 0 <==> goal == LoseWeight
    ensures adjustment == 0 <==> goal == KeepWeight
    ensures adjustment > 0 <==> goal == GainMuscle
  {
    match goal
    case LoseWeight => -500
    case KeepWeight => 0
    case GainMuscle => 300
  }

  // ---------------------------------------------------------------------------
  // BMI band

  datatype BmiStatus = Underweight | NormalWeight | Overweight | Obese

  /** Body-mass index from weight in kg and height in cm. */
  function Bmi(weight: real, height: real): real
    requires height > 0.0
  {
    weight / ((height / 100.0) * (height / 100.0))
  }

  /** The if/elif chain on the BMI: each band is a half-open interval. */
  function ClassifyBmi(bmi: real): (status: BmiStatus)
    ensures status == Underweight <==> bmi < 18.5
    ensures status == NormalWeight <==> 18.5 <= bmi < 24.0
    ensures status == Overweight <==> 24.0 <= bmi < 28.0
    ensures status == Obese <==> 28.0 <= bmi
  {
    if bmi < 18.5 then Underweight
    else if bmi < 24.0 then NormalWeight
    else if bmi < 28.0 then Overweight
    else Obese
  }

  /** Position of a band on the scale from lightest to heaviest. */
  function Severity(status: BmiStatus): nat
  {
    match status
    case Underweight => 0
    case NormalWeight => 1
    case Overweight => 2
    case Obese => 3
  }

  /** The label shown for each band. */
  function StatusLabel(status: BmiStatus): string
  {
    match status
    case Underweight => "体重过轻"
    case NormalWeight => "体重正常"
    case Overweight => "超重"
    case Obese => "肥胖"
  }

  /** A larger BMI never lands in a lighter band. */
  lemma ClassifyBmiMonotone(a: real, b: real)
    requires a <= b
    ensures Severity(ClassifyBmi(a)) <= Severity(ClassifyBmi(b))
  {
  }

  /** The boundary values belong to the heavier band. */
  lemma ClassifyBmiBoundaries()
    ensures ClassifyBmi(18.5) == NormalWeight
    ensures ClassifyBmi(24.0) == Overweight
    ensures ClassifyBmi(28.0) == Obese
  {
  }

  /** The sidebar's default 70 kg and 170 cm give BMI about 24.2, shown as "超重". */
  lemma DefaultProfileBmi()
    ensures 24.2 < Bmi(70.0, 170.0) < 24.3
    ensures StatusLabel(ClassifyBmi(Bmi(70.0, 170.0))) == "超重"
  {
    assert Bmi(70.0, 170.0) == 70.0 / 2.89;
  }

  /** Different bands are shown with different labels. */
  lemma StatusLabelInjective(a: BmiStatus, b: BmiStatus)
    requires StatusLabel(a) == StatusLabel(b)
    ensures a == b
  {
  }

  // ---------------------------------------------------------------------------
  // Calorie target

  /** Mifflin-St Jeor basal metabolic rate (kg, cm, years). */
  function Bmr(sex: Sex, weight: real, height: real, age: int): real
  {
    var common := 10.0 * weight + 6.25 * height - 5.0 * age as real;
    if sex == Male then common + 5.0 else common - 161.0
  }

  /** Each extra kilogram adds 10 kcal, each extra centimetre 6.25 kcal, and each extra year takes 5 kcal away. */
  lemma BmrSlopes(sex: Sex, weight: real, height: real, age: int)
    ensures Bmr(sex, weight + 1.0, height, age) - Bmr(sex, weight, height, age) == 10.0
    ensures Bmr(sex, weight, height + 1.0, age) - Bmr(sex, weight, height, age) == 6.25
    ensures Bmr(sex, weight, height, age + 1) - Bmr(sex, weight, height, age) == -5.0
  {
  }

  /** For identical inputs the male rate exceeds the female rate by exactly 166 kcal. */
  lemma BmrSexGap(weight: real, height: real, age: int)
    ensures Bmr(Male, weight, height, age) - Bmr(Female, weight, height, age) == 166.0
  {
  }

  /**
    Python's `round` on an exact value: the nearest integer, ties going to the
    even neighbour.
  */
  function RoundHalfEven(x: real): (r: int)
    ensures -0.5 <= r as real - x <= 0.5
    ensures (r as real - x == 0.5 || x - r as real == 0.5) ==> r % 2 == 0
  {
    var f := x.Floor;
    var frac := x - f as real;
    if frac < 0.5 then f
    else if frac > 0.5 then f + 1
    else if f % 2 == 0 then f
    else f + 1
  }

  /** The two properties of RoundHalfEven pin its result down uniquely. */
  lemma RoundHalfEvenUnique(x: real, n: int)
    requires -0.5 <= n as real - x <= 0.5
    requires (n as real - x == 0.5 || x - n as real == 0.5) ==> n % 2 == 0
    ensures n == RoundHalfEven(x)
  {
  }

  /** Rounding never reverses the order of two values. */
  lemma RoundHalfEvenMonotone(x: real, y: real)
    requires x <= y
    ensures RoundHalfEven(x) <= RoundHalfEven(y)
  {
  }

  /** The daily calorie target: BMR times the activity factor plus the goal adjustment, rounded. */
  function CalculateCalories(sex: Sex, weight: real, height: real, age: int, activityFactor: real, adjustment: int): (target: int)
    ensures -0.5 <= target as real - (Bmr(sex, weight, height, age) * activityFactor + adjustment as real) <= 0.5
  {
    var bmr := Bmr(sex, weight, height, age);
    var tdee := bmr * activityFactor;
    RoundHalfEven(tdee + adjustment as real)
  }

  /** Losing weight never targets more than keeping it, and keeping it never more than gaining muscle. */
  lemma GoalOrdering(sex: Sex, weight: real, height: real, age: int, level: ActivityLevel)
    ensures var f := ActivityFactor(level);
      && CalculateCalories(sex, weight, height, age, f, CalorieAdjustment(LoseWeight))
         <= CalculateCalories(sex, weight, height, age, f, CalorieAdjustment(KeepWeight))
      && CalculateCalories(sex, weight, height, age, f, CalorieAdjustment(KeepWeight))
         <= CalculateCalories(sex, weight, height, age, f, CalorieAdjustment(GainMuscle))
  {
    var tdee := Bmr(sex, weight, height, age) * ActivityFactor(level);
    RoundHalfEvenMonotone(tdee - 500.0, tdee);
    RoundHalfEvenMonotone(tdee, tdee + 300.0);
  }

  /**
    A 30-year-old, 70 kg, 170 cm, sedentary, keeping weight: BMR 1617.5 (male)
    and 1451.5 (female), so targets 1941 and 1742 kcal.
  */
  lemma CalculateCaloriesExample()
    ensures CalculateCalories(Male, 70.0, 170.0, 30, ActivityFactor(Sedentary), CalorieAdjustment(KeepWeight)) == 1941
    ensures CalculateCalories(Female, 70.0, 170.0, 30, ActivityFactor(Sedentary), CalorieAdjustment(KeepWeight)) == 1742
  {
    RoundHalfEvenUnique(1941.0, 1941);
    RoundHalfEvenUnique(1741.8, 1742);
  }
}
