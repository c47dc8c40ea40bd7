/** The weekly meal planner: one free-text cell per day of the week and meal. */
module Planner {

  datatype Day = Monday | Tuesday | Wednesday | Thursday | Friday | Saturday | Sunday

  datatype Meal = Breakfast | Lunch | Dinner

  /** The days in the order the planner shows its columns. */
  const Days: seq<Day> := [Monday, Tuesday, Wednesday, Thursday, Friday, Saturday, Sunday]

  /** The meals in the order each column shows them. */
  const Meals: seq<Meal> := [Breakfast, Lunch, Dinner]

  type Plan = map<Day, map<Meal, string>>

  /** Every day has a cell for every meal. */
  predicate Complete(p: Plan) {
    forall d: Day :: d in p && forall m: Meal :: m in p[d]
  }

  /** The column of a day. */
  function DayIndex(d: Day): (i: nat)
    ensures i < |Days| && Days[i] == d
  {
    match d
    case Monday => 0
    case Tuesday => 1
    case Wednesday => 2
    case Thursday => 3
    case Friday => 4
    case Saturday => 5
    case Sunday => 6
  }

  /** The row of a meal. */
  function MealIndex(m: Meal): (i: nat)
    ensures i < |Meals| && Meals[i] == m
  {
    match m
    case Breakfast => 0
    case Lunch => 1
    case Dinner => 2
  }

  lemma AllListed()
    ensures forall d: Day :: d in Days
    ensures forall m: Meal :: m in Meals
  {
    forall d: Day ensures d in Days { assert Days[DayIndex(d)] == d; }
    forall m: Meal ensures m in Meals { assert Meals[MealIndex(m)] == m; }
  }

  /** The planner as first created: every cell empty. */
  function EmptyPlan(): (p: Plan)
    ensures Complete(p)
    ensures forall d: Day, m: Meal :: p[d][m] == ""
  {
    AllListed();
    map d: Day | d in Days :: map m: Meal | m in Meals :: ""
  }

  /** Cell (d, m) comes before cell (i, j) in the planner's column-by-column order. */
  predicate Before(d: Day, m: Meal, i: nat, j: nat) {
    DayIndex(d) < i || (DayIndex(d) == i && MealIndex(m) < j)
  }

  /** `p` is `p0` with `edit` applied to every cell before (i, j) and no other. */
  ghost predicate EditedUpTo(p: Plan, p0: Plan, edit: (Day, Meal, string) -> string, i: nat, j: nat)
    requires Complete(p) && Complete(p0)
  {
    forall d: Day, m: Meal :: p[d][m] == if Before(d, m, i, j) then edit(d, m, p0[d][m]) else p0[d][m]
  }

  /** Editing cell (i, j) extends the edited part by one cell. */
  lemma EditCell(p: Plan, p0: Plan, edit: (Day, Meal, string) -> string, i: nat, j: nat)
    requires Complete(p) && Complete(p0) && i < |Days| && j < |Meals|
    requires EditedUpTo(p, p0, edit, i, j)
    ensures var day, meal := Days[i], Meals[j];
      var q := p[day := p[day][meal := edit(day, meal, p[day][meal])]];
      Complete(q) && EditedUpTo(q, p0, edit, i, j + 1)
  {
    var day, meal := Days[i], Meals[j];
    assert DayIndex(day) == i && MealIndex(meal) == j;
    var q := p[day := p[day][meal := edit(day, meal, p[day][meal])]];
    forall d: Day, m: Meal
      ensures q[d][m] == if Before(d, m, i, j + 1) then edit(d, m, p0[d][m]) else p0[d][m]
    {
      if d == day && m == meal {
        assert !Before(d, m, i, j);
      }
    }
  }

  /** Having edited a whole column is having edited up to the top of the next one. */
  lemma NextColumn(p: Plan, p0: Plan, edit: (Day, Meal, string) -> string, i: nat)
    requires Complete(p) && Complete(p0)
    requires EditedUpTo(p, p0, edit, i, |Meals|)
    ensures EditedUpTo(p, p0, edit, i + 1, 0)
  {
    forall d: Day, m: Meal ensures Before(d, m, i, |Meals|) == Before(d, m, i + 1, 0) {
      assert MealIndex(m) < |Meals|;
    }
  }
}
