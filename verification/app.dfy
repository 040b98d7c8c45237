/** The pure state updates of the application shell: swapping one dish of a
    plan day, and ticking meals and medication doses off in the tracking
    record. Persistence and the React state plumbing around them are left
    out. */
module App {
  import opened Common
  import Catalog
  import opened Engine
  import opened Swap

  // ---- Swap splice ----

  /** The first position from `i` on whose day has the date, if any. */
  function FindFrom(plan: seq<Day>, date: int, i: nat): (r: Option<nat>)
    requires i <= |plan|
    ensures r.Some? ==> i <= r.value < |plan| && plan[r.value].date == date
    ensures r.Some? ==> forall j :: i <= j < r.value ==> plan[j].date != date
    ensures r.None? ==> forall j :: i <= j < |plan| ==> plan[j].date != date
    decreases |plan| - i
  {
    if i == |plan| then None
    else if plan[i].date == date then Some(i)
    else FindFrom(plan, date, i + 1)
  }

  /** `findIndex` on the date: the first day with that date. */
  function FindDay(plan: seq<Day>, date: int): (r: Option<nat>)
    ensures r.Some? ==> r.value < |plan| && plan[r.value].date == date
    ensures r.Some? ==> forall j :: 0 <= j < r.value ==> plan[j].date != date
    ensures r.None? <==> forall j :: 0 <= j < |plan| ==> plan[j].date != date
  {
    FindFrom(plan, date, 0)
  }

  /** The day with one slot's dish replaced; the lunch's carbohydrate flag is
      recomputed only when the lunch is the slot replaced. */
  function SwapInDay(day: Day, s: Slot, newMeal: Dish): (r: Day)
    ensures r.date == day.date && r.pattern == day.pattern
    ensures r.meals.Get(s) == newMeal
    ensures forall t :: t != s ==> r.meals.Get(t) == day.meals.Get(t)
    ensures s == Comida ==> r.comidaHasCarbs == newMeal.hasCarbs
    ensures s != Comida ==> r.comidaHasCarbs == day.comidaHasCarbs
  {
    var updated := day.(meals := day.meals.Set(s, newMeal));
    if s == Comida then updated.(comidaHasCarbs := newMeal.hasCarbs) else updated
  }

  /** What the resolver is told about a day. */
  function ContextOf(day: Day): DayContext {
    DayContext(PatternName(day.pattern), day.comidaHasCarbs)
  }

  /** `handleSwapMeal`: finds the day with the date, asks the resolver for a
      replacement of the slot's dish with no extra blacklist, and splices the
      updated day into the plan. Nothing changes when no day has the date,
      when the key names no slot, or when there is no replacement. */
  function SwapMeal(catalog: Pools, plan: seq<Day>, date: int, mealKey: string, profile: Profile,
                    k: nat): (r: seq<Day>)
    requires Catalog.NonEmptyPools(catalog)
    ensures |r| == |plan|
    ensures forall i :: 0 <= i < |plan| && plan[i].date != date ==> r[i] == plan[i]
  {
    match FindDay(plan, date)
    case None => plan
    case Some(dayIndex) =>
      var day := plan[dayIndex];
      match SlotOf(mealKey)
      case None => plan
      case Some(s) =>
        match GetAlternativeMeal(catalog, mealKey, day.meals.Get(s), profile, [], ContextOf(day), k)
        case None => plan
        case Some(newMeal) => plan[dayIndex := SwapInDay(day, s, newMeal)]
  }

  /** No day has the date: the plan is unchanged. */
  lemma SwapMissingDate(catalog: Pools, plan: seq<Day>, date: int, mealKey: string, profile: Profile, k: nat)
    requires Catalog.NonEmptyPools(catalog)
    requires forall i :: 0 <= i < |plan| ==> plan[i].date != date
    ensures SwapMeal(catalog, plan, date, mealKey, profile, k) == plan
  {
  }

  /** The key names no slot, so the day has no dish there: the plan is
      unchanged. */
  lemma SwapUnknownSlot(catalog: Pools, plan: seq<Day>, date: int, mealKey: string, profile: Profile, k: nat)
    requires Catalog.NonEmptyPools(catalog)
    requires SlotOf(mealKey).None?
    ensures SwapMeal(catalog, plan, date, mealKey, profile, k) == plan
  {
  }

  /** The resolver finds no replacement: the plan is unchanged. */
  lemma SwapWithoutAlternative(catalog: Pools, plan: seq<Day>, date: int, s: Slot, profile: Profile, k: nat)
    requires Catalog.NonEmptyPools(catalog)
    requires FindDay(plan, date).Some?
    requires var day := plan[FindDay(plan, date).value];
             GetAlternativeMeal(catalog, SlotKey(s), day.meals.Get(s), profile, [], ContextOf(day), k).None?
    ensures SwapMeal(catalog, plan, date, SlotKey(s), profile, k) == plan
  {
  }

  /** A swap that finds a replacement changes exactly one slot of the first
      day with the date: that slot holds a dish other than the one it held,
      the carbohydrate flag follows the new dish only for the lunch, and
      every other day, slot and field is as it was. */
  lemma SwapChangesOneSlot(catalog: Pools, plan: seq<Day>, date: int, s: Slot, profile: Profile, k: nat)
    requires Catalog.NonEmptyPools(catalog)
    requires FindDay(plan, date).Some?
    requires var day := plan[FindDay(plan, date).value];
             GetAlternativeMeal(catalog, SlotKey(s), day.meals.Get(s), profile, [], ContextOf(day), k).Some?
    ensures var i := FindDay(plan, date).value;
            var r := SwapMeal(catalog, plan, date, SlotKey(s), profile, k);
            && |r| == |plan|
            && (forall j :: 0 <= j < |plan| && j != i ==> r[j] == plan[j])
            && r[i].date == date && r[i].pattern == plan[i].pattern
            && r[i].meals.Get(s).id != plan[i].meals.Get(s).id
            && (forall t :: t != s ==> r[i].meals.Get(t) == plan[i].meals.Get(t))
            && (s == Comida ==> r[i].comidaHasCarbs == r[i].meals.comida.hasCarbs)
            && (s != Comida ==> r[i].comidaHasCarbs == plan[i].comidaHasCarbs)
  {
    assert SlotOf(SlotKey(s)) == Some(s);
  }

  /** A swapped dinner keeps the compensation rule of the day it lands in:
      for a profile with diabetes it is a low-carb dinner after a
      carbohydrate lunch. */
  lemma SwapDinnerCompensates(catalog: Pools, plan: seq<Day>, date: int, profile: Profile, k: nat)
    requires Catalog.NonEmptyPools(catalog)
    requires FindDay(plan, date).Some?
    requires var day := plan[FindDay(plan, date).value];
             GetAlternativeMeal(catalog, "cena", day.meals.cena, profile, [], ContextOf(day), k).Some?
    ensures var i := FindDay(plan, date).value;
            var r := SwapMeal(catalog, plan, date, "cena", profile, k);
            var filtered := BuildFilteredMeals(catalog, profile.alergias);
            !IsSinDiabetes(profile) && r[i].comidaHasCarbs ==> Restamped(r[i].meals.cena, filtered.cenasLow)
  {
    var day := plan[FindDay(plan, date).value];
    AlternativeDinnerCompensates(catalog, day.meals.cena, profile, [], ContextOf(day), k);
  }

  // ---- Tracking toggles ----

  /** The tracking record: per date, per key, whether it was ticked off. */
  type Tracking = map<int, map<string, bool>>

  /** Whether a key is ticked on a date; a missing date or key is not. */
  predicate Ticked(t: Tracking, date: int, key: string) {
    date in t && key in t[date] && t[date][key]
  }

  /** Flips one key of one date, creating the date's record when missing. */
  function ToggleKey(t: Tracking, date: int, key: string): (r: Tracking)
    ensures Ticked(r, date, key) <==> !Ticked(t, date, key)
    ensures forall d, k :: d in r && k in r[d] && (d != date || k != key) ==> d in t && k in t[d] && r[d][k] == t[d][k]
    ensures forall d, k :: d in t && k in t[d] && (d != date || k != key) ==> d in r && k in r[d] && r[d][k] == t[d][k]
    ensures r.Keys == t.Keys + {date}
  {
    var dayTrack := if date in t then t[date] else map[];
    var was := key in dayTrack && dayTrack[key];
    t[date := dayTrack[key := !was]]
  }

  /** `handleToggleMeal`: flips the meal key of the date. */
  function ToggleMeal(t: Tracking, date: int, mealKey: string): (r: Tracking)
    ensures Ticked(r, date, mealKey) <==> !Ticked(t, date, mealKey)
  {
    ToggleKey(t, date, mealKey)
  }

  /** The tracking key of a medication dose. */
  function MedKey(slot: string): (r: string)
    ensures |r| == |slot| + 4
    ensures r[..4] == "med_" && r[4..] == slot
  {
    "med_" + slot
  }

  /** `handleToggleMed`: flips the `med_` key of the slot on the date. */
  function ToggleMed(t: Tracking, date: int, slot: string): (r: Tracking)
    ensures Ticked(r, date, MedKey(slot)) <==> !Ticked(t, date, MedKey(slot))
  {
    ToggleKey(t, date, MedKey(slot))
  }

  /** Toggling twice restores whether every key is ticked. */
  lemma ToggleTwice(t: Tracking, date: int, key: string, d: int, k: string)
    ensures Ticked(ToggleKey(ToggleKey(t, date, key), date, key), d, k) == Ticked(t, d, k)
  {
  }

  /** A toggle leaves every other date and key as ticked as it was. */
  lemma ToggleOnlyOne(t: Tracking, date: int, key: string, d: int, k: string)
    requires d != date || k != key
    ensures Ticked(ToggleKey(t, date, key), d, k) == Ticked(t, d, k)
  {
  }

  /** A medication key never names a meal slot, so ticking a dose never
      changes whether a meal is ticked. */
  lemma MedNeverTicksMeal(t: Tracking, date: int, slot: string, d: int, s: Slot)
    ensures Ticked(ToggleMed(t, date, slot), d, SlotKey(s)) == Ticked(t, d, SlotKey(s))
  {
    assert MedKey(slot)[3] == '_';
    assert SlotKey(s)[3] != '_';
  }
}
