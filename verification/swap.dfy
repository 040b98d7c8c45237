/** The swap resolver of the meal-plan engine: a replacement dish for one
    slot of one day, drawn from the pool the generator would have used for
    that slot, never the current dish nor a blacklisted one. */
module Swap {
  import opened Common
  import Catalog
  import opened Engine

  /** What the resolver knows about the day: its stored lunch pattern name
      (missing is the empty string) and its carbohydrate flag. */
  datatype DayContext = DayContext(pattern: string, comidaHasCarbs: bool)

  /** The pool a replacement for slot `s` is drawn from: the generator's pool
      for the slot, with the lunch pattern read from the stored name. */
  function SwapPool(pools: Pools, s: Slot, ctx: DayContext, sinDiabetes: bool): seq<Dish> {
    GenPool(pools, s, ParsePattern(ctx.pattern), ctx.comidaHasCarbs, sinDiabetes)
  }

  /** The pool's dishes other than the current one and the blacklisted
      ones. */
  function Candidates(pool: seq<Dish>, current: Dish, blacklist: seq<string>): (r: seq<Dish>)
    ensures forall d :: d in r <==> d in pool && d.id != current.id && d.id !in blacklist
  {
    var banned := [current.id] + blacklist;
    Filter(pool, (m: Dish) => m.id !in banned)
  }

  /** `getAlternativeMeal`: nothing for an unknown slot key or when every
      dish of the pool is the current or a blacklisted one; otherwise the
      candidate picked by the random index `k`, restamped with the
      medication reminder of the profile when the current dish carried
      one. */
  function GetAlternativeMeal(catalog: Pools, mealKey: string, current: Dish, profile: Profile,
                              blacklist: seq<string>, ctx: DayContext, k: nat): (r: Option<Dish>)
    requires Catalog.NonEmptyPools(catalog)
    ensures r.Some? ==> r.value.id != current.id && r.value.id !in blacklist
    ensures SlotOf(mealKey).None? ==> r.None?
  {
    var sinDiabetes := IsSinDiabetes(profile);
    var filtered := BuildFilteredMeals(catalog, profile.alergias);
    match SlotOf(mealKey)
    case None => None
    case Some(s) =>
      var candidates := Candidates(SwapPool(filtered, s, ctx, sinDiabetes), current, blacklist);
      if |candidates| == 0 then None
      else
        var newMeal := candidates[k % |candidates|];
        assert newMeal in candidates;
        if current.synjardy then Some(newMeal.(synjardy := !sinDiabetes)) else Some(newMeal)
  }

  /** The filtered pool the resolver draws slot `s` from. */
  function AlternativePool(catalog: Pools, s: Slot, profile: Profile, ctx: DayContext): seq<Dish>
    requires Catalog.NonEmptyPools(catalog)
  {
    SwapPool(BuildFilteredMeals(catalog, profile.alergias), s, ctx, IsSinDiabetes(profile))
  }

  /** The resolver finds nothing exactly when the key names no slot or every
      dish of the slot's pool is the current or a blacklisted one. */
  lemma AlternativeNone(catalog: Pools, mealKey: string, current: Dish, profile: Profile,
                        blacklist: seq<string>, ctx: DayContext, k: nat)
    requires Catalog.NonEmptyPools(catalog)
    ensures GetAlternativeMeal(catalog, mealKey, current, profile, blacklist, ctx, k).None? <==>
              (|| SlotOf(mealKey).None?
               || forall d :: d in AlternativePool(catalog, SlotOf(mealKey).value, profile, ctx) ==>
                    d.id == current.id || d.id in blacklist)
  {
    if SlotOf(mealKey).Some? {
      var s := SlotOf(mealKey).value;
      var candidates := Candidates(AlternativePool(catalog, s, profile, ctx), current, blacklist);
      if |candidates| > 0 {
        assert candidates[0] in candidates;
      }
    }
  }

  /** A found replacement is a dish of the slot's filtered pool, restamped
      with the profile's reminder exactly when the current dish carried the
      reminder and returned as it is otherwise. */
  lemma AlternativeFromPool(catalog: Pools, mealKey: string, current: Dish, profile: Profile,
                            blacklist: seq<string>, ctx: DayContext, k: nat)
    requires Catalog.NonEmptyPools(catalog)
    requires GetAlternativeMeal(catalog, mealKey, current, profile, blacklist, ctx, k).Some?
    ensures var d := GetAlternativeMeal(catalog, mealKey, current, profile, blacklist, ctx, k).value;
            var pool := AlternativePool(catalog, SlotOf(mealKey).value, profile, ctx);
            && (current.synjardy ==> d.synjardy == !IsSinDiabetes(profile) && Restamped(d, pool))
            && (!current.synjardy ==> d in pool)
  {
    var d := GetAlternativeMeal(catalog, mealKey, current, profile, blacklist, ctx, k).value;
    var pool := AlternativePool(catalog, SlotOf(mealKey).value, profile, ctx);
    var candidates := Candidates(pool, current, blacklist);
    var e := candidates[k % |candidates|];
    assert e in candidates;
    if current.synjardy {
      assert d == e.(synjardy := d.synjardy);
    }
  }

  /** A replacement lunch comes from the pool of the day's stored pattern,
      the vegetable pool when the name is missing or unknown. */
  lemma AlternativeLunchFollowsPattern(catalog: Pools, current: Dish, profile: Profile,
                                       blacklist: seq<string>, ctx: DayContext, k: nat)
    requires Catalog.NonEmptyPools(catalog)
    requires GetAlternativeMeal(catalog, "comida", current, profile, blacklist, ctx, k).Some?
    ensures var d := GetAlternativeMeal(catalog, "comida", current, profile, blacklist, ctx, k).value;
            var filtered := BuildFilteredMeals(catalog, profile.alergias);
            && (ctx.pattern == "carbs" ==> Restamped(d, filtered.carbs))
            && (ctx.pattern == "legumbres" ==> Restamped(d, filtered.legumbres))
            && (ctx.pattern != "carbs" && ctx.pattern != "legumbres" ==> Restamped(d, filtered.verdura))
  {
    AlternativeFromPool(catalog, "comida", current, profile, blacklist, ctx, k);
    var d := GetAlternativeMeal(catalog, "comida", current, profile, blacklist, ctx, k).value;
    if !current.synjardy {
      assert d == d.(synjardy := d.synjardy);
    }
  }

  /** A replacement dinner keeps the compensation rule: low-carb after a
      carbohydrate lunch for a profile with diabetes, a free dinner
      otherwise. */
  lemma AlternativeDinnerCompensates(catalog: Pools, current: Dish, profile: Profile,
                                     blacklist: seq<string>, ctx: DayContext, k: nat)
    requires Catalog.NonEmptyPools(catalog)
    requires GetAlternativeMeal(catalog, "cena", current, profile, blacklist, ctx, k).Some?
    ensures var d := GetAlternativeMeal(catalog, "cena", current, profile, blacklist, ctx, k).value;
            var filtered := BuildFilteredMeals(catalog, profile.alergias);
            && (!IsSinDiabetes(profile) && ctx.comidaHasCarbs ==> Restamped(d, filtered.cenasLow))
            && (IsSinDiabetes(profile) || !ctx.comidaHasCarbs ==> Restamped(d, filtered.cenasFlex))
  {
    AlternativeFromPool(catalog, "cena", current, profile, blacklist, ctx, k);
    var d := GetAlternativeMeal(catalog, "cena", current, profile, blacklist, ctx, k).value;
    if !current.synjardy {
      assert d == d.(synjardy := d.synjardy);
    }
  }

  /** Every pool the resolver can draw from is one of the eight pools, so
      it inherits their stock. */
  lemma SwapPoolStocked(pools: Pools, s: Slot, ctx: DayContext, sinDiabetes: bool, n: nat)
    requires Catalog.Stocked(pools, n)
    ensures Catalog.DistinctIds(SwapPool(pools, s, ctx, sinDiabetes))
    ensures |SwapPool(pools, s, ctx, sinDiabetes)| >= n
  {
  }

  /** When the filtered pools hold at least four distinct ids each, a slot
      always has a replacement as long as at most two ids are blacklisted
      besides the current dish. */
  lemma AlternativeExists(catalog: Pools, mealKey: string, current: Dish, profile: Profile,
                          blacklist: seq<string>, ctx: DayContext, k: nat)
    requires Catalog.NonEmptyPools(catalog)
    requires Avoidable(BuildFilteredMeals(catalog, profile.alergias))
    requires SlotOf(mealKey).Some?
    requires |blacklist| <= 2
    ensures GetAlternativeMeal(catalog, mealKey, current, profile, blacklist, ctx, k).Some?
  {
    var s := SlotOf(mealKey).value;
    var filtered := BuildFilteredMeals(catalog, profile.alergias);
    SwapPoolStocked(filtered, s, ctx, IsSinDiabetes(profile), AvoidLast + 1);
    var pool := AlternativePool(catalog, s, profile, ctx);
    var banned := [current.id] + blacklist;
    FreshDishExists(pool, multiset(banned));
    var e :| e in pool && e.id !in multiset(banned);
    assert e in Candidates(pool, current, blacklist);
    AlternativeNone(catalog, mealKey, current, profile, blacklist, ctx, k);
  }

  /** On the shipped catalog a slot always has a replacement when at most
      two ids are blacklisted besides the current dish (the application
      blacklists none), whatever the user's allergies. */
  lemma ShippedAlwaysHasAlternative(mealKey: string, current: Dish, profile: Profile,
                                    blacklist: seq<string>, ctx: DayContext, k: nat)
    requires SlotOf(mealKey).Some?
    requires |blacklist| <= 2
    ensures Catalog.NonEmptyPools(Catalog.Shipped)
    ensures GetAlternativeMeal(Catalog.Shipped, mealKey, current, profile, blacklist, ctx, k).Some?
  {
    ShippedFilteredAvoidable(profile.alergias);
    AlternativeExists(Catalog.Shipped, mealKey, current, profile, blacklist, ctx, k);
  }
}
