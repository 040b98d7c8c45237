/** The meal-plan engine: allergen filtering, the anti-repetition picker,
    the three-day lunch rotation, carbohydrate compensation at dinner, the
    15-day initial plan, the rolling-window synchronisation and the swap
    resolver. `Math.random` is replaced by explicit choice indices and dates
    are integer day numbers. */
module Engine {
  import opened Common
  import Catalog

  type Dish = Catalog.Dish
  type Pools = Catalog.Pools

  /** Days in the rolling window: today and the fourteen days after it. */
  const WindowSize: nat := 15

  /** How many of the most recent ids the picker avoids. */
  const AvoidLast: nat := 3

  // ---- Allergen filter ----

  /** True when a dish declares none of the user's allergens (a dish with no
      `allergens` field declares none). */
  predicate AllergenSafe(d: Dish, userAllergens: seq<string>) {
    forall a :: a in d.allergens ==> a !in userAllergens
  }

  /** Keeps the dishes free of the user's allergens; fails open to the whole
      list when the filter would leave nothing. */
  function FilterByAllergens(meals: seq<Dish>, userAllergens: seq<string>): (r: seq<Dish>)
    ensures forall d :: d in r ==> d in meals
    ensures Subsequence(r, meals)
    ensures |meals| > 0 ==> |r| > 0
  {
    SubsequenceRefl(meals);
    if userAllergens == [] then meals
    else
      var filtered := Filter(meals, (m: Dish) => AllergenSafe(m, userAllergens));
      assert forall i :: 0 <= i < |meals| ==> meals[i] in meals;
      if |filtered| > 0 then filtered else meals
  }

  /** The allergen filter keeps exactly the safe dishes when there is one,
      in their order and with every copy, and the whole list when there is
      none, when every dish is safe, or when the user declares no
      allergen. */
  lemma FilterByAllergensKeeps(meals: seq<Dish>, userAllergens: seq<string>)
    ensures userAllergens == [] ==> FilterByAllergens(meals, userAllergens) == meals
    ensures (forall d :: d in meals ==> AllergenSafe(d, userAllergens)) ==>
              FilterByAllergens(meals, userAllergens) == meals
    ensures (forall d :: d in meals ==> !AllergenSafe(d, userAllergens)) ==>
              FilterByAllergens(meals, userAllergens) == meals
    ensures (exists d :: d in meals && AllergenSafe(d, userAllergens)) ==>
              forall d :: d in FilterByAllergens(meals, userAllergens) <==> d in meals && AllergenSafe(d, userAllergens)
    ensures (exists d :: d in meals && AllergenSafe(d, userAllergens)) ==>
              forall d :: AllergenSafe(d, userAllergens) ==>
                multiset(FilterByAllergens(meals, userAllergens))[d] == multiset(meals)[d]
  {
    var safe := (m: Dish) => AllergenSafe(m, userAllergens);
    FilterKeepsAll(meals, safe);
    FilterCounts(meals, safe);
    assert forall i :: 0 <= i < |meals| ==> meals[i] in meals;
  }

  /** The eight pools of a catalog with the user's allergens filtered out,
      pool by pool. */
  function BuildFilteredMeals(catalog: Pools, userAllergens: seq<string>): (r: Pools)
    requires Catalog.NonEmptyPools(catalog)
    ensures Catalog.NonEmptyPools(r)
  {
    Catalog.NonEmptyPoolsSizes(catalog);
    var r := Catalog.Pools(
      FilterByAllergens(catalog.desayunos, userAllergens),
      FilterByAllergens(catalog.mediaManana, userAllergens),
      FilterByAllergens(catalog.carbs, userAllergens),
      FilterByAllergens(catalog.legumbres, userAllergens),
      FilterByAllergens(catalog.verdura, userAllergens),
      FilterByAllergens(catalog.meriendas, userAllergens),
      FilterByAllergens(catalog.cenasLow, userAllergens),
      FilterByAllergens(catalog.cenasFlex, userAllergens));
    Catalog.NonEmptyPoolsSizes(r);
    r
  }

  /** A plain pool (no dish declares an allergen) passes the filter whole. */
  lemma PlainPoolKept(meals: seq<Dish>, userAllergens: seq<string>)
    requires Catalog.Plain(meals)
    ensures FilterByAllergens(meals, userAllergens) == meals
  {
    FilterByAllergensKeeps(meals, userAllergens);
  }

  /** Filtering changes nothing when the user declares no allergen or when
      no dish of the catalog declares one. */
  lemma FilterNoOp(catalog: Pools, userAllergens: seq<string>)
    requires Catalog.NonEmptyPools(catalog)
    requires userAllergens == [] || Catalog.PlainPools(catalog)
    ensures BuildFilteredMeals(catalog, userAllergens) == catalog
  {
    if userAllergens != [] {
      PlainPoolKept(catalog.desayunos, userAllergens);
      PlainPoolKept(catalog.mediaManana, userAllergens);
      PlainPoolKept(catalog.carbs, userAllergens);
      PlainPoolKept(catalog.legumbres, userAllergens);
      PlainPoolKept(catalog.verdura, userAllergens);
      PlainPoolKept(catalog.meriendas, userAllergens);
      PlainPoolKept(catalog.cenasLow, userAllergens);
      PlainPoolKept(catalog.cenasFlex, userAllergens);
    }
  }

  /** No shipped dish declares an allergen, so filtering the shipped catalog
      never removes anything, whatever the user is allergic to. */
  lemma ShippedFilterIsNoOp(userAllergens: seq<string>)
    ensures Catalog.NonEmptyPools(Catalog.Shipped)
    ensures BuildFilteredMeals(Catalog.Shipped, userAllergens) == Catalog.Shipped
  {
    Catalog.ShippedIsSound();
    FilterNoOp(Catalog.Shipped, userAllergens);
  }

  /** Filtering only removes dishes, pool by pool, so it keeps the
      carbohydrate flags honest and the pools plain. */
  lemma FilteredPoolsSound(catalog: Pools, userAllergens: seq<string>)
    requires Catalog.NonEmptyPools(catalog)
    ensures Catalog.SubPools(BuildFilteredMeals(catalog, userAllergens), catalog)
    ensures Catalog.CarbFlagsHonest(catalog) ==>
              Catalog.CarbFlagsHonest(BuildFilteredMeals(catalog, userAllergens))
    ensures Catalog.PlainPools(catalog) ==> Catalog.PlainPools(BuildFilteredMeals(catalog, userAllergens))
  {
  }

  // ---- Anti-repetition picker ----

  /** JavaScript's `s.slice(-n)`: the last `n` elements, or all of them when
      there are fewer; `slice(-0)` is `slice(0)`, the whole sequence. */
  function SliceLast<T>(s: seq<T>, n: nat): (r: seq<T>)
    ensures n == 0 || |s| <= n ==> r == s
    ensures 0 < n <= |s| ==> |r| == n
    ensures |r| <= |s| && r == s[|s| - |r|..]
  {
    if n == 0 || |s| <= n then s else s[|s| - n..]
  }

  /** Element `k` of the last-`n` slice is element `|s| - |slice| + k` of
      the whole sequence. */
  lemma SliceLastAt<T>(s: seq<T>, n: nat)
    ensures forall k :: 0 <= k < |SliceLast(s, n)| ==> SliceLast(s, n)[k] == s[|s| - |SliceLast(s, n)| + k]
  {
  }

  /** True when `d` avoids the recent ids whenever the pool offers a dish
      that does. */
  predicate FreshPick(d: Dish, pool: seq<Dish>, recentIds: seq<string>) {
    (exists e :: e in pool && e.id !in SliceLast(recentIds, AvoidLast)) ==>
      d.id !in SliceLast(recentIds, AvoidLast)
  }

  /** Draws a dish, avoiding the last `avoidLast` recent ids when the pool
      allows it. The random draw is the index `k` reduced modulo the size of
      the pool drawn from. An empty pool yields nothing (JavaScript's
      `undefined`). */
  function PickRandom(arr: seq<Dish>, recentIds: seq<string>, avoidLast: nat, k: nat): (r: Option<Dish>)
    ensures r.None? <==> arr == []
    ensures r.Some? ==> r.value in arr
    ensures r.Some? && (exists d :: d in arr && d.id !in SliceLast(recentIds, avoidLast)) ==>
              r.value.id !in SliceLast(recentIds, avoidLast)
  {
    var recent := SliceLast(recentIds, avoidLast);
    var available := Filter(arr, (item: Dish) => item.id !in recent);
    var pool := if |available| > 0 then available else arr;
    if |pool| == 0 then None
    else
      assert pool[k % |pool|] in pool;
      Some(pool[k % |pool|])
  }

  /** Only the last three ids of a history are ever consulted: whatever came
      before them does not change the draw. */
  lemma HistoryWindowIsThree(arr: seq<Dish>, older: seq<string>, last3: seq<string>, k: nat)
    requires |last3| == AvoidLast
    ensures PickRandom(arr, older + last3, AvoidLast, k) == PickRandom(arr, last3, AvoidLast, k)
  {
    var h := older + last3;
    assert h[|h| - AvoidLast..] == last3;
  }

  /** A pool with more distinct ids than there are ids to avoid always has a
      dish outside them. */
  lemma {:induction false} FreshDishExists(pool: seq<Dish>, avoid: multiset<string>)
    requires Catalog.DistinctIds(pool)
    requires |pool| > |avoid|
    ensures exists e :: e in pool && e.id !in avoid
    decreases |pool|
  {
    var first := pool[0];
    if first.id !in avoid {
      assert first in pool;
    } else {
      var rest := pool[1..];
      var avoid' := avoid - multiset{first.id};
      assert Catalog.DistinctIds(rest) by {
        forall i, j | 0 <= i < j < |rest|
          ensures rest[i].id != rest[j].id
        {
          assert rest[i] == pool[i + 1] && rest[j] == pool[j + 1];
        }
      }
      FreshDishExists(rest, avoid');
      var e :| e in rest && e.id !in avoid';
      var i :| 0 <= i < |rest| && rest[i] == e;
      assert pool[i + 1] == e;
      assert e.id != first.id;
      assert e in pool;
    }
  }

  /** On a pool with distinct ids and more than three dishes, avoiding the
      last three ids never has to fall back to the whole pool: the drawn
      dish is never one of the three. Every shipped pool qualifies (see
      `Catalog.ShippedIsSound`), the smallest having five dishes. */
  lemma PickNeverFallsBack(pool: seq<Dish>, recentIds: seq<string>, k: nat)
    requires Catalog.DistinctIds(pool) && |pool| > AvoidLast
    ensures PickRandom(pool, recentIds, AvoidLast, k).Some?
    ensures PickRandom(pool, recentIds, AvoidLast, k).value.id !in SliceLast(recentIds, AvoidLast)
  {
    var recent := SliceLast(recentIds, AvoidLast);
    FreshDishExists(pool, multiset(recent));
  }

  // ---- Lunch rotation and carbohydrate compensation ----

  /** The three lunch patterns. */
  datatype Pattern = Carbs | Legumbres | Verdura

  /** The pattern's name as stored on a day. */
  function PatternName(p: Pattern): string {
    match p
    case Carbs => "carbs"
    case Legumbres => "legumbres"
    case Verdura => "verdura"
  }

  /** Reads a stored pattern name; a missing (empty) or unknown name means
      the vegetable pattern. */
  function ParsePattern(s: string): (p: Pattern)
    ensures s == PatternName(p) || (p == Verdura && s != "carbs" && s != "legumbres")
    ensures forall q :: PatternName(q) == s ==> p == q
  {
    var name := if s == [] then "verdura" else s;
    if name == "carbs" then Carbs
    else if name == "legumbres" then Legumbres
    else Verdura
  }

  /** The lunch pattern of the `dayIndex`-th generated day. */
  function GetComidaPattern(dayIndex: nat): (p: Pattern)
    ensures PatternName(p) == ["carbs", "legumbres", "verdura"][dayIndex % 3]
  {
    var k := dayIndex % 3;
    if k == 0 then Carbs else if k == 1 then Legumbres else Verdura
  }

  /** Lunch patterns repeat every three days, and any three consecutive days
      see all three patterns. */
  lemma PatternCycle(dayIndex: nat)
    ensures GetComidaPattern(dayIndex + 3) == GetComidaPattern(dayIndex)
    ensures GetComidaPattern(dayIndex) != GetComidaPattern(dayIndex + 1)
    ensures GetComidaPattern(dayIndex + 1) != GetComidaPattern(dayIndex + 2)
    ensures GetComidaPattern(dayIndex) != GetComidaPattern(dayIndex + 2)
  {
  }

  /** The lunch pool for a pattern. */
  function LunchPool(pools: Pools, pattern: Pattern): seq<Dish> {
    match pattern
    case Carbs => pools.carbs
    case Legumbres => pools.legumbres
    case Verdura => pools.verdura
  }

  /** The dinner pool: low-carb after a carbohydrate lunch, unless the
      profile has no diabetes; otherwise the free dinners. */
  function DinnerPool(pools: Pools, comidaHasCarbs: bool, sinDiabetes: bool): (r: seq<Dish>)
    ensures !sinDiabetes && comidaHasCarbs ==> r == pools.cenasLow
    ensures sinDiabetes || !comidaHasCarbs ==> r == pools.cenasFlex
  {
    if sinDiabetes then pools.cenasFlex
    else if comidaHasCarbs then pools.cenasLow
    else pools.cenasFlex
  }

  /** Draws the lunch from the pool of the day's pattern. */
  function PickComida(pattern: Pattern, recentIds: seq<string>, pools: Pools, k: nat): (r: Option<Dish>)
    ensures r.None? <==> LunchPool(pools, pattern) == []
    ensures r.Some? ==> r.value in LunchPool(pools, pattern)
    ensures r.Some? ==> FreshPick(r.value, LunchPool(pools, pattern), recentIds)
  {
    match pattern
    case Carbs => PickRandom(pools.carbs, recentIds, AvoidLast, k)
    case Legumbres => PickRandom(pools.legumbres, recentIds, AvoidLast, k)
    case Verdura => PickRandom(pools.verdura, recentIds, AvoidLast, k)
  }

  /** Draws the dinner: a profile with diabetes gets a low-carb dinner after
      a carbohydrate lunch and a free dinner otherwise; a profile without
      diabetes always draws from the free dinners. */
  function PickCena(comidaHasCarbs: bool, recentIds: seq<string>, pools: Pools, sinDiabetes: bool, k: nat): (r: Option<Dish>)
    ensures r.None? <==> DinnerPool(pools, comidaHasCarbs, sinDiabetes) == []
    ensures r.Some? && !sinDiabetes && comidaHasCarbs ==> r.value in pools.cenasLow
    ensures r.Some? && (sinDiabetes || !comidaHasCarbs) ==> r.value in pools.cenasFlex
    ensures r.Some? ==> FreshPick(r.value, DinnerPool(pools, comidaHasCarbs, sinDiabetes), recentIds)
  {
    if sinDiabetes then PickRandom(pools.cenasFlex, recentIds, AvoidLast, k)
    else if comidaHasCarbs then PickRandom(pools.cenasLow, recentIds, AvoidLast, k)
    else PickRandom(pools.cenasFlex, recentIds, AvoidLast, k)
  }

  // ---- Days, slots and histories ----

  /** The five meal slots of a day. */
  datatype Slot = Desayuno | MediaManana | Comida | Merienda | Cena

  /** The slot's key in a day's `meals` object. */
  function SlotKey(s: Slot): string {
    match s
    case Desayuno => "desayuno"
    case MediaManana => "mediaManana"
    case Comida => "comida"
    case Merienda => "merienda"
    case Cena => "cena"
  }

  /** The slot a key names, if any. */
  function SlotOf(key: string): (r: Option<Slot>)
    ensures r.Some? ==> SlotKey(r.value) == key
    ensures forall s :: SlotKey(s) == key ==> r == Some(s)
  {
    if key == "desayuno" then Some(Desayuno)
    else if key == "mediaManana" then Some(MediaManana)
    else if key == "comida" then Some(Comida)
    else if key == "merienda" then Some(Merienda)
    else if key == "cena" then Some(Cena)
    else None
  }

  /** A day's five dishes. */
  datatype Meals = Meals(desayuno: Dish, mediaManana: Dish, comida: Dish, merienda: Dish, cena: Dish)
  {
    /** The dish in a slot. */
    function Get(s: Slot): Dish {
      match s
      case Desayuno => desayuno
      case MediaManana => mediaManana
      case Comida => comida
      case Merienda => merienda
      case Cena => cena
    }

    /** The same meals with one slot replaced. */
    function Set(s: Slot, d: Dish): (r: Meals)
      ensures r.Get(s) == d
      ensures forall t :: t != s ==> r.Get(t) == Get(t)
    {
      match s
      case Desayuno => this.(desayuno := d)
      case MediaManana => this.(mediaManana := d)
      case Comida => this.(comida := d)
      case Merienda => this.(merienda := d)
      case Cena => this.(cena := d)
    }
  }

  /** A plan day. The uuid and the formatted date labels are left out. */
  datatype Day = Day(date: int, pattern: Pattern, comidaHasCarbs: bool, meals: Meals)

  /** A day's date, the sort key of a plan. */
  function DateOf(d: Day): int {
    d.date
  }

  /** The ids served recently in each slot, oldest first. */
  datatype Recent = Recent(
    desayunos: seq<string>,
    mediaManana: seq<string>,
    comidas: seq<string>,
    meriendas: seq<string>,
    cenas: seq<string>)
  {
    /** The history of one slot. */
    function History(s: Slot): seq<string> {
      match s
      case Desayuno => desayunos
      case MediaManana => mediaManana
      case Comida => comidas
      case Merienda => meriendas
      case Cena => cenas
    }
  }

  /** Five empty histories. */
  const NoRecent: Recent := Recent([], [], [], [], [])

  /** Records one day's dishes: one id appended to every history. */
  function Push(rec: Recent, m: Meals): (r: Recent)
    ensures forall s :: r.History(s) == rec.History(s) + [m.Get(s).id]
  {
    Recent(
      rec.desayunos + [m.desayuno.id],
      rec.mediaManana + [m.mediaManana.id],
      rec.comidas + [m.comida.id],
      rec.meriendas + [m.merienda.id],
      rec.cenas + [m.cena.id])
  }

  /** Records a run of days, first to last. */
  function PushAll(rec: Recent, days: seq<Day>): Recent
    decreases |days|
  {
    if days == [] then rec
    else Push(PushAll(rec, days[..|days| - 1]), days[|days| - 1].meals)
  }

  /** The ids served in one slot across a run of days. */
  function SlotIds(days: seq<Day>, s: Slot): (r: seq<string>)
    ensures |r| == |days|
    ensures forall i :: 0 <= i < |days| ==> r[i] == days[i].meals.Get(s).id
  {
    seq(|days|, i requires 0 <= i < |days| => days[i].meals.Get(s).id)
  }

  /** Recording a run of days appends exactly that run's ids, in order, to
      every history. */
  lemma {:induction false} PushAllHistory(rec: Recent, days: seq<Day>, s: Slot)
    ensures PushAll(rec, days).History(s) == rec.History(s) + SlotIds(days, s)
    decreases |days|
  {
    if days != [] {
      var init := days[..|days| - 1];
      PushAllHistory(rec, init, s);
      assert SlotIds(days, s) == SlotIds(init, s) + [days[|days| - 1].meals.Get(s).id];
    }
  }

  /** True when `d` is a pool dish, possibly with the medication reminder
      flag overwritten. */
  predicate Restamped(d: Dish, pool: seq<Dish>) {
    exists e :: e in pool && d == e.(synjardy := d.synjardy)
  }

  /** The generation rules every produced day obeys: the lunch comes from the
      pattern's pool and sets the carbohydrate flag, the dinner follows the
      compensation rule, breakfast and dinner carry the reminder exactly for
      a profile with diabetes, and the other slots are pool dishes as they
      are. */
  predicate DayFollowsRules(day: Day, pools: Pools, sinDiabetes: bool) {
    && day.comidaHasCarbs == day.meals.comida.hasCarbs
    && Restamped(day.meals.desayuno, pools.desayunos)
    && day.meals.desayuno.synjardy == !sinDiabetes
    && day.meals.mediaManana in pools.mediaManana
    && day.meals.comida in LunchPool(pools, day.pattern)
    && day.meals.merienda in pools.meriendas
    && Restamped(day.meals.cena, DinnerPool(pools, day.comidaHasCarbs, sinDiabetes))
    && day.meals.cena.synjardy == !sinDiabetes
  }

  /** Every slot of the day avoids its history's last three ids whenever its
      pool allows it. */
  predicate DayIsFresh(day: Day, pools: Pools, sinDiabetes: bool, rec: Recent) {
    && FreshPick(day.meals.desayuno, pools.desayunos, rec.desayunos)
    && FreshPick(day.meals.mediaManana, pools.mediaManana, rec.mediaManana)
    && FreshPick(day.meals.comida, LunchPool(pools, day.pattern), rec.comidas)
    && FreshPick(day.meals.merienda, pools.meriendas, rec.meriendas)
    && FreshPick(day.meals.cena, DinnerPool(pools, day.comidaHasCarbs, sinDiabetes), rec.cenas)
  }

  /** The random draws of one day, one index per slot. */
  datatype DayChoices = DayChoices(desayuno: nat, mediaManana: nat, comida: nat, merienda: nat, cena: nat)

  /** Generates one day and records its dishes in the histories. */
  function GenerateSingleDay(date: int, dayIndex: nat, recent: Recent, pools: Pools,
                             sinDiabetes: bool, ch: DayChoices): (r: (Day, Recent))
    requires Catalog.NonEmptyPools(pools)
    ensures r.0.date == date && r.0.pattern == GetComidaPattern(dayIndex)
    ensures DayFollowsRules(r.0, pools, sinDiabetes)
    ensures DayIsFresh(r.0, pools, sinDiabetes, recent)
    ensures r.1 == Push(recent, r.0.meals)
  {
    var pattern := GetComidaPattern(dayIndex);
    var desayuno := PickRandom(pools.desayunos, recent.desayunos, AvoidLast, ch.desayuno).value;
    var mediaManana := PickRandom(pools.mediaManana, recent.mediaManana, AvoidLast, ch.mediaManana).value;
    var comida := PickComida(pattern, recent.comidas, pools, ch.comida).value;
    var merienda := PickRandom(pools.meriendas, recent.meriendas, AvoidLast, ch.merienda).value;
    var cena := PickCena(comida.hasCarbs, recent.cenas, pools, sinDiabetes, ch.cena).value;
    var meals := Meals(desayuno.(synjardy := !sinDiabetes), mediaManana, comida, merienda,
                       cena.(synjardy := !sinDiabetes));
    assert desayuno == meals.desayuno.(synjardy := desayuno.synjardy);
    assert cena == meals.cena.(synjardy := cena.synjardy);
    var day := Day(date, pattern, comida.hasCarbs, meals);
    (day, Push(recent, meals))
  }

  /** True when `day` is the `i`-th day of a run generated from `date` with
      first index `dayIndex`, after the days `before` it: the consecutive
      date, the rotating lunch pattern, the generation rules, and freshness
      with respect to the histories recorded before it. */
  predicate DayInRun(day: Day, i: nat, before: seq<Day>, date: int, dayIndex: nat, recent: Recent,
                     pools: Pools, sinDiabetes: bool) {
    && day.date == date + i
    && day.pattern == GetComidaPattern(dayIndex + i)
    && DayFollowsRules(day, pools, sinDiabetes)
    && DayIsFresh(day, pools, sinDiabetes, PushAll(recent, before))
  }

  /** True when the days are dated consecutively from `date` and carry the
      lunch patterns of consecutive indices from `dayIndex`. */
  predicate RunDated(days: seq<Day>, date: int, dayIndex: nat) {
    forall i :: 0 <= i < |days| ==> days[i].date == date + i && days[i].pattern == GetComidaPattern(dayIndex + i)
  }

  /** A run dated consecutively is sorted by date. */
  lemma RunDatedSorted(days: seq<Day>, date: int, dayIndex: nat)
    requires RunDated(days, date, dayIndex)
    ensures SortedBy(days, DateOf)
  {
  }

  /** True when every day of `days` is in its place in a generated run. */
  predicate GeneratedRun(days: seq<Day>, date: int, dayIndex: nat, recent: Recent,
                         pools: Pools, sinDiabetes: bool) {
    forall i {:trigger DayInRun(days[i], i, days[..i], date, dayIndex, recent, pools, sinDiabetes)} ::
      0 <= i < |days| ==> DayInRun(days[i], i, days[..i], date, dayIndex, recent, pools, sinDiabetes)
  }

  /** A generated run is dated consecutively and follows the lunch
      rotation. */
  lemma RunDatesConsecutive(days: seq<Day>, date: int, dayIndex: nat, recent: Recent,
                            pools: Pools, sinDiabetes: bool)
    requires GeneratedRun(days, date, dayIndex, recent, pools, sinDiabetes)
    ensures RunDated(days, date, dayIndex)
  {
    forall i | 0 <= i < |days|
      ensures days[i].date == date + i && days[i].pattern == GetComidaPattern(dayIndex + i)
    {
      assert DayInRun(days[i], i, days[..i], date, dayIndex, recent, pools, sinDiabetes);
    }
  }

  /** A generated run extended by a day generated after it is still a
      generated run. */
  lemma RunExtends(days: seq<Day>, day: Day, date: int, dayIndex: nat, recent: Recent,
                   pools: Pools, sinDiabetes: bool)
    requires GeneratedRun(days, date, dayIndex, recent, pools, sinDiabetes)
    requires DayInRun(day, |days|, days, date, dayIndex, recent, pools, sinDiabetes)
    ensures GeneratedRun(days + [day], date, dayIndex, recent, pools, sinDiabetes)
  {
    var ext := days + [day];
    forall i | 0 <= i < |ext|
      ensures DayInRun(ext[i], i, ext[..i], date, dayIndex, recent, pools, sinDiabetes)
    {
      if i < |days| {
        assert ext[i] == days[i];
        assert ext[..i] == days[..i];
      } else {
        assert ext[..i] == days;
      }
    }
  }

  /** The day generated after a run, from the histories the run left, takes
      its place in the run. */
  lemma NextDayInRun(days: seq<Day>, date: int, dayIndex: nat, recent: Recent,
                     pools: Pools, sinDiabetes: bool, ch: DayChoices)
    requires Catalog.NonEmptyPools(pools)
    ensures DayInRun(GenerateSingleDay(date + |days|, dayIndex + |days|, PushAll(recent, days), pools,
                                       sinDiabetes, ch).0,
                     |days|, days, date, dayIndex, recent, pools, sinDiabetes)
  {
  }

  /** Generates `n` consecutive days from `date`, the first with index
      `dayIndex`; day `dayIndex + i` draws with `rng(dayIndex + i)`. Returns
      the days and the histories after them. */
  function GenerateFrom(date: int, dayIndex: nat, n: nat, recent: Recent, pools: Pools,
                        sinDiabetes: bool, rng: nat -> DayChoices): (r: (seq<Day>, Recent))
    requires Catalog.NonEmptyPools(pools)
    ensures |r.0| == n
    ensures r.1 == PushAll(recent, r.0)
    ensures GeneratedRun(r.0, date, dayIndex, recent, pools, sinDiabetes)
    ensures RunDated(r.0, date, dayIndex)
    decreases n
  {
    if n == 0 then ([], recent)
    else
      var days := GenerateFrom(date, dayIndex, n - 1, recent, pools, sinDiabetes, rng).0;
      var ch := rng(dayIndex + |days|);
      var next := GenerateSingleDay(date + |days|, dayIndex + |days|, PushAll(recent, days), pools,
                                    sinDiabetes, ch);
      NextDayInRun(days, date, dayIndex, recent, pools, sinDiabetes, ch);
      RunExtends(days, next.0, date, dayIndex, recent, pools, sinDiabetes);
      assert (days + [next.0])[..|days|] == days;
      var run := days + [next.0];
      RunDatesConsecutive(run, date, dayIndex, recent, pools, sinDiabetes);
      (run, next.1)
  }

  /** The user data the engine reads: the allergy list (absent is empty) and
      the diabetes type. */
  datatype Profile = Profile(alergias: seq<string>, tipoDiabetes: string)

  /** Only the exact value `sin_diabetes` switches the carbohydrate rules
      off. */
  predicate IsSinDiabetes(p: Profile) {
    p.tipoDiabetes == "sin_diabetes"
  }

  /** Fifteen days generated from `start` with empty histories, the first
      with index 0. */
  function InitialRun(pools: Pools, sinDiabetes: bool, start: int, rng: nat -> DayChoices): (plan: seq<Day>)
    requires Catalog.NonEmptyPools(pools)
    ensures |plan| == WindowSize
  {
    GenerateFrom(start, 0, WindowSize, NoRecent, pools, sinDiabetes, rng).0
  }

  /** A fresh plan: the initial run drawn from the catalog filtered for the
      profile's allergies, with the profile's diabetes rule. */
  function GenerateInitialPlan(catalog: Pools, start: int, profile: Profile,
                               rng: nat -> DayChoices): (plan: seq<Day>)
    requires Catalog.NonEmptyPools(catalog)
    ensures |plan| == WindowSize
  {
    InitialRun(BuildFilteredMeals(catalog, profile.alergias), IsSinDiabetes(profile), start, rng)
  }

  /** The initial run is a generated run: every day follows the generation
      rules and is fresh against the days before it. */
  lemma InitialRunGenerated(pools: Pools, sinDiabetes: bool, start: int, rng: nat -> DayChoices)
    requires Catalog.NonEmptyPools(pools)
    ensures GeneratedRun(InitialRun(pools, sinDiabetes, start, rng), start, 0, NoRecent, pools, sinDiabetes)
  {
  }

  /** The initial run is dated consecutively from `start`, with the lunch
      rotation starting at carbohydrates. */
  lemma InitialRunDated(pools: Pools, sinDiabetes: bool, start: int, rng: nat -> DayChoices)
    requires Catalog.NonEmptyPools(pools)
    ensures RunDated(InitialRun(pools, sinDiabetes, start, rng), start, 0)
  {
  }

  /** With honest carbohydrate flags a day's lunch carries carbohydrate
      exactly when its pattern is the carbohydrate one. */
  lemma CarbFlagFollowsPattern(day: Day, pools: Pools, sinDiabetes: bool)
    requires Catalog.CarbFlagsHonest(pools)
    requires DayFollowsRules(day, pools, sinDiabetes)
    ensures day.comidaHasCarbs <==> day.pattern == Carbs
  {
  }

  /** On plain pools with honest carbohydrate flags a generated day's dinner
      is a low-carb dinner after a carbohydrate lunch for a profile with
      diabetes, and a free dinner otherwise. */
  lemma DinnerCompensates(day: Day, pools: Pools, sinDiabetes: bool)
    requires Catalog.CarbFlagsHonest(pools) && Catalog.PlainPools(pools)
    requires DayFollowsRules(day, pools, sinDiabetes)
    ensures !sinDiabetes && day.pattern == Carbs ==> day.meals.cena.(synjardy := false) in pools.cenasLow
    ensures sinDiabetes || day.pattern != Carbs ==> day.meals.cena.(synjardy := false) in pools.cenasFlex
  {
    CarbFlagFollowsPattern(day, pools, sinDiabetes);
    var cena := day.meals.cena;
    var e :| e in DinnerPool(pools, day.comidaHasCarbs, sinDiabetes)
             && cena == e.(synjardy := cena.synjardy);
    assert cena.(synjardy := false) == e;
  }

  /** A day with the pattern of index `i` carries carbohydrate at lunch
      exactly when `i` is a multiple of three, and gets its dinner
      accordingly. */
  lemma DayCompensates(day: Day, i: nat, pools: Pools, sd: bool)
    requires Catalog.CarbFlagsHonest(pools) && Catalog.PlainPools(pools)
    requires DayFollowsRules(day, pools, sd)
    requires day.pattern == GetComidaPattern(i)
    ensures day.comidaHasCarbs <==> i % 3 == 0
    ensures !sd && i % 3 == 0 ==> day.meals.cena.(synjardy := false) in pools.cenasLow
    ensures sd || i % 3 != 0 ==> day.meals.cena.(synjardy := false) in pools.cenasFlex
  {
    CarbFlagFollowsPattern(day, pools, sd);
    DinnerCompensates(day, pools, sd);
  }

  /** In a run generated from index 0 on plain pools with honest flags, the
      lunch carries carbohydrate exactly on the days whose index is a
      multiple of three. For a profile with diabetes those days draw their
      dinner from the low-carb dinners; every other day, and every day of a
      profile without diabetes, draws it from the flexible dinners (which
      themselves include low-carb dishes). */
  lemma RunCompensates(plan: seq<Day>, start: int, pools: Pools, sd: bool, i: nat)
    requires Catalog.CarbFlagsHonest(pools) && Catalog.PlainPools(pools)
    requires GeneratedRun(plan, start, 0, NoRecent, pools, sd)
    requires i < |plan|
    ensures plan[i].comidaHasCarbs <==> i % 3 == 0
    ensures !sd && i % 3 == 0 ==> plan[i].meals.cena.(synjardy := false) in pools.cenasLow
    ensures sd || i % 3 != 0 ==> plan[i].meals.cena.(synjardy := false) in pools.cenasFlex
  {
    assert DayInRun(plan[i], i, plan[..i], start, 0, NoRecent, pools, sd);
    DayCompensates(plan[i], i, pools, sd);
  }

  /** On a catalog with no allergens the initial plan is the initial run on
      the whole catalog, whatever the profile's allergies. */
  lemma InitialPlanOnPlainCatalog(catalog: Pools, start: int, profile: Profile, rng: nat -> DayChoices)
    requires Catalog.NonEmptyPools(catalog) && Catalog.PlainPools(catalog)
    ensures GenerateInitialPlan(catalog, start, profile, rng)
              == InitialRun(catalog, IsSinDiabetes(profile), start, rng)
  {
    FilterNoOp(catalog, profile.alergias);
  }

  // ---- Freshness across days ----

  /** The pool the generator draws a slot from, given the day's pattern, its
      lunch's carbohydrate flag and the profile. */
  function GenPool(pools: Pools, s: Slot, pattern: Pattern, comidaHasCarbs: bool, sinDiabetes: bool): seq<Dish> {
    match s
    case Desayuno => pools.desayunos
    case MediaManana => pools.mediaManana
    case Comida => LunchPool(pools, pattern)
    case Merienda => pools.meriendas
    case Cena => DinnerPool(pools, comidaHasCarbs, sinDiabetes)
  }

  /** A fresh day is fresh in each slot, against that slot's pool and
      history. */
  lemma FreshInSlot(day: Day, pools: Pools, sinDiabetes: bool, rec: Recent, s: Slot)
    requires DayIsFresh(day, pools, sinDiabetes, rec)
    ensures FreshPick(day.meals.Get(s), GenPool(pools, s, day.pattern, day.comidaHasCarbs, sinDiabetes),
                      rec.History(s))
  {
  }

  /** True when every pool has distinct ids and more dishes than the picker
      avoids. */
  predicate Avoidable(pools: Pools) {
    Catalog.Stocked(pools, AvoidLast + 1)
  }

  /** The pools the engine builds from the shipped catalog are avoidable,
      whatever the user's allergies. */
  lemma ShippedFilteredAvoidable(userAllergens: seq<string>)
    ensures Catalog.NonEmptyPools(Catalog.Shipped)
    ensures Avoidable(BuildFilteredMeals(Catalog.Shipped, userAllergens))
  {
    Catalog.ShippedIsSound();
    ShippedFilterIsNoOp(userAllergens);
  }

  /** An element among the last three of a history is in its last-three
      slice. */
  lemma InSliceLast(hist: seq<string>, p: int)
    requires 0 <= p < |hist| && |hist| - AvoidLast <= p
    ensures hist[p] in SliceLast(hist, AvoidLast)
  {
    if |hist| > AvoidLast {
      assert hist[p] == hist[|hist| - AvoidLast..][p - (|hist| - AvoidLast)];
    }
  }

  /** Position `|h| + i` of `h + SlotIds(days[..j], s)` holds day `i`'s id. */
  lemma HistoryEntry(h: seq<string>, days: seq<Day>, j: nat, s: Slot, i: nat)
    requires i < j <= |days|
    ensures (h + SlotIds(days[..j], s))[|h| + i] == days[i].meals.Get(s).id
  {
    assert days[..j][i] == days[i];
  }

  /** On avoidable pools a generated run never serves the same dish in a
      slot twice within four consecutive days. */
  lemma RunNoRepeats(days: seq<Day>, date: int, dayIndex: nat, recent: Recent, pools: Pools,
                     sinDiabetes: bool, s: Slot, i: nat, j: nat)
    requires GeneratedRun(days, date, dayIndex, recent, pools, sinDiabetes)
    requires Avoidable(pools)
    requires i < j < |days| && j - i <= AvoidLast
    ensures days[j].meals.Get(s).id != days[i].meals.Get(s).id
  {
    var day := days[j];
    var rec := PushAll(recent, days[..j]);
    assert DayInRun(day, j, days[..j], date, dayIndex, recent, pools, sinDiabetes);
    FreshInSlot(day, pools, sinDiabetes, rec, s);
    var pool := GenPool(pools, s, day.pattern, day.comidaHasCarbs, sinDiabetes);
    var hist := rec.History(s);
    var last := SliceLast(hist, AvoidLast);
    FreshDishExists(pool, multiset(last));
    PushAllHistory(recent, days[..j], s);
    var p := |recent.History(s)| + i;
    HistoryEntry(recent.History(s), days, j, s, i);
    InSliceLast(hist, p);
  }

  // ---- Rolling window ----

  /** The latest date of a non-empty plan. */
  function MaxDate(plan: seq<Day>): (m: int)
    requires plan != []
    ensures forall i :: 0 <= i < |plan| ==> plan[i].date <= m
    ensures exists i :: 0 <= i < |plan| && plan[i].date == m
    decreases |plan|
  {
    if |plan| == 1 then plan[0].date
    else
      var m0 := MaxDate(plan[..|plan| - 1]);
      var d := plan[|plan| - 1].date;
      if d > m0 then d else m0
  }

  /** The stored days kept by a sync: those not before yesterday, in their
      stored order and with every copy. */
  function Survivors(existing: seq<Day>, today: int): (r: seq<Day>)
    ensures forall d :: d in r <==> d in existing && d.date >= today - 1
    ensures Subsequence(r, existing)
    ensures forall d: Day :: d.date >= today - 1 ==> multiset(r)[d] == multiset(existing)[d]
    ensures multiset(r) <= multiset(existing)
  {
    var recent := (d: Day) => d.date >= today - 1;
    FilterCounts(existing, recent);
    Filter(existing, recent)
  }

  /** Eviction decides day by day: the survivors of a plan are those of its
      first part followed by those of its second. */
  lemma SurvivorsAppend(a: seq<Day>, b: seq<Day>, today: int)
    ensures Survivors(a + b, today) == Survivors(a, today) + Survivors(b, today)
  {
    FilterAppend(a, b, (d: Day) => d.date >= today - 1);
  }

  /** The date generation continues from: the latest kept date, or today
      when nothing was kept. */
  function LastDate(plan: seq<Day>, today: int): (r: int)
    ensures plan == [] ==> r == today
    ensures forall i :: 0 <= i < |plan| ==> plan[i].date <= r
    ensures plan != [] ==> exists i :: 0 <= i < |plan| && plan[i].date == r
  {
    if plan == [] then today else MaxDate(plan)
  }

  /** The last day the window must cover: today plus fourteen. */
  function TargetEnd(today: int): int {
    today + WindowSize - 1
  }

  /** One slot's history rebuilt from the last five days of a plan, with
      missing (empty) ids skipped. */
  function RecentIds(plan: seq<Day>, s: Slot): (r: seq<string>)
    ensures |r| <= 5
    ensures forall id :: id in r ==>
              && id != []
              && exists i :: 0 <= i < |plan| && |plan| - 5 <= i && plan[i].meals.Get(s).id == id
  {
    var last5 := SliceLast(plan, 5);
    SliceLastAt(plan, 5);
    var ids := SlotIds(last5, s);
    assert forall id :: id in ids ==> exists k :: 0 <= k < |last5| && last5[k].meals.Get(s).id == id;
    Filter(ids, (id: string) => id != [])
  }

  /** When no day of the plan lacks a dish in the slot, the rebuilt history
      is that slot's ids over the last five days, in order. */
  lemma RecentIdsComplete(plan: seq<Day>, s: Slot)
    requires forall i :: 0 <= i < |plan| ==> plan[i].meals.Get(s).id != []
    ensures RecentIds(plan, s) == SlotIds(SliceLast(plan, 5), s)
  {
    var last5 := SliceLast(plan, 5);
    SliceLastAt(plan, 5);
    FilterKeepsAll(SlotIds(last5, s), (id: string) => id != []);
  }

  /** The five histories rebuilt from the last five days of a plan. */
  function BuildRecentFromPlan(plan: seq<Day>): Recent {
    Recent(RecentIds(plan, Desayuno), RecentIds(plan, MediaManana), RecentIds(plan, Comida),
           RecentIds(plan, Merienda), RecentIds(plan, Cena))
  }

  /** Each rebuilt history is that slot's ids from the last five days. */
  lemma RecentHistory(plan: seq<Day>, s: Slot)
    ensures BuildRecentFromPlan(plan).History(s) == RecentIds(plan, s)
  {
    match s
    case Desayuno =>
    case MediaManana =>
    case Comida =>
    case Merienda =>
    case Cena =>
  }

  /** How many days follow `last` up to and including `end`. */
  function NewCount(last: int, end: int): nat {
    if last < end then end - last else 0
  }

  /** The days a sync appends to the kept plan: from the day after
      `LastDate` up to `TargetEnd`, indexed from the number of kept days and
      drawn against the histories of the last five kept days. */
  function NewDays(plan: seq<Day>, pools: Pools, sinDiabetes: bool, today: int,
                   rng: nat -> DayChoices): (r: seq<Day>)
    requires Catalog.NonEmptyPools(pools)
    ensures |r| == NewCount(LastDate(plan, today), TargetEnd(today))
  {
    var lastDate := LastDate(plan, today);
    GenerateFrom(lastDate + 1, |plan|, NewCount(lastDate, TargetEnd(today)), BuildRecentFromPlan(plan),
                 pools, sinDiabetes, rng).0
  }

  /** The new days are a generated run: they follow the generation rules
      and each is fresh against the histories rebuilt from the last five
      kept days followed by the new days before it. */
  lemma NewDaysGenerated(plan: seq<Day>, pools: Pools, sinDiabetes: bool, today: int,
                         rng: nat -> DayChoices)
    requires Catalog.NonEmptyPools(pools)
    ensures GeneratedRun(NewDays(plan, pools, sinDiabetes, today, rng), LastDate(plan, today) + 1, |plan|,
                         BuildRecentFromPlan(plan), pools, sinDiabetes)
  {
  }

  /** The new days are dated consecutively from the day after the last kept
      date, and their lunch rotation continues from the number of kept
      days. */
  lemma NewDaysDated(plan: seq<Day>, pools: Pools, sinDiabetes: bool, today: int,
                     rng: nat -> DayChoices)
    requires Catalog.NonEmptyPools(pools)
    ensures RunDated(NewDays(plan, pools, sinDiabetes, today, rng), LastDate(plan, today) + 1, |plan|)
  {
  }

  /** Sorting the kept days together with a run dated consecutively after
      every one of them puts the sorted kept days first and the run after
      them, untouched. */
  lemma MergeShape(plan: seq<Day>, nd: seq<Day>, last: int)
    requires forall i :: 0 <= i < |plan| ==> plan[i].date <= last
    requires RunDated(nd, last + 1, |plan|)
    ensures SortBy(plan + nd, DateOf) == SortBy(plan, DateOf) + nd
  {
    RunDatedSorted(nd, last + 1, |plan|);
    SortByAppendAbove(plan, nd, DateOf);
  }

  /** True when `r` is some order of the days of `plan`, all dated up to
      `last`, followed by one day for each date after `last` up to `end`,
      in date order. */
  predicate Layout(r: seq<Day>, plan: seq<Day>, last: int, end: int) {
    && |r| == |plan| + NewCount(last, end)
    && (forall i :: 0 <= i < |plan| ==> r[i] in plan && r[i].date <= last)
    && (forall i :: |plan| <= i < |r| ==> r[i].date == last + 1 + (i - |plan|))
  }

  /** A permutation of the kept days followed by new days dated
      consecutively after the last kept date is laid out as `Layout` says,
      and the new days keep their lunch patterns. */
  lemma ExtendedPlanFacts(plan: seq<Day>, sp: seq<Day>, nd: seq<Day>, last: int, end: int)
    requires multiset(sp) == multiset(plan)
    requires forall i :: 0 <= i < |plan| ==> plan[i].date <= last
    requires |nd| == NewCount(last, end)
    requires RunDated(nd, last + 1, |plan|)
    ensures Layout(sp + nd, plan, last, end)
    ensures forall i :: |plan| <= i < |sp + nd| ==> (sp + nd)[i].pattern == GetComidaPattern(i)
  {
    assert |sp| == |plan| by {
      assert |multiset(sp)| == |multiset(plan)|;
    }
    var r := sp + nd;
    forall i | 0 <= i < |plan|
      ensures r[i] in plan && r[i].date <= last
    {
      assert r[i] == sp[i];
      assert sp[i] in multiset(plan);
      var k :| 0 <= k < |plan| && plan[k] == r[i];
    }
    forall i | |plan| <= i < |r|
      ensures r[i].date == last + 1 + (i - |plan|) && r[i].pattern == GetComidaPattern(i)
    {
      assert r[i] == nd[i - |plan|];
    }
  }

  /** Sorting the kept days together with the new days lays them out as
      `Layout` says, with the new days keeping their lunch patterns. */
  lemma MergeLayout(plan: seq<Day>, nd: seq<Day>, last: int, end: int)
    requires forall i :: 0 <= i < |plan| ==> plan[i].date <= last
    requires |nd| == NewCount(last, end)
    requires RunDated(nd, last + 1, |plan|)
    ensures var r := SortBy(plan + nd, DateOf);
            && Layout(r, plan, last, end)
            && (forall i :: |plan| <= i < |r| ==> r[i].pattern == GetComidaPattern(i))
  {
    MergeShape(plan, nd, last);
    ExtendedPlanFacts(plan, SortBy(plan, DateOf), nd, last, end);
  }

  /** The rolling-window sync on pools already filtered for the profile:
      drop the days before yesterday, extend the plan up to today plus
      fourteen, and sort by date. The kept days come first, in some order,
      followed by one new day for each date after the last kept one up to
      today plus fourteen, with the lunch rotation continuing from the
      number of kept days. Days up to the last kept date are all kept days:
      gaps are not refilled. */
  function Sync(pools: Pools, sd: bool, existing: seq<Day>, today: int, rng: nat -> DayChoices): (r: seq<Day>)
    requires Catalog.NonEmptyPools(pools)
    ensures SortedBy(r, DateOf)
    ensures multiset(r) == multiset(Survivors(existing, today))
                           + multiset(NewDays(Survivors(existing, today), pools, sd, today, rng))
  {
    var plan := Survivors(existing, today);
    SortBy(plan + NewDays(plan, pools, sd, today, rng), DateOf)
  }

  /** A sync keeps the kept days in front, in some order, and appends one
      new day for each date after the last kept one up to today plus
      fourteen, with the lunch rotation continuing from the number of kept
      days. Days up to the last kept date are all kept days: gaps are not
      refilled. */
  lemma SyncExtends(pools: Pools, sd: bool, existing: seq<Day>, today: int, rng: nat -> DayChoices)
    requires Catalog.NonEmptyPools(pools)
    ensures var plan := Survivors(existing, today);
            var r := Sync(pools, sd, existing, today, rng);
            && Layout(r, plan, LastDate(plan, today), TargetEnd(today))
            && (forall i :: |plan| <= i < |r| ==> r[i].pattern == GetComidaPattern(i))
  {
    var plan := Survivors(existing, today);
    NewDaysDated(plan, pools, sd, today, rng);
    MergeLayout(plan, NewDays(plan, pools, sd, today, rng), LastDate(plan, today), TargetEnd(today));
  }

  /** `syncPlan`: the sync on the catalog filtered for the profile's
      allergies, with the profile's diabetes rule. */
  function SyncPlan(catalog: Pools, existing: seq<Day>, profile: Profile, today: int,
                    rng: nat -> DayChoices): (r: seq<Day>)
    requires Catalog.NonEmptyPools(catalog)
    ensures SortedBy(r, DateOf)
  {
    Sync(BuildFilteredMeals(catalog, profile.alergias), IsSinDiabetes(profile), existing, today, rng)
  }

  /** The synced plan is the kept days, sorted, followed by the new days:
      every new day is later than every kept day. */
  lemma SyncShape(pools: Pools, sd: bool, existing: seq<Day>, today: int, rng: nat -> DayChoices)
    requires Catalog.NonEmptyPools(pools)
    ensures var plan := Survivors(existing, today);
            Sync(pools, sd, existing, today, rng)
              == SortBy(plan, DateOf) + NewDays(plan, pools, sd, today, rng)
  {
    var plan := Survivors(existing, today);
    NewDaysDated(plan, pools, sd, today, rng);
    MergeShape(plan, NewDays(plan, pools, sd, today, rng), LastDate(plan, today));
  }

  /** The date generation continues from is never before yesterday. */
  lemma LastDateNotBeforeYesterday(existing: seq<Day>, today: int)
    ensures LastDate(Survivors(existing, today), today) >= today - 1
  {
    var plan := Survivors(existing, today);
    if plan != [] {
      var i :| 0 <= i < |plan| && plan[i].date == LastDate(plan, today);
      assert plan[i] in plan;
    }
  }

  /** Nothing survives when every stored day is before yesterday. */
  lemma NoSurvivors(existing: seq<Day>, today: int)
    requires forall d :: d in existing ==> d.date < today - 1
    ensures Survivors(existing, today) == []
  {
    var plan := Survivors(existing, today);
    assert forall i :: 0 <= i < |plan| ==> plan[i] in plan;
  }

  /** A plan laid out as `Layout` describes has no day before `lo` when the
      kept days and `last` are not. */
  lemma LayoutFrom(r: seq<Day>, plan: seq<Day>, last: int, end: int, lo: int)
    requires Layout(r, plan, last, end)
    requires forall d :: d in plan ==> d.date >= lo
    requires last >= lo
    ensures forall i :: 0 <= i < |r| ==> r[i].date >= lo
  {
    forall i | 0 <= i < |r|
      ensures r[i].date >= lo
    {
      if i < |plan| {
        assert r[i] in plan;
      }
    }
  }

  /** After a sync no day is before yesterday. */
  lemma SyncDropsStale(pools: Pools, sd: bool, existing: seq<Day>, today: int, rng: nat -> DayChoices)
    requires Catalog.NonEmptyPools(pools)
    ensures var r := Sync(pools, sd, existing, today, rng);
            forall i :: 0 <= i < |r| ==> r[i].date >= today - 1
  {
    SyncExtends(pools, sd, existing, today, rng);
    var plan := Survivors(existing, today);
    LastDateNotBeforeYesterday(existing, today);
    LayoutFrom(Sync(pools, sd, existing, today, rng), plan, LastDate(plan, today), TargetEnd(today), today - 1);
  }

  /** A plan laid out as `Layout` describes has exactly one day for each
      date after `last` up to `end`. */
  lemma CoveredOnce(r: seq<Day>, plan: seq<Day>, last: int, end: int, t: int)
    requires last < t <= end
    requires Layout(r, plan, last, end)
    ensures exists i :: 0 <= i < |r| && r[i].date == t
    ensures forall i, j :: 0 <= i < |r| && 0 <= j < |r| && r[i].date == t && r[j].date == t ==> i == j
  {
    var k := |plan| + (t - last - 1);
    assert r[k].date == t;
  }

  /** Every date from the day after the last kept one to today plus
      fourteen is covered by a day of the synced plan. */
  lemma SyncCoversDate(pools: Pools, sd: bool, existing: seq<Day>, today: int, rng: nat -> DayChoices, t: int)
    requires Catalog.NonEmptyPools(pools)
    requires LastDate(Survivors(existing, today), today) < t <= TargetEnd(today)
    ensures var r := Sync(pools, sd, existing, today, rng);
            exists i :: 0 <= i < |r| && r[i].date == t
  {
    var plan := Survivors(existing, today);
    SyncExtends(pools, sd, existing, today, rng);
    CoveredOnce(Sync(pools, sd, existing, today, rng), plan, LastDate(plan, today), TargetEnd(today), t);
  }

  /** ... and by only one: no new date is generated twice. */
  lemma SyncCoversOnce(pools: Pools, sd: bool, existing: seq<Day>, today: int, rng: nat -> DayChoices, t: int)
    requires Catalog.NonEmptyPools(pools)
    requires LastDate(Survivors(existing, today), today) < t <= TargetEnd(today)
    ensures var r := Sync(pools, sd, existing, today, rng);
            forall i, j :: 0 <= i < |r| && 0 <= j < |r| && r[i].date == t && r[j].date == t ==> i == j
  {
    var plan := Survivors(existing, today);
    SyncExtends(pools, sd, existing, today, rng);
    CoveredOnce(Sync(pools, sd, existing, today, rng), plan, LastDate(plan, today), TargetEnd(today), t);
  }

  /** Sorting the kept days with no new days only sorts them. */
  lemma MergeNothing(plan: seq<Day>, nd: seq<Day>)
    requires |nd| == 0
    ensures SortBy(plan + nd, DateOf) == SortBy(plan, DateOf)
  {
    assert plan + nd == plan;
  }

  /** When the kept days already reach today plus fourteen, a sync only
      sorts them. */
  lemma SyncNothingToAdd(pools: Pools, sd: bool, existing: seq<Day>, today: int, rng: nat -> DayChoices)
    requires Catalog.NonEmptyPools(pools)
    requires LastDate(Survivors(existing, today), today) >= TargetEnd(today)
    ensures Sync(pools, sd, existing, today, rng) == SortBy(Survivors(existing, today), DateOf)
  {
    var plan := Survivors(existing, today);
    MergeNothing(plan, NewDays(plan, pools, sd, today, rng));
  }

  /** A plan laid out after no kept days is the new run alone. */
  lemma LayoutAlone(r: seq<Day>, last: int, end: int)
    requires Layout(r, [], last, end)
    ensures |r| == NewCount(last, end)
    ensures forall i :: 0 <= i < |r| ==> r[i].date == last + 1 + i
  {
  }

  /** When every stored day is before yesterday, generation starts from
      today plus one: the synced plan holds fourteen days and none of them
      is today. */
  lemma SyncEmptySkipsToday(pools: Pools, sd: bool, existing: seq<Day>, today: int, rng: nat -> DayChoices)
    requires Catalog.NonEmptyPools(pools)
    requires forall d :: d in existing ==> d.date < today - 1
    ensures var r := Sync(pools, sd, existing, today, rng);
            && |r| == WindowSize - 1
            && (forall i :: 0 <= i < |r| ==> r[i].date == today + 1 + i)
            && (forall i :: 0 <= i < |r| ==> r[i].date != today)
  {
    SyncExtends(pools, sd, existing, today, rng);
    NoSurvivors(existing, today);
    LayoutAlone(Sync(pools, sd, existing, today, rng), today, TargetEnd(today));
  }

  // ---- Rolling window, corrected start ----

  /** The date generation should continue from: the latest kept date, or
      yesterday when nothing was kept, so that the first new day is today. */
  function LastDateFixed(plan: seq<Day>, today: int): (r: int)
    ensures plan == [] ==> r == today - 1
    ensures plan != [] ==> r == LastDate(plan, today)
    ensures forall i :: 0 <= i < |plan| ==> plan[i].date <= r
  {
    if plan == [] then today - 1 else MaxDate(plan)
  }

  /** The new days from the corrected start: from the day after
      `LastDateFixed` up to `TargetEnd`, otherwise drawn as `NewDays`
      draws them. */
  function NewDaysFixed(plan: seq<Day>, pools: Pools, sinDiabetes: bool, today: int,
                        rng: nat -> DayChoices): (r: seq<Day>)
    requires Catalog.NonEmptyPools(pools)
    ensures |r| == NewCount(LastDateFixed(plan, today), TargetEnd(today))
  {
    var lastDate := LastDateFixed(plan, today);
    GenerateFrom(lastDate + 1, |plan|, NewCount(lastDate, TargetEnd(today)), BuildRecentFromPlan(plan),
                 pools, sinDiabetes, rng).0
  }

  /** The new days from the corrected start are a generated run, dated
      consecutively from the day after `LastDateFixed`. */
  lemma NewDaysFixedGenerated(plan: seq<Day>, pools: Pools, sinDiabetes: bool, today: int,
                              rng: nat -> DayChoices)
    requires Catalog.NonEmptyPools(pools)
    ensures RunDated(NewDaysFixed(plan, pools, sinDiabetes, today, rng), LastDateFixed(plan, today) + 1, |plan|)
    ensures GeneratedRun(NewDaysFixed(plan, pools, sinDiabetes, today, rng), LastDateFixed(plan, today) + 1,
                         |plan|, BuildRecentFromPlan(plan), pools, sinDiabetes)
  {
  }

  /** The sync with the corrected start: the kept days in some order, then
      one new day for each date after the last kept one, or from today when
      nothing was kept, up to today plus fourteen. */
  function SyncFixed(pools: Pools, sd: bool, existing: seq<Day>, today: int, rng: nat -> DayChoices): (r: seq<Day>)
    requires Catalog.NonEmptyPools(pools)
    ensures SortedBy(r, DateOf)
    ensures Layout(r, Survivors(existing, today), LastDateFixed(Survivors(existing, today), today), TargetEnd(today))
  {
    var plan := Survivors(existing, today);
    var nd := NewDaysFixed(plan, pools, sd, today, rng);
    NewDaysFixedGenerated(plan, pools, sd, today, rng);
    MergeLayout(plan, nd, LastDateFixed(plan, today), TargetEnd(today));
    SortBy(plan + nd, DateOf)
  }

  /** With the corrected start, every date after the last kept one, or from
      today when nothing was kept, up to today plus fourteen is covered by a
      day of the synced plan... */
  lemma SyncFixedCoversDate(pools: Pools, sd: bool, existing: seq<Day>, today: int, rng: nat -> DayChoices, t: int)
    requires Catalog.NonEmptyPools(pools)
    requires LastDateFixed(Survivors(existing, today), today) < t <= TargetEnd(today)
    ensures var r := SyncFixed(pools, sd, existing, today, rng);
            exists i :: 0 <= i < |r| && r[i].date == t
  {
    var plan := Survivors(existing, today);
    CoveredOnce(SyncFixed(pools, sd, existing, today, rng), plan, LastDateFixed(plan, today), TargetEnd(today), t);
  }

  /** ... and by only one. */
  lemma SyncFixedCoversOnce(pools: Pools, sd: bool, existing: seq<Day>, today: int, rng: nat -> DayChoices, t: int)
    requires Catalog.NonEmptyPools(pools)
    requires LastDateFixed(Survivors(existing, today), today) < t <= TargetEnd(today)
    ensures var r := SyncFixed(pools, sd, existing, today, rng);
            forall i, j :: 0 <= i < |r| && 0 <= j < |r| && r[i].date == t && r[j].date == t ==> i == j
  {
    var plan := Survivors(existing, today);
    CoveredOnce(SyncFixed(pools, sd, existing, today, rng), plan, LastDateFixed(plan, today), TargetEnd(today), t);
  }

  /** With the corrected start, a stored plan with no day from today on
      continues from yesterday. */
  lemma LastDateFixedStale(existing: seq<Day>, today: int)
    requires forall k :: 0 <= k < |existing| ==> existing[k].date < today
    ensures LastDateFixed(Survivors(existing, today), today) == today - 1
  {
    var plan := Survivors(existing, today);
    if plan != [] {
      var i :| 0 <= i < |plan| && plan[i].date == LastDateFixed(plan, today);
      assert plan[i] in existing;
    }
  }

  /** With the corrected start, a stored plan with nothing from today on,
      including one whose days are all older than yesterday, is synced to a
      plan with a day for today. */
  lemma SyncFixedCoversToday(pools: Pools, sd: bool, existing: seq<Day>, today: int, rng: nat -> DayChoices)
    requires Catalog.NonEmptyPools(pools)
    requires forall k :: 0 <= k < |existing| ==> existing[k].date < today
    ensures var r := SyncFixed(pools, sd, existing, today, rng);
            exists i :: 0 <= i < |r| && r[i].date == today
  {
    LastDateFixedStale(existing, today);
    SyncFixedCoversDate(pools, sd, existing, today, rng, today);
  }

  /** `syncPlan` with the corrected start. */
  function SyncPlanFixed(catalog: Pools, existing: seq<Day>, profile: Profile, today: int,
                         rng: nat -> DayChoices): (r: seq<Day>)
    requires Catalog.NonEmptyPools(catalog)
    ensures SortedBy(r, DateOf)
    ensures (forall k :: 0 <= k < |existing| ==> existing[k].date < today) ==>
              exists i :: 0 <= i < |r| && r[i].date == today
  {
    var pools := BuildFilteredMeals(catalog, profile.alergias);
    var sd := IsSinDiabetes(profile);
    if forall k :: 0 <= k < |existing| ==> existing[k].date < today then
      SyncFixedCoversToday(pools, sd, existing, today, rng);
      SyncFixed(pools, sd, existing, today, rng)
    else
      SyncFixed(pools, sd, existing, today, rng)
  }
}
