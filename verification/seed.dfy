/** The recipe seeder's pure core: random picks, the carbohydrate-weighted
    glycaemic index, the diabetes types a recipe suits, its dietary tags, and
    the batch loop that keeps only recipes with new names. The pantry
    tables, the per-meal generators' naming and the upload are left out. */
module Seed {
  import opened Common

  /** A pantry ingredient: its name, the macros and price of one portion,
      its glycaemic index and its dietary tags (absent tags are none). */
  datatype Ingredient = Ingredient(
    item: string,
    cal: real,
    carbs: real,
    protein: real,
    fat: real,
    price: real,
    gi: real,
    tags: seq<string>)

  // ---- Random picks ----

  /** `pick`: the element at the random index `k`; none for an empty list,
      where JavaScript yields `undefined`. */
  function Pick<T>(arr: seq<T>, k: nat): (r: Option<T>)
    ensures r.Some? <==> |arr| > 0
    ensures r.Some? ==> r.value in arr
  {
    if |arr| == 0 then None else Some(arr[k % |arr|])
  }

  /** `pickN`: the first `n` elements of the list after a sort with a random
      comparator. `shuffled` is the order that sort left, which is some
      permutation of the list. */
  function PickN<T>(arr: seq<T>, n: nat, shuffled: seq<T>): (r: seq<T>)
    requires multiset(shuffled) == multiset(arr)
    ensures |r| == if n < |arr| then n else |arr|
    ensures |r| <= |shuffled| && r == shuffled[..|r|]
    ensures multiset(r) <= multiset(arr)
  {
    assert |shuffled| == |multiset(shuffled)| == |arr|;
    var r := shuffled[..if n < |shuffled| then n else |shuffled|];
    assert shuffled == r + shuffled[|r|..];
    r
  }

  /** Picking from a list without repeats never picks the same element
      twice, so a breakfast never gets the same topping twice. */
  lemma PickNDistinct<T>(arr: seq<T>, n: nat, shuffled: seq<T>)
    requires multiset(shuffled) == multiset(arr)
    requires NoDup(arr)
    ensures NoDup(PickN(arr, n, shuffled))
  {
    var r := PickN(arr, n, shuffled);
    NoDupAtMostOnce(arr);
    forall x
      ensures multiset(r)[x] <= 1
    {
      assert multiset(r)[x] <= multiset(arr)[x];
    }
    AtMostOnceNoDup(r);
  }

  /** A list without repeats holds every value at most once. */
  lemma {:induction false} NoDupAtMostOnce<T>(s: seq<T>)
    requires NoDup(s)
    ensures forall x :: multiset(s)[x] <= 1
    decreases |s|
  {
    if s != [] {
      var tail := s[1..];
      assert s == [s[0]] + tail;
      assert NoDup(tail) by {
        forall i, j | 0 <= i < j < |tail|
          ensures tail[i] != tail[j]
        {
          assert tail[i] == s[i + 1] && tail[j] == s[j + 1];
        }
      }
      NoDupAtMostOnce(tail);
      assert s[0] !in tail by {
        forall k | 0 <= k < |tail|
          ensures tail[k] != s[0]
        {
          assert tail[k] == s[k + 1];
        }
      }
      forall x
        ensures multiset(s)[x] <= 1
      {
        assert multiset(s)[x] == multiset([s[0]])[x] + multiset(tail)[x];
      }
    }
  }

  /** A list that holds every value at most once has no repeats. */
  lemma AtMostOnceNoDup<T>(s: seq<T>)
    requires forall x :: multiset(s)[x] <= 1
    ensures NoDup(s)
  {
    forall i, j | 0 <= i < j < |s|
      ensures s[i] != s[j]
    {
      var x := s[j];
      assert s == s[..j] + s[j..];
      assert x in s[j..];
      assert multiset(s)[x] == multiset(s[..j])[x] + multiset(s[j..])[x];
      assert x !in multiset(s[..j]);
      assert s[i] in s[..j];
    }
  }

  // ---- Glycaemic index ----

  /** The carbohydrates of all the ingredients. */
  function TotalCarbs(ings: seq<Ingredient>): real
    decreases |ings|
  {
    if ings == [] then 0.0 else ings[0].carbs + TotalCarbs(ings[1..])
  }

  /** Each ingredient's index weighted by its carbohydrates, summed. */
  function GiSum(ings: seq<Ingredient>): real
    decreases |ings|
  {
    if ings == [] then 0.0 else ings[0].gi * ings[0].carbs + GiSum(ings[1..])
  }

  /** The index given to a meal without carbohydrates. */
  const CarbFreeGi: real := 15.0

  /** `weightedGI`: the carbohydrate-weighted mean of the ingredients'
      indexes, and 15 for a meal without carbohydrates. The final rounding
      is left out. */
  function WeightedGi(ings: seq<Ingredient>): (r: real)
    ensures TotalCarbs(ings) == 0.0 ==> r == CarbFreeGi
    ensures TotalCarbs(ings) != 0.0 ==> r * TotalCarbs(ings) == GiSum(ings)
  {
    var totalCarbs := TotalCarbs(ings);
    if totalCarbs == 0.0 then CarbFreeGi else GiSum(ings) / totalCarbs
  }

  /** With no negative carbohydrates, the weighted index of a meal with
      carbohydrates lies within any bounds on the indexes of its
      carbohydrate-bearing ingredients: between their minimum and maximum. */
  lemma WeightedGiBounds(ings: seq<Ingredient>, lo: real, hi: real)
    requires forall i :: 0 <= i < |ings| ==> ings[i].carbs >= 0.0
    requires forall i :: 0 <= i < |ings| && ings[i].carbs > 0.0 ==> lo <= ings[i].gi <= hi
    requires TotalCarbs(ings) != 0.0
    ensures lo <= WeightedGi(ings) <= hi
  {
    var t, g := TotalCarbs(ings), GiSum(ings);
    TotalCarbsNonNegative(ings);
    GiSumBounds(ings, lo, hi);
    assert t > 0.0 && lo * t <= g <= hi * t;
    DivBounds(g, t, lo, hi);
    assert WeightedGi(ings) == g / t;
  }

  lemma {:induction false} TotalCarbsNonNegative(ings: seq<Ingredient>)
    requires forall i :: 0 <= i < |ings| ==> ings[i].carbs >= 0.0
    ensures TotalCarbs(ings) >= 0.0
    decreases |ings|
  {
    if ings != [] {
      TotalCarbsNonNegative(ings[1..]);
    }
  }

  /** The weighted sum lies between the total weighted by the lowest and by
      the highest index. */
  lemma {:induction false} GiSumBounds(ings: seq<Ingredient>, lo: real, hi: real)
    requires forall i :: 0 <= i < |ings| ==> ings[i].carbs >= 0.0
    requires forall i :: 0 <= i < |ings| && ings[i].carbs > 0.0 ==> lo <= ings[i].gi <= hi
    ensures lo * TotalCarbs(ings) <= GiSum(ings) <= hi * TotalCarbs(ings)
    decreases |ings|
  {
    if ings != [] {
      var rest := ings[1..];
      GiSumBounds(rest, lo, hi);
      var c, g, t := ings[0].carbs, ings[0].gi, TotalCarbs(rest);
      assert GiSum(ings) == g * c + GiSum(rest);
      assert TotalCarbs(ings) == c + t;
      if c > 0.0 {
        MulBounds(lo, g, hi, c);
        assert lo * c <= g * c <= hi * c;
      } else {
        assert c == 0.0;
        assert lo * c == 0.0 && g * c == 0.0 && hi * c == 0.0;
      }
      assert lo * t <= GiSum(rest) <= hi * t;
      assert lo * (c + t) == lo * c + lo * t;
      assert hi * (c + t) == hi * c + hi * t;
    }
  }

  lemma MulBounds(lo: real, x: real, hi: real, c: real)
    requires lo <= x <= hi && c > 0.0
    ensures lo * c <= x * c <= hi * c
  {
  }

  lemma DivBounds(a: real, t: real, lo: real, hi: real)
    requires t > 0.0 && lo * t <= a <= hi * t
    ensures lo <= a / t <= hi
  {
  }

  // ---- Suitability ----

  /** The diabetes types a recipe can be marked as suiting. */
  datatype Suit = SinDiabetes | Mody | Type2 | Gestational | Type1 | Lada

  /** The label each type is stored under. */
  function SuitLabel(s: Suit): string {
    match s
    case SinDiabetes => "sin_diabetes"
    case Mody => "mody"
    case Type2 => "type_2"
    case Gestational => "gestational"
    case Type1 => "type_1"
    case Lada => "lada"
  }

  /** The types in the order `computeSuitableFor` pushes them. */
  const SuitOrder: seq<Suit> := [SinDiabetes, Mody, Type2, Gestational, Type1, Lada]

  /** The rule that pushes each type. Type 2 has two alternative rules, an
      `if` and an `else if`, so it is pushed once when either holds. */
  predicate SuitRule(s: Suit, carbs: real, gi: real) {
    match s
    case SinDiabetes => true
    case Mody => carbs <= 80.0 && gi <= 75.0
    case Type2 => (carbs <= 60.0 && gi <= 65.0) || (carbs <= 70.0 && gi <= 55.0)
    case Gestational => carbs <= 50.0 && gi <= 55.0
    case Type1 => carbs <= 70.0
    case Lada => carbs <= 65.0
  }

  /** Every type appears once in the order, the no-diabetes one first. */
  lemma SuitOrderComplete()
    ensures forall s :: s in SuitOrder
    ensures NoDup(SuitOrder)
  {
    forall s: Suit
      ensures s in SuitOrder
    {
      match s
      case SinDiabetes => assert SuitOrder[0] == s;
      case Mody => assert SuitOrder[1] == s;
      case Type2 => assert SuitOrder[2] == s;
      case Gestational => assert SuitOrder[3] == s;
      case Type1 => assert SuitOrder[4] == s;
      case Lada => assert SuitOrder[5] == s;
    }
  }

  /** `computeSuitableFor`: the types whose rule holds, once each, in the
      order they are pushed. */
  function SuitableFor(carbs: real, gi: real): (r: seq<Suit>)
    ensures forall s :: s in r <==> SuitRule(s, carbs, gi)
    ensures NoDup(r)
  {
    var keep := (s: Suit) => SuitRule(s, carbs, gi);
    SuitOrderComplete();
    FilterNoDupWhen(SuitOrder, keep);
    Filter(SuitOrder, keep)
  }

  /** Every recipe suits a profile without diabetes, listed first; the other
      types follow their carbohydrate and index thresholds. */
  lemma SuitabilityThresholds(carbs: real, gi: real)
    ensures var r := SuitableFor(carbs, gi);
            && |r| > 0 && r[0] == SinDiabetes
            && (Mody in r <==> carbs <= 80.0 && gi <= 75.0)
            && (Type2 in r <==> (carbs <= 60.0 && gi <= 65.0) || (carbs <= 70.0 && gi <= 55.0))
            && (Gestational in r <==> carbs <= 50.0 && gi <= 55.0)
            && (Type1 in r <==> carbs <= 70.0)
            && (Lada in r <==> carbs <= 65.0)
  {
    assert SuitRule(SinDiabetes, carbs, gi);
    assert SuitRule(Mody, carbs, gi) <==> carbs <= 80.0 && gi <= 75.0;
    assert SuitRule(Type2, carbs, gi) <==> (carbs <= 60.0 && gi <= 65.0) || (carbs <= 70.0 && gi <= 55.0);
    assert SuitRule(Gestational, carbs, gi) <==> carbs <= 50.0 && gi <= 55.0;
    assert SuitRule(Type1, carbs, gi) <==> carbs <= 70.0;
    assert SuitRule(Lada, carbs, gi) <==> carbs <= 65.0;
    var keep := (s: Suit) => SuitRule(s, carbs, gi);
    assert SuitOrder[0] == SinDiabetes && keep(SinDiabetes);
    assert Filter(SuitOrder, keep) == [SinDiabetes] + Filter(SuitOrder[1..], keep);
    var r := SuitableFor(carbs, gi);
    assert r == Filter(SuitOrder, keep);
  }

  /** The stricter labels imply the looser ones: a gestational-safe recipe
      suits type 2, MODY, type 1 and LADA too, and a LADA-safe one suits
      type 1. */
  lemma SuitabilityNested(carbs: real, gi: real)
    ensures var r := SuitableFor(carbs, gi);
            && (Gestational in r ==> Type2 in r && Mody in r && Type1 in r && Lada in r)
            && (Lada in r ==> Type1 in r)
  {
    assert SuitRule(Gestational, carbs, gi) ==> SuitRule(Type2, carbs, gi) && SuitRule(Mody, carbs, gi);
    assert SuitRule(Gestational, carbs, gi) ==> SuitRule(Type1, carbs, gi) && SuitRule(Lada, carbs, gi);
    assert SuitRule(Lada, carbs, gi) ==> SuitRule(Type1, carbs, gi);
  }

  /** Different types are stored under different labels. */
  lemma SuitLabelsDistinct(a: Suit, b: Suit)
    ensures SuitLabel(a) == SuitLabel(b) <==> a == b
  {
    if a != b {
      var x, y := SuitLabel(a), SuitLabel(b);
      assert |x| != |y| || x[0] != y[0] || x[5] != y[5];
    }
  }

  // ---- Tags ----

  /** The words whose mention rules out each "free of" tag. */
  const DairyWords: seq<string> :=
    ["leche", "yogur", "queso", "l\U{E1}cteo", "nata", "k\U{E9}fir", "reques\U{F3}n", "crema"]
  const EggWords: seq<string> := ["huevo", "tortilla"]
  const NutWords: seq<string> := ["nuez", "almendra", "cacahuete", "anacardo", "frutos secos", "avellana"]
  const SeafoodWords: seq<string> :=
    ["gamba", "marisco", "mejill\U{F3}n", "calamar", "langostino", "almeja"]

  /** `Array.prototype.join`. */
  function Join(parts: seq<string>, sep: string): string
    decreases |parts|
  {
    if parts == [] then ""
    else if |parts| == 1 then parts[0]
    else parts[0] + sep + Join(parts[1..], sep)
  }

  /** The ingredients' names, lower-cased and joined with spaces. */
  function AllItems(ings: seq<Ingredient>): string {
    Join(seq(|ings|, i requires 0 <= i < |ings| => Lower(ings[i].item)), " ")
  }

  /** A regular expression made of literal alternatives matches somewhere in
      `text` exactly when one of the words occurs in it. */
  predicate Mentions(text: string, words: seq<string>)
    decreases |words|
  {
    words != [] && (Contains(text, words[0]) || Mentions(text, words[1..]))
  }

  /** Every ingredient carries the tag. */
  predicate AllTagged(ings: seq<Ingredient>, tag: string) {
    forall i :: 0 <= i < |ings| ==> tag in ings[i].tags
  }

  /** The summed macros and price of a recipe; the rounding to whole
      calories and one or two decimals is left out. */
  datatype Nutrition = Nutrition(calories: real, carbs: real, protein: real, fat: real, price: real)

  /** The quantities a recipe sums over its ingredients. */
  datatype Measure = Kcal | Carb | Prot | Lipid | Cost

  function Amount(i: Ingredient, m: Measure): real {
    match m
    case Kcal => i.cal
    case Carb => i.carbs
    case Prot => i.protein
    case Lipid => i.fat
    case Cost => i.price
  }

  /** One quantity summed over all the ingredients. */
  function Total(ings: seq<Ingredient>, m: Measure): real
    decreases |ings|
  {
    if ings == [] then 0.0 else Amount(ings[0], m) + Total(ings[1..], m)
  }

  /** The loop of `sumNutrition`: the running sums `acc` after the
      ingredients already visited, advanced over `ings` first to last. */
  function SumFrom(acc: Nutrition, ings: seq<Ingredient>): (n: Nutrition)
    ensures n.calories == acc.calories + Total(ings, Kcal)
    ensures n.carbs == acc.carbs + TotalCarbs(ings)
    ensures n.protein == acc.protein + Total(ings, Prot)
    ensures n.fat == acc.fat + Total(ings, Lipid)
    ensures n.price == acc.price + Total(ings, Cost)
    decreases |ings|
  {
    if ings == [] then acc
    else
      var i := ings[0];
      SumFrom(Nutrition(acc.calories + i.cal, acc.carbs + i.carbs, acc.protein + i.protein,
                        acc.fat + i.fat, acc.price + i.price), ings[1..])
  }

  /** `sumNutrition` without its rounding: every field is the total of that
      quantity over the ingredients. */
  function SumNutrition(ings: seq<Ingredient>): (n: Nutrition)
    ensures n.calories == Total(ings, Kcal)
    ensures n.carbs == TotalCarbs(ings)
    ensures n.protein == Total(ings, Prot)
    ensures n.fat == Total(ings, Lipid)
    ensures n.price == Total(ings, Cost)
  {
    SumFrom(Nutrition(0.0, 0.0, 0.0, 0.0, 0.0), ings)
  }

  /** The dietary tags a recipe can carry. */
  datatype Tag = GlutenFree | Vegan | Vegetarian | DairyFree | EggFree | NutFree | SeafoodFree
               | HighProtein | LowCarb | Light | LowFat

  /** The label each tag is stored under. */
  function TagLabel(t: Tag): string {
    match t
    case GlutenFree => "gluten_free"
    case Vegan => "vegan"
    case Vegetarian => "vegetarian"
    case DairyFree => "dairy_free"
    case EggFree => "egg_free"
    case NutFree => "nut_free"
    case SeafoodFree => "seafood_free"
    case HighProtein => "high_protein"
    case LowCarb => "low_carb"
    case Light => "light"
    case LowFat => "low_fat"
  }

  /** The tags in the order `computeTags` first adds them to its set. */
  const TagOrder: seq<Tag> := [
    GlutenFree, Vegan, Vegetarian, DairyFree, EggFree, NutFree, SeafoodFree,
    HighProtein, LowCarb, Light, LowFat
  ]

  /** What `computeTags` finds out about a recipe, one fact per tag. */
  datatype TagFacts = TagFacts(
    allGlutenFree: bool,
    allVegan: bool,
    noDairy: bool,
    noEgg: bool,
    noNuts: bool,
    noSeafood: bool,
    highProtein: bool,
    lowCarb: bool,
    light: bool,
    lowFat: bool)

  /** The facts of a recipe: every ingredient tagged gluten-free or vegan,
      no ingredient name mentioning an allergen word, and the nutrient
      thresholds. */
  function FactsOf(ings: seq<Ingredient>, n: Nutrition): TagFacts {
    var allItems := AllItems(ings);
    TagFacts(
      AllTagged(ings, "gluten_free"),
      AllTagged(ings, "vegan"),
      !Mentions(allItems, DairyWords),
      !Mentions(allItems, EggWords),
      !Mentions(allItems, NutWords),
      !Mentions(allItems, SeafoodWords),
      n.protein >= 25.0,
      n.carbs <= 15.0,
      n.calories <= 250.0,
      n.fat <= 8.0)
  }

  /** The fact that adds each tag; vegan and vegetarian share one. */
  predicate TagRule(t: Tag, f: TagFacts) {
    match t
    case GlutenFree => f.allGlutenFree
    case Vegan => f.allVegan
    case Vegetarian => f.allVegan
    case DairyFree => f.noDairy
    case EggFree => f.noEgg
    case NutFree => f.noNuts
    case SeafoodFree => f.noSeafood
    case HighProtein => f.highProtein
    case LowCarb => f.lowCarb
    case Light => f.light
    case LowFat => f.lowFat
  }

  /** Every tag appears once in the order. */
  lemma TagOrderComplete()
    ensures forall t :: t in TagOrder
    ensures NoDup(TagOrder)
  {
    forall t: Tag
      ensures t in TagOrder
    {
      match t
      case GlutenFree => assert TagOrder[0] == t;
      case Vegan => assert TagOrder[1] == t;
      case Vegetarian => assert TagOrder[2] == t;
      case DairyFree => assert TagOrder[3] == t;
      case EggFree => assert TagOrder[4] == t;
      case NutFree => assert TagOrder[5] == t;
      case SeafoodFree => assert TagOrder[6] == t;
      case HighProtein => assert TagOrder[7] == t;
      case LowCarb => assert TagOrder[8] == t;
      case Light => assert TagOrder[9] == t;
      case LowFat => assert TagOrder[10] == t;
    }
  }

  /** `computeTags`: each tag is added at one place only, so spreading the
      set lists the tags whose rule holds, once each, in the order they are
      added. */
  function ComputeTags(ings: seq<Ingredient>, n: Nutrition): (r: seq<Tag>)
    ensures forall t :: t in r <==> TagRule(t, FactsOf(ings, n))
    ensures NoDup(r)
  {
    var facts := FactsOf(ings, n);
    var keep := (t: Tag) => TagRule(t, facts);
    TagOrderComplete();
    FilterNoDupWhen(TagOrder, keep);
    Filter(TagOrder, keep)
  }

  /** The dietary tags: gluten-free and vegan when every ingredient is, and
      vegetarian always together with vegan. */
  lemma DietTags(ings: seq<Ingredient>, n: Nutrition)
    ensures GlutenFree in ComputeTags(ings, n) <==> AllTagged(ings, "gluten_free")
    ensures Vegan in ComputeTags(ings, n) <==> AllTagged(ings, "vegan")
    ensures Vegetarian in ComputeTags(ings, n) <==> Vegan in ComputeTags(ings, n)
  {
    var f := FactsOf(ings, n);
    assert f.allGlutenFree == AllTagged(ings, "gluten_free");
    assert f.allVegan == AllTagged(ings, "vegan");
    assert TagRule(GlutenFree, f) == f.allGlutenFree;
    assert TagRule(Vegan, f) == f.allVegan;
    assert TagRule(Vegetarian, f) == f.allVegan;
    var r := ComputeTags(ings, n);
    assert GlutenFree in r <==> TagRule(GlutenFree, f);
    assert Vegan in r <==> TagRule(Vegan, f);
    assert Vegetarian in r <==> TagRule(Vegetarian, f);
  }

  /** The "free of" tags: added exactly when no ingredient name mentions a
      word of the allergen's list. */
  lemma FreeOfTags(ings: seq<Ingredient>, n: Nutrition)
    ensures DairyFree in ComputeTags(ings, n) <==> !Mentions(AllItems(ings), DairyWords)
    ensures EggFree in ComputeTags(ings, n) <==> !Mentions(AllItems(ings), EggWords)
    ensures NutFree in ComputeTags(ings, n) <==> !Mentions(AllItems(ings), NutWords)
    ensures SeafoodFree in ComputeTags(ings, n) <==> !Mentions(AllItems(ings), SeafoodWords)
  {
    var f, items := FactsOf(ings, n), AllItems(ings);
    assert f.noDairy == !Mentions(items, DairyWords);
    assert f.noEgg == !Mentions(items, EggWords);
    assert f.noNuts == !Mentions(items, NutWords);
    assert f.noSeafood == !Mentions(items, SeafoodWords);
    assert TagRule(DairyFree, f) == f.noDairy;
    assert TagRule(EggFree, f) == f.noEgg;
    assert TagRule(NutFree, f) == f.noNuts;
    assert TagRule(SeafoodFree, f) == f.noSeafood;
    var r := ComputeTags(ings, n);
    assert DairyFree in r <==> TagRule(DairyFree, f);
    assert EggFree in r <==> TagRule(EggFree, f);
    assert NutFree in r <==> TagRule(NutFree, f);
    assert SeafoodFree in r <==> TagRule(SeafoodFree, f);
  }

  /** The nutrient tags and their thresholds. */
  lemma NutrientTags(ings: seq<Ingredient>, n: Nutrition)
    ensures HighProtein in ComputeTags(ings, n) <==> n.protein >= 25.0
    ensures LowCarb in ComputeTags(ings, n) <==> n.carbs <= 15.0
    ensures Light in ComputeTags(ings, n) <==> n.calories <= 250.0
    ensures LowFat in ComputeTags(ings, n) <==> n.fat <= 8.0
  {
    var f := FactsOf(ings, n);
    assert f.highProtein == (n.protein >= 25.0);
    assert f.lowCarb == (n.carbs <= 15.0);
    assert f.light == (n.calories <= 250.0);
    assert f.lowFat == (n.fat <= 8.0);
    assert TagRule(HighProtein, f) == f.highProtein;
    assert TagRule(LowCarb, f) == f.lowCarb;
    assert TagRule(Light, f) == f.light;
    assert TagRule(LowFat, f) == f.lowFat;
    var r := ComputeTags(ings, n);
    assert HighProtein in r <==> TagRule(HighProtein, f);
    assert LowCarb in r <==> TagRule(LowCarb, f);
    assert Light in r <==> TagRule(Light, f);
    assert LowFat in r <==> TagRule(LowFat, f);
  }

  // ---- Recipes ----

  /** A generated recipe as it is uploaded. */
  datatype Recipe = Recipe(
    name: string,
    mealType: string,
    nutrition: Nutrition,
    glycemicIndex: real,
    suitableFor: seq<Suit>,
    ingredients: seq<Ingredient>,
    tags: seq<Tag>)

  /** The record every generator builds from its name, type and
      ingredients. */
  function Describe(name: string, mealType: string, ings: seq<Ingredient>): (r: Recipe)
    ensures r.name == name && r.mealType == mealType && r.ingredients == ings
    ensures r.nutrition == SumNutrition(ings) && r.nutrition.carbs == TotalCarbs(ings)
    ensures r.nutrition.calories == Total(ings, Kcal) && r.nutrition.protein == Total(ings, Prot)
    ensures r.nutrition.fat == Total(ings, Lipid) && r.nutrition.price == Total(ings, Cost)
    ensures r.glycemicIndex == WeightedGi(ings)
    ensures r.suitableFor == SuitableFor(r.nutrition.carbs, r.glycemicIndex)
    ensures r.tags == ComputeTags(ings, r.nutrition)
    ensures SinDiabetes in r.suitableFor
  {
    var n := SumNutrition(ings);
    var gi := WeightedGi(ings);
    Recipe(name, mealType, n, gi, SuitableFor(n.carbs, gi), ings, ComputeTags(ings, n))
  }

  /** A recipe tagged low-carb whose index is at most 55 suits every
      diabetes type. */
  lemma LowCarbSuitsEveryone(name: string, mealType: string, ings: seq<Ingredient>)
    requires var r := Describe(name, mealType, ings); LowCarb in r.tags && r.glycemicIndex <= 55.0
    ensures forall s: Suit :: s in Describe(name, mealType, ings).suitableFor
  {
    var n, gi := SumNutrition(ings), WeightedGi(ings);
    NutrientTags(ings, n);
    assert n.carbs <= 15.0;
    forall s: Suit
      ensures SuitRule(s, n.carbs, gi)
    {
    }
    assert Describe(name, mealType, ings).suitableFor == SuitableFor(n.carbs, gi);
  }

  // ---- Batches ----

  /** The loop of `generateUniqueByType`, for any item and key: calls the
      generator until `count` items with distinct keys are kept or
      `count * 10` calls are spent. Each kept item is the first call with
      its key; later calls with that key are skipped. `generate(a)` is the item the generator
      returns on call `a`; `picks` lists the call each kept item came
      from. */
  method KeepUnique<T>(generate: nat -> T, key: T -> string, count: int)
    returns (kept: seq<T>, attempts: nat, picks: seq<nat>)
    ensures |kept| <= (if count > 0 then count else 0)
    ensures attempts <= (if count > 0 then count * 10 else 0)
    ensures forall i, j :: 0 <= i < j < |kept| ==> key(kept[i]) != key(kept[j])
    ensures |picks| == |kept|
    ensures forall i :: 0 <= i < |kept| ==> picks[i] < attempts && kept[i] == generate(picks[i])
    ensures forall i, j :: 0 <= i < j < |picks| ==> picks[i] < picks[j]
    ensures forall a :: 0 <= a < attempts ==> key(generate(a)) in KeysOf(kept, key)
    ensures forall i, a :: 0 <= i < |kept| && 0 <= a < picks[i] ==> key(generate(a)) != key(kept[i])
    ensures |kept| < count ==> attempts == count * 10
  {
    var seen: seq<string> := [];
    kept, attempts, picks := [], 0, [];
    var maxAttempts := count * 10;
    while |kept| < count && attempts < maxAttempts
      invariant count > 0 ==> attempts <= maxAttempts
      invariant count <= 0 ==> attempts == 0 && kept == []
      invariant |kept| <= count || kept == []
      invariant |seen| == |kept| == |picks|
      invariant forall i :: 0 <= i < |kept| ==> seen[i] == key(kept[i])
      invariant NoDup(seen)
      invariant forall i :: 0 <= i < |kept| ==> picks[i] < attempts && kept[i] == generate(picks[i])
      invariant forall i, j :: 0 <= i < j < |picks| ==> picks[i] < picks[j]
      invariant forall a :: 0 <= a < attempts ==> key(generate(a)) in seen
      invariant forall i, a :: 0 <= i < |kept| && 0 <= a < picks[i] ==> key(generate(a)) != seen[i]
      decreases maxAttempts - attempts
    {
      var item := generate(attempts);
      var k := key(item);
      if k !in seen {
        seen, kept, picks := seen + [k], kept + [item], picks + [attempts];
      }
      attempts := attempts + 1;
    }
    assert seen == KeysOf(kept, key);
  }

  /** `generateUniqueByType`: the batch loop keyed by the recipe name
      lower-cased and trimmed. */
  method GenerateUniqueByType(generate: nat -> Recipe, count: int)
    returns (meals: seq<Recipe>, attempts: nat, picks: seq<nat>)
    ensures |meals| <= (if count > 0 then count else 0)
    ensures attempts <= (if count > 0 then count * 10 else 0)
    ensures forall i, j :: 0 <= i < j < |meals| ==> NormalKey(meals[i].name) != NormalKey(meals[j].name)
    ensures |picks| == |meals|
    ensures forall i :: 0 <= i < |meals| ==> picks[i] < attempts && meals[i] == generate(picks[i])
    ensures forall a :: 0 <= a < attempts ==> NormalKey(generate(a).name) in NameKeys(meals)
    ensures forall i, a :: 0 <= i < |meals| && 0 <= a < picks[i] ==> NormalKey(generate(a).name) != NormalKey(meals[i].name)
    ensures |meals| < count ==> attempts == count * 10
  {
    var key := (r: Recipe) => NormalKey(r.name);
    meals, attempts, picks := KeepUnique(generate, key, count);
    assert NameKeys(meals) == KeysOf(meals, key);
  }

  /** The keys of a list of items, in order. */
  function KeysOf<T>(xs: seq<T>, key: T -> string): (r: seq<string>)
    ensures |r| == |xs| && forall i :: 0 <= i < |xs| ==> r[i] == key(xs[i])
  {
    seq(|xs|, i requires 0 <= i < |xs| => key(xs[i]))
  }

  /** The lower-cased, trimmed names of the recipes, in order. */
  function NameKeys(meals: seq<Recipe>): (r: seq<string>)
    ensures |r| == |meals| && forall i :: 0 <= i < |meals| ==> r[i] == NormalKey(meals[i].name)
  {
    seq(|meals|, i requires 0 <= i < |meals| => NormalKey(meals[i].name))
  }
}
