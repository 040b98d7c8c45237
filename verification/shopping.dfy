/** The shopping list: every ingredient of a plan counted under its
    normalised name, then grouped by the first aisle whose keyword the name
    contains, with the rest under "Otros", each group sorted by name. */
module Shopping {
  import opened Common
  import opened Engine

  // ---- Tally ----

  /** A list entry: the ingredient as first written, and how many times it
      occurs. */
  datatype Item = Item(name: string, count: nat)

  /** An entry of the tally under its key, the normalised ingredient. */
  datatype Entry = Entry(key: string, item: Item)

  /** A day's ingredients in the order its meals are stored: breakfast,
      mid-morning, lunch, afternoon snack, dinner. */
  function DayIngredients(day: Day): seq<string> {
    var m := day.meals;
    m.desayuno.ingredients + m.mediaManana.ingredients + m.comida.ingredients
      + m.merienda.ingredients + m.cena.ingredients
  }

  /** Every ingredient occurrence of the plan, day after day. */
  function PlanIngredients(plan: seq<Day>): seq<string>
    decreases |plan|
  {
    if plan == [] then []
    else PlanIngredients(plan[..|plan| - 1]) + DayIngredients(plan[|plan| - 1])
  }

  /** Each occurrence paired with its key. */
  function Keyed(ings: seq<string>): (r: seq<(string, string)>)
    ensures |r| == |ings|
    ensures forall i :: 0 <= i < |ings| ==> r[i] == (NormalKey(ings[i]), ings[i])
  {
    seq(|ings|, i requires 0 <= i < |ings| => (NormalKey(ings[i]), ings[i]))
  }

  /** The number of keyed occurrences under `key`. */
  function CountKey(occ: seq<(string, string)>, key: string): nat
    decreases |occ|
  {
    if occ == [] then 0
    else CountKey(occ[..|occ| - 1], key) + (if occ[|occ| - 1].0 == key then 1 else 0)
  }

  /** The position of the entry under `key`, if any. */
  function FindKey(entries: seq<Entry>, key: string): (r: Option<nat>)
    ensures r.Some? ==> r.value < |entries| && entries[r.value].key == key
    ensures r.None? ==> forall i :: 0 <= i < |entries| ==> entries[i].key != key
    decreases |entries|
  {
    if entries == [] then None
    else if entries[|entries| - 1].key == key then Some(|entries| - 1)
    else FindKey(entries[..|entries| - 1], key)
  }

  /** Counts one more occurrence: the entry under the same key gains one,
      or a new entry named as written starts at one. */
  function AddOccurrence(entries: seq<Entry>, o: (string, string)): seq<Entry> {
    match FindKey(entries, o.0)
    case Some(i) => entries[i := entries[i].(item := entries[i].item.(count := entries[i].item.count + 1))]
    case None => entries + [Entry(o.0, Item(o.1, 1))]
  }

  /** The entries of a run of keyed occurrences, in order of first
      occurrence. */
  function Tally(occ: seq<(string, string)>): seq<Entry>
    decreases |occ|
  {
    if occ == [] then []
    else AddOccurrence(Tally(occ[..|occ| - 1]), occ[|occ| - 1])
  }

  /** No two entries share a key. */
  predicate KeysUnique(entries: seq<Entry>) {
    forall i, j :: 0 <= i < j < |entries| ==> entries[i].key != entries[j].key
  }

  /** Every entry holds the number of occurrences of its key. */
  predicate CountsRight(entries: seq<Entry>, occ: seq<(string, string)>) {
    forall i :: 0 <= i < |entries| ==> entries[i].item.count == CountKey(occ, entries[i].key)
  }

  /** `name` is how the first occurrence of `key` is written. */
  predicate FirstWritten(occ: seq<(string, string)>, key: string, name: string) {
    exists k :: 0 <= k < |occ| && occ[k] == (key, name) && forall j :: 0 <= j < k ==> occ[j].0 != key
  }

  /** Every entry is named as its key's first occurrence is written. */
  predicate NamesWritten(entries: seq<Entry>, occ: seq<(string, string)>) {
    forall i :: 0 <= i < |entries| ==> FirstWritten(occ, entries[i].key, entries[i].item.name)
  }

  /** Every occurring key has an entry. */
  predicate Covered(entries: seq<Entry>, occ: seq<(string, string)>) {
    forall k :: 0 <= k < |occ| ==> exists i :: 0 <= i < |entries| && entries[i].key == occ[k].0
  }

  /** `entries` counts `occ`: one entry per key that occurs and none for
      keys that do not, each with its number of occurrences and named as one
      of the key's occurrences is written. */
  predicate Counts(entries: seq<Entry>, occ: seq<(string, string)>) {
    KeysUnique(entries) && CountsRight(entries, occ) && NamesWritten(entries, occ) && Covered(entries, occ)
  }

  /** A key with an occurrence occurs at some position. */
  lemma {:induction false} CountKeyPositive(occ: seq<(string, string)>, key: string)
    requires CountKey(occ, key) > 0
    ensures exists k :: 0 <= k < |occ| && occ[k].0 == key
    decreases |occ|
  {
    var init := occ[..|occ| - 1];
    if occ[|occ| - 1].0 != key {
      CountKeyPositive(init, key);
      var k :| 0 <= k < |init| && init[k].0 == key;
      assert occ[k] == init[k];
    }
  }

  /** Occurrences of `key` in a run extended by one. */
  lemma CountKeyAppend(occ: seq<(string, string)>, o: (string, string), key: string)
    ensures CountKey(occ + [o], key) == CountKey(occ, key) + (if o.0 == key then 1 else 0)
  {
    assert (occ + [o])[..|occ|] == occ;
  }

  /** A step of the tally keeps the keys and names of the entries there
      are, and opens at most one entry, for the occurrence as written. */
  lemma AddOccurrenceShape(entries: seq<Entry>, o: (string, string))
    ensures var r := AddOccurrence(entries, o);
            && |entries| <= |r| <= |entries| + 1
            && (forall i :: 0 <= i < |entries| ==> r[i].key == entries[i].key && r[i].item.name == entries[i].item.name)
            && (|r| > |entries| ==> r[|entries|] == Entry(o.0, Item(o.1, 1)))
            && (exists i :: 0 <= i < |r| && r[i].key == o.0)
  {
    match FindKey(entries, o.0)
    case Some(i) =>
    case None =>
      assert AddOccurrence(entries, o)[|entries|].key == o.0;
  }

  /** A step of the tally opens no second entry for a key. */
  lemma StepKeysUnique(entries: seq<Entry>, o: (string, string))
    requires KeysUnique(entries)
    ensures KeysUnique(AddOccurrence(entries, o))
  {
  }

  /** A step of the tally counts the new occurrence under its key only. */
  lemma StepCountsRight(entries: seq<Entry>, occ: seq<(string, string)>, o: (string, string))
    requires KeysUnique(entries) && CountsRight(entries, occ) && Covered(entries, occ)
    ensures CountsRight(AddOccurrence(entries, o), occ + [o])
  {
    forall key
      ensures CountKey(occ + [o], key) == CountKey(occ, key) + (if o.0 == key then 1 else 0)
    {
      CountKeyAppend(occ, o, key);
    }
    if FindKey(entries, o.0).None? && CountKey(occ, o.0) > 0 {
      CountKeyPositive(occ, o.0);
      assert false;
    }
  }

  /** A first spelling stays first when an occurrence is appended. */
  lemma FirstWrittenExtend(occ: seq<(string, string)>, o: (string, string), key: string, name: string)
    requires FirstWritten(occ, key, name)
    ensures FirstWritten(occ + [o], key, name)
  {
    var all := occ + [o];
    var k :| 0 <= k < |occ| && occ[k] == (key, name) && forall j :: 0 <= j < k ==> occ[j].0 != key;
    assert all[k] == occ[k];
    assert forall j :: 0 <= j < k ==> all[j] == occ[j];
  }

  /** The first occurrence of a new key is the one appended. */
  lemma FirstWrittenNew(occ: seq<(string, string)>, o: (string, string))
    requires forall j :: 0 <= j < |occ| ==> occ[j].0 != o.0
    ensures FirstWritten(occ + [o], o.0, o.1)
  {
    var all := occ + [o];
    assert all[|occ|] == o;
    assert forall j :: 0 <= j < |occ| ==> all[j] == occ[j];
  }

  /** A step of the tally keeps every entry's first spelling, and names a
      new entry as its occurrence is written, which is then the first. */
  lemma StepNamesWritten(entries: seq<Entry>, occ: seq<(string, string)>, o: (string, string))
    requires NamesWritten(entries, occ) && Covered(entries, occ)
    ensures NamesWritten(AddOccurrence(entries, o), occ + [o])
  {
    var r := AddOccurrence(entries, o);
    AddOccurrenceShape(entries, o);
    forall i | 0 <= i < |r|
      ensures FirstWritten(occ + [o], r[i].key, r[i].item.name)
    {
      if i < |entries| {
        FirstWrittenExtend(occ, o, entries[i].key, entries[i].item.name);
      } else {
        assert FindKey(entries, o.0).None?;
        forall j | 0 <= j < |occ|
          ensures occ[j].0 != o.0
        {
          var e :| 0 <= e < |entries| && entries[e].key == occ[j].0;
        }
        FirstWrittenNew(occ, o);
      }
    }
  }

  /** A step of the tally gives the new occurrence's key an entry. */
  lemma StepCovered(entries: seq<Entry>, occ: seq<(string, string)>, o: (string, string))
    requires Covered(entries, occ)
    ensures Covered(AddOccurrence(entries, o), occ + [o])
  {
    var all := occ + [o];
    var r := AddOccurrence(entries, o);
    AddOccurrenceShape(entries, o);
    forall k | 0 <= k < |all|
      ensures exists i :: 0 <= i < |r| && r[i].key == all[k].0
    {
      if k < |occ| {
        assert all[k] == occ[k];
        var i :| 0 <= i < |entries| && entries[i].key == occ[k].0;
        assert r[i].key == entries[i].key;
      } else {
        assert all[k] == o;
      }
    }
  }

  /** The tally counts every key exactly as often as it occurs, under one
      entry per key. */
  lemma {:induction false} TallyCounts(occ: seq<(string, string)>)
    ensures Counts(Tally(occ), occ)
    decreases |occ|
  {
    if occ != [] {
      var init := occ[..|occ| - 1];
      var o := occ[|occ| - 1];
      assert init + [o] == occ;
      TallyCounts(init);
      var t := Tally(init);
      StepKeysUnique(t, o);
      StepCountsRight(t, init, o);
      StepNamesWritten(t, init, o);
      StepCovered(t, init, o);
    }
  }

  /** The entries' items, in order. */
  function ItemsOf(entries: seq<Entry>): (r: seq<Item>)
    ensures |r| == |entries|
    ensures forall i :: 0 <= i < |entries| ==> r[i] == entries[i].item
  {
    seq(|entries|, i requires 0 <= i < |entries| => entries[i].item)
  }

  // ---- Aisles ----

  /** The aisles in the order they are tried, each with its keywords. */
  const Categories: seq<(string, seq<string>)> := [
    ("\U{1F969} Proteínas", ["pollo", "pavo", "ternera", "cerdo", "chorizo", "jamón", "salmón", "merluza",
                             "lubina", "dorada", "emperador", "gambas", "almejas", "atún", "huevo", "calamar",
                             "mejillones"]),
    ("\U{1F9C0} Lácteos", ["yogur", "queso", "leche", "mantequilla", "crema", "nata", "mozzarella", "parmesano"]),
    ("\U{1F96C} Frutas y Verduras", ["lechuga", "tomate", "pepino", "cebolla", "ajo", "pimiento", "calabacín",
                                     "berenjena", "zanahoria", "espárrago", "espinaca", "brócoli", "champiñon",
                                     "manzana", "plátano", "limón", "fresa", "aguacate", "apio", "romana"]),
    ("\U{1F33E} Legumbres y Cereales", ["lenteja", "garbanzo", "alubia", "arroz", "pasta", "macarrones", "fideo",
                                        "avena", "pan", "masa", "galleta"]),
    ("\U{1F95C} Frutos Secos", ["nuez", "almendra", "anacardo", "cacahuete"]),
    ("\U{1FAD2} Despensa", ["aceite", "vinagre", "sal", "pimienta", "orégano", "comino", "pimentón", "canela",
                            "romero", "perejil", "eneldo", "laurel", "jengibre", "guindilla", "soja", "vino",
                            "hummus", "membrillo", "picos", "caldo", "alioli", "café"])
  ]

  /** The group of everything no aisle claims. */
  const Otros: string := "\U{1F4E6} Otros"

  /** The lower-cased name contains one of the keywords. */
  predicate MatchesAny(name: string, keywords: seq<string>) {
    exists kw :: kw in keywords && Contains(Lower(name), kw)
  }

  /** The first aisle from `c` on whose keywords the name matches. */
  function AisleFrom(name: string, c: nat): (r: Option<nat>)
    requires c <= |Categories|
    ensures r.Some? ==> c <= r.value < |Categories| && MatchesAny(name, Categories[r.value].1)
    ensures r.Some? ==> forall j :: c <= j < r.value ==> !MatchesAny(name, Categories[j].1)
    ensures r.None? ==> forall j :: c <= j < |Categories| ==> !MatchesAny(name, Categories[j].1)
    decreases |Categories| - c
  {
    if c == |Categories| then None
    else if MatchesAny(name, Categories[c].1) then Some(c)
    else AisleFrom(name, c + 1)
  }

  /** The group an entry lands in: the first matching aisle, or "Otros". */
  function Bucket(name: string): string {
    match AisleFrom(name, 0)
    case Some(c) => Categories[c].0
    case None => Otros
  }

  /** An entry lands in "Otros" exactly when no aisle matches, and otherwise
      in the first aisle that does. */
  lemma BucketSpec(name: string)
    ensures Bucket(name) == Otros <==> forall j :: 0 <= j < |Categories| ==> !MatchesAny(name, Categories[j].1)
    ensures Bucket(name) != Otros ==>
              exists j :: 0 <= j < |Categories| && Bucket(name) == Categories[j].0
                          && MatchesAny(name, Categories[j].1)
                          && forall i :: 0 <= i < j ==> !MatchesAny(name, Categories[i].1)
  {
    AisleNamesDistinct();
  }

  /** The aisle names differ from each other and from "Otros". */
  lemma AisleNamesDistinct()
    ensures forall j :: 0 <= j < |Categories| ==> Categories[j].0 != Otros
    ensures forall i, j :: 0 <= i < j < |Categories| ==> Categories[i].0 != Categories[j].0
  {
    forall j | 0 <= j < |Categories|
      ensures Categories[j].0 != Otros
    {
      assert Categories[j].0[0] != Otros[0];
    }
    forall i, j | 0 <= i < j < |Categories|
      ensures Categories[i].0 != Categories[j].0
    {
      assert Categories[i].0[0] != Categories[j].0[0];
    }
  }

  // ---- Grouping ----

  /** A named group of entries. */
  datatype Group = Group(category: string, items: seq<Item>)

  /** All entries of the groups, group after group. */
  function Flatten(groups: seq<Group>): seq<Item>
    decreases |groups|
  {
    if groups == [] then [] else groups[0].items + Flatten(groups[1..])
  }

  /** The group names, in order. */
  function Names(groups: seq<Group>): (r: seq<string>)
    ensures |r| == |groups|
    ensures forall i :: 0 <= i < |groups| ==> r[i] == groups[i].category
  {
    seq(|groups|, i requires 0 <= i < |groups| => groups[i].category)
  }

  /** Each entry paired with the group it belongs to. */
  function Labelled(items: seq<Item>): (r: seq<(string, Item)>)
    ensures |r| == |items|
    ensures forall i :: 0 <= i < |items| ==> r[i] == (Bucket(items[i].name), items[i])
  {
    seq(|items|, i requires 0 <= i < |items| => (Bucket(items[i].name), items[i]))
  }

  /** Every entry of a group carries that group's label in `lab`. */
  predicate Homogeneous(groups: seq<Group>, lab: seq<(string, Item)>) {
    forall g, it :: g in groups && it in g.items ==> (g.category, it) in lab
  }

  /** Appends an entry to the group with that name, opening the group at the
      end when there is none yet (object keys keep their insertion order). */
  function Place(groups: seq<Group>, cat: string, it: Item): (r: seq<Group>)
    ensures cat in Names(groups) ==> Names(r) == Names(groups)
    ensures cat !in Names(groups) ==> Names(r) == Names(groups) + [cat]
    decreases |groups|
  {
    if groups == [] then [Group(cat, [it])]
    else
      NamesCons(groups[0], groups[1..]);
      assert [groups[0]] + groups[1..] == groups;
      if groups[0].category == cat then
        var g := groups[0].(items := groups[0].items + [it]);
        NamesCons(g, groups[1..]);
        [g] + groups[1..]
      else
        var rest := Place(groups[1..], cat, it);
        NamesCons(groups[0], rest);
        [groups[0]] + rest
  }

  /** The names of a group followed by more groups. */
  lemma NamesCons(g: Group, groups: seq<Group>)
    ensures Names([g] + groups) == [g.category] + Names(groups)
  {
  }

  /** Placing adds the entry, once, to the entries of the groups. */
  lemma {:induction false} PlaceAddsOnce(groups: seq<Group>, cat: string, it: Item)
    ensures multiset(Flatten(Place(groups, cat, it))) == multiset(Flatten(groups)) + multiset{it}
    decreases |groups|
  {
    if groups == [] {
      assert Flatten([Group(cat, [it])]) == [it] + Flatten([]);
    } else if groups[0].category == cat {
      var g := groups[0].(items := groups[0].items + [it]);
      assert Flatten([g] + groups[1..]) == g.items + Flatten(groups[1..]);
    } else {
      var rest := Place(groups[1..], cat, it);
      PlaceAddsOnce(groups[1..], cat, it);
      assert Flatten([groups[0]] + rest) == groups[0].items + Flatten(rest);
    }
  }

  /** Placing an entry under its own label keeps every group homogeneous. */
  lemma {:induction false} PlaceHomogeneous(groups: seq<Group>, cat: string, it: Item, lab: seq<(string, Item)>)
    requires Homogeneous(groups, lab) && (cat, it) in lab
    ensures Homogeneous(Place(groups, cat, it), lab)
    decreases |groups|
  {
    if groups != [] && groups[0].category != cat {
      assert Homogeneous(groups[1..], lab) by {
        forall g, x | g in groups[1..] && x in g.items
          ensures (g.category, x) in lab
        {
          assert g in groups;
        }
      }
      PlaceHomogeneous(groups[1..], cat, it, lab);
    }
  }

  /** Placing an entry never leaves a group empty. */
  lemma {:induction false} PlaceKeepsNonEmpty(groups: seq<Group>, cat: string, it: Item)
    requires forall i :: 0 <= i < |groups| ==> groups[i].items != []
    ensures forall i :: 0 <= i < |Place(groups, cat, it)| ==> Place(groups, cat, it)[i].items != []
    decreases |groups|
  {
    if groups != [] && groups[0].category != cat {
      PlaceKeepsNonEmpty(groups[1..], cat, it);
    }
  }

  /** Places the labelled entries one by one: the aisle groups in order of
      first use, and the entries labelled "Otros" on their own, in order. */
  function Distribute(lab: seq<(string, Item)>): (r: (seq<Group>, seq<Item>))
    ensures NoDup(Names(r.0)) && Otros !in Names(r.0)
    decreases |lab|
  {
    if lab == [] then ([], [])
    else
      var (grouped, uncategorized) := Distribute(lab[..|lab| - 1]);
      var (cat, it) := lab[|lab| - 1];
      if cat != Otros then
        assert cat !in Names(grouped) ==> NoDup(Names(grouped) + [cat]);
        (Place(grouped, cat, it), uncategorized)
      else (grouped, uncategorized + [it])
  }

  /** Distributing keeps every entry exactly once: each lands in one group
      or among the unclaimed ones. */
  lemma {:induction false} DistributeKeepsAll(lab: seq<(string, Item)>)
    ensures var r := Distribute(lab);
            multiset(Flatten(r.0)) + multiset(r.1) == multiset(ItemsOfLab(lab))
    decreases |lab|
  {
    if lab != [] {
      var init := lab[..|lab| - 1];
      DistributeKeepsAll(init);
      var (cat, it) := lab[|lab| - 1];
      PlaceAddsOnce(Distribute(init).0, cat, it);
      assert ItemsOfLab(lab) == ItemsOfLab(init) + [it];
    }
  }

  /** Distributing puts every entry under its label, and only entries
      labelled "Otros" among the unclaimed ones. */
  lemma {:induction false} DistributeLabels(lab: seq<(string, Item)>)
    ensures Homogeneous(Distribute(lab).0, lab)
    ensures forall it :: it in Distribute(lab).1 ==> (Otros, it) in lab
    decreases |lab|
  {
    if lab != [] {
      var init := lab[..|lab| - 1];
      DistributeLabels(init);
      var (cat, it) := lab[|lab| - 1];
      assert forall x :: x in init ==> x in lab;
      assert (cat, it) in lab;
      if cat != Otros {
        PlaceHomogeneous(Distribute(init).0, cat, it, lab);
      }
    }
  }

  /** Distributing never opens an empty group. */
  lemma {:induction false} DistributeNonEmpty(lab: seq<(string, Item)>)
    ensures forall i :: 0 <= i < |Distribute(lab).0| ==> Distribute(lab).0[i].items != []
    decreases |lab|
  {
    if lab != [] {
      var init := lab[..|lab| - 1];
      DistributeNonEmpty(init);
      var (cat, it) := lab[|lab| - 1];
      PlaceKeepsNonEmpty(Distribute(init).0, cat, it);
    }
  }

  /** The entries of a labelled run, in order. */
  function ItemsOfLab(lab: seq<(string, Item)>): (r: seq<Item>)
    ensures |r| == |lab|
    ensures forall i :: 0 <= i < |lab| ==> r[i] == lab[i].1
  {
    seq(|lab|, i requires 0 <= i < |lab| => lab[i].1)
  }

  /** Sorts every group by the collation rank of the entry names. */
  function SortGroups(groups: seq<Group>, collate: string -> int): (r: seq<Group>)
    ensures |r| == |groups|
    ensures forall i :: 0 <= i < |r| ==> r[i].category == groups[i].category
    ensures forall i :: 0 <= i < |r| ==> multiset(r[i].items) == multiset(groups[i].items)
    ensures forall i :: 0 <= i < |r| ==> SortedBy(r[i].items, (it: Item) => collate(it.name))
  {
    seq(|groups|, i requires 0 <= i < |groups| =>
      Group(groups[i].category, SortBy(groups[i].items, (it: Item) => collate(it.name))))
  }

  /** The groups before sorting: the aisle groups, then "Otros" when it is
      not empty. */
  function Grouped(items: seq<Item>): seq<Group> {
    var (grouped, uncategorized) := Distribute(Labelled(items));
    if |uncategorized| > 0 then grouped + [Group(Otros, uncategorized)] else grouped
  }

  /** The tally of a plan's ingredients. */
  function PlanItems(plan: seq<Day>): seq<Item> {
    ItemsOf(Tally(Keyed(PlanIngredients(plan))))
  }

  /** `generateShoppingList`: the tally of the plan's ingredients, grouped
      by aisle with "Otros" last when it is not empty, each group sorted by
      the collation rank `collate` of the names. */
  function GenerateShoppingList(plan: seq<Day>, collate: string -> int): (r: seq<Group>)
    ensures NoDup(Names(r))
    ensures forall i :: 0 <= i < |r| ==> SortedBy(r[i].items, (it: Item) => collate(it.name))
  {
    var items := PlanItems(plan);
    GroupedNames(items);
    SortGroups(Grouped(items), collate)
  }

  /** The groups are named after distinct aisles, "Otros" at most once. */
  lemma GroupedNames(items: seq<Item>)
    ensures NoDup(Names(Grouped(items)))
  {
    var (grouped, uncategorized) := Distribute(Labelled(items));
    assert Names(grouped + [Group(Otros, uncategorized)]) == Names(grouped) + [Otros];
  }

  // ---- What the list promises ----

  /** The entries of `groups + [g]`. */
  lemma FlattenAppend(groups: seq<Group>, g: Group)
    ensures Flatten(groups + [g]) == Flatten(groups) + g.items
    decreases |groups|
  {
    if groups == [] {
      assert [g][1..] == [];
    } else {
      FlattenAppend(groups[1..], g);
      assert (groups + [g])[1..] == groups[1..] + [g];
    }
  }

  /** Groups with the same entries, group by group, have the same entries
      overall. */
  lemma {:induction false} FlattenPermuted(a: seq<Group>, b: seq<Group>)
    requires |a| == |b|
    requires forall i :: 0 <= i < |a| ==> multiset(a[i].items) == multiset(b[i].items)
    ensures multiset(Flatten(a)) == multiset(Flatten(b))
    decreases |a|
  {
    if a != [] {
      FlattenPermuted(a[1..], b[1..]);
    }
  }

  /** Two different groups hold an entry at most as often, together, as all
      the groups do. */
  lemma {:induction false} FlattenTwoGroups(groups: seq<Group>, i: nat, j: nat, it: Item)
    requires i < j < |groups|
    ensures multiset(groups[i].items)[it] + multiset(groups[j].items)[it] <= multiset(Flatten(groups))[it]
    decreases |groups|
  {
    FlattenHasGroup(groups[1..], j - 1, it);
    if i > 0 {
      FlattenTwoGroups(groups[1..], i - 1, j - 1, it);
    }
  }

  /** A group holds an entry at most as often as all the groups do. */
  lemma {:induction false} FlattenHasGroup(groups: seq<Group>, i: nat, it: Item)
    requires i < |groups|
    ensures multiset(groups[i].items)[it] <= multiset(Flatten(groups))[it]
    decreases |groups|
  {
    if i > 0 {
      FlattenHasGroup(groups[1..], i - 1, it);
    }
  }

  /** The grouping keeps every tallied entry exactly once. */
  lemma GroupedKeepsAll(items: seq<Item>)
    ensures multiset(Flatten(Grouped(items))) == multiset(items)
  {
    var lab := Labelled(items);
    var (grouped, uncategorized) := Distribute(lab);
    DistributeKeepsAll(lab);
    assert ItemsOfLab(lab) == items;
    FlattenAppend(grouped, Group(Otros, uncategorized));
  }

  /** The sorted groups hold the same entries as before sorting. */
  lemma ShoppingListKeepsAll(plan: seq<Day>, collate: string -> int)
    ensures multiset(Flatten(GenerateShoppingList(plan, collate))) == multiset(PlanItems(plan))
  {
    var items := PlanItems(plan);
    GroupedKeepsAll(items);
    FlattenPermuted(GenerateShoppingList(plan, collate), Grouped(items));
  }

  /** Every group of the list only holds entries whose name belongs to it:
      the first aisle with a keyword the lower-cased name contains, or
      "Otros" when there is none. */
  lemma ShoppingListPlacement(plan: seq<Day>, collate: string -> int, i: nat, it: Item)
    requires i < |GenerateShoppingList(plan, collate)|
    requires it in GenerateShoppingList(plan, collate)[i].items
    ensures GenerateShoppingList(plan, collate)[i].category == Bucket(it.name)
  {
    var items := PlanItems(plan);
    var lab := Labelled(items);
    var (grouped, uncategorized) := Distribute(lab);
    DistributeLabels(lab);
    var g := Grouped(items)[i];
    assert it in multiset(GenerateShoppingList(plan, collate)[i].items);
    assert it in g.items;
    if i < |grouped| {
      assert g in grouped;
      assert (g.category, it) in lab;
    } else {
      assert (Otros, it) in lab;
    }
  }

  /** Each tallied entry's key is its name normalised. */
  lemma TallyKeys(ings: seq<string>, i: nat)
    requires i < |Tally(Keyed(ings))|
    ensures Tally(Keyed(ings))[i].key == NormalKey(Tally(Keyed(ings))[i].item.name)
  {
    TallyCounts(Keyed(ings));
  }

  /** No entry of the tally appears twice: keys differ, and keys are
      determined by names. */
  lemma PlanItemsDistinct(plan: seq<Day>)
    ensures NoDup(PlanItems(plan))
  {
    var ings := PlanIngredients(plan);
    var t := Tally(Keyed(ings));
    TallyCounts(Keyed(ings));
    forall i, j | 0 <= i < j < |t|
      ensures t[i].item != t[j].item
    {
      TallyKeys(ings, i);
      TallyKeys(ings, j);
    }
  }

  /** A sequence without duplicates holds each element at most once. */
  lemma {:induction false} NoDupCount(s: seq<Item>, it: Item)
    requires NoDup(s)
    ensures multiset(s)[it] <= 1
    decreases |s|
  {
    if s != [] {
      assert s == [s[0]] + s[1..];
      assert NoDup(s[1..]) by {
        forall i, j | 0 <= i < j < |s[1..]|
          ensures s[1..][i] != s[1..][j]
        {
          assert s[1..][i] == s[i + 1] && s[1..][j] == s[j + 1];
        }
      }
      NoDupCount(s[1..], it);
      if s[0] == it {
        assert it !in s[1..] by {
          forall k | 0 <= k < |s[1..]|
            ensures s[1..][k] != it
          {
            assert s[1..][k] == s[k + 1];
          }
        }
      }
    }
  }

  /** No entry lands in two groups of the list. */
  lemma ShoppingListInOneGroup(plan: seq<Day>, collate: string -> int, i: nat, j: nat, it: Item)
    requires i < j < |GenerateShoppingList(plan, collate)|
    ensures !(it in GenerateShoppingList(plan, collate)[i].items && it in GenerateShoppingList(plan, collate)[j].items)
  {
    var r := GenerateShoppingList(plan, collate);
    ShoppingListKeepsAll(plan, collate);
    PlanItemsDistinct(plan);
    NoDupCount(PlanItems(plan), it);
    FlattenTwoGroups(r, i, j, it);
  }

  /** Every entry of the list counts the occurrences, across all days and
      meals, of the ingredients that normalise to its name's key. */
  lemma ShoppingListCounts(plan: seq<Day>, collate: string -> int, i: nat, it: Item)
    requires i < |GenerateShoppingList(plan, collate)|
    requires it in GenerateShoppingList(plan, collate)[i].items
    ensures it.count == CountKey(Keyed(PlanIngredients(plan)), NormalKey(it.name))
  {
    ShoppingListKeepsAll(plan, collate);
    FlattenHasGroup(GenerateShoppingList(plan, collate), i, it);
    assert it in multiset(PlanItems(plan));
    var j :| 0 <= j < |PlanItems(plan)| && PlanItems(plan)[j] == it;
    PlanItemCount(plan, j);
  }

  /** A tallied entry counts the occurrences of its name's key. */
  lemma PlanItemCount(plan: seq<Day>, j: nat)
    requires j < |PlanItems(plan)|
    ensures PlanItems(plan)[j].count == CountKey(Keyed(PlanIngredients(plan)), NormalKey(PlanItems(plan)[j].name))
  {
    var ings := PlanIngredients(plan);
    TallyCounts(Keyed(ings));
    TallyKeys(ings, j);
  }

  /** Every ingredient of the plan is on the list, under its key. */
  lemma ShoppingListComplete(plan: seq<Day>, collate: string -> int, k: nat)
    requires k < |PlanIngredients(plan)|
    ensures exists i, it :: 0 <= i < |GenerateShoppingList(plan, collate)|
                            && it in GenerateShoppingList(plan, collate)[i].items
                            && NormalKey(it.name) == NormalKey(PlanIngredients(plan)[k])
  {
    var ings := PlanIngredients(plan);
    var occ := Keyed(ings);
    var t := Tally(occ);
    TallyCounts(occ);
    var j :| 0 <= j < |t| && t[j].key == occ[k].0;
    TallyKeys(ings, j);
    var it := t[j].item;
    assert it == PlanItems(plan)[j];
    ShoppingListKeepsAll(plan, collate);
    var r := GenerateShoppingList(plan, collate);
    assert it in multiset(Flatten(r));
    FlattenMember(r, it);
  }

  /** An entry of the flattened groups is an entry of one of them. */
  lemma {:induction false} FlattenMember(groups: seq<Group>, it: Item)
    requires it in multiset(Flatten(groups))
    ensures exists i :: 0 <= i < |groups| && it in groups[i].items
    decreases |groups|
  {
    if it !in groups[0].items {
      FlattenMember(groups[1..], it);
      var i :| 0 <= i < |groups[1..]| && it in groups[1..][i].items;
      assert groups[i + 1] == groups[1..][i];
    }
  }
}
