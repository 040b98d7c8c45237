/** The dish catalog: eight fixed pools of dishes, one per meal slot or
    sub-pattern, exactly as the application ships them. The engine only ever
    reads these pools. */
module Catalog {
  import opened Common

  /** A catalog dish. Fields the catalog leaves out are given their
      JavaScript truthiness: no `allergens` is the empty list, no `hasCarbs`
      and no `synjardy` (the medication reminder stamped by the generator)
      are false. */
  datatype Dish = Dish(
    id: string,
    name: string,
    ingredients: seq<string>,
    allergens: seq<string>,
    hasCarbs: bool,
    synjardy: bool)

  /** A catalog entry with no `hasCarbs` flag. */
  function Entry(id: string, name: string, ingredients: seq<string>): Dish {
    Dish(id, name, ingredients, [], false, false)
  }

  /** A lunch entry, which always states `hasCarbs`. */
  function LunchEntry(id: string, name: string, ingredients: seq<string>, hasCarbs: bool): Dish {
    Dish(id, name, ingredients, [], hasCarbs, false)
  }

  const Desayunos: seq<Dish> := [
    Entry("D01", "Tostadas de pan blanco con aguacate y huevo revuelto",
      ["pan blanco", "aguacate", "huevos", "aceite de oliva"]),
    Entry("D02", "Yogur natural con nueces y canela",
      ["yogur natural", "nueces", "canela"]),
    Entry("D03", "Tortilla francesa con jamón york y queso",
      ["huevos", "jamón york", "queso", "aceite de oliva"]),
    Entry("D04", "Pan blanco con tomate y jamón serrano",
      ["pan blanco", "tomate", "jamón serrano", "aceite de oliva"]),
    Entry("D05", "Porridge de avena con mantequilla de cacahuete",
      ["copos de avena", "leche", "mantequilla de cacahuete", "canela"]),
    Entry("D06", "Tostada con queso fresco y pavo",
      ["pan blanco", "queso fresco", "pechuga de pavo", "aceite de oliva"]),
    Entry("D07", "Huevos revueltos con tomate cherry y queso",
      ["huevos", "queso", "tomate cherry", "aceite de oliva"]),
    Entry("D08", "Crepe de avena con plátano y nueces",
      ["copos de avena", "huevos", "plátano", "nueces"]),
    Entry("D09", "Tostada con salmón ahumado y queso crema",
      ["pan blanco", "salmón ahumado", "queso crema", "eneldo"]),
    Entry("D10", "Bowl de yogur con almendras y fresas",
      ["yogur natural", "almendras", "fresas"])
  ]

  const MediaManana: seq<Dish> := [
    Entry("MM01", "Puñado de nueces (30g)",
      ["nueces"]),
    Entry("MM02", "Queso fresco con membrillo sin azúcar",
      ["queso fresco", "membrillo sin azúcar"]),
    Entry("MM03", "Yogur natural sin azúcar",
      ["yogur natural"]),
    Entry("MM04", "Jamón serrano (50g)",
      ["jamón serrano"]),
    Entry("MM05", "Palitos de zanahoria con hummus",
      ["zanahorias", "hummus"]),
    Entry("MM06", "Manzana con mantequilla de cacahuete",
      ["manzana", "mantequilla de cacahuete"]),
    Entry("MM07", "Mix de almendras y nueces (30g)",
      ["almendras", "nueces"]),
    Entry("MM08", "Lonchas de pavo con queso",
      ["pechuga de pavo", "queso"]),
    Entry("MM09", "Pepino con queso crema",
      ["pepino", "queso crema"]),
    Entry("MM10", "Huevo duro",
      ["huevos"])
  ]

  const ComidasCarbs: seq<Dish> := [
    LunchEntry("CC01", "Arroz blanco con pollo al ajillo",
      ["arroz blanco", "pechuga de pollo", "ajo", "aceite de oliva", "perejil"], true),
    LunchEntry("CC02", "Pasta boloñesa de ternera",
      ["pasta", "carne picada de ternera", "tomate triturado", "cebolla", "zanahoria", "aceite de oliva"], true),
    LunchEntry("CC03", "Arroz con salmón a la plancha",
      ["arroz blanco", "salmón fresco", "limón", "aceite de oliva", "eneldo"], true),
    LunchEntry("CC04", "Macarrones con atún y tomate",
      ["macarrones", "atún en lata", "tomate triturado", "cebolla", "aceite de oliva"], true),
    LunchEntry("CC05", "Arroz con huevo frito y pimientos",
      ["arroz blanco", "huevos", "pimiento verde", "pimiento rojo", "aceite de oliva"], true),
    LunchEntry("CC06", "Pasta con gambas al ajillo",
      ["pasta", "gambas peladas", "ajo", "guindilla", "aceite de oliva", "perejil"], true),
    LunchEntry("CC07", "Arroz con ternera en salsa",
      ["arroz blanco", "ternera", "cebolla", "zanahoria", "tomate", "aceite de oliva"], true),
    LunchEntry("CC08", "Fideuá de marisco",
      ["fideos", "gambas", "mejillones", "calamar", "caldo de pescado", "alioli"], true),
    LunchEntry("CC09", "Arroz a la cubana con huevo y tomate",
      ["arroz blanco", "huevos", "tomate frito casero", "aceite de oliva"], true),
    LunchEntry("CC10", "Pasta con pollo y champiñones",
      ["pasta", "pechuga de pollo", "champiñones", "nata ligera", "aceite de oliva"], true)
  ]

  const ComidasLegumbres: seq<Dish> := [
    LunchEntry("CL01", "Lentejas estofadas con chorizo",
      ["lentejas", "chorizo", "zanahoria", "patata", "cebolla", "ajo", "pimentón", "laurel"], false),
    LunchEntry("CL02", "Garbanzos con espinacas y huevo",
      ["garbanzos", "espinacas", "huevos", "ajo", "pimentón", "aceite de oliva"], false),
    LunchEntry("CL03", "Alubias blancas con almejas",
      ["alubias blancas", "almejas", "cebolla", "ajo", "perejil", "vino blanco"], false),
    LunchEntry("CL04", "Potaje de lentejas con pollo",
      ["lentejas", "muslo de pollo", "zanahoria", "cebolla", "tomate", "aceite de oliva"], false),
    LunchEntry("CL05", "Ensalada de garbanzos con atún",
      ["garbanzos", "atún en lata", "pimiento rojo", "cebolla morada", "tomate", "aceite de oliva"], false)
  ]

  const ComidasVerdura: seq<Dish> := [
    LunchEntry("CV01", "Pollo a la plancha con ensalada mixta",
      ["pechuga de pollo", "lechuga", "tomate", "pepino", "cebolla", "aceite de oliva"], false),
    LunchEntry("CV02", "Merluza al horno con verduras",
      ["merluza", "calabacín", "pimiento", "cebolla", "tomate", "aceite de oliva", "limón"], false),
    LunchEntry("CV03", "Revuelto de champiñones con gambas",
      ["huevos", "champiñones", "gambas peladas", "ajo", "aceite de oliva"], false),
    LunchEntry("CV04", "Pollo al horno con calabacín y berenjena",
      ["muslo de pollo", "calabacín", "berenjena", "aceite de oliva", "romero"], false),
    LunchEntry("CV05", "Salmón al papillote con espárragos",
      ["salmón fresco", "espárragos verdes", "limón", "aceite de oliva", "eneldo"], false),
    LunchEntry("CV06", "Wok de pollo con verduras salteadas",
      ["pechuga de pollo", "pimiento rojo", "calabacín", "zanahoria", "salsa de soja"], false),
    LunchEntry("CV07", "Lubina a la espalda con tomate confitado",
      ["lubina", "tomate cherry", "ajo", "aceite de oliva", "limón"], false)
  ]

  const Meriendas: seq<Dish> := [
    Entry("ME01", "Yogur natural con almendras",
      ["yogur natural", "almendras"]),
    Entry("ME02", "Queso curado con nueces",
      ["queso curado", "nueces"]),
    Entry("ME03", "Tostada con aguacate",
      ["pan blanco", "aguacate"]),
    Entry("ME04", "Jamón serrano con picos",
      ["jamón serrano", "picos de pan"]),
    Entry("ME05", "Batido de yogur con fresas",
      ["yogur natural", "fresas"]),
    Entry("ME06", "Puñado de anacardos (30g)",
      ["anacardos"]),
    Entry("ME07", "Rollitos de pavo con queso crema",
      ["pechuga de pavo", "queso crema"]),
    Entry("ME08", "Manzana con canela y nueces",
      ["manzana", "canela", "nueces"]),
    Entry("ME09", "Palitos de apio con hummus",
      ["apio", "hummus"]),
    Entry("ME10", "Café con leche y 2 galletas María",
      ["leche", "café", "galletas María"])
  ]

  const CenasLowCarb: seq<Dish> := [
    Entry("CN01", "Emperador a la plancha con ensalada",
      ["emperador", "lechuga", "tomate", "aceite de oliva", "limón"]),
    Entry("CN02", "Tortilla de calabacín y cebolla",
      ["huevos", "calabacín", "cebolla", "aceite de oliva"]),
    Entry("CN03", "Pollo a la plancha con espárragos trigueros",
      ["pechuga de pollo", "espárragos trigueros", "ajo", "aceite de oliva"]),
    Entry("CN04", "Salmón al horno con brócoli",
      ["salmón fresco", "brócoli", "aceite de oliva", "limón"]),
    Entry("CN05", "Revuelto de espárragos con jamón",
      ["huevos", "espárragos verdes", "jamón serrano", "aceite de oliva"]),
    Entry("CN06", "Lubina al horno con verduritas",
      ["lubina", "calabacín", "tomate cherry", "cebolla", "aceite de oliva"]),
    Entry("CN07", "Pavo a la plancha con champiñones",
      ["pechuga de pavo", "champiñones", "ajo", "aceite de oliva"]),
    Entry("CN08", "Huevos al horno con espinacas y queso",
      ["huevos", "espinacas", "queso", "aceite de oliva"]),
    Entry("CN09", "Dorada a la sal con ensalada verde",
      ["dorada", "sal gorda", "lechuga", "pepino", "aceite de oliva"]),
    Entry("CN10", "Crema de calabacín con taquitos de pollo",
      ["calabacín", "cebolla", "pechuga de pollo", "aceite de oliva"]),
    Entry("CN11", "Ensalada César con pollo",
      ["lechuga romana", "pechuga de pollo", "parmesano", "aceite de oliva"]),
    Entry("CN12", "Merluza a la plancha con pimientos asados",
      ["merluza", "pimiento rojo", "pimiento verde", "aceite de oliva"])
  ]

  /** Free dinners, allowed when lunch had no carbohydrate; the pool ends
      with the first eight low-carb dinners. */
  const CenasFlexibles: seq<Dish> := [
    Entry("CF01", "Tortilla de patatas con ensalada",
      ["huevos", "patata", "cebolla", "lechuga", "tomate", "aceite de oliva"]),
    Entry("CF02", "Sandwich de pollo y aguacate",
      ["pan blanco", "pechuga de pollo", "aguacate", "lechuga", "tomate"]),
    Entry("CF03", "Pizza casera de jamón y queso (porción)",
      ["masa de pizza", "tomate", "jamón york", "queso mozzarella"])
  ] + CenasLowCarb[..8]
  /** True when no two dishes of a pool share an id. */
  predicate DistinctIds(pool: seq<Dish>) {
    forall i, j :: 0 <= i < j < |pool| ==> pool[i].id != pool[j].id
  }

  /** True when no dish of the pool declares an allergen or carries the
      medication reminder. */
  predicate Plain(pool: seq<Dish>) {
    forall d :: d in pool ==> d.allergens == [] && !d.synjardy
  }

  /** The eight pools the generator draws from. */
  datatype Pools = Pools(
    desayunos: seq<Dish>,
    mediaManana: seq<Dish>,
    carbs: seq<Dish>,
    legumbres: seq<Dish>,
    verdura: seq<Dish>,
    meriendas: seq<Dish>,
    cenasLow: seq<Dish>,
    cenasFlex: seq<Dish>)
  {
    /** The eight pools, in declaration order. */
    function All(): seq<seq<Dish>> {
      [desayunos, mediaManana, carbs, legumbres, verdura, meriendas, cenasLow, cenasFlex]
    }
  }

  /** The pools as the catalog ships them. */
  const Shipped: Pools := Pools(
    Desayunos, MediaManana, ComidasCarbs, ComidasLegumbres, ComidasVerdura,
    Meriendas, CenasLowCarb, CenasFlexibles)

  /** Every pool has a dish to draw. */
  predicate NonEmptyPools(p: Pools) {
    [] !in p.All()
  }

  /** `NonEmptyPools`, pool by pool. */
  lemma NonEmptyPoolsSizes(p: Pools)
    ensures NonEmptyPools(p) <==>
              && |p.desayunos| > 0 && |p.mediaManana| > 0 && |p.carbs| > 0
              && |p.legumbres| > 0 && |p.verdura| > 0 && |p.meriendas| > 0
              && |p.cenasLow| > 0 && |p.cenasFlex| > 0
  {
  }

  /** Every pool holds at least `n` dishes with distinct ids. */
  predicate Stocked(p: Pools, n: nat) {
    && DistinctIds(p.desayunos) && |p.desayunos| >= n
    && DistinctIds(p.mediaManana) && |p.mediaManana| >= n
    && DistinctIds(p.carbs) && |p.carbs| >= n
    && DistinctIds(p.legumbres) && |p.legumbres| >= n
    && DistinctIds(p.verdura) && |p.verdura| >= n
    && DistinctIds(p.meriendas) && |p.meriendas| >= n
    && DistinctIds(p.cenasLow) && |p.cenasLow| >= n
    && DistinctIds(p.cenasFlex) && |p.cenasFlex| >= n
  }

  /** No pool declares allergens or the reminder. */
  predicate PlainPools(p: Pools) {
    Plain(p.desayunos) && Plain(p.mediaManana) && Plain(p.carbs) && Plain(p.legumbres)
    && Plain(p.verdura) && Plain(p.meriendas) && Plain(p.cenasLow) && Plain(p.cenasFlex)
  }

  /** The carbohydrate lunches are flagged `hasCarbs`; the legume and
      vegetable lunches are not. */
  predicate CarbFlagsHonest(p: Pools) {
    && (forall d :: d in p.carbs ==> d.hasCarbs)
    && (forall d :: d in p.legumbres ==> !d.hasCarbs)
    && (forall d :: d in p.verdura ==> !d.hasCarbs)
  }

  /** Every pool of `p` only holds dishes of the matching pool of `q`. */
  predicate SubPools(p: Pools, q: Pools) {
    && (forall d :: d in p.desayunos ==> d in q.desayunos)
    && (forall d :: d in p.mediaManana ==> d in q.mediaManana)
    && (forall d :: d in p.carbs ==> d in q.carbs)
    && (forall d :: d in p.legumbres ==> d in q.legumbres)
    && (forall d :: d in p.verdura ==> d in q.verdura)
    && (forall d :: d in p.meriendas ==> d in q.meriendas)
    && (forall d :: d in p.cenasLow ==> d in q.cenasLow)
    && (forall d :: d in p.cenasFlex ==> d in q.cenasFlex)
  }

  /** The shipped pool sizes: the legume lunches are the smallest pool, with
      five dishes. */
  lemma ShippedPoolSizes()
    ensures |Desayunos| == 10 && |MediaManana| == 10 && |ComidasCarbs| == 10
    ensures |ComidasLegumbres| == 5 && |ComidasVerdura| == 7 && |Meriendas| == 10
    ensures |CenasLowCarb| == 12 && |CenasFlexibles| == 11
  {
  }

  /** The shipped catalog: every pool holds at least five dishes with
      distinct ids, no entry declares allergens or the reminder, and the
      lunch pools carry honest carbohydrate flags. */
  lemma ShippedIsSound()
    ensures NonEmptyPools(Shipped)
    ensures Stocked(Shipped, 5)
    ensures PlainPools(Shipped)
    ensures CarbFlagsHonest(Shipped)
  {
    ShippedStocked();
    ShippedPlain();
    LunchCarbFlags();
  }

  /** Every shipped pool holds at least five dishes with distinct ids. */
  lemma ShippedStocked()
    ensures NonEmptyPools(Shipped)
    ensures Stocked(Shipped, 5)
  {
    ShippedPoolSizes();
    NonEmptyPoolsSizes(Shipped);
    DesayunosDistinct();
    MediaMananaDistinct();
    ComidasCarbsDistinct();
    ComidasLegumbresDistinct();
    ComidasVerduraDistinct();
    MeriendasDistinct();
    CenasLowCarbDistinct();
    CenasFlexiblesDistinct();
  }

  /** No shipped entry declares allergens or the reminder. */
  lemma ShippedPlain()
    ensures PlainPools(Shipped)
  {
    DesayunosPlain();
    MediaMananaPlain();
    ComidasCarbsPlain();
    ComidasLegumbresPlain();
    ComidasVerduraPlain();
    MeriendasPlain();
    CenasLowCarbPlain();
    CenasFlexiblesPlain();
  }


  lemma DesayunosDistinct()
    ensures DistinctIds(Desayunos)
  {
    var p := Desayunos;
    forall i, j | 0 <= i < j < |p|
      ensures p[i].id != p[j].id
    {
      assert p[i].id[1..] != p[j].id[1..];
    }
  }

  lemma DesayunosPlain()
    ensures Plain(Desayunos)
  {
  }

  lemma MediaMananaDistinct()
    ensures DistinctIds(MediaManana)
  {
    var p := MediaManana;
    forall i, j | 0 <= i < j < |p|
      ensures p[i].id != p[j].id
    {
      assert p[i].id[2..] != p[j].id[2..];
    }
  }

  lemma MediaMananaPlain()
    ensures Plain(MediaManana)
  {
  }

  lemma ComidasCarbsDistinct()
    ensures DistinctIds(ComidasCarbs)
  {
    var p := ComidasCarbs;
    forall i, j | 0 <= i < j < |p|
      ensures p[i].id != p[j].id
    {
      assert p[i].id[2..] != p[j].id[2..];
    }
  }

  lemma ComidasCarbsPlain()
    ensures Plain(ComidasCarbs)
  {
  }

  lemma ComidasLegumbresDistinct()
    ensures DistinctIds(ComidasLegumbres)
  {
  }

  lemma ComidasLegumbresPlain()
    ensures Plain(ComidasLegumbres)
  {
  }

  lemma ComidasVerduraDistinct()
    ensures DistinctIds(ComidasVerdura)
  {
  }

  lemma ComidasVerduraPlain()
    ensures Plain(ComidasVerdura)
  {
  }

  lemma MeriendasDistinct()
    ensures DistinctIds(Meriendas)
  {
    var p := Meriendas;
    forall i, j | 0 <= i < j < |p|
      ensures p[i].id != p[j].id
    {
      assert p[i].id[2..] != p[j].id[2..];
    }
  }

  lemma MeriendasPlain()
    ensures Plain(Meriendas)
  {
  }

  lemma CenasLowCarbDistinct()
    ensures DistinctIds(CenasLowCarb)
  {
    var p := CenasLowCarb;
    forall i, j | 0 <= i < j < |p|
      ensures p[i].id != p[j].id
    {
      assert p[i].id[2..] != p[j].id[2..];
    }
  }

  lemma CenasLowCarbPlain()
    ensures Plain(CenasLowCarb)
  {
  }

  lemma CenasFlexiblesDistinct()
    ensures DistinctIds(CenasFlexibles)
  {
  }

  lemma CenasFlexiblesPlain()
    ensures Plain(CenasFlexibles)
  {
  }

  /** Lunch flags as shipped. */
  lemma LunchCarbFlags()
    ensures forall d :: d in ComidasCarbs ==> d.hasCarbs
    ensures forall d :: d in ComidasLegumbres ==> !d.hasCarbs
    ensures forall d :: d in ComidasVerdura ==> !d.hasCarbs
  {
  }

  /** The free-dinner pool is its three own dishes followed by the first
      eight low-carb dinners. */
  lemma FlexibleDinnersLayout()
    ensures CenasFlexibles[3..] == CenasLowCarb[..8]
    ensures forall i :: 0 <= i < 3 ==> CenasFlexibles[i] !in CenasLowCarb
    ensures forall d :: d in CenasFlexibles[3..] ==> d in CenasLowCarb
  {
  }
}
