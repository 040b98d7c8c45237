/** The profile editor's pure logic: the body-mass index and its band, the
    coach tips shown for the band, what a save writes, and the diabetes
    types the editor offers. */
module ProfileScreen {
  import opened Common
  import Engine

  // ---- Body-mass index ----

  /** `calcIMC`: no index when the weight or the height is falsy (missing,
      NaN or zero) or the height is not positive; otherwise the weight over
      the square of the height in metres. The one-decimal rounding is left
      out. */
  function CalcImc(peso: Num, alturaCm: Num): (r: Option<real>)
    ensures r.None? <==> !Truthy(peso) || !Truthy(alturaCm) || alturaCm.v <= 0.0
    ensures r.Some? ==> var m := alturaCm.v / 100.0; r.value * (m * m) == peso.v
  {
    if !Truthy(peso) || !Truthy(alturaCm) || alturaCm.v <= 0.0 then None
    else
      var m := alturaCm.v / 100.0;
      Some(peso.v / (m * m))
  }

  /** At the same height, the index grows with the weight, and a positive
      weight gives a positive index. */
  lemma ImcGrowsWithWeight(p1: real, p2: real, alturaCm: real)
    requires 0.0 < p1 <= p2 && alturaCm > 0.0
    ensures CalcImc(Val(p1), Val(alturaCm)).Some? && CalcImc(Val(p2), Val(alturaCm)).Some?
    ensures 0.0 < CalcImc(Val(p1), Val(alturaCm)).value <= CalcImc(Val(p2), Val(alturaCm)).value
  {
    DivSquareMonotone(p1, p2, alturaCm / 100.0);
  }

  lemma DivSquareMonotone(a: real, b: real, m: real)
    requires 0.0 < a <= b && m > 0.0
    ensures 0.0 < a / (m * m) <= b / (m * m)
  {
  }

  // ---- Bands ----

  /** The four bands of the index. */
  datatype Band = BajoPeso | Saludable | Sobrepeso | Obesidad

  /** The band's position from lightest to heaviest. */
  function Rank(b: Band): nat {
    match b
    case BajoPeso => 0
    case Saludable => 1
    case Sobrepeso => 2
    case Obesidad => 3
  }

  /** The label and colour `imcCategory` reports; the style classes are
      presentation. */
  datatype Category = Category(name: string, color: string)

  /** The category record of each band. */
  function CategoryOf(b: Band): Category {
    match b
    case BajoPeso => Category("Bajo Peso", "blue")
    case Saludable => Category("Saludable", "green")
    case Sobrepeso => Category("Sobrepeso", "orange")
    case Obesidad => Category("Obesidad", "red")
  }

  /** The band of an index, checked from the lightest band up. */
  function BandOf(imc: real): (b: Band)
    ensures b == BajoPeso <==> imc < 18.5
    ensures b == Saludable <==> 18.5 <= imc < 25.0
    ensures b == Sobrepeso <==> 25.0 <= imc < 30.0
    ensures b == Obesidad <==> 30.0 <= imc
  {
    if imc < 18.5 then BajoPeso
    else if imc < 25.0 then Saludable
    else if imc < 30.0 then Sobrepeso
    else Obesidad
  }

  /** `imcCategory`: no category without an index, otherwise the category of
      the index's band. */
  function ImcCategory(imc: Option<real>): (r: Option<Category>)
    ensures r.None? <==> imc.None?
    ensures imc.Some? && imc.value < 18.5 ==> r == Some(Category("Bajo Peso", "blue"))
    ensures imc.Some? && 18.5 <= imc.value < 25.0 ==> r == Some(Category("Saludable", "green"))
    ensures imc.Some? && 25.0 <= imc.value < 30.0 ==> r == Some(Category("Sobrepeso", "orange"))
    ensures imc.Some? && 30.0 <= imc.value ==> r == Some(Category("Obesidad", "red"))
  {
    match imc
    case None => None
    case Some(x) => Some(CategoryOf(BandOf(x)))
  }

  /** A heavier index never lands in a lighter band. */
  lemma BandMonotone(x: real, y: real)
    requires x <= y
    ensures Rank(BandOf(x)) <= Rank(BandOf(y))
  {
  }

  /** Each band is told apart by its label and by its colour alone. */
  lemma CategoryIdentifiesBand(a: Band, b: Band)
    ensures CategoryOf(a).name == CategoryOf(b).name <==> a == b
    ensures CategoryOf(a).color == CategoryOf(b).color <==> a == b
  {
    if a != b {
      assert CategoryOf(a).name[0] != CategoryOf(b).name[0] || CategoryOf(a).name[1] != CategoryOf(b).name[1];
      assert CategoryOf(a).color[0] != CategoryOf(b).color[0];
    }
  }

  // ---- Coach tips ----

  /** One piece of advice with its icon. */
  datatype Tip = Tip(icon: string, text: string)

  const BlueTips: seq<Tip> := [
    Tip("\U{1F35A}", "A\U{F1}ade una raci\U{F3}n extra de carbohidratos complejos (arroz, pasta integral) a la comida."),
    Tip("\U{1F95C}", "Incluye frutos secos como snack entre comidas para aportar calor\U{ED}as saludables."),
    Tip("\U{1F34C}", "Consume batidos de frutas con avena y leche para ganar peso de forma equilibrada.")
  ]

  const GreenTips: seq<Tip> := [
    Tip("\U{2705}", "\U{A1}Enhorabuena! Tu peso est\U{E1} en rango saludable. Mant\U{E9}n la constancia."),
    Tip("\U{1F4A7}", "Bebe al menos 2L de agua al d\U{ED}a para mantener una buena hidrataci\U{F3}n."),
    Tip("\U{1F6B6}", "Camina 30 min diarios \U{2014} es el ejercicio perfecto para tu metabolismo.")
  ]

  const OrangeTips: seq<Tip> := [
    Tip("\U{1F35E}", "Reduce el pan en las cenas y sustit\U{FA}yelo por verdura de hoja verde."),
    Tip("\U{1F3C3}", "Aumenta la actividad f\U{ED}sica: 150 min/semana de ejercicio moderado."),
    Tip("\U{1F957}", "Empieza cada comida con una ensalada para reducir la ingesta cal\U{F3}rica.")
  ]

  const RedTips: seq<Tip> := [
    Tip("\U{26A0}\U{FE0F}", "Es importante consultar con tu m\U{E9}dico para un plan personalizado."),
    Tip("\U{1F966}", "Prioriza prote\U{ED}nas magras y verduras en cada plato \U{2014} reduce ultraprocesados."),
    Tip("\U{1F4C9}", "Establece metas peque\U{F1}as: perder 0.5 kg/semana es un ritmo seguro y efectivo.")
  ]

  /** The colours the tip table has an entry for. */
  const TipColors: set<string> := {"blue", "green", "orange", "red"}

  /** `getCoachTips`: nothing without a category; the colour's three tips,
      falling back to the green ones for a colour the table lacks. */
  function CoachTips(cat: Option<Category>): (r: seq<Tip>)
    ensures cat.None? <==> r == []
    ensures cat.Some? ==> |r| == 3
    ensures cat.Some? && cat.value.color !in TipColors ==> r == GreenTips
    ensures cat.Some? && cat.value.color == "green" ==> r == GreenTips
    ensures cat.Some? && cat.value.color == "blue" ==> r == BlueTips
    ensures cat.Some? && cat.value.color == "orange" ==> r == OrangeTips
    ensures cat.Some? && cat.value.color == "red" ==> r == RedTips
  {
    match cat
    case None => []
    case Some(c) =>
      if c.color == "blue" then BlueTips
      else if c.color == "orange" then OrangeTips
      else if c.color == "red" then RedTips
      else GreenTips
  }

  /** The tips shown for an index are those of its own band and never the
      fallback for another band: two indexes get the same tips exactly when
      they fall in the same band. */
  lemma TipsIdentifyBand(x: real, y: real)
    ensures CoachTips(ImcCategory(Some(x))) == CoachTips(ImcCategory(Some(y))) <==> BandOf(x) == BandOf(y)
  {
    var tx := CoachTips(ImcCategory(Some(x)));
    var ty := CoachTips(ImcCategory(Some(y)));
    if BandOf(x) != BandOf(y) {
      assert tx[0].icon != ty[0].icon;
    }
  }

  // ---- Saving ----

  /** The fields a save writes to the stored profile. */
  datatype Update = Update(nombre: string, peso: Option<real>, altura: Option<real>, tipoDiabetes: string)

  /** What a save produces: the update, whether the weight changed, and the
      weight history shown afterwards. */
  datatype Saved = Saved(update: Update, pesoChanged: bool, weightLogs: seq<real>)

  /** `handleSave`: the trimmed name, the typed weight and height when they
      parse and the stored ones otherwise (`prevPeso`, `prevAltura`: none
      when there is no profile or no value), and the chosen diabetes type. A
      weight that parses and differs from the stored one is appended to the
      history. `parse` stands for `parseFloat`. */
  function HandleSave(prevPeso: Option<real>, prevAltura: Option<real>, logs: seq<real>,
                      nombre: string, peso: string, altura: string, tipoDiabetes: string,
                      parse: string -> Num): (r: Saved)
    ensures r.update.nombre == Trim(nombre) && r.update.tipoDiabetes == tipoDiabetes
    ensures parse(peso).NaN? ==> r.update.peso == prevPeso
    ensures parse(peso).Val? ==> r.update.peso == Some(parse(peso).v)
    ensures parse(altura).NaN? ==> r.update.altura == prevAltura
    ensures parse(altura).Val? ==> r.update.altura == Some(parse(altura).v)
    ensures r.pesoChanged <==> r.update.peso != prevPeso
    ensures |r.weightLogs| == |logs| + (if r.pesoChanged then 1 else 0)
    ensures r.weightLogs[..|logs|] == logs
    ensures r.pesoChanged ==> r.weightLogs[|logs|] == r.update.peso.value
  {
    var pesoNum := parse(peso);
    var alturaNum := parse(altura);
    var pesoChanged := pesoNum.Val? && prevPeso != Some(pesoNum.v);
    var update := Update(
      Trim(nombre),
      if pesoNum.NaN? then prevPeso else Some(pesoNum.v),
      if alturaNum.NaN? then prevAltura else Some(alturaNum.v),
      tipoDiabetes);
    Saved(update, pesoChanged, LogWeight(logs, pesoChanged, if pesoNum.Val? then pesoNum.v else 0.0))
  }

  /** The weight history after a save: the new weight appended when it
      changed, the history unchanged otherwise. */
  function LogWeight(logs: seq<real>, changed: bool, peso: real): (r: seq<real>)
    ensures |r| == |logs| + (if changed then 1 else 0)
    ensures r[..|logs|] == logs
    ensures changed ==> r[|logs|] == peso
  {
    if changed then logs + [peso] else logs
  }

  /** Saving the same form a second time, once the first save is stored,
      writes the same update and reports no change of weight. */
  lemma SaveTwiceNoChange(prevPeso: Option<real>, prevAltura: Option<real>, logs: seq<real>,
                          nombre: string, peso: string, altura: string, tipoDiabetes: string,
                          parse: string -> Num)
    ensures var first := HandleSave(prevPeso, prevAltura, logs, nombre, peso, altura, tipoDiabetes, parse);
            var second := HandleSave(first.update.peso, first.update.altura, first.weightLogs,
                                     nombre, peso, altura, tipoDiabetes, parse);
            second.update == first.update && !second.pesoChanged && second.weightLogs == first.weightLogs
  {
  }

  // ---- Diabetes types ----

  /** The diabetes types the editor offers, as written: the no-diabetes
      entry stores its display text. */
  const DiabetesOptions: seq<string> :=
    ["MODY 2", "MODY 3", "MODY 5", "Tipo 1", "Tipo 2", "Gestacional", "LADA", "Sin diabetes"]

  /** The type stored when option `i` of the editor is chosen, as
      written. */
  function ChooseDiabetes(i: nat): (r: string)
    requires i < |DiabetesOptions|
    ensures r in DiabetesOptions
    ensures !Engine.IsSinDiabetes(Engine.Profile([], r))
  {
    DiabetesOptions[i]
  }

  /** As written, picking "Sin diabetes" in the editor and saving stores a
      type the engine does not read as no diabetes, so the carbohydrate
      rules stay on for that user. */
  lemma EditorNoDiabetesIgnored(prevPeso: Option<real>, prevAltura: Option<real>, logs: seq<real>,
                                nombre: string, peso: string, altura: string, parse: string -> Num)
    ensures DiabetesOptions[7] == "Sin diabetes"
    ensures var saved := HandleSave(prevPeso, prevAltura, logs, nombre, peso, altura, ChooseDiabetes(7), parse);
            !Engine.IsSinDiabetes(Engine.Profile([], saved.update.tipoDiabetes))
  {
  }

  /** An option of the corrected selector: the stored value and the text
      shown. */
  datatype DiabetesOption = DiabetesOption(value: string, shown: string)

  /** The corrected selector: the no-diabetes entry shows "Sin diabetes" and
      stores the value the engine and the onboarding wizard use. */
  const DiabetesOptionsFixed: seq<DiabetesOption> := [
    DiabetesOption("MODY 2", "MODY 2"), DiabetesOption("MODY 3", "MODY 3"),
    DiabetesOption("MODY 5", "MODY 5"), DiabetesOption("Tipo 1", "Tipo 1"),
    DiabetesOption("Tipo 2", "Tipo 2"), DiabetesOption("Gestacional", "Gestacional"),
    DiabetesOption("LADA", "LADA"), DiabetesOption("sin_diabetes", "Sin diabetes")
  ]

  /** The type stored when option `i` of the corrected selector is chosen:
      the engine reads it as no diabetes exactly when the option shows "Sin
      diabetes", and the labels are those of the editor as written. */
  function ChooseDiabetesFixed(i: nat): (r: string)
    requires i < |DiabetesOptionsFixed|
    ensures DiabetesOptionsFixed[i].shown == DiabetesOptions[i]
    ensures Engine.IsSinDiabetes(Engine.Profile([], r)) <==> DiabetesOptionsFixed[i].shown == "Sin diabetes"
  {
    DiabetesOptionsFixed[i].value
  }

  /** With the corrected selector, the no-diabetes choice saved from the
      editor switches the carbohydrate rules off, whatever else the form
      holds. */
  lemma EditorNoDiabetesFixed(prevPeso: Option<real>, prevAltura: Option<real>, logs: seq<real>,
                              nombre: string, peso: string, altura: string, parse: string -> Num,
                              alergias: seq<string>)
    ensures var saved := HandleSave(prevPeso, prevAltura, logs, nombre, peso, altura, ChooseDiabetesFixed(7), parse);
            Engine.IsSinDiabetes(Engine.Profile(alergias, saved.update.tipoDiabetes))
  {
  }
}
