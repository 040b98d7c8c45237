/** The live classification of a glucose reading (mg/dL) in the logging
    dialog: a colour and a label, both drawn from the same four bands. */
module Glucose {
  import opened Common

  /** The bands of a reading, plus the case where nothing readable was
      typed. */
  datatype Band = Unread | Hipoglucemia | EnRango | Elevada | Alta

  /** The band's position from lowest to highest reading. */
  function Rank(b: Band): nat {
    match b
    case Unread => 0
    case Hipoglucemia => 1
    case EnRango => 2
    case Elevada => 3
    case Alta => 4
  }

  /** The band of the typed text: unread when it is empty or does not
      parse; then below 70, up to 140, up to 180, above. `parse` stands for
      `parseFloat`. */
  function Classify(valor: string, parse: string -> Num): (b: Band)
    ensures b == Unread <==> valor == "" || parse(valor).NaN?
    ensures b == Hipoglucemia <==> valor != "" && parse(valor).Val? && parse(valor).v < 70.0
    ensures b == EnRango <==> valor != "" && parse(valor).Val? && 70.0 <= parse(valor).v <= 140.0
    ensures b == Elevada <==> valor != "" && parse(valor).Val? && 140.0 < parse(valor).v <= 180.0
    ensures b == Alta <==> valor != "" && parse(valor).Val? && 180.0 < parse(valor).v
  {
    var n := parse(valor);
    if valor == "" || n.NaN? then Unread
    else if n.v < 70.0 then Hipoglucemia
    else if n.v <= 140.0 then EnRango
    else if n.v <= 180.0 then Elevada
    else Alta
  }

  const AmberText: string := "text-amber-600 dark:text-amber-400"
  const EmeraldText: string := "text-emerald-600 dark:text-emerald-400"
  const OrangeText: string := "text-orange-600 dark:text-orange-400"
  const RedText: string := "text-red-600 dark:text-red-400"

  /** `getValorColor`: no class for an empty or unparsable reading, then
      amber, emerald, orange and red by the thresholds 70, 140 and 180. */
  function ValorColor(valor: string, parse: string -> Num): (r: string)
    ensures r == "" <==> valor == "" || parse(valor).NaN?
    ensures r == AmberText <==> valor != "" && parse(valor).Val? && parse(valor).v < 70.0
    ensures r == EmeraldText <==> valor != "" && parse(valor).Val? && 70.0 <= parse(valor).v <= 140.0
    ensures r == OrangeText <==> valor != "" && parse(valor).Val? && 140.0 < parse(valor).v <= 180.0
    ensures r == RedText <==> valor != "" && parse(valor).Val? && 180.0 < parse(valor).v
  {
    var valorNum := parse(valor);
    if valor == "" || valorNum.NaN? then ""
    else if valorNum.v < 70.0 then AmberText
    else if valorNum.v <= 140.0 then EmeraldText
    else if valorNum.v <= 180.0 then OrangeText
    else RedText
  }

  const HipoLabel: string := "Hipoglucemia"
  const RangoLabel: string := "En rango \U{2713}"
  const ElevadaLabel: string := "Elevada"
  const AltaLabel: string := "Alta \U{26A0}\U{FE0F}"

  /** `getValorLabel`: no label for an empty or unparsable reading, then
      the four labels by the same thresholds as the colour. */
  function ValorLabel(valor: string, parse: string -> Num): (r: string)
    ensures r == "" <==> valor == "" || parse(valor).NaN?
    ensures r == HipoLabel <==> valor != "" && parse(valor).Val? && parse(valor).v < 70.0
    ensures r == RangoLabel <==> valor != "" && parse(valor).Val? && 70.0 <= parse(valor).v <= 140.0
    ensures r == ElevadaLabel <==> valor != "" && parse(valor).Val? && 140.0 < parse(valor).v <= 180.0
    ensures r == AltaLabel <==> valor != "" && parse(valor).Val? && 180.0 < parse(valor).v
  {
    var valorNum := parse(valor);
    if valor == "" || valorNum.NaN? then ""
    else if valorNum.v < 70.0 then HipoLabel
    else if valorNum.v <= 140.0 then RangoLabel
    else if valorNum.v <= 180.0 then ElevadaLabel
    else AltaLabel
  }

  /** The colour of each band. */
  function ColorOf(b: Band): string {
    match b
    case Unread => ""
    case Hipoglucemia => AmberText
    case EnRango => EmeraldText
    case Elevada => OrangeText
    case Alta => RedText
  }

  /** The label of each band. */
  function LabelOf(b: Band): string {
    match b
    case Unread => ""
    case Hipoglucemia => HipoLabel
    case EnRango => RangoLabel
    case Elevada => ElevadaLabel
    case Alta => AltaLabel
  }

  /** Colour and label are both functions of the one band of the reading. */
  lemma ColorAndLabelFollowBand(valor: string, parse: string -> Num)
    ensures ValorColor(valor, parse) == ColorOf(Classify(valor, parse))
    ensures ValorLabel(valor, parse) == LabelOf(Classify(valor, parse))
  {
  }

  /** Colour and label use the same boundaries: two readings share a colour
      exactly when they share a label, exactly when they fall in the same
      band. */
  lemma SameBoundaries(a: string, b: string, parse: string -> Num)
    ensures ValorColor(a, parse) == ValorColor(b, parse) <==> Classify(a, parse) == Classify(b, parse)
    ensures ValorLabel(a, parse) == ValorLabel(b, parse) <==> Classify(a, parse) == Classify(b, parse)
  {
    ColorAndLabelFollowBand(a, parse);
    ColorAndLabelFollowBand(b, parse);
    BandsApart(Classify(a, parse), Classify(b, parse));
  }

  /** Different bands have different colours and different labels. */
  lemma BandsApart(x: Band, y: Band)
    ensures ColorOf(x) == ColorOf(y) <==> x == y
    ensures LabelOf(x) == LabelOf(y) <==> x == y
  {
    if x != y {
      assert ColorOf(x) == [] || ColorOf(y) == [] || ColorOf(x)[5] != ColorOf(y)[5];
      assert LabelOf(x) == [] || LabelOf(y) == [] || LabelOf(x)[0] != LabelOf(y)[0] || |LabelOf(x)| != |LabelOf(y)|;
    }
  }

  /** A higher reading never falls in a lower band. */
  lemma BandMonotone(a: string, b: string, parse: string -> Num)
    requires Classify(a, parse) != Unread && Classify(b, parse) != Unread
    requires parse(a).v <= parse(b).v
    ensures Rank(Classify(a, parse)) <= Rank(Classify(b, parse))
  {
  }
}
