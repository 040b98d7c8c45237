/** The three-step onboarding wizard: body data and diabetes profile, then
    treatment, then allergies. A profile without diabetes skips the
    treatment step in both directions. */
module Onboarding {
  import opened Common

  /** The diabetes profile that switches the carbohydrate rules off. */
  const SinDiabetes: string := "sin_diabetes"

  /** The allergy keys the wizard offers. */
  const AllergyOptions: seq<string> := ["gluten", "lactosa", "frutos_secos", "marisco", "huevo"]

  /** The treatment keys the wizard offers. */
  const TreatmentOptions: seq<string> := ["oral", "insulina", "dieta"]

  /** The wizard's state: the current step and the form fields as typed. */
  datatype Wizard = Wizard(
    step: int,
    nombre: string,
    peso: string,
    altura: string,
    tipoDiabetes: string,
    objetivoMin: string,
    objetivoMax: string,
    tratamiento: string,
    nombreMedicacion: string,
    alergias: seq<string>)

  /** The form as it opens. */
  const Start: Wizard := Wizard(1, "", "", "", "MODY 2", "70", "140", "oral", "Synjardy", [])

  /** The wizard shows one of its three steps. */
  predicate ValidStep(w: Wizard) {
    1 <= w.step <= 3
  }

  predicate IsSin(w: Wizard) {
    w.tipoDiabetes == SinDiabetes
  }

  /** Whether the Next button is enabled: a name that is not blank on the
      first step, a treatment on the second, always on the last. */
  predicate CanProceed(w: Wizard) {
    if w.step == 1 then |Trim(w.nombre)| > 0
    else if w.step == 2 then w.tratamiento != ""
    else true
  }

  /** The first step needs a name with a character other than white
      space. */
  lemma CanProceedFirstStep(w: Wizard)
    requires w.step == 1
    ensures CanProceed(w) <==> exists i :: 0 <= i < |w.nombre| && !IsSpace(w.nombre[i])
  {
  }

  /** A name made only of Unicode space separators, such as the ideographic
      space or the en quad, is blank too. */
  lemma UnicodeSpacesAreBlank(w: Wizard)
    requires w.step == 1
    requires forall i :: 0 <= i < |w.nombre| ==> w.nombre[i] in {'\U{3000}', '\U{2000}', '\U{1680}', '\U{205F}'}
    ensures !CanProceed(w)
  {
    CanProceedFirstStep(w);
  }

  /** `handleNext`: a profile without diabetes jumps from the first step to
      the allergies, with the treatment set to no diabetes and no medication
      name; otherwise the step advances, stopping at the last. */
  function HandleNext(w: Wizard): (r: Wizard)
    ensures r.nombre == w.nombre && r.tipoDiabetes == w.tipoDiabetes && r.alergias == w.alergias
    ensures ValidStep(w) ==> ValidStep(r)
    ensures w.step == 1 && IsSin(w) ==> r.step == 3 && r.tratamiento == SinDiabetes && r.nombreMedicacion == ""
    ensures !(w.step == 1 && IsSin(w)) ==> r.tratamiento == w.tratamiento && r.nombreMedicacion == w.nombreMedicacion
    ensures !(w.step == 1 && IsSin(w)) ==> r.step == (if w.step < 3 then w.step + 1 else w.step)
  {
    if w.step == 1 && IsSin(w) then w.(tratamiento := SinDiabetes, nombreMedicacion := "", step := 3)
    else if w.step < 3 then w.(step := w.step + 1)
    else w
  }

  /** `handleBack`: a profile without diabetes returns from the allergies
      to the first step; otherwise the step goes back, stopping at the
      first. Only the step changes. */
  function HandleBack(w: Wizard): (r: Wizard)
    ensures r == w.(step := r.step)
    ensures ValidStep(w) ==> ValidStep(r)
    ensures w.step == 3 && IsSin(w) ==> r.step == 1
    ensures !(w.step == 3 && IsSin(w)) ==> r.step == (if w.step > 1 then w.step - 1 else w.step)
  {
    if w.step == 3 && IsSin(w) then w.(step := 1)
    else if w.step > 1 then w.(step := w.step - 1)
    else w
  }

  /** A press on Next: the button is only shown before the last step and is
      disabled while the step is incomplete. */
  function PressNext(w: Wizard): (r: Wizard)
    ensures !CanProceed(w) || w.step >= 3 ==> r == w
  {
    if w.step < 3 && CanProceed(w) then HandleNext(w) else w
  }

  /** Without diabetes, the treatment step is never shown: from either
      outer step, Next and Back land on the other one. */
  lemma SinDiabetesSkipsTreatment(w: Wizard)
    requires IsSin(w) && (w.step == 1 || w.step == 3)
    ensures w.step == 1 ==> HandleNext(w).step == 3
    ensures w.step == 3 ==> HandleBack(w).step == 1
    ensures HandleBack(HandleNext(w)).step == 1
  {
  }

  /** With diabetes, Back undoes Next on the first two steps. */
  lemma BackUndoesNext(w: Wizard)
    requires !IsSin(w) && (w.step == 1 || w.step == 2)
    ensures HandleBack(HandleNext(w)) == w
  {
  }

  /** Choosing a diabetes profile in the first step's form. */
  function SetTipoDiabetes(w: Wizard, v: string): (r: Wizard)
    ensures r.tipoDiabetes == v && r == w.(tipoDiabetes := v)
  {
    w.(tipoDiabetes := v)
  }

  /** The no-diabetes treatment outlives a change of profile: choosing no
      diabetes, going on and back, and then choosing a diabetes type shows
      the treatment step with the no-diabetes treatment still selected, one
      the step does not offer. */
  lemma StaleTreatmentReachable()
    ensures var w := HandleNext(SetTipoDiabetes(HandleBack(HandleNext(SetTipoDiabetes(Start.(nombre := "Ana"), SinDiabetes))), "MODY 2"));
            w.step == 2 && !IsSin(w) && w.tratamiento == SinDiabetes && w.tratamiento !in TreatmentOptions
  {
  }

  // ---- Allergies ----

  /** `toggleAlergia`: removes a selected key, appends an unselected one. */
  function ToggleAlergia(alergias: seq<string>, key: string): (r: seq<string>)
    ensures key in alergias ==> key !in r && forall a :: a in r <==> a in alergias && a != key
    ensures key !in alergias ==> r == alergias + [key]
    ensures NoDup(alergias) ==> NoDup(r)
  {
    if key in alergias then
      var keep := (a: string) => a != key;
      FilterNoDupWhen(alergias, keep);
      Filter(alergias, keep)
    else alergias + [key]
  }

  /** Toggling a key twice selects the same keys as before. */
  lemma ToggleAlergiaTwice(alergias: seq<string>, key: string)
    ensures forall a :: a in ToggleAlergia(ToggleAlergia(alergias, key), key) <==> a in alergias
  {
  }

  /** Toggling twice an unselected key on a list restores the list itself. */
  lemma ToggleAlergiaTwiceAbsent(alergias: seq<string>, key: string)
    requires key !in alergias
    ensures ToggleAlergia(ToggleAlergia(alergias, key), key) == alergias
  {
    var p := (a: string) => a != key;
    FilterKeepsAll(alergias, p);
    FilterKeepsAllAppend(alergias, key);
  }

  /** Filtering out a key appended to a list without it gives the list. */
  lemma FilterKeepsAllAppend(alergias: seq<string>, key: string)
    requires key !in alergias
    ensures Filter(alergias + [key], (a: string) => a != key) == alergias
  {
    var p := (a: string) => a != key;
    FilterAppendLast(alergias, key, p);
    FilterKeepsAll(alergias, p);
  }

  /** Filtering a list extended by an element the filter drops. */
  lemma {:induction false} FilterAppendLast(s: seq<string>, x: string, p: string -> bool)
    requires !p(x)
    ensures Filter(s + [x], p) == Filter(s, p)
    decreases |s|
  {
    if s == [] {
      assert [x][1..] == [];
    } else {
      assert (s + [x])[1..] == s[1..] + [x];
      FilterAppendLast(s[1..], x, p);
    }
  }

  // ---- The submitted profile ----

  /** The profile record the wizard submits. `parse` stands for
      `parseFloat`. */
  datatype Submitted = Submitted(
    nombre: string,
    peso: Option<Num>,
    altura: Option<Num>,
    tipoDiabetes: string,
    tratamiento: string,
    nombreMedicacion: Option<string>,
    alergias: seq<string>,
    objetivoMin: Num,
    objetivoMax: Num,
    onboardingComplete: bool)

  /** The medication name stored: none for diet alone or no diabetes,
      otherwise the trimmed name, none when blank. */
  function MedicationName(tratamiento: string, nombreMedicacion: string): (r: Option<string>)
    ensures tratamiento == "dieta" || tratamiento == SinDiabetes ==> r.None?
    ensures r.Some? ==> r.value == Trim(nombreMedicacion) && r.value != []
    ensures tratamiento != "dieta" && tratamiento != SinDiabetes && Trim(nombreMedicacion) != [] ==> r.Some?
  {
    if tratamiento == "dieta" || tratamiento == SinDiabetes then None
    else
      var name := Trim(nombreMedicacion);
      if name == [] then None else Some(name)
  }

  /** `handleSubmit`'s profile: trimmed name, weight and height parsed when
      typed, the chosen profile and treatment, the medication name rule,
      the allergies, the glucose target and the completion flag. */
  function Submit(w: Wizard, parse: string -> Num): (r: Submitted)
    ensures r.onboardingComplete
    ensures r.nombre == Trim(w.nombre) && r.alergias == w.alergias
    ensures r.peso.None? <==> w.peso == []
    ensures r.altura.None? <==> w.altura == []
    ensures r.peso.Some? ==> r.peso.value == parse(w.peso)
    ensures r.altura.Some? ==> r.altura.value == parse(w.altura)
    ensures r.tipoDiabetes == w.tipoDiabetes && r.tratamiento == w.tratamiento
    ensures r.objetivoMin == parse(w.objetivoMin) && r.objetivoMax == parse(w.objetivoMax)
    ensures r.nombreMedicacion == MedicationName(w.tratamiento, w.nombreMedicacion)
  {
    Submitted(
      Trim(w.nombre),
      if w.peso != [] then Some(parse(w.peso)) else None,
      if w.altura != [] then Some(parse(w.altura)) else None,
      w.tipoDiabetes,
      w.tratamiento,
      MedicationName(w.tratamiento, w.nombreMedicacion),
      w.alergias,
      parse(w.objetivoMin),
      parse(w.objetivoMax),
      true)
  }

  /** Reaching the allergies without diabetes always submits no medication
      name and the no-diabetes treatment. */
  lemma SinDiabetesSubmitsNoMedication(w: Wizard, parse: string -> Num)
    requires w.step == 1 && IsSin(w)
    ensures Submit(HandleNext(w), parse).nombreMedicacion.None?
    ensures Submit(HandleNext(w), parse).tratamiento == SinDiabetes
  {
  }
}
