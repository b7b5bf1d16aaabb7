/** The patient form's field cleaning: a birth date is refused when it lies in the future
    or more than 120 calendar years back, and a phone number is reduced to its digits and
    refused when fewer than ten remain. */
module CabinetForms {
  import opened Wrappers
  import opened Text
  import opened CabinetModels

  const FutureBirthMessage := "La date de naissance ne peut pas être dans le futur."
  const TooOldMessage := "L'âge ne peut pas dépasser 120 ans."
  const ShortPhoneMessage := "Le numéro de téléphone doit contenir au moins 10 chiffres."

  /** `clean_date_naissance` as written: the age limit compares calendar years only. */
  function CleanDateNaissance(birth: Date, today: Date): (r: Result<Date>)
    ensures r.Ok? <==> !Before(today, birth) && today.year - birth.year <= 120
    ensures r.Ok? ==> r.value == birth
    ensures Before(today, birth) ==> r == Err(FutureBirthMessage)
  {
    if Before(today, birth) then Err(FutureBirthMessage)
    else if today.year - birth.year > 120 then Err(TooOldMessage)
    else Ok(birth)
  }

  /** An accepted birth date gives an age between 0 and 120 years. */
  lemma AcceptedBirthAge(birth: Date, today: Date)
    requires CleanDateNaissance(birth, today).Ok?
    ensures 0 <= Age(birth, today) <= 120
  {
    AgeIsCompletedYears(birth, today);
  }

  /** The calendar-year test refuses a patient who is 120 and has not had a birthday yet
      this year: born 31 December 1905, on 1 January 2026 they are 120, and still refused. */
  lemma YearTestRefusesAge120()
    ensures Age(Date(1905, 12, 31), Date(2026, 1, 1)) == 120
    ensures CleanDateNaissance(Date(1905, 12, 31), Date(2026, 1, 1)) == Err(TooOldMessage)
  {
  }

  /** The birth-date check by completed years, as its message states it: refused in the
      future or beyond an age of 120. */
  function CleanDateNaissanceByAge(birth: Date, today: Date): (r: Result<Date>)
    ensures r.Ok? <==> !Before(today, birth) && Age(birth, today) <= 120
    ensures r.Ok? ==> r.value == birth
  {
    if Before(today, birth) then Err(FutureBirthMessage)
    else if Age(birth, today) > 120 then Err(TooOldMessage)
    else Ok(birth)
  }

  /** The corrected check accepts exactly the birth dates whose age is 0 to 120, and
      accepts everything the calendar-year test accepts. */
  lemma ByAgeAcceptsAges(birth: Date, today: Date)
    ensures CleanDateNaissanceByAge(birth, today).Ok? <==> 0 <= Age(birth, today) <= 120 && !Before(today, birth)
    ensures CleanDateNaissance(birth, today).Ok? ==> CleanDateNaissanceByAge(birth, today).Ok?
  {
    AgeIsCompletedYears(birth, today);
  }

  /** `clean_telephone`: an absent or empty number passes unchanged; any other is reduced
      to its digits, which must number at least 10. */
  function CleanTelephone(telephone: Option<string>): (r: Result<Option<string>>)
    ensures telephone.None? ==> r == Ok(None)
    ensures r.Err? <==> telephone.Some? && telephone.value != "" && |FilterDigits(telephone.value)| < 10
    ensures r.Ok? && r.value.Some? && r.value.value != "" ==>
      |r.value.value| >= 10 && forall i :: 0 <= i < |r.value.value| ==> IsDigit(r.value.value[i])
    ensures r.Ok? && telephone.Some? && telephone.value != "" ==> r == Ok(Some(FilterDigits(telephone.value)))
  {
    match telephone
    case None => Ok(None)
    case Some(t) =>
      if t == "" then Ok(telephone)
      else
        var digits := FilterDigits(t);
        if |digits| < 10 then Err(ShortPhoneMessage) else Ok(Some(digits))
  }

  /** What the cleaning promises: empty input comes back as it was, a non-empty number is
      refused exactly when it holds fewer than 10 digits, an accepted number is its digits
      in order (all digits, at least 10 long), and cleaning it again gives it back. */
  lemma CleanTelephoneMeaning(telephone: Option<string>)
    ensures telephone.None? || telephone == Some("") ==> CleanTelephone(telephone) == Ok(telephone)
    ensures telephone.Some? && telephone.value != "" ==>
      (CleanTelephone(telephone).Err? <==> |FilterDigits(telephone.value)| < 10)
    ensures CleanTelephone(telephone).Ok? && telephone.Some? && telephone.value != "" ==>
      var t := CleanTelephone(telephone).value;
      t.Some? && |t.value| >= 10 && (forall i :: 0 <= i < |t.value| ==> IsDigit(t.value[i]))
    ensures CleanTelephone(telephone).Ok? && telephone.Some? && telephone.value != "" ==>
      CleanTelephone(telephone) == Ok(Some(FilterDigits(telephone.value)))
    ensures CleanTelephone(telephone).Ok? ==> CleanTelephone(CleanTelephone(telephone).value) == CleanTelephone(telephone)
  {
    if telephone.Some? && telephone.value != "" {
      var digits := FilterDigits(telephone.value);
      if |digits| >= 10 {
        FilterDigitsOfDigits(digits);
      }
    }
  }
}
