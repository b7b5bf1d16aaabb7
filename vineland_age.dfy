/** The three age codings of the Vineland scoring view: the bracket that selects a
    domain norm table, the finer bracket that selects a confidence interval, and the
    "simple" bracket used by the pairwise comparison tables. Ages are whole years. */
module VinelandAge {
  import opened Wrappers
  import opened Text

  /** Coarse bracket for the domain standard-score tables (defined for ages >= 1). */
  function DomainBracket(age: int): (s: string)
    ensures s == "1-2" || s == "3-6" || s == "7-18" || s == "19-49" || s == "50-90"
    ensures age <= 2 <==> s == "1-2"
    ensures age >= 50 <==> s == "50-90"
  {
    if age < 3 then "1-2"
    else if age < 7 then "3-6"
    else if age < 19 then "7-18"
    else if age < 50 then "19-49"
    else "50-90"
  }

  /** Fine bracket for the confidence-interval tables (defined for ages >= 1). */
  function IntervalBracket(age: int): (s: string)
    ensures 1 <= age <= 6 ==> ParseInt(s) == Some(age)
    ensures (age < 1 || age >= 50) ==> s == "50-90"
  {
    if 1 <= age <= 6 then ParseIntOfIntToString(age); NatToString(age)
    else if 7 <= age <= 8 then "7-8"
    else if 9 <= age <= 11 then "9-11"
    else if 12 <= age <= 14 then "12-14"
    else if 15 <= age <= 18 then "15-18"
    else if 19 <= age <= 29 then "19-29"
    else if 30 <= age <= 49 then "30-49"
    else "50-90"
  }

  /** `get_age_tranches`: both brackets, or `(None, None)` below one year. */
  function GetAgeTranches(age: int): (r: (Option<string>, Option<string>))
    ensures age < 1 <==> r == (None, None)
    ensures age >= 1 ==> r == (Some(DomainBracket(age)), Some(IntervalBracket(age)))
  {
    if age < 1 then (None, None) else (Some(DomainBracket(age)), Some(IntervalBracket(age)))
  }

  /** `get_simple_age_range`, written with its own chain of strict upper bounds. */
  function GetSimpleAgeRange(age: int): (s: string)
    ensures age < 2 ==> s == "1"
    ensures age >= 7 ==> s == IntervalBracket(age)
  {
    if age < 3 then (if age < 2 then "1" else "2")
    else if age < 7 then IntToString(age)
    else if age < 9 then "7-8"
    else if age < 12 then "9-11"
    else if age < 15 then "12-14"
    else if age < 19 then "15-18"
    else if age < 30 then "19-29"
    else if age < 50 then "30-49"
    else "50-90"
  }

  /** The two independently written codings agree on every age from one year up;
      below one year the simple coding still answers "1". */
  lemma SimpleRangeIsIntervalBracket(age: int)
    ensures age >= 1 ==> GetSimpleAgeRange(age) == IntervalBracket(age)
    ensures age < 1 ==> GetSimpleAgeRange(age) == "1"
  {
    if age == 1 {
      assert NatToString(1) == "1";
    } else if age == 2 {
      assert NatToString(2) == "2";
    }
  }

  /** Reading a bracket label back: "a-b" is the range a..b, "n" is the single year n. */
  function LabelRange(code: string): Option<(nat, nat)> {
    var parts := Split(code, '-');
    if |parts| == 1 && IsNumeral(parts[0]) then
      Some((DigitsValue(parts[0]), DigitsValue(parts[0])))
    else if |parts| == 2 && IsNumeral(parts[0]) && IsNumeral(parts[1]) then
      Some((DigitsValue(parts[0]), DigitsValue(parts[1])))
    else None
  }

  predicate IsNumeral(s: string) {
    s != [] && forall i :: 0 <= i < |s| ==> IsDigit(s[i])
  }

  predicate LabelCovers(code: string, age: int) {
    LabelRange(code).Some? && LabelRange(code).value.0 <= age <= LabelRange(code).value.1
  }

  lemma NumeralLabel(n: nat)
    ensures LabelRange(NatToString(n)) == Some((n, n))
  {
    var s := NatToString(n);
    SplitJoin(s, '-');
    SplitOfSeparatorFree(s, '-');
    DigitsValueOfNatToString(n);
  }

  /** A label "lo-hi" printed from two numbers reads back as the range lo..hi. */
  lemma RangeLabel(code: string, lo: nat, hi: nat)
    requires code == NatToString(lo) + "-" + NatToString(hi)
    ensures LabelRange(code) == Some((lo, hi))
  {
    SplitAfterPiece(NatToString(lo), NatToString(hi), '-');
    SplitOfSeparatorFree(NatToString(hi), '-');
    DigitsValueOfNatToString(lo);
    DigitsValueOfNatToString(hi);
  }

  /** Every label of the domain coding, read back as a range, contains the age
      it was chosen for (up to 90, the upper end of the last band). */
  lemma {:induction false} DomainBracketCoversAge(age: int)
    requires 1 <= age <= 90
    ensures LabelCovers(DomainBracket(age), age)
  {
    if age < 7 {
      if age < 3 {
        RangeLabel("1-2", 1, 2);
      } else {
        RangeLabel("3-6", 3, 6);
      }
    } else {
      OlderDomainBracketCovers(age);
    }
  }

  lemma {:induction false} OlderDomainBracketCovers(age: int)
    requires 7 <= age <= 90
    ensures LabelCovers(DomainBracket(age), age)
  {
    if age < 19 {
      RangeLabel("7-18", 7, 18);
    } else if age < 50 {
      RangeLabel("19-49", 19, 49);
    } else {
      LastLabelCovers(age);
    }
  }

  /** The same for the interval coding. */
  lemma {:induction false} IntervalBracketCoversAge(age: int)
    requires 1 <= age <= 90
    ensures LabelCovers(IntervalBracket(age), age)
  {
    if age <= 6 {
      NumeralLabel(age);
    } else if age <= 14 {
      ChildIntervalBracketCovers(age);
    } else {
      OlderIntervalBracketCovers(age);
    }
  }

  lemma {:induction false} ChildIntervalBracketCovers(age: int)
    requires 7 <= age <= 14
    ensures LabelCovers(IntervalBracket(age), age)
  {
    if age <= 8 {
      RangeLabel("7-8", 7, 8);
    } else if age <= 11 {
      RangeLabel("9-11", 9, 11);
    } else {
      RangeLabel("12-14", 12, 14);
    }
  }

  lemma {:induction false} OlderIntervalBracketCovers(age: int)
    requires 15 <= age <= 90
    ensures LabelCovers(IntervalBracket(age), age)
  {
    if age <= 18 {
      RangeLabel("15-18", 15, 18);
    } else if age <= 29 {
      RangeLabel("19-29", 19, 29);
    } else if age <= 49 {
      RangeLabel("30-49", 30, 49);
    } else {
      LastLabelCovers(age);
    }
  }

  lemma LastLabelCovers(age: int)
    requires 50 <= age <= 90
    ensures LabelCovers("50-90", age)
  {
    RangeLabel("50-90", 50, 90);
  }
}
