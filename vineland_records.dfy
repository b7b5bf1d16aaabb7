/** The Vineland configuration and response records: their validation rules, the
    normalisation of a question's note on save, the item-range lookup of a question,
    the completeness test of a protocol and the rendering of an age equivalent. */
module VinelandRecords {
  import opened Wrappers
  import opened Text
  import opened Lookup

  /** `ReponseVineland.clean`: 'NA' is refused on a question that does not allow it. */
  function CleanReponse(reponse: Option<string>, permetNa: bool): (r: Result<()>)
    ensures r.Err? <==> reponse == Some("NA") && !permetNa
  {
    if reponse == Some("NA") && !permetNa then
      Err("La réponse 'Non applicable' n'est pas autorisée pour cette question.")
    else Ok(())
  }

  /** An item range of a subdomain, for an age band. */
  datatype PlageRow = PlageRow(sousDomaine: nat, itemDebut: nat, itemFin: nat, ageDebut: nat, ageFin: Option<nat>)

  /** `PlageItemVineland.clean`: the last item may not come before the first. */
  function CleanPlage(p: PlageRow): (r: Result<()>)
    ensures r.Ok? <==> p.itemDebut <= p.itemFin
  {
    if p.itemFin < p.itemDebut then Err("Le dernier item doit être supérieur au premier item") else Ok(())
  }

  /** `QuestionVineland.get_plage_age`: the first range of the same subdomain that holds
      the item number, in the table's (subdomain, first item) order. */
  function GetPlageAge(plages: seq<PlageRow>, sousDomaine: nat, numeroItem: nat): (r: Option<PlageRow>)
    ensures r.Some? ==> r.value in plages && r.value.sousDomaine == sousDomaine
                        && r.value.itemDebut <= numeroItem <= r.value.itemFin
    ensures r.Some? ==>
      exists i :: 0 <= i < |plages| && plages[i] == r.value && forall j :: 0 <= j < i ==> !CoversItem(plages[j], sousDomaine, numeroItem)
    ensures r.None? <==> forall p :: p in plages ==> !CoversItem(p, sousDomaine, numeroItem)
  {
    First(plages, (p: PlageRow) => CoversItem(p, sousDomaine, numeroItem))
  }

  predicate CoversItem(p: PlageRow, sousDomaine: nat, numeroItem: nat) {
    p.sousDomaine == sousDomaine && p.itemDebut <= numeroItem <= p.itemFin
  }

  /** The per-character rewriting of a note: a line feed becomes '|', a carriage return
      disappears, every other character is kept in place. */
  function NoteChars(s: string): (r: string)
    decreases |s|
  {
    if s == [] then []
    else (if s[0] == '\n' then "|" else if s[0] == '\r' then "" else [s[0]]) + NoteChars(s[1..])
  }

  /** The note as `QuestionVineland.save` stores it: a non-empty note has its line feeds
      replaced by '|' and then its carriage returns removed; an empty or absent note is kept. */
  function NormaliseNote(note: Option<string>): (r: Option<string>)
    ensures r.Some? <==> note.Some?
    ensures note == Some("") ==> r == note
  {
    if note.Some? && note.value != "" then Some(Replace(Replace(note.value, "\n", "|"), "\r", ""))
    else note
  }

  class QuestionVineland {
    var note: Option<string>
    var permetNa: bool

    constructor (note: Option<string>, permetNa: bool)
      ensures this.note == note && this.permetNa == permetNa
    {
      this.note := note;
      this.permetNa := permetNa;
    }

    /** `save()`: normalise the note in place; nothing else changes. */
    method Save()
      modifies this`note
      ensures note == NormaliseNote(old(note))
      ensures permetNa == old(permetNa)
    {
      if note.Some? && note.value != "" {
        note := Some(Replace(Replace(note.value, "\n", "|"), "\r", ""));
      }
    }
  }

  lemma {:induction false} NoteCharsConcat(a: string, b: string)
    ensures NoteChars(a + b) == NoteChars(a) + NoteChars(b)
    decreases |a|
  {
    if a != [] {
      assert (a + b)[1..] == a[1..] + b;
      NoteCharsConcat(a[1..], b);
    } else {
      assert a + b == b;
    }
  }

  lemma {:induction false} TwoPassesAreNoteChars(s: string)
    ensures CharSubst(CharSubst(s, '\n', "|"), '\r', "") == NoteChars(s)
    decreases |s|
  {
    if s != [] {
      TwoPassesAreNoteChars(s[1..]);
      var head := if s[0] == '\n' then "|" else [s[0]];
      CharSubstConcat(head, CharSubst(s[1..], '\n', "|"), '\r', "");
    }
  }

  /** The two `replace` passes are the per-character rewriting. */
  lemma NormaliseNoteIsNoteChars(s: string)
    requires s != []
    ensures NormaliseNote(Some(s)) == Some(NoteChars(s))
  {
    ReplaceIsCharSubst(s, '\n', "|");
    ReplaceIsCharSubst(CharSubst(s, '\n', "|"), '\r', "");
    TwoPassesAreNoteChars(s);
  }

  lemma {:induction false} NoteCharsClean(s: string)
    ensures '\n' !in NoteChars(s) && '\r' !in NoteChars(s)
    ensures |NoteChars(s)| <= |s|
    decreases |s|
  {
    if s != [] {
      NoteCharsClean(s[1..]);
    }
  }

  lemma {:induction false} NoteCharsOfClean(s: string)
    requires '\n' !in s && '\r' !in s
    ensures NoteChars(s) == s
    decreases |s|
  {
    if s != [] {
      NoteCharsOfClean(s[1..]);
      assert [s[0]] + s[1..] == s;
    }
  }

  /** A stored note holds neither line feed nor carriage return, and saving it again
      leaves it as it is. */
  lemma NormaliseNoteCleanAndIdempotent(note: Option<string>)
    ensures note.Some? && note.value != "" ==>
      '\n' !in NormaliseNote(note).value && '\r' !in NormaliseNote(note).value
    ensures NormaliseNote(NormaliseNote(note)) == NormaliseNote(note)
  {
    if note.Some? && note.value != "" {
      NormaliseNoteIsNoteChars(note.value);
      var t := NoteChars(note.value);
      NoteCharsClean(note.value);
      if t != [] {
        NormaliseNoteIsNoteChars(t);
        NoteCharsOfClean(t);
      }
    }
  }

  /** `TestVineland.is_complete`: at least as many responses as questions. */
  predicate IsComplete(totalQuestions: nat, totalReponses: nat)
    ensures totalQuestions == 0 ==> IsComplete(totalQuestions, totalReponses)
    ensures totalReponses < totalQuestions ==> !IsComplete(totalQuestions, totalReponses)
  {
    totalReponses >= totalQuestions
  }

  lemma {:induction false} DistinctCardinality(s: seq<int>)
    requires forall i, j :: 0 <= i < j < |s| ==> s[i] != s[j]
    ensures |set q | q in s| == |s|
    decreases |s|
  {
    if s != [] {
      var init := s[..|s| - 1];
      DistinctCardinality(init);
      assert (set q | q in s) == (set q | q in init) + {s[|s| - 1]};
      assert s[|s| - 1] !in (set q | q in init);
    }
  }

  /** Responses are unique per (protocol, question) and refer to existing questions, so
      counting them is enough: the protocol is complete exactly when every question has
      a response. */
  lemma CompleteIffAllAnswered(questions: set<int>, answered: seq<int>)
    requires forall i, j :: 0 <= i < j < |answered| ==> answered[i] != answered[j]
    requires forall i :: 0 <= i < |answered| ==> answered[i] in questions
    ensures IsComplete(|questions|, |answered|) <==> questions == set q | q in answered
  {
    var a := set q | q in answered;
    DistinctCardinality(answered);
    assert a <= questions;
    assert |questions - a| == |questions| - |a|;
    if |answered| >= |questions| {
      assert questions - a == {};
      assert questions == a;
    }
  }

  /** `AgeEquivalentSousDomaine.get_age_equivalent_display`. */
  function AgeEquivalentDisplay(special: Option<string>, annees: Option<int>, mois: Option<int>): (s: string)
    ensures s != ""
    ensures special.Some? && special.value != "" ==> s == "Plus de 18 ans" || s == "Moins de 1 an"
    ensures (special.None? || special.value == "") && annees.None? ==> s == "-"
  {
    if special.Some? && special.value != "" then
      (if special.value == ">18" then "Plus de 18 ans" else "Moins de 1 an")
    else if annees.Some? then
      if mois.Some? && mois.value != 0 then
        IntToString(annees.value) + " an(s) et " + IntToString(mois.value) + " mois"
      else IntToString(annees.value)
    else "-"
  }

  /** What the rendering says: a special age wins and names its bound; otherwise the text
      reads back to the stored years (and months, when there are some); "-" only when
      nothing is stored. */
  lemma AgeEquivalentReadsBack(special: Option<string>, annees: Option<int>, mois: Option<int>)
    ensures special.Some? && special.value != "" ==>
      AgeEquivalentDisplay(special, annees, mois) == (if special.value == ">18" then "Plus de 18 ans" else "Moins de 1 an")
    ensures (special.None? || special.value == "") && annees.Some? && mois.Some? && mois.value != 0 ==>
      var parts := Split(AgeEquivalentDisplay(special, annees, mois), ' ');
      |parts| == 5 && ParseInt(parts[0]) == Some(annees.value) && parts[1] == "an(s)" && parts[2] == "et"
      && ParseInt(parts[3]) == Some(mois.value) && parts[4] == "mois"
    ensures (special.None? || special.value == "") && annees.Some? && (mois.None? || mois.value == 0) ==>
      ParseInt(AgeEquivalentDisplay(special, annees, mois)) == Some(annees.value)
    ensures AgeEquivalentDisplay(special, annees, mois) == "-" <==> (special.None? || special.value == "") && annees.None?
  {
    if (special.None? || special.value == "") && annees.Some? {
      if mois.Some? && mois.value != 0 {
        YearsAndMonthsReadBack(annees.value, mois.value);
      } else {
        ParseIntOfIntToString(annees.value);
        NotDash(annees.value);
      }
    }
  }

  /** The years-and-months text reads back to its two numbers. */
  lemma YearsAndMonthsReadBack(a: int, m: int)
    ensures var d := IntToString(a) + " an(s) et " + IntToString(m) + " mois";
      var parts := Split(d, ' ');
      d != "-" && |parts| == 5 && ParseInt(parts[0]) == Some(a) && parts[1] == "an(s)" && parts[2] == "et"
      && ParseInt(parts[3]) == Some(m) && parts[4] == "mois"
  {
    YearsAndMonthsWords(a, m);
    var parts := Split(IntToString(a) + " an(s) et " + IntToString(m) + " mois", ' ');
    ParseIntOfWord(parts, 0, a);
    ParseIntOfWord(parts, 3, m);
  }

  lemma ParseIntOfWord(parts: seq<string>, i: nat, n: int)
    requires i < |parts| && parts[i] == IntToString(n)
    ensures ParseInt(parts[i]) == Some(n)
  {
    ParseIntOfIntToString(n);
  }

  lemma NotDash(n: int)
    ensures IntToString(n) != "-"
  {
    var a := IntToString(n);
    if n < 0 {
      assert |a| >= 2;
    } else {
      assert IsDigit(a[0]);
    }
  }

  /** The years-and-months text splits on spaces into its five words. */
  lemma YearsAndMonthsWords(a: int, m: int)
    ensures var d := IntToString(a) + " an(s) et " + IntToString(m) + " mois";
      d != "-" && Split(d, ' ') == [IntToString(a), "an(s)", "et", IntToString(m), "mois"]
  {
    IntToStringChars(a);
    IntToStringChars(m);
    SplitFivePieces(IntToString(a), IntToString(m));
    var d := IntToString(a) + " an(s) et " + IntToString(m) + " mois";
    assert |d| > 1;
  }

  lemma SplitFivePieces(sa: string, sm: string)
    requires ' ' !in sa && ' ' !in sm
    ensures Split(sa + " an(s) et " + sm + " mois", ' ') == [sa, "an(s)", "et", sm, "mois"]
  {
    var w1, w2, w4 := "an(s)", "et", "mois";
    assert ' ' !in w1 && ' ' !in w2 && ' ' !in w4;
    assert sa + " an(s) et " + sm + " mois" == sa + [' '] + (w1 + [' '] + (w2 + [' '] + (sm + [' '] + w4)));
    SplitFiveWords(sa, w1, w2, sm, w4, ' ');
  }

  lemma SplitFiveWords(w0: string, w1: string, w2: string, w3: string, w4: string, c: char)
    requires c !in w0 && c !in w1 && c !in w2 && c !in w3 && c !in w4
    ensures Split(w0 + [c] + (w1 + [c] + (w2 + [c] + (w3 + [c] + w4))), c) == [w0, w1, w2, w3, w4]
  {
    SplitOfSeparatorFree(w4, c);
    SplitAfterPiece(w3, w4, c);
    SplitAfterPiece(w2, w3 + [c] + w4, c);
    SplitAfterPiece(w1, w2 + [c] + (w3 + [c] + w4), c);
    SplitAfterPiece(w0, w1 + [c] + (w2 + [c] + (w3 + [c] + w4)), c);
  }

  /** A raw-score → V-scale row: a subdomain, an age window (years; months; optional days)
      and a raw-score range. */
  datatype EchelleVRow = EchelleVRow(
    sousDomaine: nat,
    ageDebutAnnee: nat, ageDebutMois: nat, ageDebutJour: Option<nat>,
    ageFinAnnee: nat, ageFinMois: nat, ageFinJour: Option<nat>,
    noteBruteMin: nat, noteBruteMax: nat, noteEchelleV: nat)

  /** The field validators of `EchelleVMapping`. */
  predicate ValidEchelleV(r: EchelleVRow) {
    r.ageDebutMois <= 11 && r.ageFinMois <= 11
    && (r.ageDebutJour.Some? ==> r.ageDebutJour.value <= 30)
    && (r.ageFinJour.Some? ==> r.ageFinJour.value <= 30)
    && 1 <= r.noteEchelleV <= 24
  }

  /** A V-scale sum → standard-score row: an age bracket, an optional range per domain
      column, the standard score and the percentile rank text. */
  datatype NoteDomaineRow = NoteDomaineRow(
    trancheAge: string,
    communicationMin: Option<nat>, communicationMax: Option<nat>,
    vieQuotidienneMin: Option<nat>, vieQuotidienneMax: Option<nat>,
    socialisationMin: Option<nat>, socialisationMax: Option<nat>,
    motriciteMin: Option<nat>, motriciteMax: Option<nat>,
    noteStandard: nat, rangPercentile: string)

  predicate AtMost72(v: Option<nat>) { v.Some? ==> v.value <= 72 }

  /** The field validators of `NoteDomaineVMapping`. */
  predicate ValidNoteDomaine(r: NoteDomaineRow) {
    AtMost72(r.communicationMin) && AtMost72(r.communicationMax)
    && AtMost72(r.vieQuotidienneMin) && AtMost72(r.vieQuotidienneMax)
    && AtMost72(r.socialisationMin) && AtMost72(r.socialisationMax)
    && AtMost72(r.motriciteMin) && AtMost72(r.motriciteMax)
    && 20 <= r.noteStandard <= 160
  }

  /** Confidence-interval rows, per subdomain and per domain (by the domain's unique name). */
  datatype IcSousRow = IcSousRow(age: string, niveauConfiance: int, sousDomaine: nat, intervalle: int)
  datatype IcDomaineRow = IcDomaineRow(age: string, niveauConfiance: int, domainName: string,
                                       intervalle: int, noteComposite: Option<int>)

  /** An adaptive-level band over V-scale scores and over standard scores. */
  datatype NiveauRow = NiveauRow(niveau: string, echelleVMin: int, echelleVMax: int,
                                 noteStandardMin: int, noteStandardMax: int)

  /** The five level codes of `NiveauAdaptatif.NIVEAUX`. */
  predicate IsNiveauCode(code: string) {
    code == "faible" || code == "assez_faible" || code == "adapte" || code == "assez_eleve" || code == "eleve"
  }

  /** The display label of an adaptive level (a code outside the choices shows as itself). */
  function NiveauLabel(code: string): (s: string)
    ensures !IsNiveauCode(code) ==> s == code
    ensures IsNiveauCode(code) ==> s != code && s != ""
  {
    if code == "faible" then "Faible"
    else if code == "assez_faible" then "Assez faible"
    else if code == "adapte" then "Adapt\U{e9}"
    else if code == "assez_eleve" then "Assez \U{e9}lev\U{e9}"
    else if code == "eleve" then "\U{c9}lev\U{e9}"
    else code
  }

  /** An age-equivalent row: raw-score range (open-ended when the maximum is null) and
      the age it stands for. */
  datatype AgeEqRow = AgeEqRow(sousDomaine: nat, noteBruteMin: int, noteBruteMax: Option<int>,
                               ageSpecial: Option<string>, ageAnnees: Option<int>, ageMois: Option<int>)

  /** The subdomains, for the lookup by name. */
  datatype SousDomaineRow = SousDomaineRow(id: nat, name: string, domainName: string)
}
