/** The practice-management records: a patient's age in whole years, the sessions left
    in a session pack, the reschedule / cancel / finish transitions of a consultation and
    the extension of an uploaded file. Dates are compared as (year, month, day) triples
    and instants are integers (microseconds). */
module CabinetModels {
  import opened Wrappers
  import opened Text

  /** A calendar date. */
  datatype Date = Date(year: int, month: int, day: int)

  /** `a < b` on dates: compare the year, then the month, then the day. */
  predicate Before(a: Date, b: Date) {
    a.year < b.year || (a.year == b.year && (a.month < b.month || (a.month == b.month && a.day < b.day)))
  }

  /** `Patient.age` on the date `today`: the difference of the years, one less when the
      birthday has not come yet this year. */
  function Age(birth: Date, today: Date): (a: int)
    ensures a == today.year - birth.year || a == today.year - birth.year - 1
    ensures (today.month, today.day) == (birth.month, birth.day) ==> a == today.year - birth.year
  {
    var age := today.year - birth.year;
    if today.month < birth.month || (today.month == birth.month && today.day < birth.day) then age - 1 else age
  }

  /** The `k`-th birthday (anniversary of `birth` in year `birth.year + k`) is on or before `today`. */
  predicate Reached(birth: Date, today: Date, k: int) {
    !Before(today, Date(birth.year + k, birth.month, birth.day))
  }

  /** The age is the number of completed years: its birthday has been reached and the
      next one has not; a birth date not after `today` gives an age of at least 0. */
  lemma AgeIsCompletedYears(birth: Date, today: Date)
    ensures Reached(birth, today, Age(birth, today)) && !Reached(birth, today, Age(birth, today) + 1)
    ensures !Before(today, birth) ==> Age(birth, today) >= 0
  {
  }

  /** A session pack (`PackMindOffice`) and its counters. */
  class PackMindOffice {
    var nombreSeancesTotal: int
    var nombreSeancesUtilisees: int
    var statut: string

    constructor (total: int)
      ensures nombreSeancesTotal == total && nombreSeancesUtilisees == 0 && statut == "actif"
    {
      nombreSeancesTotal := total;
      nombreSeancesUtilisees := 0;
      statut := "actif";
    }

    /** `seances_restantes`: the sessions bought and not yet used. */
    function SeancesRestantes(): (r: int)
      reads this
      ensures r + nombreSeancesUtilisees == nombreSeancesTotal
    {
      nombreSeancesTotal - nombreSeancesUtilisees
    }
  }

  /** The statuses a consultation may take (`STATUT_CONSULTATION_CHOICES`). */
  predicate IsStatutConsultation(s: string) {
    s == "planifie" || s == "reporte" || s == "annule" || s == "termine" || s == "absent"
  }

  /** `if motif:`: a motif replaces the stored one only when it is given and not empty. */
  function MotifAfter(old_motif: Option<string>, motif: Option<string>): (r: Option<string>)
    ensures motif.Some? && motif.value != "" ==> r == motif
    ensures (motif.None? || motif.value == "") ==> r == old_motif
  {
    if motif.Some? && motif.value != "" then motif else old_motif
  }

  /** `historique_reports`: how often the consultation was rescheduled. */
  function HistoriqueReports(n: int): (s: string)
    ensures s == "Aucun report" <==> n == 0
    ensures n != 0 ==> |s| > 9 && s[..9] == "Reportée "
  {
    if n == 0 then "Aucun report"
    else if n == 1 then "Reportée 1 fois"
    else
      var s := "Reportée " + IntToString(n) + " fois";
      assert s[0] == 'R';
      s
  }

  /** The special case for one report agrees with the general wording, so every nonzero
      count is written out as "Reportée <n> fois". */
  lemma HistoriqueReportsWording(n: int)
    ensures n == 0 ==> HistoriqueReports(n) == "Aucun report"
    ensures n != 0 ==> HistoriqueReports(n) == "Reportée " + IntToString(n) + " fois"
  {
    if n == 1 {
      assert IntToString(1) == "1" by {
        assert NatToString(1) == [DigitChar(1)];
      }
    }
  }

  /** The text determines the count: two counts with the same history are equal. */
  lemma HistoriqueReportsInjective(a: int, b: int)
    requires HistoriqueReports(a) == HistoriqueReports(b)
    ensures a == b
  {
    HistoriqueReportsWording(a);
    HistoriqueReportsWording(b);
    if a != 0 && b != 0 {
      var p := "Reportée ";
      var ta := HistoriqueReports(a);
      assert ta == p + IntToString(a) + " fois";
      MiddleOfWording(p, IntToString(a), " fois");
      MiddleOfWording(p, IntToString(b), " fois");
      assert IntToString(a) == IntToString(b);
      ParseIntOfIntToString(a);
      ParseIntOfIntToString(b);
    }
  }

  /** The middle of a three-part text is what lies between the outer parts. */
  lemma MiddleOfWording(p: string, m: string, q: string)
    ensures (p + m + q)[|p|..|p + m + q| - |q|] == m
  {
    assert (p + m + q)[|p|..|p + m + q| - |q|] == m;
  }

  /** `Consultation`, with the fields its transitions change. */
  class Consultation {
    var dateSeance: int
    var dateSeanceOriginale: Option<int>
    var nombreReports: int
    var statutConsultation: string
    var motifReport: Option<string>
    var dureeMinutes: int
    var pack: PackMindOffice?

    constructor (dateSeance: int, dureeMinutes: int, pack: PackMindOffice?)
      ensures this.dateSeance == dateSeance && this.dureeMinutes == dureeMinutes && this.pack == pack
      ensures dateSeanceOriginale == None && nombreReports == 0 && statutConsultation == "planifie"
      ensures motifReport == None && ReportHistoryConsistent()
    {
      this.dateSeance := dateSeance;
      this.dureeMinutes := dureeMinutes;
      this.pack := pack;
      dateSeanceOriginale := None;
      nombreReports := 0;
      statutConsultation := "planifie";
      motifReport := None;
    }

    /** `peut_etre_reporte`: only a planned or already rescheduled consultation can be moved. */
    predicate PeutEtreReporte()
      reads this
      ensures PeutEtreReporte() ==> IsStatutConsultation(statutConsultation) && statutConsultation != "annule"
    {
      statutConsultation == "planifie" || statutConsultation == "reporte"
    }

    /** `est_annule`. */
    predicate EstAnnule()
      reads this
      ensures EstAnnule() ==> IsStatutConsultation(statutConsultation) && !PeutEtreReporte()
    {
      statutConsultation == "annule"
    }

    /** The report counter and the original date agree: no report yet exactly when no
        original date is remembered. */
    predicate ReportHistoryConsistent()
      reads this
    {
      nombreReports >= 0 && (nombreReports == 0 <==> dateSeanceOriginale.None?)
    }

    /** `reporter`: the first reschedule remembers the original date; every reschedule
        moves the date, counts one more report, marks the consultation 'reporte' and
        replaces the motif when one is given. */
    method Reporter(nouvelleDate: int, motif: Option<string>) returns (ok: bool)
      modifies this`dateSeanceOriginale, this`dateSeance, this`nombreReports, this`statutConsultation,
               this`motifReport
      ensures ok
      ensures dateSeanceOriginale == if old(nombreReports) == 0 then Some(old(dateSeance)) else old(dateSeanceOriginale)
      ensures dateSeance == nouvelleDate && nombreReports == old(nombreReports) + 1
      ensures statutConsultation == "reporte" && IsStatutConsultation(statutConsultation) && PeutEtreReporte()
      ensures motifReport == MotifAfter(old(motifReport), motif)
      ensures old(ReportHistoryConsistent()) ==> ReportHistoryConsistent()
    {
      if nombreReports == 0 {
        dateSeanceOriginale := Some(dateSeance);
      }
      dateSeance := nouvelleDate;
      nombreReports := nombreReports + 1;
      statutConsultation := "reporte";
      if motif.Some? && motif.value != "" {
        motifReport := motif;
      }
      ok := true;
    }

    /** `annuler`: mark the consultation 'annule', replacing the motif when one is given. */
    method Annuler(motif: Option<string>) returns (ok: bool)
      modifies this`statutConsultation, this`motifReport
      ensures ok
      ensures statutConsultation == "annule" && IsStatutConsultation(statutConsultation)
      ensures EstAnnule() && !PeutEtreReporte()
      ensures motifReport == MotifAfter(old(motifReport), motif)
    {
      statutConsultation := "annule";
      if motif.Some? && motif.value != "" {
        motifReport := motif;
      }
      ok := true;
    }

    /** `marquer_termine`: mark the consultation 'termine'. */
    method MarquerTermine() returns (ok: bool)
      modifies this`statutConsultation
      ensures ok
      ensures statutConsultation == "termine" && IsStatutConsultation(statutConsultation) && !PeutEtreReporte()
    {
      statutConsultation := "termine";
      ok := true;
    }
  }

  // ----- Uploaded files -----

  /** `s.rfind(c)`: the index of the last `c`, or −1. */
  function RFind(s: string, c: char): (r: int)
    ensures -1 <= r < |s|
    ensures r >= 0 ==> s[r] == c
    decreases |s|
  {
    if s == [] then -1
    else if s[|s| - 1] == c then |s| - 1
    else RFind(s[..|s| - 1], c)
  }

  /** No occurrence of `c` lies after `RFind(s, c)`. */
  lemma {:induction false} RFindIsLast(s: string, c: char)
    ensures forall i :: RFind(s, c) < i < |s| ==> s[i] != c
    decreases |s|
  {
    if s != [] && s[|s| - 1] != c {
      RFindIsLast(s[..|s| - 1], c);
    }
  }

  predicate OnlyDots(s: string) {
    forall i :: 0 <= i < |s| ==> s[i] == '.'
  }

  /** `os.path.splitext(p)[1]` for '/'-separated paths: from the last dot of the file
      name on, unless the name holds nothing but dots before it (a hidden file). */
  function SplitExtSuffix(p: string): string {
    var sep := RFind(p, '/');
    var dot := RFind(p, '.');
    if dot > sep && !OnlyDots(p[sep + 1..dot]) then p[dot..] else ""
  }

  /** `PatientFichier.extension`: the suffix, lower-cased, without its dot. */
  function Extension(name: string): (e: string)
    ensures '.' !in e
    ensures SplitExtSuffix(name) == "" ==> e == ""
  {
    ReplaceRemovesChar(LowerAscii(SplitExtSuffix(name)), '.');
    Replace(LowerAscii(SplitExtSuffix(name)), ".", "")
  }

  /** `est_image`: the extension is one of the six image extensions. */
  predicate EstImage(name: string)
    ensures EstImage(name) ==> SplitExtSuffix(name) != "" && |Extension(name)| >= 3
  {
    Extension(name) in ["jpg", "jpeg", "png", "gif", "bmp", "tiff"]
  }

  /** A file named `stem.ext` in a directory (the stem a file name with some character
      other than a dot, `ext` free of dots and slashes) has extension `ext` in lower case. */
  lemma ExtensionOfName(dir: string, stem: string, ext: string)
    requires '/' !in stem && !OnlyDots(stem)
    requires '.' !in ext && '/' !in ext
    ensures Extension(dir + "/" + (stem + "." + ext)) == LowerAscii(ext)
    ensures EstImage(dir + "/" + (stem + "." + ext)) <==> LowerAscii(ext) in ["jpg", "jpeg", "png", "gif", "bmp", "tiff"]
  {
    var p := dir + "/" + (stem + "." + ext);
    SuffixOfName(dir, stem, ext);
    var e := LowerAscii(ext);
    assert LowerAscii("." + ext) == "." + e;
    ReplaceDotPrefix(e);
    assert Extension(p) == Replace(LowerAscii(SplitExtSuffix(p)), ".", "");
  }

  /** The suffix `splitext` finds in `dir/stem.ext`. */
  lemma SuffixOfName(dir: string, stem: string, ext: string)
    requires '/' !in stem && !OnlyDots(stem)
    requires '.' !in ext && '/' !in ext
    ensures SplitExtSuffix(dir + "/" + (stem + "." + ext)) == "." + ext
  {
    var p := dir + "/" + (stem + "." + ext);
    var dot := |dir| + 1 + |stem|;
    RFindBefore(dir, '/', stem + "." + ext);
    ThreeParts(dir + "/", stem, ".", ext);
    RFindBefore(dir + "/" + stem, '.', ext);
    assert p[|dir| + 1..dot] == stem;
    assert p[dot..] == "." + ext;
  }

  lemma ThreeParts(a: string, b: string, c: string, d: string)
    ensures a + (b + c + d) == a + b + c + d
  {
  }

  /** The last `c` of `a + [c] + b` is the one between them when `b` has none. */
  lemma {:induction false} RFindBefore(a: string, c: char, b: string)
    requires c !in b
    ensures RFind(a + [c] + b, c) == |a|
    decreases |b|
  {
    var s := a + [c] + b;
    if b == [] {
      assert s[|s| - 1] == c;
    } else {
      assert s[|s| - 1] == b[|b| - 1];
      assert s[..|s| - 1] == a + [c] + b[..|b| - 1];
      RFindBefore(a, c, b[..|b| - 1]);
    }
  }

  /** When the last `c` of `s` is at `k`, `RFind` finds it there. */
  lemma {:induction false} RFindAt(s: string, c: char, k: int)
    requires 0 <= k < |s| && s[k] == c
    requires forall i :: k < i < |s| ==> s[i] != c
    ensures RFind(s, c) == k
    decreases |s|
  {
    if |s| - 1 != k {
      RFindAt(s[..|s| - 1], c, k);
    }
  }

  /** Removing the dots of "." + `e` leaves `e` when `e` has none. */
  lemma ReplaceDotPrefix(e: string)
    requires '.' !in e
    ensures Replace("." + e, ".", "") == e
  {
    assert ("." + e)[..1] == ".";
    assert ("." + e)[1..] == e;
    ReplaceAbsentChar(e, '.', "");
  }

  /** A name without a dot has no extension and is not an image. */
  lemma NoDotNoExtension(name: string)
    requires '.' !in name
    ensures Extension(name) == "" && !EstImage(name)
  {
    assert RFind(name, '.') == -1;
    assert SplitExtSuffix(name) == "";
    assert LowerAscii("") == "";
  }
}
