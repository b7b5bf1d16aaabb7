/** Norm-table lookups of the Vineland scoring view and the assembly of the complete
    score sheet: raw score → V-scale score per subdomain (by subdomain, raw-score range
    and age window), V-scale sum → standard score per domain (by age bracket and the
    domain's own column range), with confidence intervals, adaptive levels and age
    equivalents. */
module VinelandNorms {
  import opened Wrappers
  import opened Text
  import opened Lookup
  import opened VinelandRecords
  import opened VinelandRaw
  import VinelandAge

  /** The chronological age (years, months, days) at the reference date. */
  datatype AgeInfo = AgeInfo(years: int, months: int, days: int)

  /** The age-window test of `find_echelle_v_mapping` as written: a day-precision branch
      when both day bounds are stored, a year/month branch otherwise. */
  predicate EchelleWindowAsWritten(m: EchelleVRow, age: AgeInfo) {
    if m.ageDebutJour.Some? && m.ageFinJour.Some? then
      (m.ageDebutAnnee < age.years
       || (m.ageDebutAnnee == age.years && m.ageDebutMois <= age.months)
       || (m.ageDebutAnnee == age.years && m.ageDebutMois == age.months && m.ageDebutJour.value <= age.days))
      && (m.ageFinAnnee > age.years
          || (m.ageFinAnnee == age.years && m.ageFinMois >= age.months)
          || (m.ageFinAnnee == age.years && m.ageFinMois == age.months && m.ageFinJour.value >= age.days))
    else
      (m.ageDebutAnnee < age.years || (m.ageDebutAnnee == age.years && m.ageDebutMois <= age.months))
      && (m.ageFinAnnee > age.years || (m.ageFinAnnee == age.years && m.ageFinMois >= age.months))
  }

  /** Lexicographic order on (years, months). */
  predicate YearMonthLe(y1: int, m1: int, y2: int, m2: int) {
    y1 < y2 || (y1 == y2 && m1 <= m2)
  }

  /** Reference window: (years, months) lies between the row's start and end, lexicographically. */
  predicate InYearMonthWindow(m: EchelleVRow, age: AgeInfo) {
    YearMonthLe(m.ageDebutAnnee, m.ageDebutMois, age.years, age.months)
    && YearMonthLe(age.years, age.months, m.ageFinAnnee, m.ageFinMois)
  }

  /** Each day disjunct implies the month disjunct before it, so the day bounds never
      change whether a row matches. */
  lemma DaysNeverDecide(m: EchelleVRow, age: AgeInfo)
    ensures EchelleWindowAsWritten(m, age) <==> InYearMonthWindow(m, age)
  {
  }

  predicate EchelleMatches(m: EchelleVRow, sd: nat, noteBrute: int, age: AgeInfo) {
    m.sousDomaine == sd && m.noteBruteMin <= noteBrute <= m.noteBruteMax && EchelleWindowAsWritten(m, age)
  }

  /** `find_echelle_v_mapping`: the first row of the subdomain whose raw-score range holds
      the raw score and whose window holds the age, or `None`. */
  function FindEchelleV(rows: seq<EchelleVRow>, sd: nat, noteBrute: int, age: AgeInfo): (r: Option<EchelleVRow>)
    ensures r.Some? ==> r.value in rows && r.value.sousDomaine == sd
                        && r.value.noteBruteMin <= noteBrute <= r.value.noteBruteMax
                        && InYearMonthWindow(r.value, age)
    ensures r.Some? ==>
      exists i :: 0 <= i < |rows| && rows[i] == r.value && forall j :: 0 <= j < i ==> !EchelleMatches(rows[j], sd, noteBrute, age)
    ensures r.None? <==>
      forall m :: m in rows ==> !(m.sousDomaine == sd && m.noteBruteMin <= noteBrute <= m.noteBruteMax && InYearMonthWindow(m, age))
  {
    First(rows, (m: EchelleVRow) => EchelleMatches(m, sd, noteBrute, age))
  }

  /** The four domain columns of the standard-score table. */
  datatype Column = Communication | VieQuotidienne | Socialisation | Motricite

  /** The column a domain name selects: the first of the four domain words it contains. */
  function DomainColumn(name: string): Option<Column> {
    if Contains(name, "Communication") then Some(Communication)
    else if Contains(name, "Vie quotidienne") then Some(VieQuotidienne)
    else if Contains(name, "Socialisation") then Some(Socialisation)
    else if Contains(name, "Motricit\U{e9}") then Some(Motricite)
    else None
  }

  function ColumnRange(r: NoteDomaineRow, c: Column): (Option<nat>, Option<nat>) {
    match c
    case Communication => (r.communicationMin, r.communicationMax)
    case VieQuotidienne => (r.vieQuotidienneMin, r.vieQuotidienneMax)
    case Socialisation => (r.socialisationMin, r.socialisationMax)
    case Motricite => (r.motriciteMin, r.motriciteMax)
  }

  /** `col_min <= sum <= col_max`; a null bound matches nothing. */
  predicate InColumn(r: NoteDomaineRow, c: Column, sum: int) {
    var (lo, hi) := ColumnRange(r, c);
    lo.Some? && lo.value <= sum && hi.Some? && sum <= hi.value
  }

  /** The filter of `get_domain_mapping`: the bracket, and the column range when the
      domain name selects a column (no column filter otherwise). */
  predicate DomainRowMatches(r: NoteDomaineRow, name: string, sum: int, trancheAge: Option<string>) {
    trancheAge == Some(r.trancheAge)
    && (DomainColumn(name).Some? ==> InColumn(r, DomainColumn(name).value, sum))
  }

  /** `get_domain_mapping`. An absent bracket (age below one year) matches no row. */
  function GetDomainMapping(rows: seq<NoteDomaineRow>, name: string, sum: int, trancheAge: Option<string>)
    : (r: Option<NoteDomaineRow>)
    ensures r.Some? ==> r.value in rows && trancheAge == Some(r.value.trancheAge)
    ensures r.Some? && DomainColumn(name).Some? ==> InColumn(r.value, DomainColumn(name).value, sum)
    ensures r.Some? ==>
      exists i :: 0 <= i < |rows| && rows[i] == r.value && forall j :: 0 <= j < i ==> !DomainRowMatches(rows[j], name, sum, trancheAge)
    ensures r.None? <==> forall x :: x in rows ==> !DomainRowMatches(x, name, sum, trancheAge)
    ensures trancheAge.None? ==> r.None?
  {
    First(rows, (x: NoteDomaineRow) => DomainRowMatches(x, name, sum, trancheAge))
  }

  lemma {:induction false} ContainsAtStart(s: string, sub: string)
    requires |sub| <= |s| && s[..|sub|] == sub
    ensures Contains(s, sub)
  {
  }

  /** A string that lacks the first character of `sub` does not contain `sub`. */
  lemma {:induction false} AbsentInitial(s: string, sub: string)
    requires sub != [] && sub[0] !in s
    ensures !Contains(s, sub)
    decreases |s|
  {
    if |sub| <= |s| {
      assert s[..|sub|][0] == s[0];
      AbsentInitial(s[1..], sub);
    }
  }

  /** The four domain names select their own columns. */
  lemma DomainColumnsOfDomainNames()
    ensures DomainColumn("Communication") == Some(Communication)
    ensures DomainColumn("Vie quotidienne") == Some(VieQuotidienne)
    ensures DomainColumn("Socialisation") == Some(Socialisation)
    ensures DomainColumn("Motricit\U{e9}") == Some(Motricite)
  {
    ContainsAtStart("Communication", "Communication");
    VieQuotidienneColumn();
    SocialisationColumn();
    MotriciteColumn();
  }

  lemma VieQuotidienneColumn()
    ensures DomainColumn("Vie quotidienne") == Some(VieQuotidienne)
  {
    ContainsAtStart("Vie quotidienne", "Vie quotidienne");
    AbsentInitial("Vie quotidienne", "Communication");
  }

  lemma SocialisationColumn()
    ensures DomainColumn("Socialisation") == Some(Socialisation)
  {
    ContainsAtStart("Socialisation", "Socialisation");
    AbsentInitial("Socialisation", "Communication");
    AbsentInitial("Socialisation", "Vie quotidienne");
  }

  lemma MotriciteColumn()
    ensures DomainColumn("Motricit\U{e9}") == Some(Motricite)
  {
    ContainsAtStart("Motricit\U{e9}", "Motricit\U{e9}");
    AbsentInitial("Motricit\U{e9}", "Communication");
    AbsentInitial("Motricit\U{e9}", "Vie quotidienne");
    AbsentInitial("Motricit\U{e9}", "Socialisation");
  }

  /** All norm tables the sheet reads, each in its table ordering. */
  datatype NormTables = NormTables(
    sousDomaines: seq<SousDomaineRow>,
    echelle: seq<EchelleVRow>,
    domaine: seq<NoteDomaineRow>,
    icSous: seq<IcSousRow>,
    icDomaine: seq<IcDomaineRow>,
    niveaux: seq<NiveauRow>,
    ageEq: seq<AgeEqRow>)

  /** `SousDomain.objects.get(name=...)`: exactly one subdomain carries the name, or the
      lookup raises. */
  function SousDomaineByName(rows: seq<SousDomaineRow>, name: string): (r: Result<nat>)
    ensures r.Ok? <==> |NamedRows(rows, name)| == 1
    ensures r.Ok? ==> exists x :: x in rows && x.name == name && x.id == r.value
  {
    var named := NamedRows(rows, name);
    if |named| == 1 then Ok(named[0].id)
    else if named == [] then Err("SousDomain matching query does not exist.")
    else Err("get() returned more than one SousDomain")
  }

  function NamedRows(rows: seq<SousDomaineRow>, name: string): (named: seq<SousDomaineRow>)
    ensures forall x :: x in named ==> x in rows && x.name == name
  {
    if rows == [] then []
    else NamedRows(rows[..|rows| - 1], name) + (if rows[|rows| - 1].name == name then [rows[|rows| - 1]] else [])
  }

  function FindIcSous(rows: seq<IcSousRow>, age: Option<string>, niveau: int, sd: nat): (r: Option<IcSousRow>)
    ensures r.Some? ==> r.value in rows && age == Some(r.value.age) && r.value.niveauConfiance == niveau && r.value.sousDomaine == sd
    ensures r.None? <==> forall x :: x in rows ==> !(age == Some(x.age) && x.niveauConfiance == niveau && x.sousDomaine == sd)
  {
    First(rows, (x: IcSousRow) => age == Some(x.age) && x.niveauConfiance == niveau && x.sousDomaine == sd)
  }

  function FindIcDomaine(rows: seq<IcDomaineRow>, age: Option<string>, niveau: int, name: string): (r: Option<IcDomaineRow>)
    ensures r.Some? ==> r.value in rows && age == Some(r.value.age) && r.value.niveauConfiance == niveau && r.value.domainName == name
    ensures r.None? <==> forall x :: x in rows ==> !(age == Some(x.age) && x.niveauConfiance == niveau && x.domainName == name)
  {
    First(rows, (x: IcDomaineRow) => age == Some(x.age) && x.niveauConfiance == niveau && x.domainName == name)
  }

  /** The adaptive level of a V-scale score. */
  function NiveauOfEchelleV(rows: seq<NiveauRow>, v: int): (r: Option<NiveauRow>)
    ensures r.Some? ==> r.value in rows && r.value.echelleVMin <= v <= r.value.echelleVMax
    ensures r.None? <==> forall x :: x in rows ==> !(x.echelleVMin <= v <= x.echelleVMax)
  {
    First(rows, (x: NiveauRow) => x.echelleVMin <= v <= x.echelleVMax)
  }

  /** The adaptive level of a standard score. */
  function NiveauOfNoteStandard(rows: seq<NiveauRow>, ns: int): (r: Option<NiveauRow>)
    ensures r.Some? ==> r.value in rows && r.value.noteStandardMin <= ns <= r.value.noteStandardMax
    ensures r.None? <==> forall x :: x in rows ==> !(x.noteStandardMin <= ns <= x.noteStandardMax)
  {
    First(rows, (x: NiveauRow) => x.noteStandardMin <= ns <= x.noteStandardMax)
  }

  /** The age-equivalent filter: raw score at least the minimum, and either no maximum and
      the raw score equal to the minimum, or a maximum at least the raw score. */
  predicate AgeEqMatches(x: AgeEqRow, sd: nat, noteBrute: int) {
    x.sousDomaine == sd && x.noteBruteMin <= noteBrute
    && ((x.noteBruteMax.None? && x.noteBruteMin == noteBrute) || (x.noteBruteMax.Some? && x.noteBruteMax.value >= noteBrute))
  }

  function FindAgeEquivalent(rows: seq<AgeEqRow>, sd: nat, noteBrute: int): (r: Option<AgeEqRow>)
    ensures r.Some? ==> r.value in rows && r.value.sousDomaine == sd
    ensures r.Some? && r.value.noteBruteMax.None? ==> r.value.noteBruteMin == noteBrute
    ensures r.Some? && r.value.noteBruteMax.Some? ==> r.value.noteBruteMin <= noteBrute <= r.value.noteBruteMax.value
    ensures r.None? <==> forall x :: x in rows ==> !AgeEqMatches(x, sd, noteBrute)
  {
    First(rows, (x: AgeEqRow) => AgeEqMatches(x, sd, noteBrute))
  }

  /** One subdomain line of the sheet. `intervalle` is absent when no confidence level was
      asked for, and present-but-null when the interval row is missing; the adaptive
      level and the age equivalent are absent when their rows are missing. */
  datatype SousDomaineResult = SousDomaineResult(
    name: string, noteBrute: int, noteEchelleV: nat,
    intervalle: Option<Option<int>>, niveauAdaptatif: Option<string>, ageEquivalent: Option<string>)

  /** The domain score: V-scale sum, standard score, percentile rank text, the domain
      interval and composite score when that row exists, and the adaptive level. */
  datatype DomainScore = DomainScore(
    sommeNotesV: nat, noteStandard: nat, rangPercentile: string,
    intervalle: Option<(int, Option<int>)>, niveauAdaptatif: Option<string>)

  datatype DomainResult = DomainResult(
    name: string, nameSlug: string, niveauConfiance: int,
    sousDomaines: seq<SousDomaineResult>, domainScore: Option<DomainScore>)

  /** The settings every lookup of one sheet shares. */
  datatype Context = Context(age: AgeInfo, trancheAge: Option<string>, trancheIntervalle: Option<string>,
                             niveauConfiance: int)

  /** The line of a subdomain whose raw score maps to a V-scale score; `None` when no
      V-scale row matches (the subdomain is then left out of the sheet). */
  function SousDomaineLine(t: NormTables, ctx: Context, sd: nat, name: string, noteBrute: int)
    : Option<SousDomaineResult>
  {
    match FindEchelleV(t.echelle, sd, noteBrute, ctx.age)
    case None => None
    case Some(ev) =>
      var ic := if ctx.niveauConfiance != 0 then
          Some(match FindIcSous(t.icSous, ctx.trancheIntervalle, ctx.niveauConfiance, sd)
               case Some(x) => Some(x.intervalle)
               case None => None)
        else None;
      var niveau := match NiveauOfEchelleV(t.niveaux, ev.noteEchelleV)
        case Some(n) => Some(NiveauLabel(n.niveau))
        case None => None;
      var ageEq := match FindAgeEquivalent(t.ageEq, sd, noteBrute)
        case Some(a) => Some(AgeEquivalentDisplay(a.ageSpecial, a.ageAnnees, a.ageMois))
        case None => None;
      Some(SousDomaineResult(name, noteBrute, ev.noteEchelleV, ic, niveau, ageEq))
  }

  /** The subdomain lines of one domain, in subdomain order; the first failing name
      lookup aborts the sheet. */
  function SousDomaineLines(t: NormTables, ctx: Context, subs: seq<(string, SubdomainScore)>)
    : Result<seq<SousDomaineResult>>
  {
    if subs == [] then Ok([])
    else
      match SousDomaineLines(t, ctx, subs[..|subs| - 1])
      case Err(e) => Err(e)
      case Ok(lines) =>
        var (name, score) := subs[|subs| - 1];
        match SousDomaineByName(t.sousDomaines, name)
        case Err(e) => Err(e)
        case Ok(sd) =>
          match SousDomaineLine(t, ctx, sd, name, score.noteBrute)
          case None => Ok(lines)
          case Some(line) => Ok(lines + [line])
  }

  /** The sum of the V-scale scores of the listed subdomains. */
  function VSum(lines: seq<SousDomaineResult>): nat {
    if lines == [] then 0 else VSum(lines[..|lines| - 1]) + lines[|lines| - 1].noteEchelleV
  }

  function DomainScoreOf(t: NormTables, ctx: Context, name: string, sum: nat): Option<DomainScore> {
    match GetDomainMapping(t.domaine, name, sum, ctx.trancheAge)
    case None => None
    case Some(dm) =>
      var ic := if ctx.niveauConfiance != 0 then
          match FindIcDomaine(t.icDomaine, ctx.trancheIntervalle, ctx.niveauConfiance, name)
          case Some(x) => Some((x.intervalle, x.noteComposite))
          case None => None
        else None;
      var niveau := match NiveauOfNoteStandard(t.niveaux, dm.noteStandard)
        case Some(n) => Some(NiveauLabel(n.niveau))
        case None => None;
      Some(DomainScore(sum, dm.noteStandard, dm.rangPercentile, ic, niveau))
  }

  const ComportementsProblematiques: string := "Comportements probl\U{e9}matiques"

  /** The sheet: one block per scored domain, the problem-behaviour domain skipped. */
  function CompleteScores(t: NormTables, ctx: Context, scores: seq<DomainRawScores>): Result<seq<DomainResult>> {
    if scores == [] then Ok([])
    else
      match CompleteScores(t, ctx, scores[..|scores| - 1])
      case Err(e) => Err(e)
      case Ok(done) =>
        var d := scores[|scores| - 1];
        if d.name == ComportementsProblematiques then Ok(done)
        else
          match SousDomaineLines(t, ctx, d.subdomains)
          case Err(e) => Err(e)
          case Ok(lines) =>
            Ok(done + [DomainResult(d.name, Replace(d.name, " ", "_"), ctx.niveauConfiance, lines,
                                    DomainScoreOf(t, ctx, d.name, VSum(lines)))])
  }

  /** `calculate_domain_scores`: walk the raw scores domain by domain, accumulating the
      V-scale sum of each domain over the subdomains that map to a V-scale score. */
  method CalculateDomainScores(t: NormTables, ctx: Context, scores: seq<DomainRawScores>)
    returns (r: Result<seq<DomainResult>>)
    ensures r == CompleteScores(t, ctx, scores)
  {
    var complete: seq<DomainResult> := [];
    var d := 0;
    while d < |scores|
      invariant 0 <= d <= |scores|
      invariant CompleteScores(t, ctx, scores[..d]) == Ok(complete)
    {
      assert scores[..d + 1][..d] == scores[..d];
      var dom := scores[d];
      if dom.name != ComportementsProblematiques {
        var lines, sum := ScoreSubdomains(t, ctx, dom.subdomains);
        if lines.Err? {
          assert CompleteScores(t, ctx, scores[..d + 1]) == Err(lines.message);
          SheetErrorPersists(t, ctx, scores, d + 1);
          return Err(lines.message);
        }
        complete := complete + [DomainResult(dom.name, Replace(dom.name, " ", "_"), ctx.niveauConfiance,
                                             lines.value, DomainScoreOf(t, ctx, dom.name, sum))];
      }
      d := d + 1;
    }
    assert scores[..|scores|] == scores;
    return Ok(complete);
  }

  /** The inner loop of `calculate_domain_scores` over one domain's subdomains: the lines
      of the sheet and the running V-scale sum. */
  method ScoreSubdomains(t: NormTables, ctx: Context, subs: seq<(string, SubdomainScore)>)
    returns (r: Result<seq<SousDomaineResult>>, sum: nat)
    ensures r == SousDomaineLines(t, ctx, subs)
    ensures r.Ok? ==> sum == VSum(r.value)
  {
    var lines: seq<SousDomaineResult> := [];
    sum := 0;
    var k := 0;
    while k < |subs|
      invariant 0 <= k <= |subs|
      invariant SousDomaineLines(t, ctx, subs[..k]) == Ok(lines)
      invariant sum == VSum(lines)
    {
      var name := subs[k].0;
      var sdr := SousDomaineByName(t.sousDomaines, name);
      if sdr.Err? {
        LinesStopAt(t, ctx, subs, k, lines);
        LinesErrorPersists(t, ctx, subs, k + 1);
        return Err(sdr.message), sum;
      }
      var line := SousDomaineLine(t, ctx, sdr.value, name, subs[k].1.noteBrute);
      LinesStep(t, ctx, subs, k, lines, sdr.value, line);
      if line.Some? {
        VSumSnoc(lines, line.value);
        sum := sum + line.value.noteEchelleV;
        lines := lines + [line.value];
      }
      assert SousDomaineLines(t, ctx, subs[..k + 1]) == Ok(lines);
      k := k + 1;
    }
    assert subs[..|subs|] == subs;
    return Ok(lines), sum;
  }

  lemma VSumSnoc(lines: seq<SousDomaineResult>, line: SousDomaineResult)
    ensures VSum(lines + [line]) == VSum(lines) + line.noteEchelleV
  {
    assert (lines + [line])[..|lines|] == lines;
  }

  /** One subdomain more: its line, if it has one, is appended. */
  lemma LinesStep(t: NormTables, ctx: Context, subs: seq<(string, SubdomainScore)>, k: nat,
                  lines: seq<SousDomaineResult>, sd: nat, line: Option<SousDomaineResult>)
    requires k < |subs| && SousDomaineLines(t, ctx, subs[..k]) == Ok(lines)
    requires SousDomaineByName(t.sousDomaines, subs[k].0) == Ok(sd)
    requires line == SousDomaineLine(t, ctx, sd, subs[k].0, subs[k].1.noteBrute)
    ensures SousDomaineLines(t, ctx, subs[..k + 1]) == if line.Some? then Ok(lines + [line.value]) else Ok(lines)
  {
    assert subs[..k + 1][..k] == subs[..k];
  }

  /** A subdomain whose name is unknown aborts the lines. */
  lemma LinesStopAt(t: NormTables, ctx: Context, subs: seq<(string, SubdomainScore)>, k: nat,
                    lines: seq<SousDomaineResult>)
    requires k < |subs| && SousDomaineLines(t, ctx, subs[..k]) == Ok(lines)
    requires SousDomaineByName(t.sousDomaines, subs[k].0).Err?
    ensures SousDomaineLines(t, ctx, subs[..k + 1]) == Err(SousDomaineByName(t.sousDomaines, subs[k].0).message)
  {
    assert subs[..k + 1][..k] == subs[..k];
  }

  lemma {:induction false} LinesErrorPersists(t: NormTables, ctx: Context, subs: seq<(string, SubdomainScore)>, k: nat)
    requires k <= |subs| && SousDomaineLines(t, ctx, subs[..k]).Err?
    ensures SousDomaineLines(t, ctx, subs) == SousDomaineLines(t, ctx, subs[..k])
    decreases |subs| - k
  {
    if k < |subs| {
      assert subs[..k + 1][..k] == subs[..k];
      LinesErrorPersists(t, ctx, subs, k + 1);
    } else {
      assert subs[..k] == subs;
    }
  }

  lemma {:induction false} SheetErrorPersists(t: NormTables, ctx: Context, scores: seq<DomainRawScores>, k: nat)
    requires k <= |scores| && CompleteScores(t, ctx, scores[..k]).Err?
    ensures CompleteScores(t, ctx, scores) == CompleteScores(t, ctx, scores[..k])
    decreases |scores| - k
  {
    if k < |scores| {
      assert scores[..k + 1][..k] == scores[..k];
      SheetErrorPersists(t, ctx, scores, k + 1);
    } else {
      assert scores[..k] == scores;
    }
  }

  /** `name.replace(' ', '_')`: same length, every space turned into '_', no space left. */
  lemma SlugReplacesSpaces(name: string)
    ensures |Replace(name, " ", "_")| == |name|
    ensures forall i :: 0 <= i < |name| ==> Replace(name, " ", "_")[i] == (if name[i] == ' ' then '_' else name[i])
    ensures ' ' !in Replace(name, " ", "_")
  {
    ReplaceIsCharSubst(name, ' ', "_");
    CharSubstOneForOne(name, ' ', '_');
  }

  /** A V-scale score listed on the sheet comes from a row of the V-scale table whose
      raw-score range holds the subdomain's raw score and whose window holds the age. */
  predicate LineJustified(t: NormTables, ctx: Context, line: SousDomaineResult) {
    exists row :: row in t.echelle && row.noteEchelleV == line.noteEchelleV
                  && row.noteBruteMin <= line.noteBrute <= row.noteBruteMax
                  && InYearMonthWindow(row, ctx.age)
  }

  lemma {:induction false} LinesComeFromRows(t: NormTables, ctx: Context, subs: seq<(string, SubdomainScore)>)
    requires SousDomaineLines(t, ctx, subs).Ok?
    ensures |SousDomaineLines(t, ctx, subs).value| <= |subs|
    ensures forall line :: line in SousDomaineLines(t, ctx, subs).value ==> LineJustified(t, ctx, line)
    decreases |subs|
  {
    if subs != [] {
      var init := subs[..|subs| - 1];
      LinesComeFromRows(t, ctx, init);
      var (name, score) := subs[|subs| - 1];
      var sd := SousDomaineByName(t.sousDomaines, name).value;
      var ev := FindEchelleV(t.echelle, sd, score.noteBrute, ctx.age);
      if ev.Some? {
        var line := SousDomaineLine(t, ctx, sd, name, score.noteBrute).value;
        assert line.noteEchelleV == ev.value.noteEchelleV && line.noteBrute == score.noteBrute;
        assert LineJustified(t, ctx, line);
      }
    }
  }

  lemma {:induction false} VSumBounds(lines: seq<SousDomaineResult>)
    requires forall i :: 0 <= i < |lines| ==> 1 <= lines[i].noteEchelleV <= 24
    ensures |lines| <= VSum(lines) <= 24 * |lines|
    decreases |lines|
  {
    if lines != [] {
      VSumBounds(lines[..|lines| - 1]);
    }
  }

  /** With a validated V-scale table, a domain's V-scale sum is at least the number of
      subdomains that mapped and at most 24 per subdomain of the domain. */
  lemma DomainSumBounds(t: NormTables, ctx: Context, subs: seq<(string, SubdomainScore)>)
    requires forall row :: row in t.echelle ==> ValidEchelleV(row)
    requires SousDomaineLines(t, ctx, subs).Ok?
    ensures var lines := SousDomaineLines(t, ctx, subs).value;
      |lines| <= VSum(lines) <= 24 * |subs|
  {
    var lines := SousDomaineLines(t, ctx, subs).value;
    LinesComeFromRows(t, ctx, subs);
    forall i | 0 <= i < |lines| ensures 1 <= lines[i].noteEchelleV <= 24 {
      assert LineJustified(t, ctx, lines[i]);
    }
    VSumBounds(lines);
  }

  /** With a validated standard-score table, a domain score carries a standard score of 20
      to 160, and a domain whose name selects a column finds no row for a sum above 72. */
  lemma DomainStandardScoreBounds(t: NormTables, ctx: Context, name: string, sum: nat)
    requires forall row :: row in t.domaine ==> ValidNoteDomaine(row)
    ensures DomainScoreOf(t, ctx, name, sum).Some? ==> 20 <= DomainScoreOf(t, ctx, name, sum).value.noteStandard <= 160
    ensures DomainColumn(name).Some? && sum > 72 ==> DomainScoreOf(t, ctx, name, sum).None?
  {
    var m := GetDomainMapping(t.domaine, name, sum, ctx.trancheAge);
    if m.Some? {
      assert ValidNoteDomaine(m.value);
    }
    if DomainColumn(name).Some? && sum > 72 {
      forall x | x in t.domaine ensures !DomainRowMatches(x, name, sum, ctx.trancheAge) {
        assert ValidNoteDomaine(x);
      }
    }
  }

  /** The domains the sheet scores: all but the problem-behaviour domain, in order. */
  function ScoredDomains(scores: seq<DomainRawScores>): (kept: seq<DomainRawScores>)
    ensures forall d :: d in kept ==> d in scores && d.name != ComportementsProblematiques
  {
    if scores == [] then []
    else
      var d := scores[|scores| - 1];
      ScoredDomains(scores[..|scores| - 1]) + (if d.name == ComportementsProblematiques then [] else [d])
  }

  /** The sheet lists the scored domains in order, each with its subdomain lines; its
      domain score, present exactly when a standard-score row matches, carries the sum of
      the V-scale scores of the listed lines. */
  lemma {:induction false} SheetShape(t: NormTables, ctx: Context, scores: seq<DomainRawScores>)
    requires CompleteScores(t, ctx, scores).Ok?
    ensures var res := CompleteScores(t, ctx, scores).value;
      |res| == |ScoredDomains(scores)| &&
      forall i :: 0 <= i < |res| ==>
        var d := ScoredDomains(scores)[i];
        res[i].name == d.name
        && SousDomaineLines(t, ctx, d.subdomains) == Ok(res[i].sousDomaines)
        && (res[i].domainScore.Some? <==>
              GetDomainMapping(t.domaine, d.name, VSum(res[i].sousDomaines), ctx.trancheAge).Some?)
        && (res[i].domainScore.Some? ==> res[i].domainScore.value.sommeNotesV == VSum(res[i].sousDomaines))
    decreases |scores|
  {
    if scores != [] {
      var init := scores[..|scores| - 1];
      SheetShape(t, ctx, init);
      var done := CompleteScores(t, ctx, init).value;
      var d := scores[|scores| - 1];
      if d.name == ComportementsProblematiques {
        assert ScoredDomains(scores) == ScoredDomains(init);
      } else {
        var lines := SousDomaineLines(t, ctx, d.subdomains).value;
        assert CompleteScores(t, ctx, scores).value
          == done + [DomainResult(d.name, Replace(d.name, " ", "_"), ctx.niveauConfiance, lines,
                                  DomainScoreOf(t, ctx, d.name, VSum(lines)))];
        assert ScoredDomains(scores) == ScoredDomains(init) + [d];
      }
    }
  }

  /** A worked sheet: a child of 6 years 3 months, one Communication subdomain with raw
      score 42, a V-scale row for ages 6;0;0-6;11;30 and raw scores 40-45 giving 15, a
      "3-6" standard-score row whose communication range 10-20 gives 95, rank "37", 90%
      interval rows for bracket "6" (4 for the subdomain, 7 with composite 88 for the
      domain), two adaptive-level bands of which only the second holds 15 and 95, and an
      age-equivalent row for raw scores 40-45 reading 6 years. */
  const WorkedAge := AgeInfo(6, 3, 0)
  const WorkedEchelle := EchelleVRow(1, 6, 0, Some(0), 6, 11, Some(30), 40, 45, 15)
  const WorkedDomaine := NoteDomaineRow("3-6", Some(10), Some(20), None, None, None, None, None, None, 95, "37")
  const WorkedIcSous := IcSousRow("6", 90, 1, 4)
  const WorkedIcDomaine := IcDomaineRow("6", 90, "Communication", 7, Some(88))
  const WorkedNiveaux := [NiveauRow("faible", 1, 8, 20, 70), NiveauRow("adapte", 13, 17, 86, 114)]
  const WorkedAgeEq := AgeEqRow(1, 40, Some(45), None, Some(6), None)
  const WorkedTables := NormTables([SousDomaineRow(1, "Receptive", "Communication")],
                                   [WorkedEchelle], [WorkedDomaine],
                                   [IcSousRow("6", 95, 1, 5), WorkedIcSous],
                                   [WorkedIcDomaine], WorkedNiveaux, [WorkedAgeEq])
  const WorkedLine := SousDomaineResult("Receptive", 42, 15, Some(Some(4)), Some("Adapt\U{e9}"), Some("6"))
  const WorkedScore := DomainScore(15, 95, "37", Some((7, Some(88))), Some("Adapt\U{e9}"))

  const WorkedContext := Context(WorkedAge, Some("3-6"), Some("6"), 90)

  /** The worked context holds the brackets the age coding gives for 6 years. */
  lemma WorkedContextBrackets()
    ensures VinelandAge.GetAgeTranches(WorkedAge.years) == (WorkedContext.trancheAge, WorkedContext.trancheIntervalle)
  {
    assert NatToString(6) == "6";
  }

  lemma WorkedSubdomain(raw: SubdomainScore)
    requires raw.noteBrute == 42
    ensures SousDomaineLines(WorkedTables, WorkedContext, [("Receptive", raw)]) == Ok([WorkedLine])
  {
    var t := WorkedTables;
    assert NamedRows(t.sousDomaines, "Receptive") == t.sousDomaines;
    assert SousDomaineByName(t.sousDomaines, "Receptive") == Ok(1);
    WorkedLineOf();
    OneSubdomainLine(t, WorkedContext, "Receptive", raw, 1, WorkedLine);
  }

  /** A domain with a single subdomain whose name resolves and whose raw score maps
      to a line lists exactly that line. */
  lemma OneSubdomainLine(t: NormTables, ctx: Context, name: string, raw: SubdomainScore,
                         sd: nat, line: SousDomaineResult)
    requires SousDomaineByName(t.sousDomaines, name) == Ok(sd)
    requires SousDomaineLine(t, ctx, sd, name, raw.noteBrute) == Some(line)
    ensures SousDomaineLines(t, ctx, [(name, raw)]) == Ok([line])
  {
    var subs := [(name, raw)];
    assert subs[..|subs| - 1] == [];
    assert [] + [line] == [line];
  }

  /** Raw score 42 at 6 years 3 months falls in the worked V-scale row; the 90% interval
      row of the subdomain, the second level band and the age-equivalent row are found. */
  lemma WorkedLineOf()
    ensures SousDomaineLine(WorkedTables, WorkedContext, 1, "Receptive", 42) == Some(WorkedLine)
  {
    assert EchelleMatches(WorkedEchelle, 1, 42, WorkedAge);
    assert FindEchelleV(WorkedTables.echelle, 1, 42, WorkedAge) == Some(WorkedEchelle);
    assert FindIcSous(WorkedTables.icSous, Some("6"), 90, 1) == Some(WorkedIcSous);
    assert NiveauOfEchelleV(WorkedNiveaux, 15) == Some(WorkedNiveaux[1]);
    assert AgeEqMatches(WorkedAgeEq, 1, 42);
    assert FindAgeEquivalent(WorkedTables.ageEq, 1, 42) == Some(WorkedAgeEq);
    assert AgeEquivalentDisplay(None, Some(6), None) == "6";
  }

  /** V-scale sum 15 maps to standard score 95, rank "37", the domain's 90% interval 7
      with composite 88, and the second level band. */
  lemma WorkedDomainScore()
    ensures DomainScoreOf(WorkedTables, WorkedContext, "Communication", 15) == Some(WorkedScore)
  {
    DomainColumnsOfDomainNames();
    assert DomainRowMatches(WorkedDomaine, "Communication", 15, WorkedContext.trancheAge);
    assert GetDomainMapping(WorkedTables.domaine, "Communication", 15, WorkedContext.trancheAge) == Some(WorkedDomaine);
    assert FindIcDomaine(WorkedTables.icDomaine, Some("6"), 90, "Communication") == Some(WorkedIcDomaine);
    assert NiveauOfNoteStandard(WorkedNiveaux, 95) == Some(WorkedNiveaux[1]);
    DomainScoreOfParts(WorkedTables, WorkedContext, "Communication", 15, WorkedDomaine, WorkedIcDomaine, WorkedNiveaux[1]);
  }

  /** The domain score assembled from its three lookups, when all three find a row. */
  lemma DomainScoreOfParts(t: NormTables, ctx: Context, name: string, sum: nat,
                           dm: NoteDomaineRow, x: IcDomaineRow, n: NiveauRow)
    requires GetDomainMapping(t.domaine, name, sum, ctx.trancheAge) == Some(dm)
    requires ctx.niveauConfiance != 0
    requires FindIcDomaine(t.icDomaine, ctx.trancheIntervalle, ctx.niveauConfiance, name) == Some(x)
    requires NiveauOfNoteStandard(t.niveaux, dm.noteStandard) == Some(n)
    ensures DomainScoreOf(t, ctx, name, sum)
         == Some(DomainScore(sum, dm.noteStandard, dm.rangPercentile, Some((x.intervalle, x.noteComposite)),
                             Some(NiveauLabel(n.niveau))))
  {
  }

  lemma SheetOfOneDomain(t: NormTables, ctx: Context, d: DomainRawScores, lines: seq<SousDomaineResult>)
    requires d.name != ComportementsProblematiques
    requires SousDomaineLines(t, ctx, d.subdomains) == Ok(lines)
    ensures CompleteScores(t, ctx, [d]) == Ok([DomainResult(d.name, Replace(d.name, " ", "_"), ctx.niveauConfiance,
                                                            lines, DomainScoreOf(t, ctx, d.name, VSum(lines)))])
  {
    var scores := [d];
    assert scores[..|scores| - 1] == [] && scores[|scores| - 1] == d;
    assert CompleteScores(t, ctx, scores[..|scores| - 1]) == Ok([]);
    var r := DomainResult(d.name, Replace(d.name, " ", "_"), ctx.niveauConfiance, lines,
                          DomainScoreOf(t, ctx, d.name, VSum(lines)));
    assert [] + [r] == [r];
  }

  /** The worked sheet: scaled score 15 (the domain's only contributor) with its 90%
      interval, level and age equivalent; standard score 95, percentile rank "37", the
      domain interval 7 with composite 88 and the level "Adapté". */
  lemma WorkedSheet(raw: SubdomainScore)
    requires raw.noteBrute == 42
    ensures var r := CompleteScores(WorkedTables, WorkedContext, [DomainRawScores("Communication", [("Receptive", raw)])]);
      r.Ok? && |r.value| == 1 && r.value[0].name == "Communication"
      && r.value[0].sousDomaines == [WorkedLine]
      && r.value[0].sousDomaines[0].intervalle == Some(Some(4))
      && r.value[0].sousDomaines[0].niveauAdaptatif == Some("Adapt\U{e9}")
      && r.value[0].sousDomaines[0].ageEquivalent == Some("6")
      && r.value[0].domainScore == Some(WorkedScore)
  {
    var d := DomainRawScores("Communication", [("Receptive", raw)]);
    WorkedSubdomain(raw);
    assert VSum([WorkedLine]) == 15;
    WorkedDomainScore();
    assert d.name != ComportementsProblematiques by {
      assert |d.name| == 13 && |ComportementsProblematiques| == 28;
    }
    SheetOfOneDomain(WorkedTables, WorkedContext, d, [WorkedLine]);
    var block := DomainResult(d.name, Replace(d.name, " ", "_"), 90, [WorkedLine], Some(WorkedScore));
    assert CompleteScores(WorkedTables, WorkedContext, [d]) == Ok([block]);
  }
}
