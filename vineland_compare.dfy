/** Pairwise comparisons of the Vineland score sheet: for every pair of domains, of
    subdomains within one domain, and of subdomains of different domains, the absolute
    difference of the two scores, its sign, its significance against a required
    difference looked up in either order, and the frequency band of the difference. */
module VinelandCompare {
  import opened Wrappers
  import opened Text
  import opened VinelandPairs

  // ----- Frequency thresholds -----

  /** `extract_number`: the threshold a frequency cell stands for. An empty cell is 9999;
      "N+" is N; a cell holding '-' is the number before its first '-'; any other cell is
      its number, or 9999 when it is not one. The first two readings are not guarded, so a
      malformed cell of those shapes raises `ValueError` (here: `Err`). */
  function ExtractNumber(value: string): (r: Result<int>)
    ensures value == "" ==> r == Ok(9999)
    ensures r.Err? ==> r == Err("ValueError") && (EndsWith(value, "+") || '-' in value)
  {
    if value == "" then Ok(9999)
    else if EndsWith(value, "+") then
      match ParseInt(value[..|value| - 1])
      case Some(n) => Ok(n)
      case None => Err("ValueError")
    else if '-' in value then
      match ParseInt(Split(value, '-')[0])
      case Some(n) => Ok(n)
      case None => Err("ValueError")
    else Ok(ParseInt(value).GetOr(9999))
  }

  lemma NatNumeral(n: nat)
    ensures ParseInt(NatToString(n)) == Some(n)
    ensures '-' !in NatToString(n) && '+' !in NatToString(n)
  {
    ParseIntOfIntToString(n);
  }

  /** A cell "N+" stands for N. */
  lemma ExtractNumberOfPlus(n: nat)
    ensures ExtractNumber(NatToString(n) + "+") == Ok(n)
  {
    var s := NatToString(n);
    var v := s + "+";
    NatNumeral(n);
    assert v[..|v| - 1] == s;
  }

  /** A cell "A-B" stands for its lower end A. */
  lemma ExtractNumberOfRange(a: nat, b: nat)
    ensures ExtractNumber(NatToString(a) + "-" + NatToString(b)) == Ok(a)
  {
    var sa, sb := NatToString(a), NatToString(b);
    var v := sa + "-" + sb;
    NatNumeral(a);
    assert v[|v| - 1] == sb[|sb| - 1];
    assert !EndsWith(v, "+");
    assert v[|sa|] == '-';
    SplitAfterPiece(sa, sb, '-');
    assert v == sa + ['-'] + sb;
  }

  /** A plain numeral cell stands for its value. */
  lemma ExtractNumberOfNumeral(n: nat)
    ensures ExtractNumber(NatToString(n)) == Ok(n)
  {
    var s := NatToString(n);
    NatNumeral(n);
    assert s[|s| - 1] != '+';
  }

  /** A cell that spells a negative number raises: the piece before its '-' is empty. */
  lemma ExtractNumberOfNegative(n: nat)
    requires n > 0
    ensures ExtractNumber(IntToString(-(n as int))).Err?
  {
    var s := IntToString(-(n as int));
    var digits := NatToString(n);
    NatNumeral(n);
    assert s == "-" + digits;
    assert s[|s| - 1] == digits[|digits| - 1];
    assert s[0] == '-';
    assert !EndsWith(s, "+") && '-' in s;
    assert Split(s, '-')[0] == "";
    assert Strip("") == "";
    assert ParseInt(Split(s, '-')[0]) == None;
  }

  /** A non-empty cell with no digit, no '-' and no final '+' stands for 9999. */
  lemma ExtractNumberOfText(value: string)
    requires value != [] && value[|value| - 1] != '+' && '-' !in value
    requires forall i :: 0 <= i < |value| ==> !IsDigit(value[i])
    ensures ExtractNumber(value) == Ok(9999)
  {
    var t := Strip(value);
    StripKeepsCharacters(value);
    NoDigitNotNumeral(t);
    if t != [] {
      NoDigitNotNumeral(t[1..]);
    }
  }

  lemma StripKeepsCharacters(s: string)
    ensures forall i :: 0 <= i < |Strip(s)| ==> Strip(s)[i] in s
  {
    var l := LStrip(s);
    var t := RStrip(l);
    LStripMeaning(s);
    RStripMeaning(l);
    assert forall i :: 0 <= i < |t| ==> t[i] == l[i];
    assert forall i :: 0 <= i < |l| ==> l[i] == s[|s| - |l| + i];
  }

  lemma NoDigitNotNumeral(t: string)
    requires forall i :: 0 <= i < |t| ==> !IsDigit(t[i])
    ensures !UnderscoredDigits(t)
  {
    if t != [] {
      assert !IsDigit(t[0]);
    }
  }

  // ----- Lookup tables -----

  /** A row of `ComparaisonDomaineVineland` or `ComparaisonSousDomaineVineland`:
      the required difference for one ordered pair of domain (or subdomain) ids. */
  datatype ComparaisonRow = ComparaisonRow(age: string, niveau: string, first: nat, second: nat, differenceRequise: int)

  /** A row of `FrequenceDifferenceDomaineVineland` or `FrequenceDifferenceSousDomaineVineland`. */
  datatype FrequenceRow = FrequenceRow(age: string, first: nat, second: nat, frequence16: string, frequence10: string, frequence5: string)

  /** The row filter of one `.get(...)` on a comparison table. A `None` age matches no row,
      as the age column is never null. */
  predicate ComparisonKey(row: ComparaisonRow, age: Option<string>, niveau: string, a: nat, b: nat) {
    age == Some(row.age) && row.niveau == niveau && row.first == a && row.second == b
  }

  predicate FrequencyKey(row: FrequenceRow, age: Option<string>, a: nat, b: nat) {
    age == Some(row.age) && row.first == a && row.second == b
  }

  /** `unique_together` on the comparison table: no two rows share a key. */
  predicate UniqueComparisons(rows: seq<ComparaisonRow>) {
    forall i, j :: 0 <= i < j < |rows| ==>
      (rows[i].age, rows[i].niveau, rows[i].first, rows[i].second) != (rows[j].age, rows[j].niveau, rows[j].first, rows[j].second)
  }

  predicate UniqueFrequencies(rows: seq<FrequenceRow>) {
    forall i, j :: 0 <= i < j < |rows| ==>
      (rows[i].age, rows[i].first, rows[i].second) != (rows[j].age, rows[j].first, rows[j].second)
  }

  /** `find_domain_comparison` / `find_sous_domaine_comparison`: the row for (a, b),
      else the row for (b, a), else `None`. */
  function FindComparison(rows: seq<ComparaisonRow>, age: Option<string>, niveau: string, a: nat, b: nat): (r: Option<ComparaisonRow>)
    ensures r.Some? ==> r.value in rows && (ComparisonKey(r.value, age, niveau, a, b) || ComparisonKey(r.value, age, niveau, b, a))
    ensures r.Some? && !ComparisonKey(r.value, age, niveau, a, b) ==>
      forall row :: row in rows ==> !ComparisonKey(row, age, niveau, a, b)
    ensures r.None? <==>
      forall row :: row in rows ==> !ComparisonKey(row, age, niveau, a, b) && !ComparisonKey(row, age, niveau, b, a)
  {
    match DirectedComparison(rows, age, niveau, a, b)
    case Some(row) => Some(row)
    case None => DirectedComparison(rows, age, niveau, b, a)
  }

  /** One `.get(...)` on a comparison table: a row with this key, scanning in table order. */
  function DirectedComparison(rows: seq<ComparaisonRow>, age: Option<string>, niveau: string, a: nat, b: nat): (r: Option<ComparaisonRow>)
    ensures r.Some? ==> r.value in rows && ComparisonKey(r.value, age, niveau, a, b)
    ensures r.None? <==> forall row :: row in rows ==> !ComparisonKey(row, age, niveau, a, b)
    decreases |rows|
  {
    if rows == [] then None
    else if ComparisonKey(rows[0], age, niveau, a, b) then Some(rows[0])
    else DirectedComparison(rows[1..], age, niveau, a, b)
  }

  /** `find_domain_frequency` / `find_sous_domaine_frequency`, with the same two-order search. */
  function FindFrequency(rows: seq<FrequenceRow>, age: Option<string>, a: nat, b: nat): (r: Option<FrequenceRow>)
    ensures r.Some? ==> r.value in rows && (FrequencyKey(r.value, age, a, b) || FrequencyKey(r.value, age, b, a))
    ensures r.Some? && !FrequencyKey(r.value, age, a, b) ==>
      forall row :: row in rows ==> !FrequencyKey(row, age, a, b)
    ensures r.None? <==>
      forall row :: row in rows ==> !FrequencyKey(row, age, a, b) && !FrequencyKey(row, age, b, a)
  {
    match DirectedFrequency(rows, age, a, b)
    case Some(row) => Some(row)
    case None => DirectedFrequency(rows, age, b, a)
  }

  /** One `.get(...)` on a frequency table. */
  function DirectedFrequency(rows: seq<FrequenceRow>, age: Option<string>, a: nat, b: nat): (r: Option<FrequenceRow>)
    ensures r.Some? ==> r.value in rows && FrequencyKey(r.value, age, a, b)
    ensures r.None? <==> forall row :: row in rows ==> !FrequencyKey(row, age, a, b)
    decreases |rows|
  {
    if rows == [] then None
    else if FrequencyKey(rows[0], age, a, b) then Some(rows[0])
    else DirectedFrequency(rows[1..], age, a, b)
  }

  /** Under `unique_together`, two rows with the same key are the same row. */
  lemma SameComparisonKey(rows: seq<ComparaisonRow>, i: nat, j: nat)
    requires UniqueComparisons(rows) && i < |rows| && j < |rows|
    requires rows[i].age == rows[j].age && rows[i].niveau == rows[j].niveau
    requires rows[i].first == rows[j].first && rows[i].second == rows[j].second
    ensures i == j
  {
  }

  lemma SameFrequencyKey(rows: seq<FrequenceRow>, i: nat, j: nat)
    requires UniqueFrequencies(rows) && i < |rows| && j < |rows|
    requires rows[i].age == rows[j].age && rows[i].first == rows[j].first && rows[i].second == rows[j].second
    ensures i == j
  {
  }

  /** With unique keys the lookup finds the one stored row, in whichever order it is stored,
      and when a table holds only one orientation of a pair both orders find the same row. */
  lemma {:induction false} FindComparisonSymmetric(rows: seq<ComparaisonRow>, age: Option<string>, niveau: string, a: nat, b: nat)
    requires UniqueComparisons(rows)
    requires (forall row :: row in rows ==> !ComparisonKey(row, age, niveau, a, b))
          || (forall row :: row in rows ==> !ComparisonKey(row, age, niveau, b, a))
    ensures FindComparison(rows, age, niveau, a, b) == FindComparison(rows, age, niveau, b, a)
  {
    var r1 := FindComparison(rows, age, niveau, a, b);
    var r2 := FindComparison(rows, age, niveau, b, a);
    if r1.Some? && r2.Some? {
      var i :| 0 <= i < |rows| && rows[i] == r1.value;
      var j :| 0 <= j < |rows| && rows[j] == r2.value;
      SameComparisonKey(rows, i, j);
    }
  }

  lemma {:induction false} FindFrequencySymmetric(rows: seq<FrequenceRow>, age: Option<string>, a: nat, b: nat)
    requires UniqueFrequencies(rows)
    requires (forall row :: row in rows ==> !FrequencyKey(row, age, a, b))
          || (forall row :: row in rows ==> !FrequencyKey(row, age, b, a))
    ensures FindFrequency(rows, age, a, b) == FindFrequency(rows, age, b, a)
  {
    var r1 := FindFrequency(rows, age, a, b);
    var r2 := FindFrequency(rows, age, b, a);
    if r1.Some? && r2.Some? {
      var i :| 0 <= i < |rows| && rows[i] == r1.value;
      var j :| 0 <= j < |rows| && rows[j] == r2.value;
      SameFrequencyKey(rows, i, j);
    }
  }

  // ----- Frequency band -----

  /** The threshold cells of a frequency row, in the order `get_frequency_percentage` tries them. */
  function Cells(f: FrequenceRow): seq<string> {
    [f.frequence5, f.frequence10, f.frequence16]
  }

  /** The frequency bands, rarest first; `Label` is the string the sheet shows. */
  datatype Band = Five | Ten | Sixteen {
    function Label(): string {
      match this
      case Five => "5%"
      case Ten => "10%"
      case Sixteen => "16%"
    }
  }

  /** The band of each cell of `Cells`, in the same order. */
  function BandOfCell(k: nat): Band {
    if k == 0 then Five else if k == 1 then Ten else Sixteen
  }

  /** The index of the first non-empty cell whose threshold the difference reaches, or `None`;
      reading a cell can raise, and only the cells up to the one that decides are read. */
  function BandCell(difference: int, cells: seq<string>): (r: Result<Option<nat>>)
    ensures r.Ok? && r.value.Some? ==> r.value.value < |cells|
    decreases |cells|
  {
    if cells == [] then Ok(None)
    else
      var rest := match BandCell(difference, cells[1..])
        case Err(m) => Err(m)
        case Ok(None) => Ok(None)
        case Ok(Some(k)) => Ok(Some(k + 1));
      if cells[0] == "" then rest
      else match ExtractNumber(cells[0])
        case Err(m) => Err(m)
        case Ok(threshold) => if difference >= threshold then Ok(Some(0)) else rest
  }

  /** `get_frequency_percentage`: no row, no band; otherwise the label of the deciding cell. */
  function FrequencyBand(difference: int, freq: Option<FrequenceRow>): (r: Result<Option<Band>>)
    ensures freq.None? ==> r == Ok(None)
    ensures r == Ok(Some(Five)) ==> freq.Some? && Decides(difference, freq.value.frequence5)
    ensures r == Ok(Some(Ten)) ==> freq.Some? && Decides(difference, freq.value.frequence10)
    ensures r == Ok(Some(Sixteen)) ==> freq.Some? && Decides(difference, freq.value.frequence16)
  {
    match freq
    case None => Ok(None)
    case Some(f) =>
      match BandCell(difference, Cells(f))
      case Err(m) => Err(m)
      case Ok(None) => Ok(None)
      case Ok(Some(k)) =>
        BandCellDecides(difference, Cells(f), k);
        Ok(Some(BandOfCell(k)))
  }

  /** A larger difference stops at the same cell or an earlier one, and if the smaller
      difference reads its cells without raising, so does the larger one. */
  lemma {:induction false} BandCellMonotone(d1: int, d2: int, cells: seq<string>)
    requires d1 <= d2
    ensures BandCell(d1, cells).Ok? ==> BandCell(d2, cells).Ok?
    ensures BandCell(d1, cells).Ok? && BandCell(d1, cells).value.Some? ==>
      BandCell(d2, cells).value.Some? && BandCell(d2, cells).value.value <= BandCell(d1, cells).value.value
    decreases |cells|
  {
    if cells != [] {
      BandCellMonotone(d1, d2, cells[1..]);
    }
  }

  /** A cell decides the band: it is non-empty and the difference reaches its threshold. */
  predicate Decides(difference: int, cell: string) {
    cell != "" && ExtractNumber(cell).Ok? && difference >= ExtractNumber(cell).value
  }

  /** A cell lets the search go on: it is empty, or the difference stays below its threshold. */
  predicate Passes(difference: int, cell: string) {
    cell == "" || (ExtractNumber(cell).Ok? && difference < ExtractNumber(cell).value)
  }

  /** A cell whose reading raises. */
  predicate Raises(cell: string) {
    cell != "" && ExtractNumber(cell).Err?
  }

  /** Cell k decides exactly when it is the first cell that does not let the search go on
      and it decides. */
  lemma {:induction false} BandCellDecides(difference: int, cells: seq<string>, k: nat)
    ensures BandCell(difference, cells) == Ok(Some(k)) <==>
      k < |cells| && Decides(difference, cells[k]) && forall j :: 0 <= j < k ==> Passes(difference, cells[j])
    decreases |cells|
  {
    if cells != [] {
      if k > 0 {
        BandCellDecides(difference, cells[1..], k - 1);
        assert forall j :: 1 <= j < |cells| ==> cells[j] == cells[1..][j - 1];
      }
    }
  }

  /** There is no band exactly when every cell lets the search go on. */
  lemma {:induction false} BandCellNone(difference: int, cells: seq<string>)
    ensures BandCell(difference, cells) == Ok(None) <==> forall j :: 0 <= j < |cells| ==> Passes(difference, cells[j])
    decreases |cells|
  {
    if cells != [] {
      BandCellNone(difference, cells[1..]);
      assert forall j :: 1 <= j < |cells| ==> cells[j] == cells[1..][j - 1];
    }
  }

  /** The first cell that does not let the search go on raises. */
  predicate RaisesFirst(difference: int, cells: seq<string>, k: int) {
    0 <= k < |cells| && Raises(cells[k]) && forall j :: 0 <= j < k ==> Passes(difference, cells[j])
  }

  /** The reading raises exactly when a raising cell comes before any deciding cell. */
  lemma {:induction false} BandCellRaises(difference: int, cells: seq<string>)
    ensures BandCell(difference, cells).Err? <==> exists k :: RaisesFirst(difference, cells, k)
    decreases |cells|
  {
    if cells != [] {
      var rest := cells[1..];
      if Raises(cells[0]) {
        assert RaisesFirst(difference, cells, 0);
      } else if !Passes(difference, cells[0]) {
        assert BandCell(difference, cells) == Ok(Some(0));
        assert forall k :: RaisesFirst(difference, cells, k) ==> k == 0;
      } else {
        BandCellRaises(difference, rest);
        assert BandCell(difference, cells).Err? == BandCell(difference, rest).Err?;
        if exists k :: RaisesFirst(difference, rest, k) {
          var k :| RaisesFirst(difference, rest, k);
          assert forall j :: 1 <= j <= k ==> cells[j] == rest[j - 1];
          assert RaisesFirst(difference, cells, k + 1);
        }
        if exists k :: RaisesFirst(difference, cells, k) {
          var k :| RaisesFirst(difference, cells, k);
          assert k > 0;
          assert forall j :: 0 <= j < k - 1 ==> rest[j] == cells[j + 1];
          assert RaisesFirst(difference, rest, k - 1);
        }
      }
    }
  }

  /** `get_frequency_percentage` in full: no row, no band; otherwise the 5%, 10% and 16%
      cells are tried in that order, empty cells skipped, and the first whose threshold the
      difference reaches gives its band; no band when none is reached; a `ValueError` when a
      cell read before any deciding one does not parse. */
  lemma FrequencyBandCharacterised(difference: int, f: FrequenceRow, k: nat)
    requires k < 3
    ensures FrequencyBand(difference, None) == Ok(None)
    ensures FrequencyBand(difference, Some(f)) == Ok(Some(BandOfCell(k))) <==>
      Decides(difference, Cells(f)[k]) && forall j :: 0 <= j < k ==> Passes(difference, Cells(f)[j])
    ensures FrequencyBand(difference, Some(f)) == Ok(None) <==> forall j :: 0 <= j < 3 ==> Passes(difference, Cells(f)[j])
    ensures FrequencyBand(difference, Some(f)).Err? <==> exists i :: RaisesFirst(difference, Cells(f), i)
  {
    var cells := Cells(f);
    BandCellDecides(difference, cells, k);
    BandCellNone(difference, cells);
    BandCellRaises(difference, cells);
    var r := BandCell(difference, cells);
    if r.Ok? && r.value.Some? {
      BandCellDecides(difference, cells, r.value.value);
    }
  }

  /** How rare a band is: "5%" is the rarest difference, no band the most common. */
  function BandRank(band: Option<Band>): nat {
    match band
    case Some(Five) => 3
    case Some(Ten) => 2
    case Some(Sixteen) => 1
    case None => 0
  }

  /** A larger difference is never in a more common band, and if the smaller difference
      reads its row without raising, so does the larger one. */
  lemma FrequencyBandMonotone(d1: int, d2: int, freq: Option<FrequenceRow>)
    requires d1 <= d2
    ensures FrequencyBand(d1, freq).Ok? ==>
      FrequencyBand(d2, freq).Ok? && BandRank(FrequencyBand(d1, freq).value) <= BandRank(FrequencyBand(d2, freq).value)
  {
    if freq.Some? {
      BandCellMonotone(d1, d2, Cells(freq.value));
    }
  }

  // ----- One comparison -----

  /** A score entering the comparisons: the name it is keyed by, its score (standard score
      of a domain, v-scale score of a subdomain), the id of its domain or subdomain row,
      and the domain it belongs to (a domain belongs to itself). */
  datatype CompareTables = CompareTables(comparisons: seq<ComparaisonRow>, frequences: seq<FrequenceRow>)

  /** The age bracket used for the required difference, the one used for the frequency,
      the significance level (".05" or ".01"), and whether this is the inter-domain list
      (whose entries also name both domains). */
  datatype Settings = Settings(tables: CompareTables, comparisonAge: Option<string>, frequencyAge: Option<string>,
                               niveau: string, interDomain: bool)

  /** One entry of a comparison list. `estSignificatif` is `None` when no comparison row
      exists, as `comparison and ...` yields `None` then. */
  datatype Comparison = Comparison(name1: string, name2: string, domaines: Option<(string, string)>,
                                   note1: int, note2: int, signe: Sign, difference: int,
                                   differenceRequise: Option<int>, estSignificatif: Option<bool>,
                                   frequence: Option<Band>)

  /** The sign between the two notes; `Symbol` is the character the sheet shows. */
  datatype Sign = Greater | Less | Equal {
    function Symbol(): string {
      match this
      case Greater => ">"
      case Less => "<"
      case Equal => "="
    }

    function Flip(): Sign {
      match this
      case Greater => Less
      case Less => Greater
      case Equal => Equal
    }
  }

  /** The body of the pair loop: difference, sign, lookups, significance and band. Reading
      the frequency cells can raise, which aborts the whole list. */
  function PairRecord(a: Scored, b: Scored, s: Settings): (r: Result<Comparison>)
    ensures r.Ok? ==> r.value.note1 == a.note && r.value.note2 == b.note && r.value.difference >= 0
    ensures r.Ok? ==> r.value.note1 == r.value.note2 + r.value.difference || r.value.note2 == r.value.note1 + r.value.difference
    ensures r.Ok? ==> (r.value.signe == Greater <==> a.note > b.note) && (r.value.signe == Less <==> a.note < b.note)
    ensures r.Ok? ==> (r.value.signe == Equal <==> r.value.difference == 0)
    ensures r.Ok? ==> (r.value.estSignificatif == Some(true) <==>
                       r.value.differenceRequise.Some? && r.value.difference >= r.value.differenceRequise.value)
    ensures r.Ok? ==> (r.value.estSignificatif.None? <==> r.value.differenceRequise.None?)
  {
    var difference := if a.note >= b.note then a.note - b.note else b.note - a.note;
    var signe := if a.note > b.note then Greater else if a.note < b.note then Less else Equal;
    var comparison := FindComparison(s.tables.comparisons, s.comparisonAge, s.niveau, a.id, b.id);
    var freq := FindFrequency(s.tables.frequences, s.frequencyAge, a.id, b.id);
    match FrequencyBand(difference, freq)
    case Err(m) => Err(m)
    case Ok(band) =>
      Ok(Comparison(a.name, b.name, if s.interDomain then Some((a.domaine, b.domaine)) else None,
                    a.note, b.note, signe, difference,
                    if comparison.Some? then Some(comparison.value.differenceRequise) else None,
                    if comparison.Some? then Some(difference >= comparison.value.differenceRequise) else None,
                    band))
  }

  /** There is no row for one of the two orientations of the pair in either table. */
  predicate OneOrientation(t: CompareTables, s: Settings, a: nat, b: nat) {
    ((forall row :: row in t.comparisons ==> !ComparisonKey(row, s.comparisonAge, s.niveau, a, b))
     || (forall row :: row in t.comparisons ==> !ComparisonKey(row, s.comparisonAge, s.niveau, b, a)))
    && ((forall row :: row in t.frequences ==> !FrequencyKey(row, s.frequencyAge, a, b))
        || (forall row :: row in t.frequences ==> !FrequencyKey(row, s.frequencyAge, b, a)))
  }

  /** Comparing b with a instead of a with b swaps the notes and flips the sign, and keeps
      the difference, its significance and its band, when the tables have unique keys and
      store each pair in one orientation. */
  lemma PairRecordSwap(a: Scored, b: Scored, s: Settings)
    requires UniqueComparisons(s.tables.comparisons) && UniqueFrequencies(s.tables.frequences)
    requires OneOrientation(s.tables, s, a.id, b.id)
    ensures PairRecord(a, b, s).Ok? <==> PairRecord(b, a, s).Ok?
    ensures PairRecord(a, b, s).Ok? ==>
      var c, d := PairRecord(a, b, s).value, PairRecord(b, a, s).value;
      d.note1 == c.note2 && d.note2 == c.note1 && d.signe == c.signe.Flip() && d.difference == c.difference
      && d.differenceRequise == c.differenceRequise && d.estSignificatif == c.estSignificatif && d.frequence == c.frequence
  {
    FindComparisonSymmetric(s.tables.comparisons, s.comparisonAge, s.niveau, a.id, b.id);
    FindFrequencySymmetric(s.tables.frequences, s.frequencyAge, a.id, b.id);
    var difference := if a.note >= b.note then a.note - b.note else b.note - a.note;
    assert difference == if b.note >= a.note then b.note - a.note else a.note - b.note;
    var band := FrequencyBand(difference, FindFrequency(s.tables.frequences, s.frequencyAge, a.id, b.id));
    assert band == FrequencyBand(difference, FindFrequency(s.tables.frequences, s.frequencyAge, b.id, a.id));
  }

  /** The loop body of a generator under these settings. */
  function EntryOf(s: Settings): (Scored, Scored) -> Result<Comparison> {
    (a: Scored, b: Scored) => PairRecord(a, b, s)
  }

  /** `generate_domain_comparisons`: the domains with a standard score, in sheet order; the
      required difference is looked up with the simple age bracket, the frequency with the
      domain age bracket. */
  method GenerateDomainComparisons(domaines: seq<Scored>, t: CompareTables, trancheAgeSimple: string,
                                   trancheAge: Option<string>, niveau: string) returns (r: Result<seq<Comparison>>)
    ensures r == Records(domaines, Pairs(domaines, false), EntryOf(Settings(t, Some(trancheAgeSimple), trancheAge, niveau, false)))
  {
    r := CompareAll(domaines, EntryOf(Settings(t, Some(trancheAgeSimple), trancheAge, niveau, false)), false);
  }

  /** `generate_interdomaine_comparisons`: every pair of subdomains of different domains,
      both lookups with the domain age bracket. */
  method GenerateInterdomaineComparisons(sousDomaines: seq<Scored>, t: CompareTables, trancheAge: Option<string>,
                                         niveau: string) returns (r: Result<seq<Comparison>>)
    ensures r == Records(sousDomaines, Pairs(sousDomaines, true), EntryOf(Settings(t, trancheAge, trancheAge, niveau, true)))
  {
    r := CompareAll(sousDomaines, EntryOf(Settings(t, trancheAge, trancheAge, niveau, true)), true);
  }

  /** `generate_sous_domaine_comparisons`: the subdomains grouped by domain, then every pair
      within each group, both lookups with the domain age bracket. */
  method GenerateSousDomaineComparisons(sousDomaines: seq<Scored>, t: CompareTables, trancheAge: Option<string>,
                                        niveau: string) returns (r: Result<seq<(string, seq<Comparison>)>>)
    ensures r == GroupedRecords(Groups(sousDomaines), EntryOf(Settings(t, trancheAge, trancheAge, niveau, false)))
  {
    var entry := EntryOf(Settings(t, trancheAge, trancheAge, niveau, false));
    var groups := GroupByDomain(sousDomaines);
    var acc: seq<(string, seq<Comparison>)> := [];
    for k := 0 to |groups|
      invariant GroupedRecords(groups[..k], entry) == Ok(acc)
    {
      assert groups[..k + 1][..k] == groups[..k];
      var cs := CompareAll(groups[k].1, entry, false);
      if cs.Err? {
        GroupedErrorPrefix(groups[..k + 1], groups, entry);
        return Err(cs.message);
      }
      acc := acc + [(groups[k].0, cs.value)];
    }
    assert groups[..|groups|] == groups;
    return Ok(acc);
  }
}
