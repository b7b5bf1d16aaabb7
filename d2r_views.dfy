/** The d2-R submission and result pages: the marked symbols are read from a
    comma-separated id list, lines 2 to 13 of the sheet are scored up to the last
    marked symbol of each line, and the result page derives the integer scores and
    looks up their norms. */
module D2rViews {
  import opened Wrappers
  import opened Text
  import opened Lookup
  import opened D2rModels

  // ----- The marked symbols -----

  /** The ids of the non-empty pieces; `None` stands for the `ValueError` that `int()`
      raises on a piece that is not an integer. */
  function ParseIds(pieces: seq<string>): Option<set<int>>
    decreases |pieces|
  {
    if pieces == [] then Some({})
    else
      match ParseIds(pieces[1..])
      case None => None
      case Some(rest) =>
        if pieces[0] == "" then Some(rest)
        else
          match ParseInt(pieces[0])
          case None => None
          case Some(n) => Some({n} + rest)
  }

  /** Some non-empty piece is not an integer: `int()` raises on it. */
  predicate HasBadPiece(pieces: seq<string>) {
    exists i :: 0 <= i < |pieces| && pieces[i] != "" && ParseInt(pieces[i]).None?
  }

  /** Some non-empty piece reads as `n`. */
  predicate IsPieceValue(pieces: seq<string>, n: int) {
    exists i :: 0 <= i < |pieces| && pieces[i] != "" && ParseInt(pieces[i]) == Some(n)
  }

  /** `set(int(id_) for id_ in selected_symbols_str.split(',') if id_)`. */
  function ParseSelected(s: string): (r: Option<set<int>>)
    ensures r.None? <==> HasBadPiece(Split(s, ','))
    ensures r.Some? ==> forall n :: n in r.value <==> IsPieceValue(Split(s, ','), n)
  {
    ParseIdsMeaning(Split(s, ','));
    ParseIds(Split(s, ','))
  }

  /** The parse fails exactly on a non-empty piece that is not an integer; otherwise the ids
      are exactly the values of the non-empty pieces. */
  lemma {:induction false} ParseIdsMeaning(pieces: seq<string>)
    ensures ParseIds(pieces).None? <==> HasBadPiece(pieces)
    ensures ParseIds(pieces).Some? ==> forall n :: n in ParseIds(pieces).value <==> IsPieceValue(pieces, n)
    decreases |pieces|
  {
    if pieces != [] {
      var rest := pieces[1..];
      ParseIdsMeaning(rest);
      assert forall i :: 1 <= i < |pieces| ==> pieces[i] == rest[i - 1];
      if ParseIds(pieces).Some? {
        forall n | n in ParseIds(pieces).value
          ensures IsPieceValue(pieces, n)
        {
          if n !in ParseIds(rest).value {
            assert pieces[0] != "" && ParseInt(pieces[0]) == Some(n);
          } else {
            var j :| 0 <= j < |rest| && rest[j] != "" && ParseInt(rest[j]) == Some(n);
            assert pieces[j + 1] == rest[j];
          }
        }
        forall n | IsPieceValue(pieces, n)
          ensures n in ParseIds(pieces).value
        {
          var j :| 0 <= j < |pieces| && pieces[j] != "" && ParseInt(pieces[j]) == Some(n);
          if j > 0 {
            assert rest[j - 1] == pieces[j];
          }
        }
      }
      if HasBadPiece(pieces) {
        var i :| 0 <= i < |pieces| && pieces[i] != "" && ParseInt(pieces[i]).None?;
        if i > 0 {
          assert rest[i - 1] == pieces[i];
        }
      }
      if HasBadPiece(rest) {
        var i :| 0 <= i < |rest| && rest[i] != "" && ParseInt(rest[i]).None?;
        assert pieces[i + 1] == rest[i];
      }
    }
  }

  /** The list the page posts: the ids written out and joined with commas. */
  function IdsText(ids: seq<int>): string
    requires ids != []
    decreases |ids|
  {
    if |ids| == 1 then IntToString(ids[0]) else IntToString(ids[0]) + "," + IdsText(ids[1..])
  }

  function Numerals(ids: seq<int>): seq<string>
    decreases |ids|
  {
    if ids == [] then [] else [IntToString(ids[0])] + Numerals(ids[1..])
  }

  lemma NoCommaInNumeral(n: int)
    ensures ',' !in IntToString(n)
  {
    IntToStringChars(n);
  }

  lemma {:induction false} SplitIdsText(ids: seq<int>)
    requires ids != []
    ensures Split(IdsText(ids), ',') == Numerals(ids)
    decreases |ids|
  {
    NoCommaInNumeral(ids[0]);
    if |ids| == 1 {
      SplitOfSeparatorFree(IntToString(ids[0]), ',');
    } else {
      SplitIdsText(ids[1..]);
      assert IdsText(ids) == IntToString(ids[0]) + [','] + IdsText(ids[1..]);
      SplitAfterPiece(IntToString(ids[0]), IdsText(ids[1..]), ',');
    }
  }

  lemma {:induction false} ParseNumerals(ids: seq<int>)
    ensures ParseIds(Numerals(ids)) == Some(set i | i in ids)
    decreases |ids|
  {
    if ids != [] {
      ParseNumerals(ids[1..]);
      NotEmptyNumeral(ids[0]);
      ParseIntOfIntToString(ids[0]);
      ParseIdsCons(IntToString(ids[0]), Numerals(ids[1..]), ids[0], set i | i in ids[1..]);
      assert Numerals(ids) == [IntToString(ids[0])] + Numerals(ids[1..]);
      IdSetCons(ids);
    } else {
      assert (set i | i in ids) == {};
    }
  }

  lemma IdSetCons(ids: seq<int>)
    requires ids != []
    ensures (set i | i in ids) == {ids[0]} + (set i | i in ids[1..])
  {
    assert ids == [ids[0]] + ids[1..];
  }

  /** A non-empty integer piece in front of a list adds its value to the ids. */
  lemma ParseIdsCons(piece: string, rest: seq<string>, v: int, ids: set<int>)
    requires piece != "" && ParseInt(piece) == Some(v) && ParseIds(rest) == Some(ids)
    ensures ParseIds([piece] + rest) == Some({v} + ids)
  {
    assert ([piece] + rest)[1..] == rest;
  }

  lemma NotEmptyNumeral(n: int)
    ensures IntToString(n) != ""
  {
  }

  /** Reading back a posted list gives exactly the ids that were written; an empty list
      gives no id. */
  lemma ParseSelectedOfIdsText(ids: seq<int>)
    ensures ids != [] ==> ParseSelected(IdsText(ids)) == Some(set i | i in ids)
    ensures ParseSelected("") == Some({})
  {
    if ids != [] {
      SplitIdsText(ids);
      ParseNumerals(ids);
    }
    assert Split("", ',') == [""];
  }

  // ----- Counting one line -----

  /** A reference symbol of the sheet. */
  datatype Symbole = Symbole(id: int, page: int, ligne: int, position: int, lettre: char,
                             traitsHaut: int, traitsBas: int)

  /** A target is a 'd' with two strokes in total. */
  predicate IsTarget(s: Symbole) {
    s.lettre == 'd' && s.traitsHaut + s.traitsBas == 2
  }

  /** The three counters of the submission. */
  datatype Counts = Counts(correctes: nat, incorrectes: nat, omises: nat) {
    function Plus(o: Counts): Counts {
      Counts(correctes + o.correctes, incorrectes + o.incorrectes, omises + o.omises)
    }
  }

  function Zero(): Counts {
    Counts(0, 0, 0)
  }

  lemma PlusZero(c: Counts)
    ensures Zero().Plus(c) == c && c.Plus(Zero()) == c
  {
  }

  lemma PlusAssoc(a: Counts, b: Counts, c: Counts)
    ensures a.Plus(b).Plus(c) == a.Plus(b.Plus(c))
  {
  }

  /** What one examined symbol adds: a marked target is correct, a marked non-target an
      error of commission, an unmarked target an omission; an unmarked non-target adds
      nothing. */
  function Tally(s: Symbole, selected: set<int>): (c: Counts)
    ensures c.correctes + c.incorrectes + c.omises == (if s.id in selected || IsTarget(s) then 1 else 0)
    ensures c.correctes >= 0 && c.incorrectes >= 0 && c.omises >= 0
  {
    if s.id in selected then
      (if IsTarget(s) then Counts(1, 0, 0) else Counts(0, 1, 0))
    else if IsTarget(s) then Counts(0, 0, 1) else Zero()
  }

  /** A symbol adds to at most one counter, and to each exactly in its own case. */
  lemma TallyMeaning(s: Symbole, selected: set<int>)
    ensures var c := Tally(s, selected);
      && c.correctes + c.incorrectes + c.omises <= 1
      && (c.correctes == 1 <==> s.id in selected && IsTarget(s))
      && (c.incorrectes == 1 <==> s.id in selected && !IsTarget(s))
      && (c.omises == 1 <==> s.id !in selected && IsTarget(s))
  {
  }

  /** The scan of a line from index `k`, with its `break`: symbols are tallied until the
      first one past the last marked position. */
  function ScanFrom(line: seq<Symbole>, k: nat, selected: set<int>, last: int): Counts
    decreases |line| - k
  {
    if k >= |line| || line[k].position > last then Zero()
    else Tally(line[k], selected).Plus(ScanFrom(line, k + 1, selected, last))
  }

  /** The highest position among the marked symbols of a line, `None` when none is marked. */
  function LastSelected(line: seq<Symbole>, selected: set<int>): Option<int>
    decreases |line|
  {
    if line == [] then None
    else
      var before := LastSelected(line[..|line| - 1], selected);
      var x := line[|line| - 1];
      if x.id in selected && (before.None? || x.position > before.value) then Some(x.position) else before
  }

  /** `LastSelected` is `None` exactly when no symbol is marked, and is otherwise the
      position of a marked symbol that no marked symbol lies beyond. */
  lemma {:induction false} LastSelectedMeaning(line: seq<Symbole>, selected: set<int>)
    ensures var r := LastSelected(line, selected);
      && (r.None? <==> forall i :: 0 <= i < |line| ==> line[i].id !in selected)
      && (r.Some? ==> exists i :: 0 <= i < |line| && line[i].id in selected && line[i].position == r.value)
      && (r.Some? ==> forall i :: 0 <= i < |line| && line[i].id in selected ==> line[i].position <= r.value)
    decreases |line|
  {
    if line != [] {
      var init := line[..|line| - 1];
      LastSelectedMeaning(init, selected);
      assert forall i :: 0 <= i < |init| ==> init[i] == line[i];
    }
  }

  /** What a line contributes: nothing without a marked symbol, else its scan. */
  function LineCounts(line: seq<Symbole>, selected: set<int>): Counts {
    match LastSelected(line, selected)
    case None => Zero()
    case Some(last) => ScanFrom(line, 0, selected, last)
  }

  /** The symbols of page 1, line `ligne`, in table order. */
  function LineSymbols(symbols: seq<Symbole>, ligne: int): seq<Symbole>
    decreases |symbols|
  {
    if symbols == [] then []
    else
      var s := symbols[|symbols| - 1];
      LineSymbols(symbols[..|symbols| - 1], ligne) + (if s.page == 1 && s.ligne == ligne then [s] else [])
  }

  /** The counters after lines 2 up to `hi` − 1. */
  function TotalCounts(symbols: seq<Symbole>, selected: set<int>, hi: int): Counts
    decreases hi
  {
    if hi <= 2 then Zero()
    else TotalCounts(symbols, selected, hi - 1).Plus(LineCounts(LineSymbols(symbols, hi - 1), selected))
  }

  /** The loop of one line: find the last marked position, then tally up to it. */
  method CountLine(line: seq<Symbole>, selected: set<int>) returns (c: Counts)
    ensures c == LineCounts(line, selected)
  {
    var last := FindLastSelected(line, selected);
    if last.None? {
      return Zero();
    }
    c := ScanLine(line, selected, last.value);
  }

  /** The first loop of a line: the highest marked position. */
  method FindLastSelected(line: seq<Symbole>, selected: set<int>) returns (r: Option<int>)
    ensures r == LastSelected(line, selected)
  {
    r := None;
    var k := 0;
    while k < |line|
      invariant 0 <= k <= |line|
      invariant LastSelected(line[..k], selected) == r
    {
      assert line[..k + 1][..k] == line[..k];
      if line[k].id in selected && (r.None? || line[k].position > r.value) {
        r := Some(line[k].position);
      }
      k := k + 1;
    }
    assert line[..|line|] == line;
  }

  /** The second loop of a line: tally the symbols until one lies past `last`. */
  method ScanLine(line: seq<Symbole>, selected: set<int>, last: int) returns (c: Counts)
    ensures c == ScanFrom(line, 0, selected, last)
  {
    c := Zero();
    PlusZero(ScanFrom(line, 0, selected, last));
    var k := 0;
    while k < |line|
      invariant 0 <= k <= |line|
      invariant c.Plus(ScanFrom(line, k, selected, last)) == ScanFrom(line, 0, selected, last)
    {
      if line[k].position > last {
        PlusZero(c);
        break;
      }
      PlusAssoc(c, Tally(line[k], selected), ScanFrom(line, k + 1, selected, last));
      c := c.Plus(Tally(line[k], selected));
      k := k + 1;
    }
    PlusZero(c);
  }

  // ----- The submission -----

  /** The fields `d2r_submit` stores, but the floating-point accuracy note. */
  datatype Submission = Submission(reponsesCorrectes: nat, reponsesIncorrectes: nat, reponsesOmises: nat,
                                   tempsTotal: int, noteCct: int, capaciteConcentration: int)

  /** `int(request.POST.get('temps_total', 0))`: 0 when the field is absent. */
  function TempsTotal(posted: Option<string>): (r: Option<int>)
    ensures posted.None? ==> r == Some(0)
    ensures r.None? <==> posted.Some? && ParseInt(posted.value).None?
    ensures posted.Some? && r.Some? ==> ParseInt(posted.value) == r
  {
    if posted.None? then Some(0) else ParseInt(posted.value)
  }

  /** A time posted by the page, the decimal text of an integer, reads back as that integer. */
  lemma TempsTotalOfNumeral(n: int)
    ensures TempsTotal(Some(IntToString(n))) == Some(n)
  {
    ParseIntOfIntToString(n);
  }

  /** The stored fields for the given counters and time: `note_cct` is the number of
      correct answers and `capacite_concentration` the correct answers less both kinds of
      error. */
  function SubmissionOf(c: Counts, temps: int): Submission {
    Submission(c.correctes, c.incorrectes, c.omises, temps, c.correctes, c.correctes - c.incorrectes - c.omises)
  }

  /** `d2r_submit`: parse the marked ids, score lines 2 to 13, then read the time. */
  method D2rSubmit(symbols: seq<Symbole>, selectedSymbols: string, tempsTotal: Option<string>)
    returns (r: Result<Submission>)
    ensures r.Ok? <==> ParseSelected(selectedSymbols).Some? && TempsTotal(tempsTotal).Some?
    ensures r.Ok? ==>
      r.value == SubmissionOf(TotalCounts(symbols, ParseSelected(selectedSymbols).value, 14),
                              TempsTotal(tempsTotal).value)
  {
    var parsed := ParseSelected(selectedSymbols);
    if parsed.None? {
      return Err("ValueError");
    }
    var c := CountLines(symbols, parsed.value);
    var temps := TempsTotal(tempsTotal);
    if temps.None? {
      return Err("ValueError");
    }
    return Ok(SubmissionOf(c, temps.value));
  }

  /** The loop over lines 2 to 13 of page 1. */
  method CountLines(symbols: seq<Symbole>, selected: set<int>) returns (c: Counts)
    ensures c == TotalCounts(symbols, selected, 14)
  {
    c := Zero();
    var ligne := 2;
    while ligne < 14
      invariant 2 <= ligne <= 14
      invariant c == TotalCounts(symbols, selected, ligne)
    {
      var lc := CountLine(LineSymbols(symbols, ligne), selected);
      c := c.Plus(lc);
      ligne := ligne + 1;
    }
  }

  // ----- What the counting means -----

  /** Positions increase along a line, as `order_by('position')` delivers it. */
  predicate ByPosition(line: seq<Symbole>) {
    forall i, j :: 0 <= i < j < |line| ==> line[i].position < line[j].position
  }

  /** The tally of every symbol from index `k` on that lies at or before `last`, however
      the line is ordered. */
  function CountUpTo(line: seq<Symbole>, k: nat, selected: set<int>, last: int): Counts
    decreases |line| - k
  {
    if k >= |line| then Zero()
    else (if line[k].position <= last then Tally(line[k], selected) else Zero()).Plus(CountUpTo(line, k + 1, selected, last))
  }

  lemma {:induction false} CountUpToPastEnd(line: seq<Symbole>, k: nat, selected: set<int>, last: int)
    requires forall i :: k <= i < |line| ==> line[i].position > last
    ensures CountUpTo(line, k, selected, last) == Zero()
    decreases |line| - k
  {
    if k < |line| {
      CountUpToPastEnd(line, k + 1, selected, last);
      assert line[k].position > last;
      PlusZero(Zero());
    }
  }

  /** On a line ordered by position the `break` loses nothing: the scan tallies exactly
      the symbols at or before the last marked position. */
  lemma {:induction false} ScanIsCountUpTo(line: seq<Symbole>, k: nat, selected: set<int>, last: int)
    requires ByPosition(line)
    ensures ScanFrom(line, k, selected, last) == CountUpTo(line, k, selected, last)
    decreases |line| - k
  {
    if k < |line| {
      if line[k].position > last {
        forall i | k <= i < |line| ensures line[i].position > last {
          if i > k {
            assert line[k].position < line[i].position;
          }
        }
        CountUpToPastEnd(line, k, selected, last);
      } else {
        ScanIsCountUpTo(line, k + 1, selected, last);
      }
    }
  }

  /** The number of marked symbols of a line from index `k` on. */
  function MarkedCount(line: seq<Symbole>, k: nat, selected: set<int>): nat
    decreases |line| - k
  {
    if k >= |line| then 0 else (if line[k].id in selected then 1 else 0) + MarkedCount(line, k + 1, selected)
  }

  lemma {:induction false} CountUpToMarked(line: seq<Symbole>, k: nat, selected: set<int>, last: int)
    requires forall i :: k <= i < |line| && line[i].id in selected ==> line[i].position <= last
    ensures CountUpTo(line, k, selected, last).correctes + CountUpTo(line, k, selected, last).incorrectes
            == MarkedCount(line, k, selected)
    decreases |line| - k
  {
    if k < |line| {
      CountUpToMarked(line, k + 1, selected, last);
    }
  }

  /** Every marked symbol of a line ordered by position is counted once, as correct or
      as a commission error; a line with no marked symbol counts nothing. */
  lemma LineCountsMarked(line: seq<Symbole>, selected: set<int>)
    requires ByPosition(line)
    ensures LineCounts(line, selected).correctes + LineCounts(line, selected).incorrectes
            == MarkedCount(line, 0, selected)
    ensures (forall i :: 0 <= i < |line| ==> line[i].id !in selected) ==> LineCounts(line, selected) == Zero()
  {
    LastSelectedMeaning(line, selected);
    match LastSelected(line, selected)
    case None =>
      NoMarked(line, 0, selected);
    case Some(last) =>
      ScanIsCountUpTo(line, 0, selected, last);
      CountUpToMarked(line, 0, selected, last);
  }

  lemma {:induction false} NoMarked(line: seq<Symbole>, k: nat, selected: set<int>)
    requires forall i :: k <= i < |line| ==> line[i].id !in selected
    ensures MarkedCount(line, k, selected) == 0
    decreases |line| - k
  {
    if k < |line| {
      NoMarked(line, k + 1, selected);
    }
  }

  /** What a line contributes when nothing is lost to the `break`: every symbol at or
      before its last marked position. */
  function LineCountUpTo(line: seq<Symbole>, selected: set<int>): Counts {
    match LastSelected(line, selected)
    case None => Zero()
    case Some(last) => CountUpTo(line, 0, selected, last)
  }

  /** `LineCountUpTo` summed over lines 2 up to `hi` − 1. */
  function TotalCountUpTo(symbols: seq<Symbole>, selected: set<int>, hi: int): Counts
    decreases hi
  {
    if hi <= 2 then Zero()
    else TotalCountUpTo(symbols, selected, hi - 1).Plus(LineCountUpTo(LineSymbols(symbols, hi - 1), selected))
  }

  /** The marked symbols of lines 2 up to `hi` − 1. */
  function TotalMarked(symbols: seq<Symbole>, selected: set<int>, hi: int): nat
    decreases hi
  {
    if hi <= 2 then 0
    else TotalMarked(symbols, selected, hi - 1) + MarkedCount(LineSymbols(symbols, hi - 1), 0, selected)
  }

  /** When every line comes ordered by position, the counters are the tallies of the
      symbols up to each line's last marked position, and every marked symbol of lines
      2 to `hi` − 1 is counted once as correct or as a commission error. */
  lemma {:induction false} TotalCountsByPosition(symbols: seq<Symbole>, selected: set<int>, hi: int)
    requires forall l :: 2 <= l < hi ==> ByPosition(LineSymbols(symbols, l))
    ensures TotalCounts(symbols, selected, hi) == TotalCountUpTo(symbols, selected, hi)
    ensures TotalCounts(symbols, selected, hi).correctes + TotalCounts(symbols, selected, hi).incorrectes
            == TotalMarked(symbols, selected, hi)
    decreases hi
  {
    if hi > 2 {
      TotalCountsByPosition(symbols, selected, hi - 1);
      var line := LineSymbols(symbols, hi - 1);
      assert ByPosition(line);
      LineCountsMarked(line, selected);
      match LastSelected(line, selected)
      case None =>
      case Some(last) =>
        ScanIsCountUpTo(line, 0, selected, last);
    }
  }

  /** End to end: for lines ordered by position, as `order_by('position')` delivers them,
      what `d2r_submit` stores is the tally of every symbol up to each line's last marked
      position, and the stored correct answers and commission errors together are the
      marked symbols of lines 2 to 13. */
  lemma SubmitByPosition(symbols: seq<Symbole>, selected: set<int>, temps: int)
    requires forall l :: 2 <= l < 14 ==> ByPosition(LineSymbols(symbols, l))
    ensures var sub := SubmissionOf(TotalCounts(symbols, selected, 14), temps);
      && sub == SubmissionOf(TotalCountUpTo(symbols, selected, 14), temps)
      && sub.reponsesCorrectes + sub.reponsesIncorrectes == TotalMarked(symbols, selected, 14)
  {
    TotalCountsByPosition(symbols, selected, 14);
  }

  /** Symbols outside page 1, lines 2 to 13, never change the counters. */
  lemma {:induction false} OtherLinesIgnored(symbols: seq<Symbole>, s: Symbole, selected: set<int>, hi: int)
    requires s.page != 1 || s.ligne < 2 || s.ligne >= hi
    ensures TotalCounts(symbols + [s], selected, hi) == TotalCounts(symbols, selected, hi)
    decreases hi
  {
    if hi > 2 {
      OtherLinesIgnored(symbols, s, selected, hi - 1);
      var t := symbols + [s];
      assert t[..|t| - 1] == symbols;
      assert LineSymbols(t, hi - 1) == LineSymbols(symbols, hi - 1);
    }
  }

  /** The stored scores agree with the record's own derivations: `note_cct` is `cct` and
      `capacite_concentration` is `cc`. */
  lemma SubmissionMatchesRecord(c: Counts, temps: int)
    ensures var sub := SubmissionOf(c, temps);
      var t := TestD2R(sub.reponsesCorrectes, sub.reponsesIncorrectes, Some(sub.reponsesOmises));
      Cct(t) == sub.noteCct && Cc(t) == sub.capaciteConcentration && Eo(t) == c.omises
  {
  }

  // ----- The result page -----

  /** A norm row: an age range, a score range and the standard score and percentile it gives. */
  datatype Norme = Norme(noteStandard: int, percentile: real, ageMin: int, ageMax: int, valeurMin: int, valeurMax: int)

  predicate NormeMatches(n: Norme, age: int, valeur: int) {
    n.ageMin <= age <= n.ageMax && n.valeurMin <= valeur <= n.valeurMax
  }

  /** `filter(age_min__lte=age, age_max__gte=age, valeur_min__lte=v, valeur_max__gte=v).first()`. */
  function FindNorme(rows: seq<Norme>, age: int, valeur: int): (r: Option<Norme>)
    ensures r.Some? ==> r.value in rows && NormeMatches(r.value, age, valeur)
    ensures r.None? <==> forall i :: 0 <= i < |rows| ==> !NormeMatches(rows[i], age, valeur)
  {
    First(rows, (n: Norme) => NormeMatches(n, age, valeur))
  }

  /** The integer part of the result page. */
  datatype Resultats = Resultats(cct: int, ec: int, eo: int, cc: int, totalReponses: int,
                                 normeRythme: Option<Norme>, normeConcentration: Option<Norme>)

  /** `d2r_resultats`: the counts read back (a null omission count as 0), the concentration
      capacity, the number of answers and the processing-speed and concentration norms. */
  function D2rResultats(t: TestD2R, age: int, rythme: seq<Norme>, concentration: seq<Norme>): (r: Resultats)
    ensures r.cct == Cct(t) && r.ec == Ec(t) && r.eo == Eo(t) && r.cc == Cc(t)
    ensures r.normeRythme.Some? ==> NormeMatches(r.normeRythme.value, age, Cct(t))
    ensures r.normeConcentration.Some? ==> NormeMatches(r.normeConcentration.value, age, Cc(t))
    ensures r.normeRythme == FindNorme(rythme, age, Cct(t))
    ensures r.normeConcentration == FindNorme(concentration, age, Cc(t))
    ensures r.totalReponses == Cct(t) + Ec(t)
  {
    var cct := t.reponsesCorrectes;
    var ec := t.reponsesIncorrectes;
    var eo := if t.reponsesOmises.Some? && t.reponsesOmises.value != 0 then t.reponsesOmises.value else 0;
    var cc := cct - ec - eo;
    Resultats(cct, ec, eo, cc, cct + ec, FindNorme(rythme, age, cct), FindNorme(concentration, age, cc))
  }
}
