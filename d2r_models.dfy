/** The d2-R attention test records: the derived scores of a test and the position a
    reference symbol receives when it is first saved. */
module D2rModels {
  import opened Wrappers

  /** The three stored counts of a `TestD2R`; the omission count may be null. */
  datatype TestD2R = TestD2R(reponsesCorrectes: int, reponsesIncorrectes: int, reponsesOmises: Option<int>)

  /** `cct`: processed targets, the correct answers. */
  function Cct(t: TestD2R): (r: int)
    ensures r == t.reponsesCorrectes
  {
    t.reponsesCorrectes
  }

  /** `ec`: commission errors. */
  function Ec(t: TestD2R): (r: int)
    ensures r == t.reponsesIncorrectes
  {
    t.reponsesIncorrectes
  }

  /** `eo`: omission errors, 0 when the count is null (`reponses_omises or 0`). */
  function Eo(t: TestD2R): (r: int)
    ensures t.reponsesOmises.None? ==> r == 0
    ensures t.reponsesOmises.Some? ==> r == t.reponsesOmises.value
  {
    if t.reponsesOmises.Some? && t.reponsesOmises.value != 0 then t.reponsesOmises.value else 0
  }

  /** `cc`: concentration capacity, correct answers less both kinds of error. */
  function Cc(t: TestD2R): (r: int)
    ensures r + Ec(t) + Eo(t) == Cct(t)
  {
    Cct(t) - Ec(t) - Eo(t)
  }

  /** `e_percentage`: the errors as a percentage of the correct answers, 0 when there is
      no correct answer (read here in exact arithmetic). */
  function EPercentage(t: TestD2R): (r: real)
    ensures Cct(t) <= 0 ==> r == 0.0
    ensures Cct(t) > 0 && Eo(t) + Ec(t) >= 0 ==> r >= 0.0
  {
    if Cct(t) > 0 then ((Eo(t) + Ec(t)) as real / Cct(t) as real) * 100.0 else 0.0
  }

  /** A stored reference symbol, as far as positions are concerned. */
  datatype StoredSymbol = StoredSymbol(page: int, ligne: int, position: int)

  /** The highest position stored in a (page, line), or `None` when the line is empty:
      `filter(page=…, ligne=…).order_by('-position').first()`. */
  function LastPosition(rows: seq<StoredSymbol>, page: int, ligne: int): (r: Option<int>)
    ensures r.None? <==> forall i :: 0 <= i < |rows| ==> !(rows[i].page == page && rows[i].ligne == ligne)
    ensures r.Some? ==> exists i :: 0 <= i < |rows| && rows[i].page == page && rows[i].ligne == ligne
                                    && rows[i].position == r.value
    ensures r.Some? ==> forall i :: 0 <= i < |rows| && rows[i].page == page && rows[i].ligne == ligne ==>
                                    rows[i].position <= r.value
    decreases |rows|
  {
    if rows == [] then None
    else
      var before := LastPosition(rows[..|rows| - 1], page, ligne);
      var x := rows[|rows| - 1];
      if x.page == page && x.ligne == ligne && (before.None? || x.position > before.value) then Some(x.position)
      else before
  }

  /** The position `save()` gives a new symbol: one past the last of its line, or 1. */
  function NewPosition(rows: seq<StoredSymbol>, page: int, ligne: int): int {
    match LastPosition(rows, page, ligne)
    case Some(p) => p + 1
    case None => 1
  }

  /** `SymboleReference`: a symbol of the test sheet; `pk` is absent until it is stored. */
  class SymboleReference {
    var pk: Option<int>
    var page: int
    var ligne: int
    var position: int

    constructor (page: int, ligne: int)
      ensures pk == None && this.page == page && this.ligne == ligne && position == 0
    {
      pk := None;
      this.page := page;
      this.ligne := ligne;
      position := 0;
    }

    /** `save()` against the symbols already stored: a symbol without a primary key is
        given the next position of its line; a stored one keeps its position. */
    method Save(stored: seq<StoredSymbol>)
      modifies this`position
      ensures old(pk).None? || old(pk) == Some(0) ==> position == NewPosition(stored, page, ligne)
      ensures old(pk).Some? && old(pk) != Some(0) ==> position == old(position)
    {
      if pk.None? || pk == Some(0) {
        var last := LastPosition(stored, page, ligne);
        position := if last.Some? then last.value + 1 else 1;
      }
    }
  }

  /** `unique_together = ['page', 'ligne', 'position']`. */
  predicate UniquePositions(rows: seq<StoredSymbol>) {
    forall i, j :: 0 <= i < j < |rows| ==> rows[i] != rows[j]
  }

  /** All positions are at least 1. */
  predicate PositivePositions(rows: seq<StoredSymbol>) {
    forall i :: 0 <= i < |rows| ==> rows[i].position >= 1
  }

  /** A new symbol lands after every symbol of its line, so inserting it keeps the
      positions unique and positive. */
  lemma NewPositionFresh(rows: seq<StoredSymbol>, page: int, ligne: int)
    requires UniquePositions(rows) && PositivePositions(rows)
    ensures var p := NewPosition(rows, page, ligne);
      p >= 1
      && (forall i :: 0 <= i < |rows| && rows[i].page == page && rows[i].ligne == ligne ==> rows[i].position < p)
      && UniquePositions(rows + [StoredSymbol(page, ligne, p)])
      && PositivePositions(rows + [StoredSymbol(page, ligne, p)])
  {
    var p := NewPosition(rows, page, ligne);
    var rows' := rows + [StoredSymbol(page, ligne, p)];
    var last := LastPosition(rows, page, ligne);
    if last.Some? {
      var k :| 0 <= k < |rows| && rows[k].page == page && rows[k].ligne == ligne && rows[k].position == last.value;
      assert rows[k].position >= 1;
    }
    forall i, j | 0 <= i < j < |rows'| ensures rows'[i] != rows'[j] {
      if j == |rows| {
        assert rows'[i] == rows[i];
      } else {
        assert rows'[i] == rows[i] && rows'[j] == rows[j];
      }
    }
  }

  /** The table after saving new symbols one after another into the given lines. */
  function InsertAll(rows: seq<StoredSymbol>, lines: seq<(int, int)>): seq<StoredSymbol>
    decreases |lines|
  {
    if lines == [] then rows
    else
      var (page, ligne) := lines[0];
      InsertAll(rows + [StoredSymbol(page, ligne, NewPosition(rows, page, ligne))], lines[1..])
  }

  /** Under sequential inserts, positions stay unique and positive. */
  lemma {:induction false} InsertAllUnique(rows: seq<StoredSymbol>, lines: seq<(int, int)>)
    requires UniquePositions(rows) && PositivePositions(rows)
    ensures UniquePositions(InsertAll(rows, lines)) && PositivePositions(InsertAll(rows, lines))
    decreases |lines|
  {
    if lines != [] {
      var (page, ligne) := lines[0];
      NewPositionFresh(rows, page, ligne);
      InsertAllUnique(rows + [StoredSymbol(page, ligne, NewPosition(rows, page, ligne))], lines[1..]);
    }
  }
}
