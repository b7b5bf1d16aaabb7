/** The template filters of the result pages: sums of raw and v-scale scores over a
    domain, integer subtraction and product, the splitting of free-text notes into a list,
    dictionary lookup by a stringified key, and the checked state of a questionnaire box.
    Template values are modelled as a small Python value type. */
module CustomFilters {
  import opened Wrappers
  import opened Text

  /** A template value: an int, a bool, a str, None, a dict with string keys (its items in
      iteration order), or some other object that has no integer conversion, given by
      its `str()`. */
  datatype Value = IntV(i: int) | BoolV(b: bool) | StrV(s: string) | NoneV | DictV(items: seq<(string, Value)>)
                 | OtherV(text: string)

  /** `dict.get(key)`: the value of the first item with that key. */
  function Get(items: seq<(string, Value)>, key: string): (r: Option<Value>)
    ensures r.Some? ==> (key, r.value) in items
    ensures r.None? <==> forall i :: 0 <= i < |items| ==> items[i].0 != key
    decreases |items|
  {
    if items == [] then None
    else if items[0].0 == key then Some(items[0].1)
    else Get(items[1..], key)
  }

  /** The keys of a Python dict are distinct. */
  predicate UniqueKeys(items: seq<(string, Value)>) {
    forall i, j :: 0 <= i < j < |items| ==> items[i].0 != items[j].0
  }

  /** With distinct keys, the lookup finds exactly the item stored under the key. */
  lemma {:induction false} GetFindsItem(items: seq<(string, Value)>, key: string, v: Value)
    requires UniqueKeys(items)
    ensures Get(items, key) == Some(v) <==> (key, v) in items
    decreases |items|
  {
    if items != [] && items[0].0 != key {
      assert UniqueKeys(items[1..]) by {
        assert forall i :: 0 <= i < |items| - 1 ==> items[1..][i] == items[i + 1];
      }
      GetFindsItem(items[1..], key, v);
      assert (key, v) in items <==> (key, v) in items[1..] by {
        assert items == [items[0]] + items[1..];
      }
    }
  }

  /** `d.values()`, in iteration order. */
  function Values(items: seq<(string, Value)>): (vs: seq<Value>)
    ensures |vs| == |items| && forall i :: 0 <= i < |items| ==> vs[i] == items[i].1
  {
    seq(|items|, i requires 0 <= i < |items| => items[i].1)
  }

  // ----- Score sums -----

  /** What one domain entry adds to `total`: the entry's `key` field when the entry is a
      dict holding it, nothing otherwise; with `skipNone`, a `None` field adds nothing too.
      A bool is an int in Python and adds 1 or 0; adding anything else raises a TypeError. */
  function Contribution(v: Value, key: string, skipNone: bool): Result<int> {
    if !v.DictV? then Ok(0)
    else
      match Get(v.items, key)
      case None => Ok(0)
      case Some(f) =>
        if f.IntV? then Ok(f.i)
        else if f.BoolV? then Ok(if f.b then 1 else 0)
        else if f.NoneV? && skipNone then Ok(0)
        else Err("TypeError")
  }

  /** Two partial sums added: the first error wins. */
  function AddResults(a: Result<int>, b: Result<int>): Result<int> {
    if a.Err? then a else if b.Err? then b else Ok(a.value + b.value)
  }

  /** The loop `for score in values: total += …` over the entries seen so far. */
  function SumField(vs: seq<Value>, key: string, skipNone: bool): Result<int>
    decreases |vs|
  {
    if vs == [] then Ok(0)
    else AddResults(SumField(vs[..|vs| - 1], key, skipNone), Contribution(vs[|vs| - 1], key, skipNone))
  }

  /** The sum over a concatenation adds the sums of the parts, and fails exactly when one
      of them does. */
  lemma {:induction false} SumFieldConcat(a: seq<Value>, b: seq<Value>, key: string, skipNone: bool)
    ensures SumField(a + b, key, skipNone) == AddResults(SumField(a, key, skipNone), SumField(b, key, skipNone))
    decreases |b|
  {
    if b == [] {
      assert a + b == a;
    } else {
      var b' := b[..|b| - 1];
      assert (a + b)[..|a + b| - 1] == a + b';
      assert (a + b)[|a + b| - 1] == b[|b| - 1];
      SumFieldConcat(a, b', key, skipNone);
    }
  }

  /** The sum fails exactly when some entry's field cannot be added. */
  lemma {:induction false} SumFieldFails(vs: seq<Value>, key: string, skipNone: bool)
    ensures SumField(vs, key, skipNone).Err? <==> exists i :: 0 <= i < |vs| && Contribution(vs[i], key, skipNone).Err?
    decreases |vs|
  {
    if vs != [] {
      var init := vs[..|vs| - 1];
      SumFieldFails(init, key, skipNone);
      assert forall i :: 0 <= i < |init| ==> init[i] == vs[i];
    }
  }

  /** An entry that is not a dict, or has no such field, is skipped wherever it sits. */
  lemma SumFieldSkips(a: seq<Value>, v: Value, b: seq<Value>, key: string, skipNone: bool)
    requires !v.DictV? || Get(v.items, key).None?
    ensures SumField(a + [v] + b, key, skipNone) == SumField(a + b, key, skipNone)
  {
    SumFieldConcat(a + [v], b, key, skipNone);
    SumFieldConcat(a, [v], key, skipNone);
    SumFieldConcat(a, b, key, skipNone);
    assert [v][..0] == [];
  }

  /** Every failure is the TypeError of an addition. */
  lemma {:induction false} SumFieldTypeError(vs: seq<Value>, key: string, skipNone: bool)
    ensures SumField(vs, key, skipNone).Err? ==> SumField(vs, key, skipNone) == Err("TypeError")
    decreases |vs|
  {
    if vs != [] {
      SumFieldTypeError(vs[..|vs| - 1], key, skipNone);
    }
  }

  /** One entry whose field cannot be added makes the whole sum a TypeError. */
  lemma SumFieldFailsAt(vs: seq<Value>, k: nat, key: string, skipNone: bool)
    requires k < |vs| && Contribution(vs[k], key, skipNone).Err?
    ensures SumField(vs, key, skipNone) == Err("TypeError")
  {
    SumFieldFails(vs, key, skipNone);
    SumFieldTypeError(vs, key, skipNone);
  }

  /** The loop itself: add each entry's field, stopping at the first TypeError. */
  method SumFieldLoop(vs: seq<Value>, key: string, skipNone: bool) returns (r: Result<int>)
    ensures r == SumField(vs, key, skipNone)
  {
    var total := 0;
    var k := 0;
    while k < |vs|
      invariant 0 <= k <= |vs|
      invariant SumField(vs[..k], key, skipNone) == Ok(total)
    {
      assert vs[..k + 1][..k] == vs[..k];
      var score := vs[k];
      if score.DictV? {
        var f := Get(score.items, key);
        if f.Some? {
          if f.value.IntV? {
            total := total + f.value.i;
          } else if f.value.BoolV? {
            total := total + if f.value.b then 1 else 0;
          } else if !(f.value.NoneV? && skipNone) {
            SumFieldFailsAt(vs, k, key, skipNone);
            return Err("TypeError");
          }
        }
      }
      k := k + 1;
    }
    assert vs[..|vs|] == vs;
    r := Ok(total);
  }

  /** `sum_scores`: the sum of `note_brute` over the dict entries that hold it. */
  method SumScores(domainScores: seq<(string, Value)>) returns (r: Result<int>)
    ensures r == SumField(Values(domainScores), "note_brute", false)
  {
    r := SumFieldLoop(Values(domainScores), "note_brute", false);
  }

  /** The argument of `sum_echelle_v`: the values of a dict, a dict, or anything else. */
  datatype EchelleArg = DictValues(vs: seq<Value>) | DictArg(items: seq<(string, Value)>) | OtherArg

  /** `sum_echelle_v`: the sum of the non-`None` `note_echelle_v` fields over the dict
      entries that hold one; 0 for an argument that is neither a dict nor dict values. */
  method SumEchelleV(domainScores: EchelleArg) returns (r: Result<int>)
    ensures domainScores.DictValues? ==> r == SumField(domainScores.vs, "note_echelle_v", true)
    ensures domainScores.DictArg? ==> r == SumField(Values(domainScores.items), "note_echelle_v", true)
    ensures domainScores.OtherArg? ==> r == Ok(0)
  {
    match domainScores
    case DictValues(vs) => r := SumFieldLoop(vs, "note_echelle_v", true);
    case DictArg(items) => r := SumFieldLoop(Values(items), "note_echelle_v", true);
    case OtherArg => r := Ok(0);
  }

  /** A bool field is added as the int it is, 1 for `True` and 0 for `False`, by both
      sums; only a field that is neither an int nor a bool (nor a skipped `None`) fails. */
  lemma BoolFieldAdds(a: seq<Value>, b: seq<Value>, key: string, x: bool, skipNone: bool)
    ensures SumField(a + [DictV([(key, BoolV(x))])] + b, key, skipNone)
         == AddResults(SumField(a + b, key, skipNone), Ok(if x then 1 else 0))
    ensures forall v :: Contribution(v, key, skipNone).Err? <==>
      v.DictV? && Get(v.items, key).Some? && !Get(v.items, key).value.IntV? && !Get(v.items, key).value.BoolV?
      && !(Get(v.items, key).value.NoneV? && skipNone)
  {
    var v := DictV([(key, BoolV(x))]);
    SumFieldConcat(a + [v], b, key, skipNone);
    SumFieldConcat(a, [v], key, skipNone);
    SumFieldConcat(a, b, key, skipNone);
    assert [v][..0] == [];
  }

  /** With every field an int or missing, the sum is that of the ints; an entry with a
      `None` v-scale note is skipped by `sum_echelle_v` but breaks `sum_scores`. */
  lemma NoneFieldHandling(a: seq<Value>, b: seq<Value>, key: string)
    ensures SumField(a + [DictV([(key, NoneV)])] + b, key, true) == SumField(a + b, key, true)
    ensures SumField(a + [DictV([(key, NoneV)])] + b, key, false).Err?
  {
    var v := DictV([(key, NoneV)]);
    SumFieldConcat(a + [v], b, key, true);
    SumFieldConcat(a, [v], key, true);
    SumFieldConcat(a, b, key, true);
    SumFieldConcat(a + [v], b, key, false);
    SumFieldConcat(a, [v], key, false);
    assert [v][..0] == [];
  }

  // ----- Arithmetic filters -----

  /** Python's `int(v)`: an int, a bool (1 or 0), or a str holding an integer literal;
      None, dicts and objects without an integer conversion raise (ValueError or
      TypeError). */
  function PyInt(v: Value): (r: Option<int>)
    ensures v.IntV? ==> r == Some(v.i)
    ensures v.BoolV? ==> r == Some(if v.b then 1 else 0)
    ensures v.NoneV? || v.DictV? || v.OtherV? ==> r.None?
  {
    match v
    case IntV(i) => Some(i)
    case BoolV(b) => Some(if b then 1 else 0)
    case StrV(s) => ParseInt(s)
    case _ => None
  }

  /** `subtract`: `int(value) - int(arg)`, or 0 when either conversion fails. */
  function Subtract(value: Value, arg: Value): (r: int)
    ensures PyInt(value).Some? && PyInt(arg).Some? ==> r == PyInt(value).value - PyInt(arg).value
    ensures PyInt(value).None? || PyInt(arg).None? ==> r == 0
  {
    match (PyInt(value), PyInt(arg))
    case (Some(a), Some(b)) => a - b
    case _ => 0
  }

  /** `multiply`: `int(value) * int(arg)`, or 0 when either conversion fails. */
  function Multiply(value: Value, arg: Value): (r: int)
    ensures PyInt(value).Some? && PyInt(arg).Some? ==> r == PyInt(value).value * PyInt(arg).value
    ensures PyInt(value).None? || PyInt(arg).None? ==> r == 0
  {
    match (PyInt(value), PyInt(arg))
    case (Some(a), Some(b)) => a * b
    case _ => 0
  }

  /** Integers and their decimal texts give the difference and product; swapping the
      arguments negates the difference and keeps the product; a missing value gives 0. */
  lemma ArithmeticFilters(a: int, b: int, x: Value, y: Value)
    ensures Subtract(StrV(IntToString(a)), IntV(b)) == a - b && Multiply(IntV(a), StrV(IntToString(b))) == a * b
    ensures Subtract(x, y) == -Subtract(y, x) && Multiply(x, y) == Multiply(y, x)
    ensures Subtract(NoneV, x) == 0 && Multiply(x, NoneV) == 0
  {
    ParseIntOfIntToString(a);
    ParseIntOfIntToString(b);
  }

  // ----- Notes -----

  /** The characters `lstrip('.-•')` removes. */
  predicate IsNoteSeparator(c: char) {
    c == '.' || c == '-' || c == '•'
  }

  /** `s.lstrip('.-•')`. */
  function LStripSeparators(s: string): string
    decreases |s|
  {
    if s != [] && IsNoteSeparator(s[0]) then LStripSeparators(s[1..]) else s
  }

  /** `s.strip()` ends at non-space characters at both ends. */
  lemma StripEnds(s: string)
    ensures Strip(s) != [] ==> !IsPySpace(Strip(s)[0]) && !IsPySpace(Strip(s)[|Strip(s)| - 1])
  {
    LStripMeaning(s);
    RStripMeaning(LStrip(s));
  }

  /** The text with the three separators followed by a space marked by a '|'. */
  function MarkSeparators(value: string): string {
    Replace(Replace(Replace(value, ". ", ".|"), "- ", "-|"), "• ", "•|")
  }

  /** One piece cleaned as `split_notes` does: stripped, then its leading separators
      removed, then stripped again. */
  function CleanNote(note: string): string {
    Strip(LStripSeparators(Strip(note)))
  }

  /** The cleaned pieces that are not empty, in order. */
  function KeepNotes(pieces: seq<string>): seq<string>
    decreases |pieces|
  {
    if pieces == [] then []
    else
      var n := CleanNote(pieces[|pieces| - 1]);
      KeepNotes(pieces[..|pieces| - 1]) + (if n != "" then [n] else [])
  }

  /** `split_notes` as a function of its argument; `None` and the empty text give []. */
  function SplitNotesOf(value: Option<string>): seq<string> {
    if value.None? || value.value == "" then [] else KeepNotes(Split(MarkSeparators(value.value), '|'))
  }

  /** `split_notes`: mark, split at '|', and keep the non-empty cleaned pieces. */
  method SplitNotes(value: Option<string>) returns (cleanedNotes: seq<string>)
    ensures cleanedNotes == SplitNotesOf(value)
  {
    if value.None? || value.value == "" {
      return [];
    }
    var notes := Split(MarkSeparators(value.value), '|');
    cleanedNotes := [];
    var k := 0;
    while k < |notes|
      invariant 0 <= k <= |notes|
      invariant cleanedNotes == KeepNotes(notes[..k])
    {
      assert notes[..k + 1][..k] == notes[..k];
      var note := Strip(notes[k]);
      note := Strip(LStripSeparators(note));
      if note != "" {
        cleanedNotes := cleanedNotes + [note];
      }
      k := k + 1;
    }
    assert notes[..|notes|] == notes;
  }

  /** Every note kept is non-empty and carries no surrounding whitespace, and there are
      no more notes than pieces. */
  lemma {:induction false} KeepNotesClean(pieces: seq<string>)
    ensures |KeepNotes(pieces)| <= |pieces|
    ensures forall k :: 0 <= k < |KeepNotes(pieces)| ==> var n := KeepNotes(pieces)[k];
      n != "" && !IsPySpace(n[0]) && !IsPySpace(n[|n| - 1])
    decreases |pieces|
  {
    if pieces != [] {
      KeepNotesClean(pieces[..|pieces| - 1]);
      StripEnds(LStripSeparators(Strip(pieces[|pieces| - 1])));
    }
  }

  /** A piece holding a tab between two dots keeps its second dot: `split_notes(".\t.x")`
      is [".x"], a note that still starts with a separator. */
  lemma SplitNotesKeepsSeparator()
    ensures SplitNotesOf(Some(".\t.x")) == [".x"]
    ensures IsNoteSeparator(SplitNotesOf(Some(".\t.x"))[0][0])
  {
    DotSpaceDot('\t', 'x');
    assert ".\t.x" == ['.', '\t', '.', 'x'];
  }

  /** Two dots around whitespace other than a space, then text: the second dot stays. */
  lemma DotSpaceDot(w: char, x: char)
    requires IsPySpace(w) && w != ' ' && !IsPySpace(x) && !IsNoteSeparator(x) && x != '|'
    ensures SplitNotesOf(Some(['.', w, '.', x])) == [['.', x]]
  {
    SinglePiece(['.', w, '.', x]);
    CleanDotSpaceDot(w, x);
  }

  lemma CleanDotSpaceDot(w: char, x: char)
    requires IsPySpace(w) && !IsPySpace(x) && !IsNoteSeparator(x)
    ensures CleanNote(['.', w, '.', x]) == ['.', x]
  {
    var v := ['.', w, '.', x];
    assert LStrip(v) == v;
    assert RStrip(v) == v;
    assert v[1..] == [w, '.', x];
    assert LStripSeparators(v) == [w, '.', x];
    assert [w, '.', x][1..] == ['.', x];
    assert LStrip([w, '.', x]) == ['.', x];
    assert RStrip(['.', x]) == ['.', x];
  }

  /** The corrected cleaning removes both dots and the whitespace between them. */
  lemma DotSpaceDotCorrected(w: char, x: char)
    requires IsPySpace(w) && w != ' ' && !IsPySpace(x) && !IsNoteSeparator(x) && x != '|'
    ensures SplitNotesCorrected(Some(['.', w, '.', x])) == [[x]]
  {
    SinglePiece(['.', w, '.', x]);
    CleanCorrectedDotSpaceDot(w, x);
  }

  lemma CleanCorrectedDotSpaceDot(w: char, x: char)
    requires IsPySpace(w) && !IsPySpace(x) && !IsNoteSeparator(x)
    ensures CleanNoteCorrected(['.', w, '.', x]) == [x]
  {
    var v := ['.', w, '.', x];
    var v1 := [w, '.', x];
    var v2 := ['.', x];
    var v3 := [x];
    assert v[1..] == v1 && v1[1..] == v2 && v2[1..] == v3;
    assert LStripNoise(v3) == v3;
    assert LStripNoise(v2) == v3;
    assert LStripNoise(v1) == v3;
    assert LStripNoise(v) == v3;
    assert RStrip(v3) == v3;
  }

  /** A text with no space and no '|' is a single piece for both cleanings. */
  lemma SinglePiece(t: string)
    requires t != "" && ' ' !in t && '|' !in t
    ensures SplitNotesOf(Some(t)) == if CleanNote(t) != "" then [CleanNote(t)] else []
    ensures SplitNotesCorrected(Some(t)) == if CleanNoteCorrected(t) != "" then [CleanNoteCorrected(t)] else []
  {
    ReplaceAbsent(t, ". ", ".|", 1);
    ReplaceAbsent(t, "- ", "-|", 1);
    ReplaceAbsent(t, "• ", "•|", 1);
    assert MarkSeparators(t) == t;
    SplitOfSeparatorFree(t, '|');
    assert [t][..0] == [] && [t][0] == t;
    assert KeepNotes([t]) == KeepNotes([]) + (if CleanNote(t) != "" then [CleanNote(t)] else []);
    assert KeepNotesCorrected([t]) == KeepNotesCorrected([]) + (if CleanNoteCorrected(t) != "" then [CleanNoteCorrected(t)] else []);
  }

  /** A pattern with a character that does not occur is never replaced. */
  lemma {:induction false} ReplaceAbsent(s: string, pat: string, rep: string, k: nat)
    requires k < |pat| && pat[k] !in s
    ensures Replace(s, pat, rep) == s
    decreases |s|
  {
    if |s| >= |pat| {
      assert s[..|pat|][k] == s[k];
      ReplaceAbsent(s[1..], pat, rep, k);
      assert [s[0]] + s[1..] == s;
    }
  }

  /** Leading whitespace and separators removed in one pass. */
  function LStripNoise(s: string): (r: string)
    ensures r != [] ==> !IsPySpace(r[0]) && !IsNoteSeparator(r[0])
    decreases |s|
  {
    if s != [] && (IsPySpace(s[0]) || IsNoteSeparator(s[0])) then LStripNoise(s[1..]) else s
  }

  /** A piece cleaned so that no separator survives at its start. */
  function CleanNoteCorrected(note: string): string {
    RStrip(LStripNoise(note))
  }

  /** `split_notes` with the corrected cleaning. */
  function SplitNotesCorrected(value: Option<string>): seq<string> {
    if value.None? || value.value == "" then [] else KeepNotesCorrected(Split(MarkSeparators(value.value), '|'))
  }

  function KeepNotesCorrected(pieces: seq<string>): seq<string>
    decreases |pieces|
  {
    if pieces == [] then []
    else
      var n := CleanNoteCorrected(pieces[|pieces| - 1]);
      KeepNotesCorrected(pieces[..|pieces| - 1]) + (if n != "" then [n] else [])
  }

  /** The corrected cleaning keeps a non-empty note exactly when the piece holds a
      character other than whitespace and separators, and the note starts with neither. */
  lemma CleanNoteCorrectedStarts(note: string)
    ensures var n := CleanNoteCorrected(note);
      n != [] ==> (!IsPySpace(n[0]) && !IsNoteSeparator(n[0]) && !IsPySpace(n[|n| - 1]))
  {
    var t := LStripNoise(note);
    RStripMeaning(t);
    if RStrip(t) != [] {
      assert RStrip(t)[0] == t[0];
    }
  }

  /** Every note of the corrected filter is non-empty, stripped, and starts with no
      separator. */
  lemma {:induction false} KeepNotesCorrectedClean(pieces: seq<string>)
    ensures |KeepNotesCorrected(pieces)| <= |pieces|
    ensures forall k :: 0 <= k < |KeepNotesCorrected(pieces)| ==> var n := KeepNotesCorrected(pieces)[k];
      n != "" && !IsPySpace(n[0]) && !IsNoteSeparator(n[0]) && !IsPySpace(n[|n| - 1])
    decreases |pieces|
  {
    if pieces != [] {
      KeepNotesCorrectedClean(pieces[..|pieces| - 1]);
      CleanNoteCorrectedStarts(pieces[|pieces| - 1]);
    }
  }

  /** What `split_notes` promises at the filter level: no notes for an absent or empty
      text, and otherwise only non-empty notes without surrounding whitespace. */
  lemma SplitNotesClean(value: Option<string>)
    ensures value.None? || value == Some("") ==> SplitNotesOf(value) == []
    ensures forall k :: 0 <= k < |SplitNotesOf(value)| ==> var n := SplitNotesOf(value)[k];
      n != "" && !IsPySpace(n[0]) && !IsPySpace(n[|n| - 1])
  {
    if value.Some? && value.value != "" {
      KeepNotesClean(Split(MarkSeparators(value.value), '|'));
    }
  }

  /** The corrected filter also keeps every note free of a leading separator. */
  lemma SplitNotesCorrectedClean(value: Option<string>)
    ensures value.None? || value == Some("") ==> SplitNotesCorrected(value) == []
    ensures forall k :: 0 <= k < |SplitNotesCorrected(value)| ==> var n := SplitNotesCorrected(value)[k];
      n != "" && !IsPySpace(n[0]) && !IsNoteSeparator(n[0]) && !IsPySpace(n[|n| - 1])
  {
    if value.Some? && value.value != "" {
      KeepNotesCorrectedClean(Split(MarkSeparators(value.value), '|'));
    }
  }

  /** On the counterexample the corrected filter drops the stray dot. */
  lemma SplitNotesCorrectedExample()
    ensures SplitNotesCorrected(Some(".\t.x")) == ["x"]
  {
    DotSpaceDotCorrected('\t', 'x');
    assert ".\t.x" == ['.', '\t', '.', 'x'];
  }

  // ----- Lookups -----

  /** A key as the templates pass it: an int, a str or None. */
  datatype Key = IntKey(n: int) | StrKey(s: string) | NoneKey

  /** `str(key)`. */
  function KeyString(key: Key): string {
    match key
    case IntKey(n) => IntToString(n)
    case StrKey(s) => s
    case NoneKey => "None"
  }

  /** `get_item`: `None` unless the argument is a dict, else the lookup of `str(key)`. */
  function GetItem(dictionary: Value, key: Key): (r: Option<Value>)
    ensures !dictionary.DictV? ==> r.None?
    ensures r.Some? ==> dictionary.DictV? && (KeyString(key), r.value) in dictionary.items
  {
    if !dictionary.DictV? then None else Get(dictionary.items, KeyString(key))
  }

  /** A non-dict gives `None`; in a dict with distinct keys the result is the value
      stored under `str(key)`, and `None` when there is none. */
  lemma GetItemMeaning(dictionary: Value, key: Key, v: Value)
    ensures !dictionary.DictV? ==> GetItem(dictionary, key).None?
    ensures dictionary.DictV? && UniqueKeys(dictionary.items) ==>
      (GetItem(dictionary, key) == Some(v) <==> (KeyString(key), v) in dictionary.items)
    ensures dictionary.DictV? ==>
      (GetItem(dictionary, key).None? <==> forall i :: 0 <= i < |dictionary.items| ==> dictionary.items[i].0 != KeyString(key))
  {
    if dictionary.DictV? && UniqueKeys(dictionary.items) {
      GetFindsItem(dictionary.items, KeyString(key), v);
    }
  }

  /** A number key finds the entry stored under its decimal text. */
  lemma GetItemIntKey(items: seq<(string, Value)>, n: int, v: Value)
    requires (IntToString(n), v) in items && UniqueKeys(items)
    ensures GetItem(DictV(items), IntKey(n)) == Some(v)
  {
    GetItemMeaning(DictV(items), IntKey(n), v);
  }

  /** Python truthiness. */
  predicate Truthy(v: Value) {
    match v
    case IntV(i) => i != 0
    case BoolV(b) => b
    case StrV(s) => s != ""
    case NoneV => false
    case DictV(items) => items != []
    case OtherV(_) => true
  }

  /** `str(v)` where it matters here: `None` for a non-empty dict, whose text holds a ':'. */
  function PyStr(v: Value): Option<string> {
    match v
    case IntV(i) => Some(IntToString(i))
    case BoolV(b) => Some(if b then "True" else "False")
    case StrV(s) => Some(s)
    case NoneV => Some("None")
    case DictV(items) => if items == [] then Some("{}") else None
    case OtherV(text) => Some(text)
  }

  /** `is_checked`: false for an empty argument, a spec that is not a text with exactly
      one ':', or data that is not a dict; otherwise whether the stored answer, as text
      ('' when missing), equals the expected value. */
  function IsChecked(initialData: Value, questionAndValue: Value): (b: bool)
    ensures b ==> initialData.DictV? && initialData.items != [] && questionAndValue.StrV?
                  && |Split(questionAndValue.s, ':')| == 2
  {
    if !Truthy(initialData) || !Truthy(questionAndValue) then false
    else if !questionAndValue.StrV? then false
    else
      var parts := Split(questionAndValue.s, ':');
      if |parts| != 2 || !initialData.DictV? then false
      else PyStr(Get(initialData.items, parts[0]).GetOr(StrV(""))) == Some(parts[1])
  }

  /** For a box spec `key:expected`, the box is checked exactly when the stored answer
      reads as `expected`; a spec with a second ':' never checks a box, nor does empty data. */
  lemma IsCheckedMeaning(items: seq<(string, Value)>, key: string, expected: string, more: string)
    requires ':' !in key && ':' !in expected
    ensures items != [] ==> (IsChecked(DictV(items), StrV(key + ":" + expected)) <==>
      PyStr(Get(items, key).GetOr(StrV(""))) == Some(expected))
    ensures !IsChecked(DictV(items), StrV(key + ":" + expected + ":" + more))
    ensures !IsChecked(DictV([]), StrV(key + ":" + expected))
  {
    SplitOfSeparatorFree(expected, ':');
    SplitAfterPiece(key, expected, ':');
    SplitAfterPiece(key, expected + ":" + more, ':');
    SplitAfterPiece(expected, more, ':');
    assert key + ":" + expected + ":" + more == key + [':'] + (expected + [':'] + more);
  }

  /** An integer answer checks the box whose expected value is its decimal text. */
  lemma IsCheckedIntAnswer(items: seq<(string, Value)>, key: string, n: int)
    requires ':' !in key && UniqueKeys(items) && (key, IntV(n)) in items
    ensures IsChecked(DictV(items), StrV(key + ":" + IntToString(n)))
  {
    IntToStringChars(n);
    GetFindsItem(items, key, IntV(n));
    IsCheckedMeaning(items, key, IntToString(n), "");
  }
}
