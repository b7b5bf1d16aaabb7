module VinelandPairs {
  import opened Wrappers
  import opened Lookup

  datatype Scored = Scored(name: string, note: int, id: nat, domaine: string)

  // ----- Which pairs are compared -----

  /** Whether pair (i, k) enters the list: always, except that the inter-domain list skips
      two subdomains of the same domain. */
  predicate Selected(items: seq<Scored>, i: nat, k: nat, interDomain: bool)
    requires i < |items| && k < |items|
  {
    !interDomain || items[i].domaine != items[k].domaine
  }

  predicate LexLess(p: (nat, nat), q: (nat, nat)) {
    p.0 < q.0 || (p.0 == q.0 && p.1 < q.1)
  }

  /** The pairs the inner loop visits for row i before reaching column j. */
  function RowPairs(items: seq<Scored>, i: nat, j: nat, interDomain: bool): (r: seq<(nat, nat)>)
    requires i < |items| && j <= |items|
    decreases j
  {
    if j <= i + 1 then []
    else RowPairs(items, i, j - 1, interDomain) + (if Selected(items, i, j - 1, interDomain) then [(i, j - 1)] else [])
  }

  /** The pairs the two loops visit before row i. */
  function PairsBefore(items: seq<Scored>, i: nat, interDomain: bool): (r: seq<(nat, nat)>)
    requires i <= |items|
    decreases i
  {
    if i == 0 then []
    else PairsBefore(items, i - 1, interDomain) + RowPairs(items, i - 1, |items|, interDomain)
  }

  /** Every pair i < j the generators visit, in visiting order. */
  function Pairs(items: seq<Scored>, interDomain: bool): (r: seq<(nat, nat)>)
  {
    PairsBefore(items, |items|, interDomain)
  }

  /** A pair is visited in row i exactly when it is selected, in increasing column order. */
  lemma {:induction false} RowPairsMembers(items: seq<Scored>, i: nat, j: nat, interDomain: bool)
    requires i < |items| && j <= |items|
    ensures forall k :: 0 <= k < |RowPairs(items, i, j, interDomain)| ==>
      RowPairs(items, i, j, interDomain)[k].0 == i && i < RowPairs(items, i, j, interDomain)[k].1 < j &&
      Selected(items, i, RowPairs(items, i, j, interDomain)[k].1, interDomain)
    ensures forall y: nat :: i < y < j && Selected(items, i, y, interDomain) ==> (i, y) in RowPairs(items, i, j, interDomain)
    ensures forall a, b :: 0 <= a < b < |RowPairs(items, i, j, interDomain)| ==>
      RowPairs(items, i, j, interDomain)[a].1 < RowPairs(items, i, j, interDomain)[b].1
    decreases j
  {
    if j > i + 1 {
      RowPairsMembers(items, i, j - 1, interDomain);
      var prev := RowPairs(items, i, j - 1, interDomain);
      var tail: seq<(nat, nat)> := if Selected(items, i, j - 1, interDomain) then [(i, j - 1)] else [];
      var r := prev + tail;
      assert r == RowPairs(items, i, j, interDomain);
      forall k | 0 <= k < |r| ensures r[k].0 == i && i < r[k].1 < j && Selected(items, i, r[k].1, interDomain) {
        if k >= |prev| {
          assert r[k] == tail[k - |prev|];
        } else {
          assert r[k] == prev[k];
        }
      }
      forall y: nat | i < y < j && Selected(items, i, y, interDomain) ensures (i, y) in r {
        if y < j - 1 {
          assert (i, y) in prev;
        } else {
          assert r[|prev|] == (i, y);
        }
      }
      forall a, b | 0 <= a < b < |r| ensures r[a].1 < r[b].1 {
        if b >= |prev| {
          assert r[b] == (i, j - 1);
          if a < |prev| {
            assert r[a] == prev[a];
          }
        } else {
          assert r[a] == prev[a] && r[b] == prev[b];
        }
      }
    }
  }

  /** A pair is visited before row i exactly when it is selected and its row is earlier;
      the visited pairs are in lexicographic order. */
  lemma {:induction false} PairsBeforeMembers(items: seq<Scored>, i: nat, interDomain: bool)
    requires i <= |items|
    ensures forall k :: 0 <= k < |PairsBefore(items, i, interDomain)| ==>
      PairsBefore(items, i, interDomain)[k].0 < i &&
      PairsBefore(items, i, interDomain)[k].0 < PairsBefore(items, i, interDomain)[k].1 < |items| &&
      Selected(items, PairsBefore(items, i, interDomain)[k].0, PairsBefore(items, i, interDomain)[k].1, interDomain)
    ensures forall x: nat, y: nat :: x < i && x < y < |items| && Selected(items, x, y, interDomain) ==>
      (x, y) in PairsBefore(items, i, interDomain)
    ensures forall a, b :: 0 <= a < b < |PairsBefore(items, i, interDomain)| ==>
      LexLess(PairsBefore(items, i, interDomain)[a], PairsBefore(items, i, interDomain)[b])
    decreases i
  {
    if i > 0 {
      PairsBeforeMembers(items, i - 1, interDomain);
      RowPairsMembers(items, i - 1, |items|, interDomain);
      var before := PairsBefore(items, i - 1, interDomain);
      var row := RowPairs(items, i - 1, |items|, interDomain);
      var r := before + row;
      assert r == PairsBefore(items, i, interDomain);
      forall a, b | 0 <= a < b < |r| ensures LexLess(r[a], r[b]) {
        if b < |before| {
          assert r[a] == before[a] && r[b] == before[b];
        } else if a >= |before| {
          assert r[a] == row[a - |before|] && r[b] == row[b - |before|];
        } else {
          assert r[b] == row[b - |before|];
        }
      }
      forall x: nat, y: nat | x < i && x < y < |items| && Selected(items, x, y, interDomain) ensures (x, y) in r {
        if x < i - 1 {
          assert (x, y) in before;
        } else {
          assert (x, y) in row;
        }
      }
    }
  }

  /** The visited pairs are exactly the selected pairs i < j, each once, in lexicographic order. */
  lemma PairsExactlyOnce(items: seq<Scored>, interDomain: bool)
    ensures forall x: nat, y: nat :: (x, y) in Pairs(items, interDomain) <==>
      x < y < |items| && Selected(items, x, y, interDomain)
    ensures forall a, b :: 0 <= a < b < |Pairs(items, interDomain)| ==>
      LexLess(Pairs(items, interDomain)[a], Pairs(items, interDomain)[b]) && Pairs(items, interDomain)[a] != Pairs(items, interDomain)[b]
  {
    PairsBeforeMembers(items, |items|, interDomain);
  }

  lemma {:induction false} RowPairsCount(items: seq<Scored>, i: nat, j: nat)
    requires i < |items| && i < j <= |items|
    ensures |RowPairs(items, i, j, false)| == j - i - 1
    decreases j
  {
    if j > i + 1 {
      RowPairsCount(items, i, j - 1);
    }
  }

  lemma {:induction false} PairsBeforeCount(items: seq<Scored>, i: nat)
    requires i <= |items|
    ensures 2 * |PairsBefore(items, i, false)| == i * (2 * |items| - i - 1)
    decreases i
  {
    if i > 0 {
      PairsBeforeCount(items, i - 1);
      RowPairsCount(items, i - 1, |items|);
      var n := |items|;
      assert i * (2 * n - i - 1) == (i - 1) * (2 * n - (i - 1) - 1) + 2 * (n - i);
    }
  }

  /** n scores give n(n-1)/2 domain or intra-domain comparisons. */
  lemma AllPairsCount(items: seq<Scored>)
    ensures 2 * |Pairs(items, false)| == |items| * (|items| - 1)
  {
    PairsBeforeCount(items, |items|);
  }

  // ----- The comparison lists -----


  /** The entry for the pair of positions p; indexing past the end raises `IndexError`,
      which the generators never do. */
  function EntryAt<T>(items: seq<Scored>, p: (nat, nat), entry: (Scored, Scored) -> Result<T>): Result<T> {
    if p.0 < |items| && p.1 < |items| then entry(items[p.0], items[p.1]) else Err("IndexError")
  }

  /** The entries for `pairs` in order, or the error of the first pair whose entry raises. */
  function Records<T>(items: seq<Scored>, pairs: seq<(nat, nat)>, entry: (Scored, Scored) -> Result<T>): Result<seq<T>>
    decreases |pairs|
  {
    if pairs == [] then Ok([])
    else
      var p := pairs[|pairs| - 1];
      match Records(items, pairs[..|pairs| - 1], entry)
      case Err(m) => Err(m)
      case Ok(done) =>
        match EntryAt(items, p, entry)
        case Err(m) => Err(m)
        case Ok(c) => Ok(done + [c])
  }

  /** A successful entry list has one entry per pair, in pair order. */
  lemma {:induction false} RecordsOk<T>(items: seq<Scored>, pairs: seq<(nat, nat)>, entry: (Scored, Scored) -> Result<T>)
    requires Records(items, pairs, entry).Ok?
    ensures |Records(items, pairs, entry).value| == |pairs|
    ensures forall k :: 0 <= k < |pairs| ==>
      EntryAt(items, pairs[k], entry) == Ok(Records(items, pairs, entry).value[k])
    decreases |pairs|
  {
    if pairs != [] {
      var init := pairs[..|pairs| - 1];
      RecordsOk(items, init, entry);
      var done := Records(items, init, entry).value;
      var last := pairs[|pairs| - 1];
      var c := entry(items[last.0], items[last.1]).value;
      assert Records(items, pairs, entry).value == done + [c];
      forall k | 0 <= k < |pairs|
        ensures EntryAt(items, pairs[k], entry) == Ok(Records(items, pairs, entry).value[k])
      {
        if k < |init| {
          assert pairs[k] == init[k];
        }
      }
    }
  }

  /** The pair at index k is the first whose entry raises. */
  predicate FailsFirstAt<T>(items: seq<Scored>, pairs: seq<(nat, nat)>, entry: (Scored, Scored) -> Result<T>, k: int)
  {
    0 <= k < |pairs| && EntryAt(items, pairs[k], entry).Err? &&
    forall m :: 0 <= m < k ==> EntryAt(items, pairs[m], entry).Ok?
  }

  /** A failed entry list fails with the error of its first failing pair. */
  lemma {:induction false} RecordsErr<T>(items: seq<Scored>, pairs: seq<(nat, nat)>, entry: (Scored, Scored) -> Result<T>)
    requires Records(items, pairs, entry).Err?
    ensures exists k :: FailsFirstAt(items, pairs, entry, k) && EntryAt(items, pairs[k], entry) == Err(Records(items, pairs, entry).message)
    decreases |pairs|
  {
    var init := pairs[..|pairs| - 1];
    assert forall m :: 0 <= m < |init| ==> init[m] == pairs[m];
    if Records(items, init, entry).Err? {
      RecordsErr(items, init, entry);
      var k :| FailsFirstAt(items, init, entry, k) && EntryAt(items, init[k], entry) == Err(Records(items, init, entry).message);
      assert init[k] == pairs[k];
      assert FailsFirstAt(items, pairs, entry, k);
    } else {
      RecordsOk(items, init, entry);
      var k := |pairs| - 1;
      assert EntryAt(items, pairs[k], entry) == Err(Records(items, pairs, entry).message);
      assert FailsFirstAt(items, pairs, entry, k);
    }
  }

  lemma {:induction false} RecordsErrorPrefix<T>(items: seq<Scored>, p: seq<(nat, nat)>, q: seq<(nat, nat)>, entry: (Scored, Scored) -> Result<T>)
    requires p <= q && Records(items, p, entry).Err?
    ensures Records(items, q, entry) == Records(items, p, entry)
    decreases |q|
  {
    if |q| > |p| {
      var init := q[..|q| - 1];
      assert p <= init;
      RecordsErrorPrefix(items, p, init, entry);
    } else {
      assert p == q;
    }
  }

  lemma {:induction false} RowPairsPrefix(items: seq<Scored>, i: nat, j: nat, interDomain: bool)
    requires i < |items| && j <= |items|
    ensures RowPairs(items, i, j, interDomain) <= RowPairs(items, i, |items|, interDomain)
    decreases |items| - j
  {
    if j < |items| {
      RowPairsPrefix(items, i, j + 1, interDomain);
      if j < i + 1 {
        assert RowPairs(items, i, j, interDomain) == [];
      }
    }
  }

  lemma {:induction false} PairsBeforePrefix(items: seq<Scored>, i: nat, interDomain: bool)
    requires i <= |items|
    ensures PairsBefore(items, i, interDomain) <= Pairs(items, interDomain)
    decreases |items| - i
  {
    if i < |items| {
      PairsBeforePrefix(items, i + 1, interDomain);
    }
  }

  lemma {:induction false} RecordsSnoc<T>(items: seq<Scored>, pairs: seq<(nat, nat)>, p: (nat, nat), entry: (Scored, Scored) -> Result<T>, done: seq<T>)
    requires p.0 < |items| && p.1 < |items|
    requires Records(items, pairs, entry) == Ok(done)
    ensures EntryAt(items, p, entry).Err? ==> Records(items, pairs + [p], entry) == Err(EntryAt(items, p, entry).message)
    ensures EntryAt(items, p, entry).Ok? ==> Records(items, pairs + [p], entry) == Ok(done + [EntryAt(items, p, entry).value])
  {
    var next := pairs + [p];
    assert next[..|next| - 1] == pairs;
  }

  /** The pairs the loops have visited on reaching column j of row i. */
  function Visited(items: seq<Scored>, i: nat, j: nat, interDomain: bool): (r: seq<(nat, nat)>)
    requires i < |items| && j <= |items|
  {
    PairsBefore(items, i, interDomain) + RowPairs(items, i, j, interDomain)
  }

  lemma {:induction false} VisitedSelected(items: seq<Scored>, i: nat, j: nat, interDomain: bool)
    requires i < j < |items| && Selected(items, i, j, interDomain)
    ensures Visited(items, i, j + 1, interDomain) == Visited(items, i, j, interDomain) + [(i, j)]
  {
  }

  lemma {:induction false} VisitedSkipped(items: seq<Scored>, i: nat, j: nat, interDomain: bool)
    requires i < j < |items| && !Selected(items, i, j, interDomain)
    ensures Visited(items, i, j + 1, interDomain) == Visited(items, i, j, interDomain)
  {
    assert RowPairs(items, i, j + 1, interDomain) == RowPairs(items, i, j, interDomain) + [];
  }

  lemma {:induction false} VisitedRowEnds(items: seq<Scored>, i: nat, interDomain: bool)
    requires i < |items|
    ensures Visited(items, i, i + 1, interDomain) == PairsBefore(items, i, interDomain)
    ensures Visited(items, i, |items|, interDomain) == PairsBefore(items, i + 1, interDomain)
  {
    assert PairsBefore(items, i, interDomain) + [] == PairsBefore(items, i, interDomain);
  }

  /** What the loops have visited in row i is a prefix of the pairs up to the end of row i. */
  lemma {:induction false} VisitedRowPrefix(items: seq<Scored>, i: nat, j: nat, interDomain: bool)
    requires i < |items| && j <= |items|
    ensures Visited(items, i, j, interDomain) <= PairsBefore(items, i + 1, interDomain)
  {
    RowPairsPrefix(items, i, j, interDomain);
    VisitedRowEnds(items, i, interDomain);
    var before := PairsBefore(items, i, interDomain);
    var row := RowPairs(items, i, j, interDomain);
    var full := RowPairs(items, i, |items|, interDomain);
    assert row == full[..|row|];
    assert before + row == (before + full)[..|before| + |row|];
  }

  /** What the loops have visited is a prefix of all pairs. */
  lemma {:induction false} VisitedPrefix(items: seq<Scored>, i: nat, j: nat, interDomain: bool)
    requires i < |items| && j <= |items|
    ensures Visited(items, i, j, interDomain) <= Pairs(items, interDomain)
  {
    VisitedRowPrefix(items, i, j, interDomain);
    PairsBeforePrefix(items, i + 1, interDomain);
  }

  /** One selected pair whose entry is computed extends the visited entries by that entry;
      one that raises makes the whole of row i, and so all rows, raise. */
  lemma {:induction false} StepSelected<T>(items: seq<Scored>, i: nat, j: nat, entry: (Scored, Scored) -> Result<T>,
                                        interDomain: bool, acc: seq<T>)
    requires i < j < |items| && Selected(items, i, j, interDomain)
    requires Records(items, Visited(items, i, j, interDomain), entry) == Ok(acc)
    ensures entry(items[i], items[j]).Ok? ==>
      Records(items, Visited(items, i, j + 1, interDomain), entry) == Ok(acc + [entry(items[i], items[j]).value])
    ensures entry(items[i], items[j]).Err? ==>
      Records(items, PairsBefore(items, i + 1, interDomain), entry) == Err(entry(items[i], items[j]).message)
  {
    var visited := Visited(items, i, j, interDomain);
    VisitedSelected(items, i, j, interDomain);
    VisitedRowPrefix(items, i, j + 1, interDomain);
    RecordsSnoc(items, visited, (i, j), entry, acc);
    if entry(items[i], items[j]).Err? {
      RecordsErrorPrefix(items, visited + [(i, j)], PairsBefore(items, i + 1, interDomain), entry);
    }
  }

  /** What the inner loop returns from column j of row i on, having built `acc` so far. */
  function RowRun<T>(items: seq<Scored>, i: nat, j: nat, entry: (Scored, Scored) -> Result<T>, interDomain: bool,
                  acc: seq<T>): Result<seq<T>>
    requires i < |items| && j <= |items|
    decreases |items| - j
  {
    if j == |items| then Ok(acc)
    else if !Selected(items, i, j, interDomain) then RowRun(items, i, j + 1, entry, interDomain, acc)
    else match entry(items[i], items[j])
      case Err(m) => Err(m)
      case Ok(c) => RowRun(items, i, j + 1, entry, interDomain, acc + [c])
  }

  /** One column of the inner loop. */
  lemma RowRunStep<T>(items: seq<Scored>, i: nat, j: nat, entry: (Scored, Scored) -> Result<T>, interDomain: bool,
                      acc: seq<T>)
    requires i < |items| && j < |items|
    ensures !Selected(items, i, j, interDomain) ==>
      RowRun(items, i, j, entry, interDomain, acc) == RowRun(items, i, j + 1, entry, interDomain, acc)
    ensures Selected(items, i, j, interDomain) && entry(items[i], items[j]).Err? ==>
      RowRun(items, i, j, entry, interDomain, acc) == Err(entry(items[i], items[j]).message)
    ensures Selected(items, i, j, interDomain) && entry(items[i], items[j]).Ok? ==>
      RowRun(items, i, j, entry, interDomain, acc) == RowRun(items, i, j + 1, entry, interDomain, acc + [entry(items[i], items[j]).value])
  {
  }

  /** Finishing row i from column j on gives the entries up to the end of row i. */
  lemma {:induction false} RowRunIsRecords<T>(items: seq<Scored>, i: nat, j: nat, entry: (Scored, Scored) -> Result<T>,
                                           interDomain: bool, acc: seq<T>)
    requires i < j <= |items|
    requires Records(items, Visited(items, i, j, interDomain), entry) == Ok(acc)
    ensures RowRun(items, i, j, entry, interDomain, acc) == Records(items, PairsBefore(items, i + 1, interDomain), entry)
    decreases |items| - j
  {
    if j == |items| {
      VisitedRowEnds(items, i, interDomain);
    } else if Selected(items, i, j, interDomain) {
      StepSelected(items, i, j, entry, interDomain, acc);
      RowRunStep(items, i, j, entry, interDomain, acc);
      var e := entry(items[i], items[j]);
      if e.Ok? {
        RowRunIsRecords(items, i, j + 1, entry, interDomain, acc + [e.value]);
      }
    } else {
      RowRunStep(items, i, j, entry, interDomain, acc);
      VisitedSkipped(items, i, j, interDomain);
      RowRunIsRecords(items, i, j + 1, entry, interDomain, acc);
    }
  }

  /** The inner `for` loop of the generators: the pairs of row i, appended to the entries
      of the earlier rows, or the error of the first raising pair. */
  method CompareRow<T>(items: seq<Scored>, i: nat, entry: (Scored, Scored) -> Result<T>, interDomain: bool,
                    done: seq<T>) returns (r: Result<seq<T>>)
    requires i < |items|
    requires Records(items, PairsBefore(items, i, interDomain), entry) == Ok(done)
    ensures r == Records(items, PairsBefore(items, i + 1, interDomain), entry)
  {
    VisitedRowEnds(items, i, interDomain);
    RowRunIsRecords(items, i, i + 1, entry, interDomain, done);
    var acc := done;
    var j := i + 1;
    while j < |items|
      invariant i + 1 <= j <= |items|
      invariant RowRun(items, i, j, entry, interDomain, acc) == RowRun(items, i, i + 1, entry, interDomain, done)
    {
      if Selected(items, i, j, interDomain) {
        var c := entry(items[i], items[j]);
        if c.Err? {
          return Err(c.message);
        }
        acc := acc + [c.value];
      }
      j := j + 1;
    }
    return Ok(acc);
  }

  /** The two nested `for` loops shared by the three generators: every selected pair
      i < j, in order, the first raising pair aborting the list. */
  method CompareAll<T>(items: seq<Scored>, entry: (Scored, Scored) -> Result<T>, interDomain: bool)
    returns (r: Result<seq<T>>)
    ensures r == Records(items, Pairs(items, interDomain), entry)
  {
    var acc: seq<T> := [];
    var i := 0;
    while i < |items|
      invariant 0 <= i <= |items|
      invariant Records(items, PairsBefore(items, i, interDomain), entry) == Ok(acc)
    {
      var row := CompareRow(items, i, entry, interDomain, acc);
      if row.Err? {
        PairsBeforePrefix(items, i + 1, interDomain);
        RecordsErrorPrefix(items, PairsBefore(items, i + 1, interDomain), Pairs(items, interDomain), entry);
        return row;
      }
      acc := row.value;
      i := i + 1;
    }
    return Ok(acc);
  }

  // ----- Grouping subdomains by domain -----

  function KeyIndex(groups: seq<(string, seq<Scored>)>, domaine: string): Option<nat> {
    FirstIndex(groups, (g: (string, seq<Scored>)) => g.0 == domaine)
  }

  /** The dictionary the grouping loop builds, in insertion order: a new key for a domain
      seen for the first time, an append to its list otherwise. */
  function Groups(items: seq<Scored>): seq<(string, seq<Scored>)>
    decreases |items|
  {
    if items == [] then []
    else
      var g := Groups(items[..|items| - 1]);
      var x := items[|items| - 1];
      match KeyIndex(g, x.domaine)
      case None => g + [(x.domaine, [x])]
      case Some(k) => g[k := (x.domaine, g[k].1 + [x])]
  }

  /** The domains in order of first appearance. */
  function DomainOrder(items: seq<Scored>): (r: seq<string>)
    ensures forall a, b :: 0 <= a < b < |r| ==> r[a] != r[b]
    ensures forall d :: d in r <==> exists i :: 0 <= i < |items| && items[i].domaine == d
    decreases |items|
  {
    if items == [] then []
    else
      var init := DomainOrder(items[..|items| - 1]);
      var d := items[|items| - 1].domaine;
      assert forall i :: 0 <= i < |items| - 1 ==> items[..|items| - 1][i] == items[i];
      if d in init then init else init + [d]
  }

  /** The subdomains of one domain, in sheet order. */
  function Members(items: seq<Scored>, domaine: string): (r: seq<Scored>)
    ensures forall x :: x in r ==> x in items && x.domaine == domaine
    decreases |items|
  {
    if items == [] then []
    else
      var x := items[|items| - 1];
      Members(items[..|items| - 1], domaine) + (if x.domaine == domaine then [x] else [])
  }

  lemma {:induction false} MembersOfAbsent(items: seq<Scored>, domaine: string)
    requires forall i :: 0 <= i < |items| ==> items[i].domaine != domaine
    ensures Members(items, domaine) == []
    decreases |items|
  {
    if items != [] {
      MembersOfAbsent(items[..|items| - 1], domaine);
    }
  }

  /** The grouping keeps one group per domain, in order of first appearance, and each group
      lists exactly that domain's subdomains in sheet order. */
  lemma {:induction false} GroupsMeaning(items: seq<Scored>)
    ensures |Groups(items)| == |DomainOrder(items)|
    ensures forall k :: 0 <= k < |Groups(items)| ==>
      Groups(items)[k].0 == DomainOrder(items)[k] && Groups(items)[k].1 == Members(items, DomainOrder(items)[k])
    decreases |items|
  {
    if items != [] {
      var init := items[..|items| - 1];
      GroupsMeaning(init);
      var g := Groups(init);
      var order := DomainOrder(init);
      var x := items[|items| - 1];
      match KeyIndex(g, x.domaine)
      case None =>
        assert x.domaine !in order;
        MembersOfAbsent(init, x.domaine);
      case Some(k) =>
        assert order[k] == x.domaine;
        forall k' | 0 <= k' < |g| && k' != k ensures order[k'] != x.domaine {
        }
    }
  }

  /** The grouping loop of `generate_sous_domaine_comparisons`. */
  method GroupByDomain(items: seq<Scored>) returns (groups: seq<(string, seq<Scored>)>)
    ensures groups == Groups(items)
  {
    groups := [];
    for i := 0 to |items|
      invariant groups == Groups(items[..i])
    {
      assert items[..i + 1][..i] == items[..i];
      var x := items[i];
      match KeyIndex(groups, x.domaine)
      case None =>
        groups := groups + [(x.domaine, [x])];
      case Some(k) =>
        groups := groups[k := (x.domaine, groups[k].1 + [x])];
    }
    assert items[..|items|] == items;
  }

  /** The per-domain lists, in group order, or the first error. */
  function GroupedRecords<T>(groups: seq<(string, seq<Scored>)>, entry: (Scored, Scored) -> Result<T>): Result<seq<(string, seq<T>)>>
    decreases |groups|
  {
    if groups == [] then Ok([])
    else
      var g := groups[|groups| - 1];
      match GroupedRecords(groups[..|groups| - 1], entry)
      case Err(m) => Err(m)
      case Ok(done) =>
        match Records(g.1, Pairs(g.1, false), entry)
        case Err(m) => Err(m)
        case Ok(cs) => Ok(done + [(g.0, cs)])
  }

  lemma {:induction false} GroupedErrorPrefix<T>(p: seq<(string, seq<Scored>)>, q: seq<(string, seq<Scored>)>, entry: (Scored, Scored) -> Result<T>)
    requires p <= q && GroupedRecords(p, entry).Err?
    ensures GroupedRecords(q, entry) == GroupedRecords(p, entry)
    decreases |q|
  {
    if |q| > |p| {
      assert p <= q[..|q| - 1];
      GroupedErrorPrefix(p, q[..|q| - 1], entry);
    } else {
      assert p == q;
    }
  }

}
