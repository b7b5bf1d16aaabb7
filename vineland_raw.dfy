/** Raw scores of a Vineland protocol: the item floor (the first run of four answers
    '2'), the NSP and N/A counts, the sum of the answers scored after the floor, and
    the retest flag, for every subdomain of every domain. */
module VinelandRaw {
  import opened Wrappers

  /** One stored answer: its subdomain, its item number and the answer code
      ('0', '1', '2', 'NSP', 'NA', '?', '' or `None`). */
  datatype Response = Response(sousDomaine: nat, numeroItem: int, reponse: Option<string>)

  predicate IsTwo(r: Response) { r.reponse == Some("2") }

  /** The answers at indices k-3 .. k are four consecutive '2'. */
  predicate FourTwosAt(rs: seq<Response>, k: int) {
    3 <= k < |rs| && IsTwo(rs[k - 3]) && IsTwo(rs[k - 2]) && IsTwo(rs[k - 1]) && IsTwo(rs[k])
  }

  /** Window-based reference definition of the floor: the first index k >= from ending a
      run of four '2' gives item number - 3; no such index gives 0. */
  function FirstRunFrom(rs: seq<Response>, from: nat): int
    decreases |rs| - from
  {
    if from >= |rs| then 0
    else if FourTwosAt(rs, from) then rs[from].numeroItem - 3
    else FirstRunFrom(rs, from + 1)
  }

  /** `calculate_item_plancher` over the answers in item order: a non-zero floor is the item
      number − 3 of an answer that ends four consecutive '2'. */
  function ItemFloor(rs: seq<Response>): (f: int)
    ensures |rs| < 4 ==> f == 0
    ensures f != 0 ==> exists k :: FourTwosAt(rs, k) && f == rs[k].numeroItem - 3
  {
    FirstRunNonZero(rs, 3);
    FirstRunFrom(rs, 3)
  }

  lemma {:induction false} FirstRunNonZero(rs: seq<Response>, from: nat)
    ensures FirstRunFrom(rs, from) != 0 ==> exists k :: FourTwosAt(rs, k) && FirstRunFrom(rs, from) == rs[k].numeroItem - 3
    decreases |rs| - from
  {
    if from < |rs| && !FourTwosAt(rs, from) {
      FirstRunNonZero(rs, from + 1);
    }
  }

  lemma {:induction false} FirstRunAt(rs: seq<Response>, from: nat, k: nat)
    requires from <= k && FourTwosAt(rs, k)
    requires forall j :: from <= j < k ==> !FourTwosAt(rs, j)
    ensures FirstRunFrom(rs, from) == rs[k].numeroItem - 3
    decreases k - from
  {
    if from < k {
      FirstRunAt(rs, from + 1, k);
    }
  }

  lemma {:induction false} NoRunFrom(rs: seq<Response>, from: nat)
    requires forall j :: from <= j < |rs| ==> !FourTwosAt(rs, j)
    ensures FirstRunFrom(rs, from) == 0
    decreases |rs| - from
  {
    if from < |rs| {
      NoRunFrom(rs, from + 1);
    }
  }

  /** `calculate_item_plancher`: scan the answers in item order with a counter of
      consecutive '2' that any other answer resets; the fourth '2' of a run decides. */
  method CalculateItemPlancher(rs: seq<Response>) returns (floor: int)
    ensures floor == ItemFloor(rs)
  {
    var count := 0;
    var i := 0;
    while i < |rs|
      invariant 0 <= i <= |rs|
      invariant 0 <= count < 4 && count <= i
      invariant forall j :: i - count <= j < i ==> IsTwo(rs[j])
      invariant i - count > 0 ==> !IsTwo(rs[i - count - 1])
      invariant forall j :: 3 <= j < i ==> !FourTwosAt(rs, j)
    {
      if rs[i].reponse == Some("2") {
        count := count + 1;
        if count == 4 {
          FirstRunAt(rs, 3, i);
          return rs[i].numeroItem - 3;
        }
      } else {
        count := 0;
      }
      i := i + 1;
    }
    NoRunFrom(rs, 3);
    return 0;
  }

  /** Index k ends a run of four '2' and no earlier index does. */
  predicate FirstRunEndsAt(rs: seq<Response>, k: int) {
    0 <= k < |rs| && FourTwosAt(rs, k) && forall j :: 0 <= j < k ==> !FourTwosAt(rs, j)
  }

  /** The floor is decided by the FIRST run of four '2': its fourth item's number - 3,
      and 0 when the answers hold no such run. */
  lemma ItemFloorCharacterised(rs: seq<Response>)
    ensures (forall k :: 0 <= k < |rs| ==> !FourTwosAt(rs, k)) ==> ItemFloor(rs) == 0
    ensures forall k :: FirstRunEndsAt(rs, k) ==> ItemFloor(rs) == rs[k].numeroItem - 3
  {
    if forall k :: 0 <= k < |rs| ==> !FourTwosAt(rs, k) {
      NoRunFrom(rs, 3);
    }
    forall k | FirstRunEndsAt(rs, k)
      ensures ItemFloor(rs) == rs[k].numeroItem - 3
    {
      FirstRunAt(rs, 3, k);
    }
  }

  lemma {:induction false} FirstRunKeptFrom(rs: seq<Response>, more: seq<Response>, from: nat, k: nat)
    requires from <= k && FourTwosAt(rs, k)
    ensures FirstRunFrom(rs + more, from) == FirstRunFrom(rs, from)
    decreases k - from
  {
    assert FourTwosAt(rs + more, from) == FourTwosAt(rs, from) by {
      if from < |rs| {
        assert forall j :: 0 <= j <= from ==> (rs + more)[j] == rs[j];
      }
    }
    if !FourTwosAt(rs, from) {
      FirstRunKeptFrom(rs, more, from + 1, k);
    } else {
      assert (rs + more)[from] == rs[from];
    }
  }

  /** Once a run of four '2' has occurred, answers after it never change the floor. */
  lemma LaterRunsIgnored(rs: seq<Response>, more: seq<Response>, k: nat)
    requires FourTwosAt(rs, k)
    ensures ItemFloor(rs + more) == ItemFloor(rs)
  {
    FirstRunKeptFrom(rs, more, 3, k);
  }

  /** A subdomain's answers as the scoring loop receives them: item numbers are
      non-negative (`PositiveIntegerField`), unique within the subdomain and ordered by
      number, so they strictly increase; unanswered items leave gaps. */
  predicate IncreasingNumbers(rs: seq<Response>) {
    (forall j :: 0 <= j < |rs| ==> rs[j].numeroItem >= 0)
    && forall i, j :: 0 <= i < j < |rs| ==> rs[i].numeroItem < rs[j].numeroItem
  }

  /** A subdomain whose every item, numbered 1, 2, 3, ..., is answered. */
  predicate NumberedFromOne(rs: seq<Response>) {
    forall j :: 0 <= j < |rs| ==> rs[j].numeroItem == j + 1
  }

  /** Increasing numbers climb at least one per answer. */
  lemma {:induction false} NumberAtLeastIndex(rs: seq<Response>, j: nat)
    requires IncreasingNumbers(rs) && j < |rs|
    ensures rs[j].numeroItem >= rs[0].numeroItem + j
    decreases j
  {
    if j > 0 {
      NumberAtLeastIndex(rs, j - 1);
    }
  }

  lemma {:induction false} FirstRunNonNegative(rs: seq<Response>, from: nat)
    requires IncreasingNumbers(rs) && from >= 3
    ensures FirstRunFrom(rs, from) >= 0
    ensures FirstRunFrom(rs, from) == 0 || (rs != [] && FirstRunFrom(rs, from) <= rs[|rs| - 1].numeroItem - 3)
    decreases |rs| - from
  {
    if from < |rs| {
      if FourTwosAt(rs, from) {
        NumberAtLeastIndex(rs, from);
        if from < |rs| - 1 {
          assert rs[from].numeroItem < rs[|rs| - 1].numeroItem;
        }
      } else {
        FirstRunNonNegative(rs, from + 1);
      }
    }
  }

  /** The floor is never negative and lies at least three below the last item number
      when a run decides it; with every item numbered from one answered, it is at most
      the number of answers. */
  lemma ItemFloorBounds(rs: seq<Response>)
    requires IncreasingNumbers(rs)
    ensures 0 <= ItemFloor(rs)
    ensures ItemFloor(rs) == 0 || (rs != [] && ItemFloor(rs) <= rs[|rs| - 1].numeroItem - 3)
    ensures NumberedFromOne(rs) ==> ItemFloor(rs) <= |rs|
  {
    FirstRunNonNegative(rs, 3);
    if NumberedFromOne(rs) {
      if forall k :: 0 <= k < |rs| ==> !FourTwosAt(rs, k) {
        NoRunFrom(rs, 3);
      } else {
        var k :| 0 <= k < |rs| && FourTwosAt(rs, k);
        FirstRunUpperBound(rs, 3, k);
      }
    }
  }

  lemma {:induction false} FirstRunUpperBound(rs: seq<Response>, from: nat, k: nat)
    requires NumberedFromOne(rs) && from <= k && FourTwosAt(rs, k)
    ensures 0 <= FirstRunFrom(rs, from) <= |rs|
    decreases k - from
  {
    if from < k && !FourTwosAt(rs, from) {
      FirstRunUpperBound(rs, from + 1, k);
    }
  }

  /** `r.reponse in ['NSP', '', None, '?']`. */
  predicate IsNsp(r: Response) {
    r.reponse == None || r.reponse == Some("NSP") || r.reponse == Some("") || r.reponse == Some("?")
  }

  predicate IsNa(r: Response) { r.reponse == Some("NA") }

  function NspCount(rs: seq<Response>): nat {
    if rs == [] then 0 else NspCount(rs[..|rs| - 1]) + (if IsNsp(rs[|rs| - 1]) then 1 else 0)
  }

  function NaCount(rs: seq<Response>): nat {
    if rs == [] then 0 else NaCount(rs[..|rs| - 1]) + (if IsNa(rs[|rs| - 1]) then 1 else 0)
  }

  /** `int(r.reponse)` for the answers '1' and '2'; every other answer adds nothing. */
  function OneTwoValue(r: Response): nat {
    if r.reponse == Some("1") then 1 else if r.reponse == Some("2") then 2 else 0
  }

  /** `sum_1_2`: the '1' and '2' answers of items numbered strictly above the floor. */
  function Sum12(rs: seq<Response>, floor: int): nat {
    if rs == [] then 0
    else
      var last := rs[|rs| - 1];
      Sum12(rs[..|rs| - 1], floor) + (if last.numeroItem > floor then OneTwoValue(last) else 0)
  }

  /** The number of items numbered at most `floor`. */
  function CountUpTo(rs: seq<Response>, floor: int): nat {
    if rs == [] then 0
    else CountUpTo(rs[..|rs| - 1], floor) + (if rs[|rs| - 1].numeroItem <= floor then 1 else 0)
  }

  /** The basal rule written item by item: each item at or below the floor is credited 2,
      each item above it scores its own '1' or '2'. */
  function CreditedSum(rs: seq<Response>, floor: int): nat {
    if rs == [] then 0
    else
      var last := rs[|rs| - 1];
      CreditedSum(rs[..|rs| - 1], floor) + (if last.numeroItem <= floor then 2 else OneTwoValue(last))
  }

  /** The score of one subdomain, as the dictionary built for it. */
  datatype SubdomainScore = SubdomainScore(
    noteBrute: int, itemPlancher: int, nspCount: nat, naCount: nat, sum12: nat,
    aRefaire: bool, items: seq<(int, Option<string>)>)

  function Items(rs: seq<Response>): (items: seq<(int, Option<string>)>)
    ensures |items| == |rs|
    ensures forall j :: 0 <= j < |rs| ==> items[j] == (rs[j].numeroItem, rs[j].reponse)
  {
    seq(|rs|, j requires 0 <= j < |rs| => (rs[j].numeroItem, rs[j].reponse))
  }

  /** The per-subdomain block of `calculate_all_scores`. */
  function ScoreSubdomain(rs: seq<Response>): (s: SubdomainScore)
    ensures s.noteBrute == 2 * s.itemPlancher + s.sum12 + s.nspCount
    ensures s.aRefaire <==> s.nspCount >= 3
    ensures s.itemPlancher == ItemFloor(rs) && s.nspCount + s.naCount <= |rs|
    ensures |s.items| == |rs|
  {
    CountsDisjoint(rs);
    var floor := ItemFloor(rs);
    var nsp := NspCount(rs);
    var s12 := Sum12(rs, floor);
    SubdomainScore(floor * 2 + s12 + nsp, floor, nsp, NaCount(rs), s12, nsp > 2, Items(rs))
  }

  /** A non-NSP answer that is not 'NA' either: the two categories never overlap,
      so together they count at most every answer. */
  lemma {:induction false} CountsDisjoint(rs: seq<Response>)
    ensures NspCount(rs) + NaCount(rs) <= |rs|
  {
    if rs != [] {
      CountsDisjoint(rs[..|rs| - 1]);
    }
  }

  lemma {:induction false} Sum12Bound(rs: seq<Response>, floor: int)
    ensures Sum12(rs, floor) <= 2 * (|rs| - CountUpTo(rs, floor))
  {
    if rs != [] {
      Sum12Bound(rs[..|rs| - 1], floor);
      CountUpToBound(rs[..|rs| - 1], floor);
    }
  }

  lemma {:induction false} CountUpToBound(rs: seq<Response>, floor: int)
    ensures CountUpTo(rs, floor) <= |rs|
  {
    if rs != [] {
      CountUpToBound(rs[..|rs| - 1], floor);
    }
  }

  /** Over increasing item numbers, the answers above the floor score at most 2 for
      each number from the floor up to the last item number. */
  lemma {:induction false} Sum12BelowLast(rs: seq<Response>, floor: int)
    requires IncreasingNumbers(rs) && rs != []
    ensures Sum12(rs, floor) <= 2 * (if rs[|rs| - 1].numeroItem > floor then rs[|rs| - 1].numeroItem - floor else 0)
    decreases |rs|
  {
    var init := rs[..|rs| - 1];
    if init != [] {
      assert forall i :: 0 <= i < |init| ==> init[i] == rs[i];
      assert IncreasingNumbers(init);
      Sum12BelowLast(init, floor);
      assert init[|init| - 1].numeroItem < rs[|rs| - 1].numeroItem;
    }
  }

  /** Increasing item numbers from one hold at most `f` items numbered up to `f`. */
  lemma {:induction false} CountUpToAtMost(rs: seq<Response>, f: int)
    requires IncreasingNumbers(rs) && (forall j :: 0 <= j < |rs| ==> rs[j].numeroItem >= 1) && f >= 0
    ensures CountUpTo(rs, f) <= f
    decreases |rs|
  {
    if rs != [] {
      var init := rs[..|rs| - 1];
      var last := rs[|rs| - 1];
      if last.numeroItem <= f {
        assert forall j :: 0 <= j < |rs| - 1 ==> rs[j].numeroItem < last.numeroItem;
        CountUpToAll(rs, f);
        NumberAtLeastIndex(rs, |rs| - 1);
      } else {
        assert forall i :: 0 <= i < |init| ==> init[i] == rs[i];
        CountUpToAtMost(init, f);
      }
    }
  }

  /** Raw-score bounds for any answered subset of a subdomain: never below the NSP count
      nor below twice the floor, and at most 2 points per item number up to the last one
      plus the NSP count (twice the number of answers when every item is answered). */
  lemma RawScoreBounds(rs: seq<Response>)
    requires IncreasingNumbers(rs)
    ensures ScoreSubdomain(rs).noteBrute >= ScoreSubdomain(rs).nspCount >= 0
    ensures ScoreSubdomain(rs).noteBrute >= 2 * ScoreSubdomain(rs).itemPlancher
    ensures rs == [] ==> ScoreSubdomain(rs).noteBrute == 0
    ensures rs != [] ==> ScoreSubdomain(rs).noteBrute <= 2 * rs[|rs| - 1].numeroItem + ScoreSubdomain(rs).nspCount
    ensures NumberedFromOne(rs) ==> ScoreSubdomain(rs).noteBrute <= 2 * |rs| + ScoreSubdomain(rs).nspCount
  {
    ItemFloorBounds(rs);
    var floor := ItemFloor(rs);
    if rs != [] {
      Sum12BelowLast(rs, floor);
    }
    if NumberedFromOne(rs) {
      Sum12Bound(rs, floor);
      CountUpToNumbered(rs, floor);
    }
  }

  lemma {:induction false} CountUpToNumbered(rs: seq<Response>, floor: int)
    requires NumberedFromOne(rs) && 0 <= floor <= |rs|
    ensures CountUpTo(rs, floor) == floor
    decreases |rs|
  {
    if rs != [] {
      var init := rs[..|rs| - 1];
      if floor <= |init| {
        CountUpToNumbered(init, floor);
      } else {
        CountUpToNumbered(init, |init|);
        CountUpToAll(init, floor);
      }
    }
  }

  lemma {:induction false} CountUpToAll(rs: seq<Response>, floor: int)
    requires forall j :: 0 <= j < |rs| ==> rs[j].numeroItem <= floor
    ensures CountUpTo(rs, floor) == |rs|
  {
    if rs != [] {
      CountUpToAll(rs[..|rs| - 1], floor);
    }
  }

  lemma {:induction false} CreditedSumSplit(rs: seq<Response>, floor: int)
    ensures CreditedSum(rs, floor) == 2 * CountUpTo(rs, floor) + Sum12(rs, floor)
  {
    if rs != [] {
      CreditedSumSplit(rs[..|rs| - 1], floor);
    }
  }

  /** The raw score is the basal rule over item numbers: every answered item at or below
      the floor is credited 2, every later '1' or '2' scores its value, and every item
      number from 1 to the floor with no stored answer is credited 2 as well. Over
      increasing numbers from one that credit is never negative, and it is zero when every
      item is answered. */
  lemma RawScoreIsBasalRule(rs: seq<Response>)
    ensures ScoreSubdomain(rs).noteBrute
         == CreditedSum(rs, ItemFloor(rs)) + 2 * (ItemFloor(rs) - CountUpTo(rs, ItemFloor(rs))) + NspCount(rs)
    ensures IncreasingNumbers(rs) && (forall j :: 0 <= j < |rs| ==> rs[j].numeroItem >= 1) ==>
      CountUpTo(rs, ItemFloor(rs)) <= ItemFloor(rs)
    ensures NumberedFromOne(rs) ==> ScoreSubdomain(rs).noteBrute == CreditedSum(rs, ItemFloor(rs)) + NspCount(rs)
  {
    CreditedSumSplit(rs, ItemFloor(rs));
    if IncreasingNumbers(rs) && (forall j :: 0 <= j < |rs| ==> rs[j].numeroItem >= 1) {
      ItemFloorBounds(rs);
      CountUpToAtMost(rs, ItemFloor(rs));
    }
    if NumberedFromOne(rs) {
      ItemFloorBounds(rs);
      CountUpToNumbered(rs, ItemFloor(rs));
    }
  }

  /** Items 1, 5, 6 and 7 answered '2', the rest left unanswered: the floor is 4 and the
      raw score 14, which credits the three unanswered items 2 to 4. */
  lemma GapsAreCredited()
    ensures var rs := [Response(0, 1, Some("2")), Response(0, 5, Some("2")),
                       Response(0, 6, Some("2")), Response(0, 7, Some("2"))];
      ItemFloor(rs) == 4 && ScoreSubdomain(rs).noteBrute == 14
      && CreditedSum(rs, 4) == 8 && CountUpTo(rs, 4) == 1
  {
    var rs := [Response(0, 1, Some("2")), Response(0, 5, Some("2")),
               Response(0, 6, Some("2")), Response(0, 7, Some("2"))];
    assert FourTwosAt(rs, 3);
    assert ItemFloor(rs) == 4;
    var p1, p2, p3 := rs[..1], rs[..2], rs[..3];
    assert p3[..2] == p2 && p2[..1] == p1 && p1[..0] == [];
    assert NspCount(p1) == 0 && NspCount(p2) == 0 && NspCount(p3) == 0 && NspCount(rs) == 0;
    assert Sum12(p1, 4) == 0 && Sum12(p2, 4) == 2 && Sum12(p3, 4) == 4 && Sum12(rs, 4) == 6;
    assert CountUpTo(p1, 4) == 1 && CountUpTo(p2, 4) == 1 && CountUpTo(p3, 4) == 1;
    assert CreditedSum(p1, 4) == 2 && CreditedSum(p2, 4) == 4 && CreditedSum(p3, 4) == 6;
  }

  /** The retest flag: two NSP answers leave it off, a third sets it. */
  lemma RetestThreshold(rs: seq<Response>)
    ensures ScoreSubdomain(rs).aRefaire <==> NspCount(rs) >= 3
    ensures NspCount(rs) == 2 ==> !ScoreSubdomain(rs).aRefaire
  {
  }

  /** Subdomain and domain identities as the scoring loop sees them. */
  datatype SousDomaineRef = SousDomaineRef(id: nat, name: string)
  datatype DomainRef = DomainRef(name: string, sousDomaines: seq<SousDomaineRef>)

  /** `scores[domain.name]`: the subdomain scores of one domain, in subdomain order. */
  datatype DomainRawScores = DomainRawScores(name: string, subdomains: seq<(string, SubdomainScore)>)

  /** `[r for r in reponses if r.question.sous_domaine == sous_domaine]`. */
  function ResponsesOf(reponses: seq<Response>, sd: nat): (rs: seq<Response>)
    ensures forall r :: r in rs ==> r in reponses && r.sousDomaine == sd
    ensures |rs| <= |reponses|
  {
    if reponses == [] then []
    else
      var last := reponses[|reponses| - 1];
      ResponsesOf(reponses[..|reponses| - 1], sd) + (if last.sousDomaine == sd then [last] else [])
  }

  /** Nothing of the subdomain is lost: every answer of the subdomain is kept, as many
      times as it occurs, and every other answer is dropped. */
  lemma {:induction false} ResponsesOfKeepsAll(reponses: seq<Response>, sd: nat)
    ensures forall r :: r in ResponsesOf(reponses, sd) <==> r in reponses && r.sousDomaine == sd
    ensures forall r :: multiset(ResponsesOf(reponses, sd))[r] == if r.sousDomaine == sd then multiset(reponses)[r] else 0
    decreases |reponses|
  {
    if reponses != [] {
      var init := reponses[..|reponses| - 1];
      var last := reponses[|reponses| - 1];
      assert reponses == init + [last];
      ResponsesOfKeepsAll(init, sd);
    }
  }

  /** The selection keeps the response order: selecting from a concatenation
      concatenates the selections. */
  lemma {:induction false} ResponsesOfConcat(a: seq<Response>, b: seq<Response>, sd: nat)
    ensures ResponsesOf(a + b, sd) == ResponsesOf(a, sd) + ResponsesOf(b, sd)
    decreases |b|
  {
    if b == [] {
      assert a + b == a;
    } else {
      var b' := b[..|b| - 1];
      var last := b[|b| - 1];
      var tail := if last.sousDomaine == sd then [last] else [];
      assert (a + b)[..|a + b| - 1] == a + b';
      assert (a + b)[|a + b| - 1] == last;
      assert ResponsesOf(a + b, sd) == ResponsesOf(a + b', sd) + tail;
      assert ResponsesOf(b, sd) == ResponsesOf(b', sd) + tail;
      ResponsesOfConcat(a, b', sd);
    }
  }

  /** A single answer is kept exactly when it belongs to the subdomain. */
  lemma ResponsesOfSingle(r: Response, sd: nat)
    ensures ResponsesOf([r], sd) == if r.sousDomaine == sd then [r] else []
  {
    assert [r][..0] == [];
  }

  /** The block of one domain, as a function of the response list. */
  function DomainBlock(d: DomainRef, reponses: seq<Response>): DomainRawScores {
    DomainRawScores(d.name, seq(|d.sousDomaines|, k requires 0 <= k < |d.sousDomaines| =>
      SubdomainEntry(d.sousDomaines[k], reponses)))
  }

  /** The entry of one subdomain: its name and the scores of its answers. */
  function SubdomainEntry(sd: SousDomaineRef, reponses: seq<Response>): (string, SubdomainScore) {
    (sd.name, ScoreSubdomain(ResponsesOf(reponses, sd.id)))
  }

  /** The scores of one subdomain's answers, with the floor found by the run-counter loop. */
  method ScoreResponses(rs: seq<Response>) returns (score: SubdomainScore)
    ensures score == ScoreSubdomain(rs)
  {
    var floor := CalculateItemPlancher(rs);
    var nsp := NspCount(rs);
    var s12 := Sum12(rs, floor);
    score := SubdomainScore(floor * 2 + s12 + nsp, floor, nsp, NaCount(rs), s12, nsp > 2, Items(rs));
  }

  /** The inner loop of `calculate_all_scores`: the entries of one domain's subdomains, in
      subdomain order, each scored from that subdomain's answers. */
  method ScoreDomain(d: DomainRef, reponses: seq<Response>) returns (block: DomainRawScores)
    ensures block == DomainBlock(d, reponses)
  {
    var sds := d.sousDomaines;
    var entries: seq<(string, SubdomainScore)> := [];
    var k := 0;
    while k < |sds|
      invariant 0 <= k <= |sds| && |entries| == k
      invariant forall m :: 0 <= m < k ==> entries[m] == SubdomainEntry(sds[m], reponses)
    {
      var score := ScoreResponses(ResponsesOf(reponses, sds[k].id));
      assert (sds[k].name, score) == SubdomainEntry(sds[k], reponses);
      entries := entries + [(sds[k].name, score)];
      k := k + 1;
    }
    block := DomainRawScores(d.name, entries);
  }

  /** `calculate_all_scores`: a block per domain holding an entry per subdomain, in the
      order the domains and their subdomains are listed. `reponses` is the ordered
      response list of the protocol. */
  method CalculateAllScores(domains: seq<DomainRef>, reponses: seq<Response>)
    returns (scores: seq<DomainRawScores>)
    ensures |scores| == |domains|
    ensures forall d :: 0 <= d < |domains| ==> scores[d].name == domains[d].name
    ensures forall d :: 0 <= d < |domains| ==> scores[d] == DomainBlock(domains[d], reponses)
  {
    scores := [];
    var d := 0;
    while d < |domains|
      invariant 0 <= d <= |domains| && |scores| == d
      invariant forall e :: 0 <= e < d ==> scores[e] == DomainBlock(domains[e], reponses)
    {
      var block := ScoreDomain(domains[d], reponses);
      scores := scores + [block];
      d := d + 1;
    }
  }
}
