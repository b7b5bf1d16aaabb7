/** Scoring of the Beck Depression Inventory: an item scores the highest of the phrases
    the patient checked, the test scores the sum of its items, and the sum selects a
    depression level; item 9 (suicidal ideas) at 2 or more raises an alert. */
module Beck {
  import opened Wrappers
  import opened Lookup

  /** The highest score among the checked phrases, 0 when none is checked. */
  function MaxChecked(scores: seq<int>): (r: int)
    ensures scores == [] ==> r == 0
    ensures scores != [] ==> r in scores && forall k :: 0 <= k < |scores| ==> scores[k] <= r
    decreases |scores|
  {
    if |scores| <= 1 then (if scores == [] then 0 else scores[0])
    else
      var m := MaxChecked(scores[..|scores| - 1]);
      var last := scores[|scores| - 1];
      if last > m then last else m
  }

  /** `ReponseItemBeck`: the answer to one item; `phrasesCochees` holds the score of each
      checked phrase. */
  class ReponseItemBeck {
    var itemNumero: int
    var phrasesCochees: seq<int>
    var scoreItem: int

    constructor (itemNumero: int, phrasesCochees: seq<int>)
      ensures this.itemNumero == itemNumero && this.phrasesCochees == phrasesCochees && scoreItem == 0
    {
      this.itemNumero := itemNumero;
      this.phrasesCochees := phrasesCochees;
      scoreItem := 0;
    }

    /** `calculer_score`: store and return the highest checked score, or 0. */
    method CalculerScore() returns (score: int)
      modifies this`scoreItem
      ensures scoreItem == MaxChecked(phrasesCochees) && score == scoreItem
    {
      var phrases := phrasesCochees;
      if phrases == [] {
        scoreItem := 0;
      } else {
        var m := phrases[0];
        var k := 1;
        while k < |phrases|
          invariant 1 <= k <= |phrases|
          invariant m == MaxChecked(phrases[..k])
        {
          assert phrases[..k + 1][..k] == phrases[..k];
          if phrases[k] > m {
            m := phrases[k];
          }
          k := k + 1;
        }
        assert phrases[..|phrases|] == phrases;
        scoreItem := m;
      }
      score := scoreItem;
    }
  }

  /** A stored answer as the test reads it back: the item number and its score. */
  datatype Reponse = Reponse(itemNumero: int, scoreItem: int)

  /** `sum(reponse.score_item for reponse in self.reponses.all())`. */
  function Total(reponses: seq<Reponse>): int
    decreases |reponses|
  {
    if reponses == [] then 0 else Total(reponses[..|reponses| - 1]) + reponses[|reponses| - 1].scoreItem
  }

  /** The four depression levels, mildest first. */
  datatype Niveau = Minimale | Legere | Moderee | Severe {
    /** The value stored in `niveau_depression`. */
    function Code(): string {
      match this
      case Minimale => "minimale"
      case Legere => "legere"
      case Moderee => "moderee"
      case Severe => "severe"
    }

    function Rank(): nat {
      match this
      case Minimale => 0
      case Legere => 1
      case Moderee => 2
      case Severe => 3
    }
  }

  /** `get_niveau_depression`: the level of a total score. */
  function GetNiveauDepression(score: int): (n: Niveau)
    ensures n.Rank() == (if score >= 14 then 1 else 0) + (if score >= 20 then 1 else 0) + (if score >= 29 then 1 else 0)
  {
    if score <= 13 then Minimale
    else if score <= 19 then Legere
    else if score <= 28 then Moderee
    else Severe
  }

  /** The level bands: each level holds exactly the scores of its closed interval. */
  lemma NiveauBands(score: int)
    ensures GetNiveauDepression(score) == Minimale <==> score <= 13
    ensures GetNiveauDepression(score) == Legere <==> 14 <= score <= 19
    ensures GetNiveauDepression(score) == Moderee <==> 20 <= score <= 28
    ensures GetNiveauDepression(score) == Severe <==> 29 <= score
  {
  }

  /** A higher score never gives a milder level. */
  lemma NiveauMonotone(a: int, b: int)
    requires a <= b
    ensures GetNiveauDepression(a).Rank() <= GetNiveauDepression(b).Rank()
  {
  }

  /** `get_niveau_depression_display`: the label of a stored level, 'Non évalué' for
      anything else (an empty level before the first scoring). */
  function NiveauDisplay(code: string): (s: string)
    ensures s == "Non évalué" <==> code !in ["minimale", "legere", "moderee", "severe"]
    ensures code == "severe" ==> s == "Dépression sévère"
  {
    if code == "minimale" then "Dépression minimale ou absente"
    else if code == "legere" then "Dépression légère"
    else if code == "moderee" then "Dépression modérée"
    else if code == "severe" then "Dépression sévère"
    else "Non évalué"
  }

  /** Every level the scoring stores has a label; an unscored test shows 'Non évalué'. */
  lemma NiveauDisplayLabels(n: Niveau)
    ensures NiveauDisplay(n.Code()) != "Non évalué"
    ensures NiveauDisplay("") == "Non évalué"
  {
  }

  /** `self.reponses.get(item__numero=9)`: the answer to item 9, if there is one. */
  function ReponseItem9(reponses: seq<Reponse>): Option<Reponse> {
    First(reponses, (r: Reponse) => r.itemNumero == 9)
  }

  /** `verifier_alerte_suicide`: the alert is raised when item 9 scores 2 or more, and
      cleared when it scores less or was not answered. */
  function AlerteSuicide(reponses: seq<Reponse>): (alert: bool)
    ensures alert ==> exists i :: 0 <= i < |reponses| && reponses[i].itemNumero == 9 && reponses[i].scoreItem >= 2
    ensures (forall i :: 0 <= i < |reponses| ==> reponses[i].itemNumero != 9) ==> !alert
  {
    match ReponseItem9(reponses)
    case Some(r) => r.scoreItem >= 2
    case None => false
  }

  /** A test holds at most one answer per item (`unique_together = ['test', 'item']`). */
  predicate OneAnswerPerItem(reponses: seq<Reponse>) {
    forall i, j :: 0 <= i < j < |reponses| ==> reponses[i].itemNumero != reponses[j].itemNumero
  }

  /** Two answers to the same item are the same answer. */
  lemma SameItem(reponses: seq<Reponse>, i: nat, j: nat)
    requires OneAnswerPerItem(reponses)
    requires i < |reponses| && j < |reponses| && reponses[i].itemNumero == reponses[j].itemNumero
    ensures i == j
  {
  }

  /** With one answer per item, the alert is raised exactly when some answer to item 9
      scores 2 or more; with no answer to item 9 it is never raised. */
  lemma AlerteSuicideMeaning(reponses: seq<Reponse>)
    requires OneAnswerPerItem(reponses)
    ensures AlerteSuicide(reponses) <==>
      exists i :: 0 <= i < |reponses| && reponses[i].itemNumero == 9 && reponses[i].scoreItem >= 2
    ensures (forall i :: 0 <= i < |reponses| ==> reponses[i].itemNumero != 9) ==> !AlerteSuicide(reponses)
  {
    var found := ReponseItem9(reponses);
    if found.Some? {
      var i :| 0 <= i < |reponses| && reponses[i] == found.value && reponses[i].itemNumero == 9;
      forall j | 0 <= j < |reponses| && reponses[j].itemNumero == 9 ensures j == i {
        SameItem(reponses, i, j);
      }
    }
  }

  /** Items score 0 to 3, so 21 answered items total between 0 and 63. */
  lemma {:induction false} TotalBounds(reponses: seq<Reponse>)
    requires forall i :: 0 <= i < |reponses| ==> 0 <= reponses[i].scoreItem <= 3
    ensures 0 <= Total(reponses) <= 3 * |reponses|
    decreases |reponses|
  {
    if reponses != [] {
      TotalBounds(reponses[..|reponses| - 1]);
    }
  }

  /** An item score is the highest checked phrase score, so phrases scored 0 to 3 give
      an item score in 0..3. */
  lemma MaxCheckedBounds(scores: seq<int>)
    requires forall k :: 0 <= k < |scores| ==> 0 <= scores[k] <= 3
    ensures 0 <= MaxChecked(scores) <= 3
  {
  }

  /** `TestBeck`: the stored answers and the three scored fields. */
  class TestBeck {
    var reponses: seq<Reponse>
    var scoreTotal: int
    var niveauDepression: string
    var alerteSuicide: bool

    constructor (reponses: seq<Reponse>)
      ensures this.reponses == reponses && scoreTotal == 0 && niveauDepression == "" && !alerteSuicide
    {
      this.reponses := reponses;
      scoreTotal := 0;
      niveauDepression := "";
      alerteSuicide := false;
    }

    /** `calculer_score_total`: the total of the item scores, its level and the alert,
        all recomputed from the answers alone, so a second call changes nothing. */
    method CalculerScoreTotal() returns (total: int)
      modifies this`scoreTotal, this`niveauDepression, this`alerteSuicide
      ensures total == Total(reponses) && scoreTotal == total
      ensures niveauDepression == GetNiveauDepression(total).Code()
      ensures alerteSuicide == AlerteSuicide(reponses)
    {
      var rs := reponses;
      total := 0;
      var k := 0;
      while k < |rs|
        invariant 0 <= k <= |rs|
        invariant total == Total(rs[..k])
      {
        assert rs[..k + 1][..k] == rs[..k];
        total := total + rs[k].scoreItem;
        k := k + 1;
      }
      assert rs[..|rs|] == rs;
      scoreTotal := total;
      niveauDepression := GetNiveauDepression(scoreTotal).Code();
      VerifierAlerteSuicide();
    }

    /** `verifier_alerte_suicide`: set the alert from the answer to item 9. */
    method VerifierAlerteSuicide()
      modifies this`alerteSuicide
      ensures alerteSuicide == AlerteSuicide(reponses)
    {
      var item9 := ReponseItem9(reponses);
      if item9.Some? {
        alerteSuicide := item9.value.scoreItem >= 2;
      } else {
        alerteSuicide := false;
      }
    }
  }
}
