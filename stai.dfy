/** Scoring of Spielberger's State-Trait Anxiety Inventory: each answer (1 to 4) is
    reversed on the reversed items, the state (ETAT) and trait (TRAIT) sections are
    summed separately, and each sum selects an anxiety level. */
module Stai {

  datatype Section = Etat | Trait

  /** `ReponseItemSTAI.calculer_score`: the score of an answer, 5 − value on a reversed
      item and the value itself otherwise. */
  function ScoreCalcule(valeur: int, estInverse: bool): (s: int)
    ensures estInverse ==> valeur + s == 5
    ensures !estInverse ==> s == valeur
    ensures 1 <= valeur <= 4 ==> 1 <= s <= 4
  {
    if estInverse then 5 - valeur else valeur
  }

  /** Reversal maps the answer scale 1..4 onto itself, turned upside down, and reversing
      twice gives the answer back; a normal item keeps its value. */
  lemma ReversalOnScale(v: int, w: int)
    requires 1 <= v <= 4 && 1 <= w <= 4
    ensures 1 <= ScoreCalcule(v, true) <= 4 && ScoreCalcule(v, false) == v
    ensures ScoreCalcule(ScoreCalcule(v, true), true) == v
    ensures v < w <==> ScoreCalcule(v, true) > ScoreCalcule(w, true)
  {
  }

  /** `ReponseItemSTAI` with the two fields of its item the scoring reads. */
  class ReponseItemStai {
    var section: Section
    var estInverse: bool
    var valeurChoisie: int
    var scoreCalcule: int

    constructor (section: Section, estInverse: bool, valeurChoisie: int)
      ensures this.section == section && this.estInverse == estInverse
      ensures this.valeurChoisie == valeurChoisie && scoreCalcule == 0
    {
      this.section := section;
      this.estInverse := estInverse;
      this.valeurChoisie := valeurChoisie;
      scoreCalcule := 0;
    }

    /** `calculer_score`: store and return the answer's score. */
    method CalculerScore() returns (score: int)
      modifies this`scoreCalcule
      ensures scoreCalcule == ScoreCalcule(valeurChoisie, estInverse) && score == scoreCalcule
      ensures 1 <= valeurChoisie <= 4 ==> 1 <= score <= 4
    {
      if estInverse {
        scoreCalcule := 5 - valeurChoisie;
      } else {
        scoreCalcule := valeurChoisie;
      }
      score := scoreCalcule;
    }
  }

  /** A stored answer as the test reads it back: its item's section and its score. */
  datatype Reponse = Reponse(section: Section, scoreCalcule: int)

  /** `sum(reponse.score_calcule for reponse in self.reponses.filter(item__section=s))`. */
  function SectionScore(reponses: seq<Reponse>, s: Section): int
    decreases |reponses|
  {
    if reponses == [] then 0
    else
      var r := reponses[|reponses| - 1];
      SectionScore(reponses[..|reponses| - 1], s) + (if r.section == s then r.scoreCalcule else 0)
  }

  /** The number of answers in section `s`. */
  function SectionCount(reponses: seq<Reponse>, s: Section): nat
    decreases |reponses|
  {
    if reponses == [] then 0
    else SectionCount(reponses[..|reponses| - 1], s) + (if reponses[|reponses| - 1].section == s then 1 else 0)
  }

  /** Section sums split over a concatenation. */
  lemma {:induction false} SectionScoreConcat(a: seq<Reponse>, b: seq<Reponse>, s: Section)
    ensures SectionScore(a + b, s) == SectionScore(a, s) + SectionScore(b, s)
    decreases |b|
  {
    if b == [] {
      assert a + b == a;
    } else {
      var b' := b[..|b| - 1];
      assert (a + b)[..|a + b| - 1] == a + b';
      SectionScoreConcat(a, b', s);
    }
  }

  /** Each section's score depends only on its own answers: an answer of the other
      section, wherever it sits, does not change it. */
  lemma SectionIgnoresOthers(a: seq<Reponse>, b: seq<Reponse>, r: Reponse, s: Section)
    requires r.section != s
    ensures SectionScore(a + [r] + b, s) == SectionScore(a + b, s)
  {
    SectionScoreConcat(a + [r], b, s);
    SectionScoreConcat(a, [r], s);
    SectionScoreConcat(a, b, s);
    assert SectionScore([r], s) == 0 by {
      assert [r][..0] == [];
    }
  }

  /** Scores 1 to 4 give a section sum between the number of answers and four times it. */
  lemma {:induction false} SectionScoreBounds(reponses: seq<Reponse>, s: Section)
    requires forall i :: 0 <= i < |reponses| ==> reponses[i].section == s ==> 1 <= reponses[i].scoreCalcule <= 4
    ensures SectionCount(reponses, s) <= SectionScore(reponses, s) <= 4 * SectionCount(reponses, s)
    decreases |reponses|
  {
    if reponses != [] {
      SectionScoreBounds(reponses[..|reponses| - 1], s);
    }
  }

  /** The six anxiety levels, lowest first; `Invalide` flags a sum below the minimum a
      complete section can reach. */
  datatype Niveau = Invalide | Minimale | Faible | Moderee | Elevee | TresElevee {
    /** The value stored in `niveau_anxiete_etat` / `niveau_anxiete_trait`. */
    function Code(): string {
      match this
      case Invalide => "invalide"
      case Minimale => "minimale"
      case Faible => "faible"
      case Moderee => "moderee"
      case Elevee => "elevee"
      case TresElevee => "tres_elevee"
    }

    function Rank(): nat {
      match this
      case Invalide => 0
      case Minimale => 1
      case Faible => 2
      case Moderee => 3
      case Elevee => 4
      case TresElevee => 5
    }
  }

  /** `get_niveau_anxiete`. */
  function GetNiveauAnxiete(score: int): (n: Niveau)
    ensures n == Invalide <==> score < 20
    ensures n.Rank() == (if score >= 20 then 1 else 0) + (if score >= 36 then 1 else 0) + (if score >= 46 then 1 else 0)
                        + (if score >= 56 then 1 else 0) + (if score >= 66 then 1 else 0)
  {
    if score < 20 then Invalide
    else if score <= 35 then Minimale
    else if score <= 45 then Faible
    else if score <= 55 then Moderee
    else if score <= 65 then Elevee
    else TresElevee
  }

  /** A higher score never gives a lower level. */
  lemma NiveauMonotone(a: int, b: int)
    requires a <= b
    ensures GetNiveauAnxiete(a).Rank() <= GetNiveauAnxiete(b).Rank()
  {
  }

  /** A section of twenty answers each scored 1 to 4 sums to 20..80 and so is never
      classified 'invalide'. */
  lemma CompleteSectionIsValid(reponses: seq<Reponse>, s: Section)
    requires forall i :: 0 <= i < |reponses| ==> reponses[i].section == s ==> 1 <= reponses[i].scoreCalcule <= 4
    requires SectionCount(reponses, s) == 20
    ensures 20 <= SectionScore(reponses, s) <= 80
    ensures GetNiveauAnxiete(SectionScore(reponses, s)) != Invalide
  {
    SectionScoreBounds(reponses, s);
  }

  /** `get_niveau_display`: the label of a stored level, 'Non évalué' for anything else. */
  function NiveauDisplay(code: string): (s: string)
    ensures s == "Non évalué" <==> code !in ["minimale", "faible", "moderee", "elevee", "tres_elevee", "invalide"]
    ensures code == "invalide" <==> s == "Score invalide"
  {
    if code == "minimale" then "Anxiété minimale"
    else if code == "faible" then "Anxiété faible"
    else if code == "moderee" then "Anxiété modérée"
    else if code == "elevee" then "Anxiété élevée"
    else if code == "tres_elevee" then "Anxiété très élevée"
    else if code == "invalide" then "Score invalide"
    else "Non évalué"
  }

  /** Every level the scoring stores has a label; an unscored test shows 'Non évalué'. */
  lemma NiveauDisplayLabels(n: Niveau)
    ensures NiveauDisplay(n.Code()) != "Non évalué"
    ensures NiveauDisplay("") == "Non évalué"
  {
  }

  /** `TestSTAI`: the stored answers and the four scored fields. */
  class TestStai {
    var reponses: seq<Reponse>
    var scoreEtat: int
    var scoreTrait: int
    var niveauAnxieteEtat: string
    var niveauAnxieteTrait: string

    constructor (reponses: seq<Reponse>)
      ensures this.reponses == reponses && scoreEtat == 0 && scoreTrait == 0
      ensures niveauAnxieteEtat == "" && niveauAnxieteTrait == ""
    {
      this.reponses := reponses;
      scoreEtat, scoreTrait := 0, 0;
      niveauAnxieteEtat, niveauAnxieteTrait := "", "";
    }

    /** `calculer_scores`: both section sums and their levels, each from its own section
        alone; the answers are not changed, so a second call changes nothing. */
    method CalculerScores() returns (etat: int, traitScore: int)
      modifies this`scoreEtat, this`scoreTrait, this`niveauAnxieteEtat, this`niveauAnxieteTrait
      ensures etat == SectionScore(reponses, Etat) && scoreEtat == etat
      ensures traitScore == SectionScore(reponses, Trait) && scoreTrait == traitScore
      ensures niveauAnxieteEtat == GetNiveauAnxiete(etat).Code()
      ensures niveauAnxieteTrait == GetNiveauAnxiete(traitScore).Code()
    {
      etat := SumSection(reponses, Etat);
      scoreEtat := etat;
      niveauAnxieteEtat := GetNiveauAnxiete(scoreEtat).Code();
      traitScore := SumSection(reponses, Trait);
      scoreTrait := traitScore;
      niveauAnxieteTrait := GetNiveauAnxiete(scoreTrait).Code();
    }
  }

  /** The filtered sum, one answer at a time. */
  method SumSection(reponses: seq<Reponse>, s: Section) returns (total: int)
    ensures total == SectionScore(reponses, s)
  {
    total := 0;
    var k := 0;
    while k < |reponses|
      invariant 0 <= k <= |reponses|
      invariant total == SectionScore(reponses[..k], s)
    {
      assert reponses[..k + 1][..k] == reponses[..k];
      if reponses[k].section == s {
        total := total + reponses[k].scoreCalcule;
      }
      k := k + 1;
    }
    assert reponses[..|reponses|] == reponses;
  }
}
