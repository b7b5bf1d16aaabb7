/** The practice views that change records: the pack counter a new or cancelled
    consultation moves, the reschedule form, the active packs the dashboard counts and the
    end time of a calendar event. `parse_datetime` is a parameter (its result, `None` when
    the text is not a date). */
module CabinetViews {
  import opened Wrappers
  import opened CabinetModels

  /** `timedelta(minutes=1)` in microseconds. */
  const MinuteMicros: int := 60000000

  /** `consultation_create`, after the row is saved: a consultation drawn on a pack uses
      one more of its sessions. */
  method ConsultationCreate(c: Consultation)
    modifies if c.pack != null then {c.pack} else {}
    ensures c.pack != null ==> c.pack.nombreSeancesUtilisees == old(c.pack.nombreSeancesUtilisees) + 1
    ensures c.pack != null ==> c.pack.SeancesRestantes() == old(c.pack.SeancesRestantes()) - 1
    ensures c.pack != null ==> c.pack.nombreSeancesTotal == old(c.pack.nombreSeancesTotal)
                               && c.pack.statut == old(c.pack.statut)
  {
    if c.pack != null {
      var pack := c.pack;
      pack.nombreSeancesUtilisees := pack.nombreSeancesUtilisees + 1;
    }
  }

  /** `consultation_annuler` with the status and motif the view writes: the pack gets its
      session back on every call, whatever the previous status, the status becomes
      `statut` and the motif is the posted one (empty when none is posted). */
  method CancelWith(c: Consultation, motif: Option<string>, statut: string)
    modifies c`statutConsultation, c`motifReport, if c.pack != null then {c.pack} else {}
    ensures c.statutConsultation == statut && c.motifReport == Some(motif.GetOr(""))
    ensures c.pack != null ==> c.pack.nombreSeancesUtilisees == old(c.pack.nombreSeancesUtilisees) - 1
    ensures c.pack != null ==> c.pack.SeancesRestantes() == old(c.pack.SeancesRestantes()) + 1
    ensures c.pack != null ==> c.pack.nombreSeancesTotal == old(c.pack.nombreSeancesTotal)
                               && c.pack.statut == old(c.pack.statut)
  {
    if c.pack != null {
      var pack := c.pack;
      pack.nombreSeancesUtilisees := pack.nombreSeancesUtilisees - 1;
    }
    c.statutConsultation := statut;
    c.motifReport := Some(motif.GetOr(""));
  }

  /** `consultation_annuler` as written: the status it stores, 'annulee', is not one of the
      consultation statuses, so the model's `est_annule` is false afterwards. */
  method ConsultationAnnuler(c: Consultation, motif: Option<string>)
    modifies c`statutConsultation, c`motifReport, if c.pack != null then {c.pack} else {}
    ensures c.statutConsultation == "annulee" && c.motifReport == Some(motif.GetOr(""))
    ensures !IsStatutConsultation(c.statutConsultation) && !c.EstAnnule()
    ensures c.pack != null ==> c.pack.nombreSeancesUtilisees == old(c.pack.nombreSeancesUtilisees) - 1
    ensures c.pack != null ==> c.pack.SeancesRestantes() == old(c.pack.SeancesRestantes()) + 1
    ensures c.pack != null ==> c.pack.nombreSeancesTotal == old(c.pack.nombreSeancesTotal)
                               && c.pack.statut == old(c.pack.statut)
  {
    CancelWith(c, motif, "annulee");
  }

  /** The cancellation with the status the model defines, 'annule': afterwards the
      consultation is cancelled by `est_annule` and `peut_etre_reporte` is false. */
  method ConsultationAnnulerCorrected(c: Consultation, motif: Option<string>)
    modifies c`statutConsultation, c`motifReport, if c.pack != null then {c.pack} else {}
    ensures c.statutConsultation == "annule" && c.motifReport == Some(motif.GetOr(""))
    ensures IsStatutConsultation(c.statutConsultation) && c.EstAnnule() && !c.PeutEtreReporte()
    ensures c.pack != null ==> c.pack.nombreSeancesUtilisees == old(c.pack.nombreSeancesUtilisees) - 1
    ensures c.pack != null ==> c.pack.SeancesRestantes() == old(c.pack.SeancesRestantes()) + 1
    ensures c.pack != null ==> c.pack.nombreSeancesTotal == old(c.pack.nombreSeancesTotal)
                               && c.pack.statut == old(c.pack.statut)
  {
    CancelWith(c, motif, "annule");
  }

  /** `consultation_reporter` with the status the view writes: an unparsable date returns
      before anything is saved; otherwise the original date is remembered when none is,
      the date moves, the status becomes `statut`, one more report is counted and the motif
      is the posted one, even when empty. */
  method RescheduleWith(c: Consultation, nouvelleDate: Option<int>, motif: Option<string>, statut: string)
    returns (saved: bool)
    modifies c`dateSeanceOriginale, c`dateSeance, c`statutConsultation, c`nombreReports, c`motifReport
    ensures saved <==> nouvelleDate.Some?
    ensures !saved ==> c.dateSeanceOriginale == old(c.dateSeanceOriginale) && c.dateSeance == old(c.dateSeance)
                       && c.statutConsultation == old(c.statutConsultation)
                       && c.nombreReports == old(c.nombreReports) && c.motifReport == old(c.motifReport)
    ensures saved ==> c.dateSeanceOriginale == (if old(c.dateSeanceOriginale).None? then Some(old(c.dateSeance))
                                                else old(c.dateSeanceOriginale))
    ensures saved ==> c.dateSeance == nouvelleDate.value && c.statutConsultation == statut
                      && c.nombreReports == old(c.nombreReports) + 1 && c.motifReport == Some(motif.GetOr(""))
    ensures saved ==> (old(c.ReportHistoryConsistent()) ==> c.ReportHistoryConsistent())
  {
    if nouvelleDate.None? {
      return false;
    }
    if c.dateSeanceOriginale.None? {
      c.dateSeanceOriginale := Some(c.dateSeance);
    }
    c.dateSeance := nouvelleDate.value;
    c.statutConsultation := statut;
    c.nombreReports := c.nombreReports + 1;
    c.motifReport := Some(motif.GetOr(""));
    saved := true;
  }

  /** `consultation_reporter` as written: after a reschedule the status is 'reportee',
      which is not one of the consultation statuses, so `peut_etre_reporte` becomes false
      (the view itself does not test it). */
  method ConsultationReporter(c: Consultation, nouvelleDate: Option<int>, motif: Option<string>)
    returns (saved: bool)
    modifies c`dateSeanceOriginale, c`dateSeance, c`statutConsultation, c`nombreReports, c`motifReport
    ensures saved <==> nouvelleDate.Some?
    ensures saved ==> c.dateSeance == nouvelleDate.value && c.nombreReports == old(c.nombreReports) + 1
    ensures saved ==> c.statutConsultation == "reportee"
                      && !IsStatutConsultation(c.statutConsultation) && !c.PeutEtreReporte()
    ensures !saved ==> c.dateSeanceOriginale == old(c.dateSeanceOriginale) && c.dateSeance == old(c.dateSeance)
                       && c.statutConsultation == old(c.statutConsultation)
                       && c.nombreReports == old(c.nombreReports) && c.motifReport == old(c.motifReport)
    ensures saved ==> c.dateSeanceOriginale == (if old(c.dateSeanceOriginale).None? then Some(old(c.dateSeance))
                                                else old(c.dateSeanceOriginale))
    ensures saved ==> c.motifReport == Some(motif.GetOr(""))
  {
    saved := RescheduleWith(c, nouvelleDate, motif, "reportee");
  }

  /** The reschedule with the status the model defines, 'reporte': `peut_etre_reporte`
      stays true, and the report counter and original date stay consistent. */
  method ConsultationReporterCorrected(c: Consultation, nouvelleDate: Option<int>, motif: Option<string>)
    returns (saved: bool)
    modifies c`dateSeanceOriginale, c`dateSeance, c`statutConsultation, c`nombreReports, c`motifReport
    ensures saved <==> nouvelleDate.Some?
    ensures saved ==> c.dateSeance == nouvelleDate.value && c.nombreReports == old(c.nombreReports) + 1
    ensures saved ==> c.statutConsultation == "reporte"
                      && IsStatutConsultation(c.statutConsultation) && c.PeutEtreReporte()
    ensures !saved ==> c.dateSeanceOriginale == old(c.dateSeanceOriginale) && c.dateSeance == old(c.dateSeance)
                       && c.statutConsultation == old(c.statutConsultation)
                       && c.nombreReports == old(c.nombreReports) && c.motifReport == old(c.motifReport)
    ensures saved ==> c.dateSeanceOriginale == (if old(c.dateSeanceOriginale).None? then Some(old(c.dateSeance))
                                                else old(c.dateSeanceOriginale))
    ensures saved ==> c.motifReport == Some(motif.GetOr(""))
    ensures saved ==> (old(c.ReportHistoryConsistent()) ==> c.ReportHistoryConsistent())
  {
    saved := RescheduleWith(c, nouvelleDate, motif, "reporte");
  }

  /** A pack the dashboard counts: status 'actif' and sessions left. */
  predicate PackActif(p: PackMindOffice)
    reads p
  {
    p.statut == "actif" && p.nombreSeancesUtilisees < p.nombreSeancesTotal
  }

  /** `packs_actifs`: the number of active packs. */
  function PacksActifs(packs: seq<PackMindOffice>): (r: nat)
    reads set p | p in packs
    ensures r <= |packs|
    decreases |packs|
  {
    if packs == [] then 0
    else PacksActifs(packs[..|packs| - 1]) + (if PackActif(packs[|packs| - 1]) then 1 else 0)
  }

  /** `seances_restantes` on the dashboard: the sessions left over the active packs. */
  function SeancesRestantesActives(packs: seq<PackMindOffice>): (r: int)
    reads set p | p in packs
    ensures (forall i :: 0 <= i < |packs| ==> !PackActif(packs[i])) ==> r == 0
    ensures r >= 0
    decreases |packs|
  {
    if packs == [] then 0
    else
      var p := packs[|packs| - 1];
      SeancesRestantesActives(packs[..|packs| - 1]) + (if PackActif(p) then p.SeancesRestantes() else 0)
  }

  /** Each active pack has at least one session left, so the dashboard shows at least as
      many sessions left as active packs, and none exactly when there is no active pack. */
  lemma {:induction false} SeancesAtLeastPacks(packs: seq<PackMindOffice>)
    ensures SeancesRestantesActives(packs) >= PacksActifs(packs)
    ensures SeancesRestantesActives(packs) == 0 <==> PacksActifs(packs) == 0
    decreases |packs|
  {
    if packs != [] {
      SeancesAtLeastPacks(packs[..|packs| - 1]);
    }
  }

  /** A pack is counted exactly when it is active. */
  lemma {:induction false} PacksActifsCounts(packs: seq<PackMindOffice>)
    ensures PacksActifs(packs) == 0 <==> forall i :: 0 <= i < |packs| ==> !PackActif(packs[i])
    decreases |packs|
  {
    if packs != [] {
      var init := packs[..|packs| - 1];
      PacksActifsCounts(init);
      assert forall i :: 0 <= i < |init| ==> init[i] == packs[i];
    }
  }

  /** The dashboard counts add up over any split of the pack list, and a single pack counts
      once when it is active and contributes its sessions left; so the count is the number
      of active packs and the sessions are their sum, whatever the order. */
  lemma {:induction false} DashboardConcat(a: seq<PackMindOffice>, b: seq<PackMindOffice>)
    ensures PacksActifs(a + b) == PacksActifs(a) + PacksActifs(b)
    ensures SeancesRestantesActives(a + b) == SeancesRestantesActives(a) + SeancesRestantesActives(b)
    decreases |b|
  {
    if b == [] {
      assert a + b == a;
    } else {
      var init := b[..|b| - 1];
      DashboardConcat(a, init);
      assert (a + b)[..|a + b| - 1] == a + init;
      assert (a + b)[|a + b| - 1] == b[|b| - 1];
    }
  }

  /** One pack: counted exactly when active, with its own sessions left. */
  lemma DashboardSingle(p: PackMindOffice)
    ensures PacksActifs([p]) == if PackActif(p) then 1 else 0
    ensures SeancesRestantesActives([p]) == if PackActif(p) then p.SeancesRestantes() else 0
  {
    assert [p][..0] == [];
  }

  /** `date_seance + timedelta(minutes=duree_minutes)`: the calendar event's end. */
  function EventEnd(start: int, dureeMinutes: int): (r: int)
    ensures r - start == dureeMinutes * MinuteMicros
  {
    start + dureeMinutes * MinuteMicros
  }

  /** A consultation of positive length ends after it starts, and moving it keeps its length. */
  lemma EventEndShift(start: int, dureeMinutes: int, shift: int)
    ensures dureeMinutes > 0 <==> EventEnd(start, dureeMinutes) > start
    ensures EventEnd(start + shift, dureeMinutes) == EventEnd(start, dureeMinutes) + shift
  {
  }
}
