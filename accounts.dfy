/** Users and licences: the super-administrator role, the limits a licence's plan imposes
    when it is saved, whether it is active and how many days it has left. Instants are
    integers (microseconds); `now` is the clock reading the licence methods take. */
module Accounts {
  import opened Wrappers

  /** `timedelta(days=1)` in microseconds. */
  const DayMicros: int := 86400000000

  /** `User`, with the field its role checks read. */
  class User {
    var role: string

    constructor (role: string)
      ensures this.role == role
    {
      this.role := role;
    }

    /** `is_superadmin`. */
    predicate IsSuperadmin()
      reads this
      ensures IsSuperadmin() ==> !IsPsychologist()
    {
      role == "superadmin"
    }

    /** `is_psychologist`. */
    predicate IsPsychologist()
      reads this
      ensures IsPsychologist() ==> role != "superadmin" && role != ""
    {
      role == "psychologist"
    }
  }

  /** A user is a super-administrator exactly for the role 'superadmin', and then never a
      psychologist. */
  lemma RolesExclusive(u: User)
    ensures u.IsSuperadmin() <==> u.role == "superadmin"
    ensures u.IsSuperadmin() ==> !u.IsPsychologist()
  {
  }

  /** The fields `save()` forces for a plan: 10 patients and a 30-day end date (only when
      none is set) for 'trial', 100 patients and no end date for 'lifetime', and nothing
      for any other plan. */
  function PlanLimits(plan: string, maxPatients: int, endDate: Option<int>, now: int): (r: (int, Option<int>))
    ensures plan == "trial" ==> r.0 == 10 && r.1.Some?
    ensures plan == "trial" && endDate.Some? ==> r.1 == endDate
    ensures plan == "trial" && endDate.None? ==> r.1 == Some(now + 30 * DayMicros)
    ensures plan == "lifetime" ==> r == (100, None)
    ensures plan != "trial" && plan != "lifetime" ==> r == (maxPatients, endDate)
  {
    if plan == "trial" then (10, if endDate.None? then Some(now + 30 * DayMicros) else endDate)
    else if plan == "lifetime" then (100, None)
    else (maxPatients, endDate)
  }

  /** Saving again, at any later or earlier time, changes nothing more: the trial's end
      date is set once and kept. */
  lemma PlanLimitsIdempotent(plan: string, maxPatients: int, endDate: Option<int>, now: int, later: int)
    ensures var (m, e) := PlanLimits(plan, maxPatients, endDate, now);
      PlanLimits(plan, m, e, later) == (m, e)
  {
  }

  /** `days_remaining`: unlimited, or a number of days. */
  datatype Remaining = Illimite | Days(n: int)

  /** `License`, with the fields its plan logic reads and writes. */
  class License {
    var plan: string
    var status: string
    var maxPatients: int
    var endDate: Option<int>

    /** A new licence: the field defaults 'trial', 'active', 10 patients, no end date. */
    constructor ()
      ensures plan == "trial" && status == "active" && maxPatients == 10 && endDate == None
    {
      plan := "trial";
      status := "active";
      maxPatients := 10;
      endDate := None;
    }

    /** `save()`: apply the plan's limits, then store the row. */
    method Save(now: int)
      modifies this`maxPatients, this`endDate
      ensures (maxPatients, endDate) == PlanLimits(plan, old(maxPatients), old(endDate), now)
    {
      if plan == "trial" {
        maxPatients := 10;
        if endDate.None? {
          endDate := Some(now + 30 * DayMicros);
        }
      } else if plan == "lifetime" {
        maxPatients := 100;
        endDate := None;
      }
    }

    /** `is_active`: an active status, and a lifetime plan or an end date still ahead. */
    predicate IsActive(now: int)
      reads this
      ensures IsActive(now) ==> status == "active"
      ensures status == "active" && plan == "lifetime" ==> IsActive(now)
      ensures IsActive(now) && plan != "lifetime" ==> endDate.Some? && now < endDate.value
    {
      status == "active" && (plan == "lifetime" || (endDate.Some? && endDate.value > now))
    }

    /** `days_remaining`: unlimited for a lifetime plan, the whole days left before an end
        date still ahead, and 0 otherwise. */
    function DaysRemaining(now: int): (r: Remaining)
      reads this
      ensures r.Illimite? <==> plan == "lifetime"
      ensures r.Days? ==> r.n >= 0
      ensures r.Days? && r.n > 0 ==> endDate.Some? && endDate.value - now >= r.n * DayMicros
      ensures plan != "lifetime" && endDate.Some? && endDate.value > now ==>
        r.Days? && r.n * DayMicros <= endDate.value - now < (r.n + 1) * DayMicros
      ensures plan != "lifetime" && !(endDate.Some? && endDate.value > now) ==> r == Days(0)
    {
      if plan == "lifetime" then Illimite
      else if endDate.Some? && endDate.value > now then
        var d := endDate.value - now;
        assert d == (d / DayMicros) * DayMicros + d % DayMicros;
        Days(d / DayMicros)
      else Days(0)
    }

    /** `has_patient_limit`: every plan limits the number of patients. */
    function HasPatientLimit(): (r: bool)
      ensures r
    {
      true
    }
  }

  /** What `is_active` decides: never with a status other than 'active'; always for an active
      lifetime licence; for any other plan exactly while the end date lies ahead. */
  lemma IsActiveMeaning(l: License, now: int)
    ensures l.status != "active" ==> !l.IsActive(now)
    ensures l.status == "active" && l.plan == "lifetime" ==> l.IsActive(now)
    ensures l.status == "active" && l.plan != "lifetime" ==>
      (l.IsActive(now) <==> l.endDate.Some? && now < l.endDate.value)
  {
  }

  /** The days left are never negative, are unlimited exactly for the lifetime plan, are
      the whole days of the time left before an end date still ahead (`timedelta.days`,
      which floors), and are 0 once the end date is past or absent. */
  lemma DaysRemainingMeaning(l: License, now: int)
    ensures l.DaysRemaining(now).Illimite? <==> l.plan == "lifetime"
    ensures l.DaysRemaining(now).Days? ==> l.DaysRemaining(now).n >= 0
    ensures l.DaysRemaining(now).Days? && l.DaysRemaining(now).n > 0 ==>
      l.endDate.Some? && l.endDate.value >= now + l.DaysRemaining(now).n * DayMicros
    ensures l.plan != "lifetime" && l.endDate.Some? && l.endDate.value > now ==>
      l.DaysRemaining(now).Days? &&
      l.DaysRemaining(now).n * DayMicros <= l.endDate.value - now < (l.DaysRemaining(now).n + 1) * DayMicros
    ensures l.plan != "lifetime" && !(l.endDate.Some? && l.endDate.value > now) ==> l.DaysRemaining(now) == Days(0)
    ensures l.DaysRemaining(now).Days? && l.DaysRemaining(now).n > 0 && l.status == "active" ==> l.IsActive(now)
  {
    var r := l.DaysRemaining(now);
    if l.plan != "lifetime" && l.endDate.Some? && l.endDate.value > now {
      var d := l.endDate.value - now;
      assert r.n == d / DayMicros;
      assert d == (d / DayMicros) * DayMicros + d % DayMicros;
    }
  }

  /** Expiry is permanent: a licence active at a later time was active before, and the days
      left never grow. */
  lemma ExpiryMonotone(l: License, now: int, later: int)
    requires now <= later
    ensures l.IsActive(later) ==> l.IsActive(now)
    ensures l.DaysRemaining(later).Days? ==> l.DaysRemaining(now).Days? && l.DaysRemaining(later).n <= l.DaysRemaining(now).n
  {
    if l.plan != "lifetime" && l.endDate.Some? && l.endDate.value > later {
      DivMonotone(l.endDate.value - later, l.endDate.value - now);
    }
  }

  /** Whole days are monotone in the time span. */
  lemma DivMonotone(a: int, b: int)
    requires 0 <= a <= b
    ensures a / DayMicros <= b / DayMicros
  {
    var qa, qb := a / DayMicros, b / DayMicros;
    assert a == qa * DayMicros + a % DayMicros;
    assert b == qb * DayMicros + b % DayMicros;
  }

  /** A trial saved without an end date is, with an active status, active for thirty
      whole days from the moment of saving. */
  lemma FreshTrial(l: License, now: int)
    requires l.plan == "trial" && l.status == "active" && l.endDate == Some(now + 30 * DayMicros)
    ensures l.IsActive(now) && l.DaysRemaining(now) == Days(30)
    ensures l.IsActive(now + 30 * DayMicros - 1) && !l.IsActive(now + 30 * DayMicros)
  {
  }
}
