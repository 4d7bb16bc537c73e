/** The Worker schema: a worker's names, a unique lower-cased email, optional
    contact details, the hiring date and whether the worker is active. */
module WorkerModel {
  import opened Text
  import opened Values

  /** A stored worker. `phone`, `jobTitle` and `department` are optional and
      hold `None` when absent or `null`; `dateHired` and `active` have
      defaults but may still be set to `null` (`None`). */
  datatype Worker = Worker(
    firstName: string,
    lastName: string,
    email: string,
    phone: Option<string>,
    jobTitle: Option<string>,
    department: Option<string>,
    dateHired: Option<Date>,
    active: Option<bool>)

  /** The setters and validators of one worker: the required names are
      non-empty and trimmed, the email is non-empty, trimmed and lower case,
      and the optional strings are trimmed. */
  predicate ValidWorker(w: Worker)
  {
    && w.firstName != "" && IsTrimmed(w.firstName)
    && w.lastName != "" && IsTrimmed(w.lastName)
    && w.email != "" && IsTrimmed(w.email) && Lower(w.email) == w.email
    && (w.phone.Some? ==> IsTrimmed(w.phone.value))
    && (w.jobTitle.Some? ==> IsTrimmed(w.jobTitle.value))
    && (w.department.Some? ==> IsTrimmed(w.department.value))
  }

  /** A stored worker's names and email are fixed points of their paths: cast,
      trimmed and (for the email) lower-cased again, they come back unchanged. */
  lemma ValidWorkerRecasts(w: Worker)
    requires ValidWorker(w)
    ensures TrimmedStringOf(Str(w.firstName)) == Some(w.firstName)
    ensures TrimmedStringOf(Str(w.lastName)) == Some(w.lastName)
    ensures EmailOf(Str(w.email)) == Some(w.email)
  {
    TrimmedStringOfTrimmed(w.firstName);
    TrimmedStringOfTrimmed(w.lastName);
    TrimmedStringOfTrimmed(w.email);
  }

  /** The `unique` index on `email`: no two stored workers share one. */
  predicate EmailsUnique(m: map<Id, Worker>)
  {
    forall a, b :: a in m && b in m && a != b ==> m[a].email != m[b].email
  }

  /** `find({ email: e })`: the ids of the stored workers with that email. */
  function WithEmail(m: map<Id, Worker>, e: string): set<Id>
  {
    set k | k in m && m[k].email == e
  }

  /** The index is unique exactly when looking a stored worker up by its
      email finds that worker and no other. */
  lemma EmailsUniqueLookup(m: map<Id, Worker>)
    ensures EmailsUnique(m) <==> forall k :: k in m ==> WithEmail(m, m[k].email) == {k}
  {
    if EmailsUnique(m) {
      forall k | k in m
        ensures WithEmail(m, m[k].email) == {k}
      {
        assert k in WithEmail(m, m[k].email);
      }
    }
    if forall k :: k in m ==> WithEmail(m, m[k].email) == {k} {
      forall a, b | a in m && b in m && a != b
        ensures m[a].email != m[b].email
      {
        assert WithEmail(m, m[a].email) == {a};
      }
    }
  }

  predicate AllWorkersValid(m: map<Id, Worker>)
  {
    (forall k :: k in m ==> ValidWorker(m[k])) && EmailsUnique(m)
  }

  /** The `email` path: the String cast, then `trim`, then `lowercase`. */
  function EmailOf(v: JsVal): (r: Option<string>)
    ensures r.Some? ==> IsTrimmed(r.value) && Lower(r.value) == r.value
    ensures r.None? <==> v.Null? || v.Undefined?
  {
    match TrimmedStringOf(v)
    case Some(e) =>
      LowerOfTrimmed(e);
      Some(Lower(e))
    case None => None
  }

  /** The worker `save` builds for a new document with these path values, or
      `None` when a cast or a `required` validator (an empty name or email
      once trimmed) fails. `now` is the time of the save,
      which the `Date.now` default of `dateHired` takes; the default applies
      only to a missing value, so `null` is stored as `null`. */
  function BuildWorker(
    firstName: JsVal, lastName: JsVal, email: JsVal, phone: JsVal, jobTitle: JsVal,
    department: JsVal, dateHired: JsVal, active: JsVal, now: Date,
    parseDate: string -> Option<Date>
  ): (r: Option<Worker>)
    ensures r.Some? <==> && NonBlank(TrimmedStringOf(firstName)) && NonBlank(TrimmedStringOf(lastName))
                         && NonBlank(EmailOf(email))
                         && (dateHired == Undefined || NullableDateOf(dateHired, parseDate).Some?)
                         && (active == Undefined || NullableBooleanOf(active).Some?)
    ensures r.Some? ==> ValidWorker(r.value)
    ensures r.Some? ==> Some(r.value.firstName) == TrimmedStringOf(firstName)
    ensures r.Some? ==> Some(r.value.lastName) == TrimmedStringOf(lastName)
    ensures r.Some? ==> Some(r.value.email) == EmailOf(email)
    ensures r.Some? ==> r.value.phone == TrimmedStringOf(phone)
    ensures r.Some? ==> r.value.jobTitle == TrimmedStringOf(jobTitle)
    ensures r.Some? ==> r.value.department == TrimmedStringOf(department)
    ensures r.Some? && dateHired == Undefined ==> r.value.dateHired == Some(now)
    ensures r.Some? && dateHired != Undefined ==> Some(r.value.dateHired) == NullableDateOf(dateHired, parseDate)
    ensures r.Some? && active == Undefined ==> r.value.active == Some(true)
    ensures r.Some? && active != Undefined ==> Some(r.value.active) == NullableBooleanOf(active)
  {
    var hired := if dateHired == Undefined then Some(Some(now)) else NullableDateOf(dateHired, parseDate);
    var isActive := if active == Undefined then Some(Some(true)) else NullableBooleanOf(active);
    var first, last, mail := TrimmedStringOf(firstName), TrimmedStringOf(lastName), EmailOf(email);
    if first.Some? && last.Some? && mail.Some? && hired.Some? && isActive.Some? then
      var w := Worker(first.value, last.value, mail.value, TrimmedStringOf(phone), TrimmedStringOf(jobTitle),
                      TrimmedStringOf(department), hired.value, isActive.value);
      if first.value != "" && last.value != "" && mail.value != "" then
        assert ValidWorker(w);
        Some(w)
      else None
    else None
  }

  /** Inserting a built worker under a new id: the unique index refuses it
      when a stored worker already has its email. */
  function InsertWorker(m: map<Id, Worker>, newId: Id, w: Worker): (r: Option<map<Id, Worker>>)
    requires newId !in m
    ensures r.None? <==> exists k :: k in m && m[k].email == w.email
    ensures r.Some? ==> r.value == m[newId := w]
    ensures r.Some? && AllWorkersValid(m) && ValidWorker(w) ==> AllWorkersValid(r.value)
  {
    if exists k :: k in m && m[k].email == w.email then None else Some(m[newId := w])
  }

  /** Emails are stored trimmed and lower-cased, so two bodies whose emails
      differ only in letter case or surrounding whitespace give the same
      stored email, and the second of them is refused by the unique index. */
  lemma {:induction false} EmailsEqualUpToCaseCollide(
    m: map<Id, Worker>, newId: Id, k: Id, e: string, e': string, w: Worker)
    requires newId !in m && k in m
    requires m[k].email == Lower(Trim(e))
    requires EmailOf(Str(e')) == Some(w.email)
    requires Lower(Trim(e)) == Lower(Trim(e')) || Lower(e) == Lower(e')
    ensures InsertWorker(m, newId, w).None?
  {
    LowerTrimCommute(e);
    LowerTrimCommute(e');
    assert m[k].email == w.email;
  }

  /** The order of `sort({ lastName: 1, firstName: 1 })`: by last name, and by
      first name among equal last names. Workers with the same names may come
      in either order, and a strictly smaller last name comes first whatever
      the first names. */
  predicate ByName(a: (Id, Worker), b: (Id, Worker))
    ensures a.1.lastName == b.1.lastName && a.1.firstName == b.1.firstName ==> ByName(a, b)
    ensures StrLe(a.1.lastName, b.1.lastName) && !StrLe(b.1.lastName, a.1.lastName) ==> ByName(a, b)
  {
    StrLeReflexive(a.1.lastName);
    StrLeReflexive(a.1.firstName);
    if a.1.lastName != b.1.lastName then StrLe(a.1.lastName, b.1.lastName)
    else StrLe(a.1.firstName, b.1.firstName)
  }

  lemma ByNameTotal(a: (Id, Worker), b: (Id, Worker))
    ensures ByName(a, b) || ByName(b, a)
  {
    if a.1.lastName != b.1.lastName {
      StrLeTotal(a.1.lastName, b.1.lastName);
    } else {
      StrLeTotal(a.1.firstName, b.1.firstName);
    }
  }

  lemma ByNameTransitive(a: (Id, Worker), b: (Id, Worker), c: (Id, Worker))
    requires ByName(a, b) && ByName(b, c)
    ensures ByName(a, c)
  {
    var la, lb, lc := a.1.lastName, b.1.lastName, c.1.lastName;
    if la == lb && lb == lc {
      StrLeTransitive(a.1.firstName, b.1.firstName, c.1.firstName);
    } else if la == lb {
    } else if lb == lc {
    } else {
      StrLeTransitive(la, lb, lc);
      if la == lc {
        StrLeAntisymmetric(la, lb);
      }
    }
  }
}
