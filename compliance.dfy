/** The Compliance schema: an equipment compliance check made by a user. */
module ComplianceModel {
  import opened Text
  import opened Values

  datatype ComplianceStatus = Compliant | NonCompliant | Pending

  function ComplianceStatusName(c: ComplianceStatus): string
  {
    match c
    case Compliant => "Compliant"
    case NonCompliant => "Non-compliant"
    case Pending => "Pending"
  }

  /** The enum validator of `status`: Compliant, Non-compliant, Pending. */
  function ParseComplianceStatus(s: string): (r: Option<ComplianceStatus>)
    ensures r.Some? ==> ComplianceStatusName(r.value) == s
    ensures r.None? ==> forall c :: ComplianceStatusName(c) != s
  {
    if s == "Compliant" then Some(Compliant)
    else if s == "Non-compliant" then Some(NonCompliant)
    else if s == "Pending" then Some(Pending)
    else None
  }

  /** The String cast followed by the enum validator: the value's text is
      exactly the name of the stored member, and a value whose text names no
      member is refused. */
  function ComplianceStatusOf(v: JsVal): (r: Option<ComplianceStatus>)
    ensures r.Some? ==> StringOf(v) == Some(ComplianceStatusName(r.value))
    ensures r.None? ==> forall c :: StringOf(v) != Some(ComplianceStatusName(c))
  {
    match StringOf(v)
    case Some(s) => ParseComplianceStatus(s)
    case None => None
  }

  /** A stored compliance record; `checkedBy` is the id of the checking user.
      `remarks` may hold `null` (`None`). */
  datatype Compliance = Compliance(
    equipmentName: string,
    checkedBy: Id,
    checkedAt: Date,
    status: ComplianceStatus,
    remarks: Option<string>)

  predicate ValidCompliance(c: Compliance)
  {
    && c.equipmentName != "" && IsTrimmed(c.equipmentName)
    && (c.remarks.Some? ==> IsTrimmed(c.remarks.value))
  }

  /** A stored record's strings are fixed points of their paths: cast and
      trimmed again they come back unchanged, and the equipment name still
      passes `required`. */
  lemma ValidComplianceRecasts(c: Compliance)
    requires ValidCompliance(c)
    ensures && NonBlank(TrimmedStringOf(Str(c.equipmentName)))
            && TrimmedStringOf(Str(c.equipmentName)) == Some(c.equipmentName)
    ensures c.remarks.Some? ==> TrimmedStringOf(Str(c.remarks.value)) == c.remarks
  {
    TrimmedStringOfTrimmed(c.equipmentName);
    if c.remarks.Some? {
      TrimmedStringOfTrimmed(c.remarks.value);
    }
  }

  predicate AllCompliancesValid(m: map<Id, Compliance>)
  {
    forall k :: k in m ==> ValidCompliance(m[k])
  }

  /** The compliance record `save` persists for a new document with these
      path values, or `None` when a cast or a validator fails. */
  function BuildCompliance(
    equipmentName: JsVal, checkedBy: JsVal, checkedAt: JsVal, status: JsVal, remarks: JsVal,
    parseDate: string -> Option<Date>
  ): (r: Option<Compliance>)
    ensures r.Some? <==> && NonBlank(TrimmedStringOf(equipmentName)) && ObjectIdOf(checkedBy).Some?
                         && DateOf(checkedAt, parseDate).Some? && ComplianceStatusOf(status).Some?
    ensures r.Some? ==> ValidCompliance(r.value)
    ensures r.Some? ==> Some(r.value.equipmentName) == TrimmedStringOf(equipmentName)
    ensures r.Some? ==> Some(r.value.checkedBy) == ObjectIdOf(checkedBy)
    ensures r.Some? ==> Some(r.value.checkedAt) == DateOf(checkedAt, parseDate)
    ensures r.Some? ==> StringOf(status) == Some(ComplianceStatusName(r.value.status))
    ensures r.Some? ==> r.value.remarks == NewTrimmedStringOf(remarks, "")
  {
    match (TrimmedStringOf(equipmentName), ObjectIdOf(checkedBy), DateOf(checkedAt, parseDate),
           ComplianceStatusOf(status))
    case (Some(n), Some(checker), Some(at), Some(st)) =>
      var c := Compliance(n, checker, at, st, NewTrimmedStringOf(remarks, ""));
      if ValidCompliance(c) then Some(c) else None
    case _ => None
  }

  lemma BlankEquipmentNameRefused(
    equipmentName: string, checkedBy: JsVal, checkedAt: JsVal, status: JsVal, remarks: JsVal,
    parseDate: string -> Option<Date>)
    requires AllSpace(equipmentName)
    ensures BuildCompliance(Str(equipmentName), checkedBy, checkedAt, status, remarks, parseDate).None?
  {
  }
}
