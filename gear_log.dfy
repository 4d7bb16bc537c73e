/** The GearLog schema: a check of a worker's protective gear at a site. */
module GearLogModel {
  import opened Text
  import opened Values

  datatype GearStatus = Good | Damaged | Replaced

  function GearStatusName(g: GearStatus): string
  {
    match g
    case Good => "Good"
    case Damaged => "Damaged"
    case Replaced => "Replaced"
  }

  /** The enum validator of `status`: Good, Damaged, Replaced. */
  function ParseGearStatus(s: string): (r: Option<GearStatus>)
    ensures r.Some? ==> GearStatusName(r.value) == s
    ensures r.None? ==> forall g :: GearStatusName(g) != s
  {
    if s == "Good" then Some(Good)
    else if s == "Damaged" then Some(Damaged)
    else if s == "Replaced" then Some(Replaced)
    else None
  }

  /** The String cast followed by the enum validator: the value's text is
      exactly the name of the stored member, and a value whose text names no
      member is refused. */
  function GearStatusOf(v: JsVal): (r: Option<GearStatus>)
    ensures r.Some? ==> StringOf(v) == Some(GearStatusName(r.value))
    ensures r.None? ==> forall g :: StringOf(v) != Some(GearStatusName(g))
  {
    match StringOf(v)
    case Some(s) => ParseGearStatus(s)
    case None => None
  }

  /** A stored gear log. `worker`, `site`, `dateChecked` and `status` are
      required and so always present; `remarks` may hold `null` (`None`). */
  datatype GearLog = GearLog(
    worker: Id,
    site: Id,
    gearType: string,
    gearCondition: string,
    dateChecked: Date,
    status: GearStatus,
    remarks: Option<string>)

  /** The required trimmed strings are non-empty; every string is trimmed. */
  predicate ValidGearLog(g: GearLog)
  {
    && g.gearType != "" && IsTrimmed(g.gearType)
    && g.gearCondition != "" && IsTrimmed(g.gearCondition)
    && (g.remarks.Some? ==> IsTrimmed(g.remarks.value))
  }

  /** A stored gear log's strings are fixed points of their paths: cast and
      trimmed again they come back unchanged, and the required ones still
      pass `required`. */
  lemma ValidGearLogRecasts(g: GearLog)
    requires ValidGearLog(g)
    ensures NonBlank(TrimmedStringOf(Str(g.gearType))) && TrimmedStringOf(Str(g.gearType)) == Some(g.gearType)
    ensures && NonBlank(TrimmedStringOf(Str(g.gearCondition)))
            && TrimmedStringOf(Str(g.gearCondition)) == Some(g.gearCondition)
    ensures g.remarks.Some? ==> TrimmedStringOf(Str(g.remarks.value)) == g.remarks
  {
    TrimmedStringOfTrimmed(g.gearType);
    TrimmedStringOfTrimmed(g.gearCondition);
    if g.remarks.Some? {
      TrimmedStringOfTrimmed(g.remarks.value);
    }
  }

  predicate AllGearLogsValid(m: map<Id, GearLog>)
  {
    forall k :: k in m ==> ValidGearLog(m[k])
  }

  /** The gear log `save` persists for a new document with these path values,
      or `None` when a cast or a validator fails. */
  function BuildGearLog(
    worker: JsVal, site: JsVal, gearType: JsVal, gearCondition: JsVal, dateChecked: JsVal,
    status: JsVal, remarks: JsVal, parseDate: string -> Option<Date>
  ): (r: Option<GearLog>)
    ensures r.Some? <==> && ObjectIdOf(worker).Some? && ObjectIdOf(site).Some?
                         && NonBlank(TrimmedStringOf(gearType)) && NonBlank(TrimmedStringOf(gearCondition))
                         && DateOf(dateChecked, parseDate).Some? && GearStatusOf(status).Some?
    ensures r.Some? ==> ValidGearLog(r.value)
    ensures r.Some? ==> Some(r.value.worker) == ObjectIdOf(worker)
    ensures r.Some? ==> Some(r.value.site) == ObjectIdOf(site)
    ensures r.Some? ==> Some(r.value.gearType) == TrimmedStringOf(gearType)
    ensures r.Some? ==> Some(r.value.gearCondition) == TrimmedStringOf(gearCondition)
    ensures r.Some? ==> Some(r.value.dateChecked) == DateOf(dateChecked, parseDate)
    ensures r.Some? ==> StringOf(status) == Some(GearStatusName(r.value.status))
    ensures r.Some? ==> r.value.remarks == NewTrimmedStringOf(remarks, "")
  {
    match (ObjectIdOf(worker), ObjectIdOf(site), TrimmedStringOf(gearType),
           TrimmedStringOf(gearCondition), DateOf(dateChecked, parseDate), GearStatusOf(status))
    case (Some(w), Some(s), Some(t), Some(c), Some(d), Some(st)) =>
      var g := GearLog(w, s, t, c, d, st, NewTrimmedStringOf(remarks, ""));
      if ValidGearLog(g) then Some(g) else None
    case _ => None
  }

  /** With `remarks` left out, a new gear log stores the default "". */
  lemma RemarksDefault(
    worker: JsVal, site: JsVal, gearType: JsVal, gearCondition: JsVal, dateChecked: JsVal,
    status: JsVal, parseDate: string -> Option<Date>)
    requires BuildGearLog(worker, site, gearType, gearCondition, dateChecked, status, Undefined, parseDate).Some?
    ensures BuildGearLog(worker, site, gearType, gearCondition, dateChecked, status, Undefined, parseDate).value.remarks == Some("")
  {
  }

  /** A gear type of whitespace only is trimmed to "" and fails `required`. */
  lemma BlankGearTypeRefused(
    worker: JsVal, site: JsVal, gearType: string, gearCondition: JsVal, dateChecked: JsVal,
    status: JsVal, remarks: JsVal, parseDate: string -> Option<Date>)
    requires AllSpace(gearType)
    ensures BuildGearLog(worker, site, Str(gearType), gearCondition, dateChecked, status, remarks, parseDate).None?
  {
  }
}
