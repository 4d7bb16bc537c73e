/** The incident and gear-log handlers. Queries are functions of the stored
    collections; the handlers that write are methods of `SafetyStore`, which
    holds both collections. */
module SafetyController {
  import opened Text
  import opened Values
  import opened Listing
  import opened IncidentModel
  import opened GearLogModel

  // --------------------------------------------------------------- incidents

  /** The fields of an incident request body. */
  datatype IncidentBody = IncidentBody(
    title: JsVal,
    description: JsVal,
    incident_type: JsVal,
    severity_level: JsVal,
    date: JsVal,
    resolved: JsVal,
    site_id: JsVal)

  /** The truthiness check that `createIncident` and `updateIncident` make
      before anything else; `resolved` is not part of it. A body that passes it
      holds a non-empty string or `true` on every checked path, so the casts
      never see `undefined` or `null` there. */
  predicate IncidentFieldsPresent(b: IncidentBody)
    ensures IncidentFieldsPresent(b) ==>
              && TrimmedStringOf(b.title).Some? && TrimmedStringOf(b.description).Some?
              && StringOf(b.incident_type).Some? && StringOf(b.severity_level).Some?
    ensures IncidentFieldsPresent(b) ==> b.date == Bool(true) || (b.date.Str? && b.date.s != "")
    ensures b.title == Str("") || b.description == Str("") ==> !IncidentFieldsPresent(b)
  {
    && Truthy(b.title) && Truthy(b.description) && Truthy(b.incident_type)
    && Truthy(b.severity_level) && Truthy(b.date) && Truthy(b.site_id)
  }

  /** The incident saved from a body on behalf of `owner`, with `resolved`
      given as `resolved || false`; `None` when the save fails. */
  function IncidentFromBody(owner: Id, b: IncidentBody, parseDate: string -> Option<Date>): (r: Option<Incident>)
    ensures r.Some? ==> r.value.user == owner && ValidIncident(r.value)
    ensures r.Some? && !Truthy(b.resolved) ==> !r.value.resolved
    ensures r.Some? && Truthy(b.resolved) ==> Some(r.value.resolved) == BooleanOf(b.resolved)
    ensures r.Some? ==> Some(r.value.title) == TrimmedStringOf(b.title)
    ensures r.Some? ==> Some(r.value.description) == TrimmedStringOf(b.description)
    ensures r.Some? ==> Some(r.value.site_id) == ObjectIdOf(b.site_id)
    ensures r.Some? ==> Some(r.value.date) == DateOf(b.date, parseDate)
    ensures r.Some? ==> StringOf(b.incident_type) == Some(IncidentTypeName(r.value.incident_type))
    ensures r.Some? ==> StringOf(b.severity_level) == Some(SeverityLevelName(r.value.severity_level))
  {
    BuildIncident(owner, b.site_id, b.incident_type, b.title, b.description,
                  b.severity_level, b.date, Or(b.resolved, Bool(false)), parseDate)
  }

  /** `resolved || false` never leaves a falsy value for the Boolean cast, so
      a body without `resolved` (or with `""`, `null`, `false`) saves an
      unresolved incident whenever the rest of the body is accepted. */
  lemma FalsyResolvedSavesUnresolved(owner: Id, b: IncidentBody, parseDate: string -> Option<Date>)
    requires !Truthy(b.resolved)
    ensures IncidentFromBody(owner, b, parseDate)
         == IncidentFromBody(owner, b.(resolved := Bool(false)), parseDate)
    ensures IncidentFromBody(owner, b, parseDate).Some? ==> !IncidentFromBody(owner, b, parseDate).value.resolved
  {
  }

  /** A title of spaces passes the truthiness check, since it is a non-empty
      string, and is refused only by the save after trimming: the caller gets
      500 rather than 400. */
  lemma BlankTitlePassesPresenceCheck(owner: Id, b: IncidentBody, parseDate: string -> Option<Date>)
    requires b.title.Str? && b.title.s != [] && AllSpace(b.title.s)
    requires Truthy(b.description) && Truthy(b.incident_type) && Truthy(b.severity_level)
    requires Truthy(b.date) && Truthy(b.site_id)
    ensures IncidentFieldsPresent(b)
    ensures IncidentFromBody(owner, b, parseDate).None?
  {
    BlankTitleRefused(owner, b.site_id, b.incident_type, b.title.s, b.description,
                      b.severity_level, b.date, Or(b.resolved, Bool(false)), parseDate);
  }

  /** The order of `sort({ date: -1 })`: later dates first. Incidents on the
      same date may come in either order, and whenever `a` may not come
      before `b`, `b` is strictly later. */
  predicate IncidentLaterFirst(a: (Id, Incident), b: (Id, Incident))
    ensures a.1.date == b.1.date ==> IncidentLaterFirst(a, b)
    ensures !IncidentLaterFirst(a, b) ==> b.1.date > a.1.date
  {
    a.1.date >= b.1.date
  }

  /** `getIncidents`: exactly the caller's incidents, each once, latest date
      first. */
  function GetIncidents(incidents: map<Id, Incident>, caller: Id): (r: Reply<seq<(Id, Incident)>>)
    ensures r.Ok?
    ensures forall e :: e in r.value <==> e.0 in incidents && incidents[e.0] == e.1 && e.1.user == caller
    ensures forall i, j :: 0 <= i < j < |r.value| ==> r.value[i].1.date >= r.value[j].1.date
    ensures Distinct(r.value)
  {
    assert TotalPreorder(IncidentLaterFirst);
    var listed := Query(incidents, (i: Incident) => i.user == caller, IncidentLaterFirst);
    assert Sorted(listed, IncidentLaterFirst);
    Ok(listed)
  }

  /** `getIncidentById`: any caller may read any incident; 500 for an id that
      is not an ObjectId, 404 for an unknown one. */
  function GetIncidentById(incidents: map<Id, Incident>, id: string): (r: Reply<Incident>)
    ensures r.Status() == 500 <==> ParseObjectId(id).None?
    ensures r.Status() == 404 <==> ParseObjectId(id).Some? && KeyOf(id) !in incidents
    ensures r.Status() == 200 <==> ParseObjectId(id).Some? && KeyOf(id) in incidents
    ensures r.Status() == 200 ==> r == Ok(incidents[KeyOf(id)])
  {
    FindById(incidents, id)
  }

  // --------------------------------------------------------------- gear logs

  /** The fields of a gear-log request body. */
  datatype GearLogBody = GearLogBody(
    worker: JsVal,
    site: JsVal,
    gearType: JsVal,
    gearCondition: JsVal,
    dateChecked: JsVal,
    status: JsVal,
    remarks: JsVal)

  /** The truthiness check of `createGearLog`; `remarks` is not part of it. A body that passes it
      holds a non-empty string or `true` on every checked path, so the casts
      never see `undefined` or `null` there. */
  predicate GearLogFieldsPresent(b: GearLogBody)
    ensures GearLogFieldsPresent(b) ==>
              && TrimmedStringOf(b.gearType).Some? && TrimmedStringOf(b.gearCondition).Some?
              && StringOf(b.status).Some?
    ensures GearLogFieldsPresent(b) ==> b.dateChecked == Bool(true) || (b.dateChecked.Str? && b.dateChecked.s != "")
    ensures b.gearType == Str("") || b.gearCondition == Str("") ==> !GearLogFieldsPresent(b)
  {
    && Truthy(b.worker) && Truthy(b.site) && Truthy(b.gearType)
    && Truthy(b.gearCondition) && Truthy(b.dateChecked) && Truthy(b.status)
  }

  function GearLogFromBody(b: GearLogBody, parseDate: string -> Option<Date>): (r: Option<GearLog>)
    ensures r.Some? ==> ValidGearLog(r.value)
    ensures r.Some? ==> Some(r.value.gearType) == TrimmedStringOf(b.gearType)
    ensures r.Some? ==> Some(r.value.gearCondition) == TrimmedStringOf(b.gearCondition)
    ensures r.Some? ==> r.value.remarks == NewTrimmedStringOf(b.remarks, "")
  {
    BuildGearLog(b.worker, b.site, b.gearType, b.gearCondition, b.dateChecked, b.status, b.remarks, parseDate)
  }

  /** The update rule of `updateGearLog`: each of the six required paths takes
      the body's value only when it is truthy, and `remarks` takes any value
      other than `undefined`; then the document is saved, which may fail. */
  function MergeGearLog(g: GearLog, b: GearLogBody, parseDate: string -> Option<Date>): (r: Option<GearLog>)
    ensures r.Some? ==> ValidGearLog(r.value)
    ensures r.Some? && !Truthy(b.worker) ==> r.value.worker == g.worker
    ensures r.Some? && Truthy(b.worker) ==> Some(r.value.worker) == ObjectIdOf(b.worker)
    ensures r.Some? && !Truthy(b.site) ==> r.value.site == g.site
    ensures r.Some? && Truthy(b.site) ==> Some(r.value.site) == ObjectIdOf(b.site)
    ensures r.Some? && !Truthy(b.gearType) ==> r.value.gearType == g.gearType
    ensures r.Some? && Truthy(b.gearType) ==> Some(r.value.gearType) == TrimmedStringOf(b.gearType)
    ensures r.Some? && !Truthy(b.gearCondition) ==> r.value.gearCondition == g.gearCondition
    ensures r.Some? && Truthy(b.gearCondition) ==> Some(r.value.gearCondition) == TrimmedStringOf(b.gearCondition)
    ensures r.Some? && !Truthy(b.dateChecked) ==> r.value.dateChecked == g.dateChecked
    ensures r.Some? && Truthy(b.dateChecked) ==> Some(r.value.dateChecked) == DateOf(b.dateChecked, parseDate)
    ensures r.Some? && !Truthy(b.status) ==> r.value.status == g.status
    ensures r.Some? && Truthy(b.status) ==> StringOf(b.status) == Some(GearStatusName(r.value.status))
    ensures r.Some? && b.remarks == Undefined ==> r.value.remarks == g.remarks
    ensures r.Some? && b.remarks != Undefined ==> r.value.remarks == TrimmedStringOf(b.remarks)
  {
    match (Coalesce(b.worker, g.worker, ObjectIdOf), Coalesce(b.site, g.site, ObjectIdOf),
           Coalesce(b.gearType, g.gearType, TrimmedStringOf),
           Coalesce(b.gearCondition, g.gearCondition, TrimmedStringOf),
           Coalesce(b.dateChecked, g.dateChecked, v => DateOf(v, parseDate)),
           Coalesce(b.status, g.status, GearStatusOf))
    case (Some(w), Some(s), Some(t), Some(c), Some(d), Some(st)) =>
      var remarks := if b.remarks != Undefined then TrimmedStringOf(b.remarks) else g.remarks;
      var merged := GearLog(w, s, t, c, d, st, remarks);
      if ValidGearLog(merged) then Some(merged) else None
    case _ => None
  }

  /** When the stored gear log is valid, the update is saved exactly when
      every truthy body value casts to its path's type and neither required
      string is blank once trimmed. */
  lemma {:induction false} MergeGearLogAccepts(g: GearLog, b: GearLogBody, parseDate: string -> Option<Date>)
    requires ValidGearLog(g)
    ensures MergeGearLog(g, b, parseDate).Some? <==>
              && (!Truthy(b.worker) || ObjectIdOf(b.worker).Some?)
              && (!Truthy(b.site) || ObjectIdOf(b.site).Some?)
              && (!Truthy(b.gearType) || NonBlank(TrimmedStringOf(b.gearType)))
              && (!Truthy(b.gearCondition) || NonBlank(TrimmedStringOf(b.gearCondition)))
              && (!Truthy(b.dateChecked) || DateOf(b.dateChecked, parseDate).Some?)
              && (!Truthy(b.status) || GearStatusOf(b.status).Some?)
  {
    var t := Coalesce(b.gearType, g.gearType, TrimmedStringOf);
    var c := Coalesce(b.gearCondition, g.gearCondition, TrimmedStringOf);
    assert t.Some? && t.value != "" <==> !Truthy(b.gearType) || NonBlank(TrimmedStringOf(b.gearType));
    assert c.Some? && c.value != "" <==> !Truthy(b.gearCondition) || NonBlank(TrimmedStringOf(b.gearCondition));
  }

  const EmptyGearLogBody := GearLogBody(Undefined, Undefined, Undefined, Undefined, Undefined, Undefined, Undefined)

  /** An update with an empty body saves the gear log as it was: there is no
      required-field check on update. */
  lemma EmptyGearLogUpdateKeeps(g: GearLog, parseDate: string -> Option<Date>)
    requires ValidGearLog(g)
    ensures MergeGearLog(g, EmptyGearLogBody, parseDate) == Some(g)
  {
  }

  /** `remarks` is replaced by any defined value: `""` clears it and `null`
      stores `null`, unlike the falsy-coalescing paths. */
  lemma GearLogRemarksClearable(g: GearLog, b: GearLogBody, parseDate: string -> Option<Date>)
    requires b.remarks == Str("") || b.remarks == Null
    requires MergeGearLog(g, b, parseDate).Some?
    ensures MergeGearLog(g, b, parseDate).value.remarks == (if b.remarks == Null then None else Some(""))
  {
  }

  /** Applying the same update twice gives what applying it once gave. */
  lemma {:induction false} MergeGearLogIdempotent(g: GearLog, b: GearLogBody, parseDate: string -> Option<Date>)
    requires MergeGearLog(g, b, parseDate).Some?
    ensures MergeGearLog(MergeGearLog(g, b, parseDate).value, b, parseDate) == MergeGearLog(g, b, parseDate)
  {
    var once := MergeGearLog(g, b, parseDate).value;
    var twice := MergeGearLog(once, b, parseDate);
    assert twice.Some?;
  }

  /** `getGearLogs`: every stored gear log, once, in the collection's natural
      order (ascending id here). */
  function GetGearLogs(gearLogs: map<Id, GearLog>): (r: Reply<seq<(Id, GearLog)>>)
    ensures r.Ok?
    ensures forall e :: e in r.value <==> e.0 in gearLogs && gearLogs[e.0] == e.1
    ensures |r.value| == |gearLogs|
    ensures forall i, j :: 0 <= i < j < |r.value| ==> r.value[i].0 < r.value[j].0
  {
    var listed := Entries(gearLogs);
    ListedCount(gearLogs, listed);
    Ok(listed)
  }

  /** `getGearLogById`: 500 for an id that is not an ObjectId, 404 for an
      unknown one, otherwise 200 with the gear log. */
  function GetGearLogById(gearLogs: map<Id, GearLog>, id: string): (r: Reply<GearLog>)
    ensures r.Status() == 500 <==> ParseObjectId(id).None?
    ensures r.Status() == 404 <==> ParseObjectId(id).Some? && KeyOf(id) !in gearLogs
    ensures r.Status() == 200 <==> ParseObjectId(id).Some? && KeyOf(id) in gearLogs
    ensures r.Status() == 200 ==> r == Ok(gearLogs[KeyOf(id)])
  {
    FindById(gearLogs, id)
  }

  // ------------------------------------------------------------------ store

  /** The incident and gear-log collections the handlers write. `parseDate`
      is the store's cast of date strings. */
  class SafetyStore {
    var incidents: map<Id, Incident>
    var gearLogs: map<Id, GearLog>
    const parseDate: string -> Option<Date>

    /** Every stored document passed its schema's validators. */
    ghost predicate Valid()
      reads this
    {
      AllIncidentsValid(incidents) && AllGearLogsValid(gearLogs)
    }

    constructor (parseDate: string -> Option<Date>)
      ensures Valid()
      ensures incidents == map[] && gearLogs == map[] && this.parseDate == parseDate
    {
      incidents := map[];
      gearLogs := map[];
      this.parseDate := parseDate;
    }

    /** `createIncident`: 400 when a required field is falsy, 500 when the
        save fails, otherwise 201 with the incident stored under `newId` and
        owned by the caller. */
    method CreateIncident(caller: Id, body: IncidentBody, newId: Id) returns (r: Reply<Incident>)
      requires Valid() && newId !in incidents
      modifies this
      ensures Valid() && gearLogs == old(gearLogs)
      ensures !IncidentFieldsPresent(body) ==> r == BadRequest
      ensures IncidentFieldsPresent(body) && IncidentFromBody(caller, body, parseDate).None? ==> r == StoreError
      ensures IncidentFieldsPresent(body) && IncidentFromBody(caller, body, parseDate).Some? ==>
                r == Created(IncidentFromBody(caller, body, parseDate).value)
      ensures r.Created? ==> incidents == old(incidents)[newId := r.value]
      ensures !r.Created? ==> incidents == old(incidents)
      ensures r.Created? ==> r.value.user == caller && GetIncidentById(incidents, ObjectIdText(newId)) == Ok(r.value)
    {
      if !IncidentFieldsPresent(body) {
        return BadRequest;
      }
      var created := IncidentFromBody(caller, body, parseDate);
      if created.None? {
        return StoreError;
      }
      assert ValidIncident(created.value);
      incidents := incidents[newId := created.value];
      ObjectIdRoundTrip(newId);
      assert KeyOf(ObjectIdText(newId)) == newId;
      assert incidents[newId] == created.value;
      r := Created(created.value);
    }

    /** `updateIncident`: 400 for a missing field before any lookup, then 500
        for a malformed id, 404 for an unknown one, 403 for a caller who does
        not own it; the seven body fields then overwrite the incident, whose
        owner stays, and the save may fail with 500. */
    method UpdateIncident(caller: Id, id: string, body: IncidentBody) returns (r: Reply<Incident>)
      requires Valid()
      modifies this
      ensures Valid() && gearLogs == old(gearLogs)
      ensures !IncidentFieldsPresent(body) ==> r == BadRequest
      ensures IncidentFieldsPresent(body) && ParseObjectId(id).None? ==> r == StoreError
      ensures IncidentFieldsPresent(body) && ParseObjectId(id).Some? && KeyOf(id) !in old(incidents) ==>
                r == NotFound
      ensures IncidentFieldsPresent(body) && ParseObjectId(id).Some? && KeyOf(id) in old(incidents) ==>
                old(incidents)[KeyOf(id)].user != caller ==> r == Forbidden
      ensures IncidentFieldsPresent(body) && ParseObjectId(id).Some? && KeyOf(id) in old(incidents) ==>
                old(incidents)[KeyOf(id)].user == caller ==>
                r == (match IncidentFromBody(caller, body, parseDate)
                      case Some(i) => Ok(i)
                      case None => StoreError)
      ensures r.Ok? ==> ParseObjectId(id).Some? && KeyOf(id) in old(incidents)
      ensures r.Ok? ==> old(incidents)[KeyOf(id)].user == caller && r.value.user == caller
      ensures r.Ok? ==> incidents == old(incidents)[KeyOf(id) := r.value]
      ensures !r.Ok? ==> incidents == old(incidents)
    {
      if !IncidentFieldsPresent(body) {
        return BadRequest;
      }
      var found := FindById(incidents, id);
      if found.StoreError? {
        return StoreError;
      }
      if found.NotFound? {
        return NotFound;
      }
      var incident := found.value;
      ObjectIdTextInjective(incident.user, caller);
      if ObjectIdText(incident.user) != ObjectIdText(caller) {
        return Forbidden;
      }
      var updated := IncidentFromBody(incident.user, body, parseDate);
      if updated.None? {
        return StoreError;
      }
      incidents := incidents[KeyOf(id) := updated.value];
      r := Ok(updated.value);
    }

    /** `deleteIncident`: 500 for a malformed id, 404 for an unknown one, 403
        for a caller who does not own it; otherwise exactly that incident is
        removed and a later lookup finds nothing. */
    method DeleteIncident(caller: Id, id: string) returns (r: Reply<()>)
      requires Valid()
      modifies this
      ensures Valid() && gearLogs == old(gearLogs)
      ensures ParseObjectId(id).None? ==> r == StoreError
      ensures ParseObjectId(id).Some? && KeyOf(id) !in old(incidents) ==> r == NotFound
      ensures ParseObjectId(id).Some? && KeyOf(id) in old(incidents) && old(incidents)[KeyOf(id)].user != caller ==>
                r == Forbidden
      ensures ParseObjectId(id).Some? && KeyOf(id) in old(incidents) && old(incidents)[KeyOf(id)].user == caller ==>
                r == Ok(()) && incidents == old(incidents) - {KeyOf(id)}
      ensures !r.Ok? ==> incidents == old(incidents)
      ensures r.Ok? ==> GetIncidentById(incidents, id) == NotFound
    {
      var found := FindById(incidents, id);
      if found.StoreError? {
        return StoreError;
      }
      if found.NotFound? {
        return NotFound;
      }
      ObjectIdTextInjective(found.value.user, caller);
      if ObjectIdText(found.value.user) != ObjectIdText(caller) {
        return Forbidden;
      }
      incidents := incidents - {KeyOf(id)};
      r := Ok(());
    }

    /** `createGearLog`: 400 when a required field is falsy, 500 when the save
        fails, otherwise 201 with the gear log stored under `newId`. */
    method CreateGearLog(body: GearLogBody, newId: Id) returns (r: Reply<GearLog>)
      requires Valid() && newId !in gearLogs
      modifies this
      ensures Valid() && incidents == old(incidents)
      ensures !GearLogFieldsPresent(body) ==> r == BadRequest
      ensures GearLogFieldsPresent(body) && GearLogFromBody(body, parseDate).None? ==> r == StoreError
      ensures GearLogFieldsPresent(body) && GearLogFromBody(body, parseDate).Some? ==>
                r == Created(GearLogFromBody(body, parseDate).value)
      ensures r.Created? ==> gearLogs == old(gearLogs)[newId := r.value]
      ensures !r.Created? ==> gearLogs == old(gearLogs)
      ensures r.Created? ==> GetGearLogById(gearLogs, ObjectIdText(newId)) == Ok(r.value)
    {
      if !GearLogFieldsPresent(body) {
        return BadRequest;
      }
      var created := GearLogFromBody(body, parseDate);
      if created.None? {
        return StoreError;
      }
      assert ValidGearLog(created.value);
      gearLogs := gearLogs[newId := created.value];
      ObjectIdRoundTrip(newId);
      assert KeyOf(ObjectIdText(newId)) == newId;
      assert gearLogs[newId] == created.value;
      r := Created(created.value);
    }

    /** `updateGearLog`: 500 for a malformed id, 404 for an unknown one; no
        required-field and no ownership check; the fields are merged one by
        one into the fetched gear log, which is then saved (500 on failure). */
    method UpdateGearLog(id: string, body: GearLogBody) returns (r: Reply<GearLog>)
      requires Valid()
      modifies this
      ensures Valid() && incidents == old(incidents)
      ensures ParseObjectId(id).None? ==> r == StoreError
      ensures ParseObjectId(id).Some? && KeyOf(id) !in old(gearLogs) ==> r == NotFound
      ensures ParseObjectId(id).Some? && KeyOf(id) in old(gearLogs) ==>
                r == (match MergeGearLog(old(gearLogs)[KeyOf(id)], body, parseDate)
                      case Some(g) => Ok(g)
                      case None => StoreError)
      ensures r.Ok? ==> gearLogs == old(gearLogs)[KeyOf(id) := r.value]
      ensures !r.Ok? ==> gearLogs == old(gearLogs)
    {
      var found := FindById(gearLogs, id);
      if found.StoreError? {
        return StoreError;
      }
      if found.NotFound? {
        return NotFound;
      }
      var log := found.value;
      var worker := Coalesce(body.worker, log.worker, ObjectIdOf);
      var site := Coalesce(body.site, log.site, ObjectIdOf);
      var gearType := Coalesce(body.gearType, log.gearType, TrimmedStringOf);
      var gearCondition := Coalesce(body.gearCondition, log.gearCondition, TrimmedStringOf);
      var dateChecked := Coalesce(body.dateChecked, log.dateChecked, v => DateOf(v, parseDate));
      var status := Coalesce(body.status, log.status, GearStatusOf);
      var remarks := if body.remarks != Undefined then TrimmedStringOf(body.remarks) else log.remarks;
      if worker.None? || site.None? || gearType.None? || gearCondition.None? || dateChecked.None? || status.None? {
        return StoreError;
      }
      var updated := GearLog(worker.value, site.value, gearType.value, gearCondition.value,
                             dateChecked.value, status.value, remarks);
      if !ValidGearLog(updated) {
        return StoreError;
      }
      gearLogs := gearLogs[KeyOf(id) := updated];
      r := Ok(updated);
    }

    /** `deleteGearLog`: 500 for a malformed id, 404 for an unknown one,
        otherwise exactly that gear log is removed, whoever asks. */
    method DeleteGearLog(id: string) returns (r: Reply<()>)
      requires Valid()
      modifies this
      ensures Valid() && incidents == old(incidents)
      ensures ParseObjectId(id).None? ==> r == StoreError
      ensures ParseObjectId(id).Some? && KeyOf(id) !in old(gearLogs) ==> r == NotFound
      ensures ParseObjectId(id).Some? && KeyOf(id) in old(gearLogs) ==>
                r == Ok(()) && gearLogs == old(gearLogs) - {KeyOf(id)}
      ensures !r.Ok? ==> gearLogs == old(gearLogs)
      ensures r.Ok? ==> GetGearLogById(gearLogs, id) == NotFound
    {
      var found := FindById(gearLogs, id);
      if found.StoreError? {
        return StoreError;
      }
      if found.NotFound? {
        return NotFound;
      }
      gearLogs := gearLogs - {KeyOf(id)};
      r := Ok(());
    }
  }
}
