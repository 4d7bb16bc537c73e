/** The Incident schema: an incident reported by a user at a site, with its
    two enums, the required paths, the trimmed strings and the `resolved`
    default. */
module IncidentModel {
  import opened Text
  import opened Values

  datatype IncidentType = Fall | Electrical | EquipmentFailure | Fire | Chemical | Other

  datatype SeverityLevel = Low | Medium | High

  function IncidentTypeName(t: IncidentType): string
  {
    match t
    case Fall => "Fall"
    case Electrical => "Electrical"
    case EquipmentFailure => "Equipment Failure"
    case Fire => "Fire"
    case Chemical => "Chemical"
    case Other => "Other"
  }

  /** The enum validator of `incident_type`: the six names and nothing else. */
  function ParseIncidentType(s: string): (r: Option<IncidentType>)
    ensures r.Some? ==> IncidentTypeName(r.value) == s
    ensures r.None? ==> forall t :: IncidentTypeName(t) != s
  {
    if s == "Fall" then Some(Fall)
    else if s == "Electrical" then Some(Electrical)
    else if s == "Equipment Failure" then Some(EquipmentFailure)
    else if s == "Fire" then Some(Fire)
    else if s == "Chemical" then Some(Chemical)
    else if s == "Other" then Some(Other)
    else None
  }

  function SeverityLevelName(l: SeverityLevel): string
  {
    match l
    case Low => "Low"
    case Medium => "Medium"
    case High => "High"
  }

  /** The enum validator of `severity_level`: Low, Medium, High. */
  function ParseSeverityLevel(s: string): (r: Option<SeverityLevel>)
    ensures r.Some? ==> SeverityLevelName(r.value) == s
    ensures r.None? ==> forall l :: SeverityLevelName(l) != s
  {
    if s == "Low" then Some(Low)
    else if s == "Medium" then Some(Medium)
    else if s == "High" then Some(High)
    else None
  }

  /** A stored incident. The owner `user`, `site_id` and `date` are required and
      so always present; the enums can only hold their listed values. */
  datatype Incident = Incident(
    user: Id,
    site_id: Id,
    incident_type: IncidentType,
    title: string,
    description: string,
    severity_level: SeverityLevel,
    date: Date,
    resolved: bool)

  /** What the validators leave to check once the casts succeeded: the
      required `title` and `description` are non-empty after the `trim`
      setter. */
  predicate ValidIncident(i: Incident)
  {
    i.title != "" && IsTrimmed(i.title) && i.description != "" && IsTrimmed(i.description)
  }

  /** A stored incident's strings are fixed points of their paths: cast and
      trimmed again they come back unchanged and still pass `required`. */
  lemma ValidIncidentRecasts(i: Incident)
    requires ValidIncident(i)
    ensures NonBlank(TrimmedStringOf(Str(i.title))) && TrimmedStringOf(Str(i.title)) == Some(i.title)
    ensures NonBlank(TrimmedStringOf(Str(i.description))) && TrimmedStringOf(Str(i.description)) == Some(i.description)
  {
    TrimmedStringOfTrimmed(i.title);
    TrimmedStringOfTrimmed(i.description);
  }

  predicate AllIncidentsValid(m: map<Id, Incident>)
  {
    forall k :: k in m ==> ValidIncident(m[k])
  }

  /** The String cast followed by the enum validator: the value's text is
      exactly the name of the stored member, and a value whose text names no
      member is refused. */
  function IncidentTypeOf(v: JsVal): (r: Option<IncidentType>)
    ensures r.Some? ==> StringOf(v) == Some(IncidentTypeName(r.value))
    ensures r.None? ==> forall t :: StringOf(v) != Some(IncidentTypeName(t))
  {
    match StringOf(v)
    case Some(s) => ParseIncidentType(s)
    case None => None
  }

  /** The String cast followed by the enum validator: the value's text is
      exactly the name of the stored member, and a value whose text names no
      member is refused. */
  function SeverityLevelOf(v: JsVal): (r: Option<SeverityLevel>)
    ensures r.Some? ==> StringOf(v) == Some(SeverityLevelName(r.value))
    ensures r.None? ==> forall l :: StringOf(v) != Some(SeverityLevelName(l))
  {
    match StringOf(v)
    case Some(s) => ParseSeverityLevel(s)
    case None => None
  }

  /** The Boolean path `resolved` with `default: false`. */
  function ResolvedOf(v: JsVal): (r: Option<bool>)
    ensures v == Undefined ==> r == Some(false)
  {
    if v == Undefined then Some(false) else BooleanOf(v)
  }

  /** The incident `save` persists for these path values, or `None` when a cast
      or a validator fails (the store answers 500). */
  function BuildIncident(
    user: Id, site_id: JsVal, incident_type: JsVal, title: JsVal, description: JsVal,
    severity_level: JsVal, date: JsVal, resolved: JsVal, parseDate: string -> Option<Date>
  ): (r: Option<Incident>)
    ensures r.Some? <==> && ObjectIdOf(site_id).Some? && IncidentTypeOf(incident_type).Some?
                         && NonBlank(TrimmedStringOf(title)) && NonBlank(TrimmedStringOf(description))
                         && SeverityLevelOf(severity_level).Some? && DateOf(date, parseDate).Some?
                         && ResolvedOf(resolved).Some?
    ensures r.Some? ==> ValidIncident(r.value) && r.value.user == user
    ensures r.Some? ==> Some(r.value.title) == TrimmedStringOf(title)
    ensures r.Some? ==> Some(r.value.description) == TrimmedStringOf(description)
    ensures r.Some? ==> Some(r.value.site_id) == ObjectIdOf(site_id)
    ensures r.Some? ==> Some(r.value.date) == DateOf(date, parseDate)
    ensures r.Some? ==> StringOf(incident_type) == Some(IncidentTypeName(r.value.incident_type))
    ensures r.Some? ==> StringOf(severity_level) == Some(SeverityLevelName(r.value.severity_level))
    ensures r.Some? ==> Some(r.value.resolved) == ResolvedOf(resolved)
  {
    match (ObjectIdOf(site_id), IncidentTypeOf(incident_type), TrimmedStringOf(title),
           TrimmedStringOf(description), SeverityLevelOf(severity_level),
           DateOf(date, parseDate), ResolvedOf(resolved))
    case (Some(site), Some(kind), Some(t), Some(d), Some(level), Some(when), Some(res)) =>
      var i := Incident(user, site, kind, t, d, level, when, res);
      if ValidIncident(i) then Some(i) else None
    case _ => None
  }

  /** A title or description of whitespace only passes a truthiness check but
      is trimmed to "" and fails `required`: the save is refused. */
  lemma BlankTitleRefused(
    user: Id, site_id: JsVal, incident_type: JsVal, title: string, description: JsVal,
    severity_level: JsVal, date: JsVal, resolved: JsVal, parseDate: string -> Option<Date>)
    requires AllSpace(title)
    ensures BuildIncident(user, site_id, incident_type, Str(title), description,
                          severity_level, date, resolved, parseDate).None?
  {
  }

  lemma BlankDescriptionRefused(
    user: Id, site_id: JsVal, incident_type: JsVal, title: JsVal, description: string,
    severity_level: JsVal, date: JsVal, resolved: JsVal, parseDate: string -> Option<Date>)
    requires AllSpace(description)
    ensures BuildIncident(user, site_id, incident_type, title, Str(description),
                          severity_level, date, resolved, parseDate).None?
  {
  }
}
