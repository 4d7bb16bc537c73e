/** The hazard report record: a title, a description, a date and a location,
    with no references and no owner. The schema file that declares it is not
    part of this model; its paths are taken to be String, String, Date and
    String with no setters and no validators beyond the casts. */
module ReportModel {
  import opened Values

  datatype Report = Report(title: string, description: string, date: Date, location: string)

  /** The report `save` builds for a new document with these path values, or
      `None` when a cast fails. A `null` or `""` date counts as missing here;
      the handlers only pass a truthy date. */
  function BuildReport(
    title: JsVal, description: JsVal, date: JsVal, location: JsVal, parseDate: string -> Option<Date>
  ): (r: Option<Report>)
    ensures r.Some? <==> && StringOf(title).Some? && StringOf(description).Some?
                         && DateOf(date, parseDate).Some? && StringOf(location).Some?
    ensures r.Some? ==> Some(r.value.title) == StringOf(title)
    ensures r.Some? ==> Some(r.value.description) == StringOf(description)
    ensures r.Some? ==> Some(r.value.date) == DateOf(date, parseDate)
    ensures r.Some? ==> Some(r.value.location) == StringOf(location)
  {
    match (StringOf(title), StringOf(description), DateOf(date, parseDate), StringOf(location))
    case (Some(t), Some(d), Some(when), Some(l)) => Some(Report(t, d, when, l))
    case _ => None
  }
}
