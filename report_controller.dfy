/** The hazard report handlers: the dated listing and the lookup are
    functions of the stored reports; create, update and delete are methods of
    `ReportStore`. No handler checks who the caller is. */
module ReportController {
  import opened Values
  import opened Listing
  import opened ReportModel

  /** The fields of a report request body. */
  datatype ReportBody = ReportBody(title: JsVal, description: JsVal, date: JsVal, location: JsVal)

  /** The truthiness check of `createReport`. A body that passes it
      holds a non-empty string or `true` on every checked path, so the casts
      never see `undefined` or `null` there. */
  predicate ReportFieldsPresent(b: ReportBody)
    ensures ReportFieldsPresent(b) ==>
              StringOf(b.title).Some? && StringOf(b.description).Some? && StringOf(b.location).Some?
    ensures ReportFieldsPresent(b) ==> b.date == Bool(true) || (b.date.Str? && b.date.s != "")
    ensures b.title == Str("") || b.description == Str("") || b.location == Str("") ==> !ReportFieldsPresent(b)
  {
    Truthy(b.title) && Truthy(b.description) && Truthy(b.date) && Truthy(b.location)
  }

  function ReportFromBody(b: ReportBody, parseDate: string -> Option<Date>): (r: Option<Report>)
    ensures ReportFieldsPresent(b) && DateOf(b.date, parseDate).Some? ==> r.Some?
    ensures r.Some? ==> Some(r.value.title) == StringOf(b.title)
    ensures r.Some? ==> Some(r.value.description) == StringOf(b.description)
    ensures r.Some? ==> Some(r.value.date) == DateOf(b.date, parseDate)
    ensures r.Some? ==> Some(r.value.location) == StringOf(b.location)
  {
    BuildReport(b.title, b.description, b.date, b.location, parseDate)
  }

  /** The update rule of `updateReport`: each of the four paths takes the
      body's value only when it is truthy; then the report is saved, which
      fails only on a cast. */
  function MergeReport(rep: Report, b: ReportBody, parseDate: string -> Option<Date>): (r: Option<Report>)
    ensures r.None? <==> Truthy(b.date) && DateOf(b.date, parseDate).None?
    ensures r.Some? && !Truthy(b.title) ==> r.value.title == rep.title
    ensures r.Some? && Truthy(b.title) ==> Some(r.value.title) == StringOf(b.title)
    ensures r.Some? && !Truthy(b.description) ==> r.value.description == rep.description
    ensures r.Some? && Truthy(b.description) ==> Some(r.value.description) == StringOf(b.description)
    ensures r.Some? && !Truthy(b.date) ==> r.value.date == rep.date
    ensures r.Some? && Truthy(b.date) ==> Some(r.value.date) == DateOf(b.date, parseDate)
    ensures r.Some? && !Truthy(b.location) ==> r.value.location == rep.location
    ensures r.Some? && Truthy(b.location) ==> Some(r.value.location) == StringOf(b.location)
  {
    match (Coalesce(b.title, rep.title, StringOf), Coalesce(b.description, rep.description, StringOf),
           Coalesce(b.date, rep.date, v => DateOf(v, parseDate)), Coalesce(b.location, rep.location, StringOf))
    case (Some(t), Some(d), Some(when), Some(l)) => Some(Report(t, d, when, l))
    case _ => None
  }

  const EmptyReportBody := ReportBody(Undefined, Undefined, Undefined, Undefined)

  /** An update whose fields are all falsy (missing, `null`, `""`, `false`)
      leaves the report as it was. */
  lemma FalsyReportUpdateKeeps(rep: Report, b: ReportBody, parseDate: string -> Option<Date>)
    requires !Truthy(b.title) && !Truthy(b.description) && !Truthy(b.date) && !Truthy(b.location)
    ensures MergeReport(rep, b, parseDate) == Some(rep)
  {
  }

  /** Applying the same update twice gives what applying it once gave. */
  lemma {:induction false} MergeReportIdempotent(rep: Report, b: ReportBody, parseDate: string -> Option<Date>)
    requires MergeReport(rep, b, parseDate).Some?
    ensures MergeReport(MergeReport(rep, b, parseDate).value, b, parseDate) == MergeReport(rep, b, parseDate)
  {
    var once := MergeReport(rep, b, parseDate).value;
    assert MergeReport(once, b, parseDate).Some?;
  }

  /** The order of `sort({ date: -1 })`: later dates first. Reports on the
      same date may come in either order, and whenever `a` may not come
      before `b`, `b` is strictly later. */
  predicate ReportLaterFirst(a: (Id, Report), b: (Id, Report))
    ensures a.1.date == b.1.date ==> ReportLaterFirst(a, b)
    ensures !ReportLaterFirst(a, b) ==> b.1.date > a.1.date
  {
    a.1.date >= b.1.date
  }

  /** `getReports`: every stored report, once, latest date first. */
  function GetReports(reports: map<Id, Report>): (r: Reply<seq<(Id, Report)>>)
    ensures r.Ok?
    ensures forall e :: e in r.value <==> e.0 in reports && reports[e.0] == e.1
    ensures |r.value| == |reports|
    ensures forall i, j :: 0 <= i < j < |r.value| ==> r.value[i].1.date >= r.value[j].1.date
  {
    assert TotalPreorder(ReportLaterFirst);
    var listed := Query(reports, (rep: Report) => true, ReportLaterFirst);
    assert Sorted(listed, ReportLaterFirst);
    ListedCount(reports, listed);
    Ok(listed)
  }

  /** `getReportById`: 500 for an id that is not an ObjectId, 404 for an
      unknown one, otherwise 200 with the report. */
  function GetReportById(reports: map<Id, Report>, id: string): (r: Reply<Report>)
    ensures r.Status() == 500 <==> ParseObjectId(id).None?
    ensures r.Status() == 404 <==> ParseObjectId(id).Some? && KeyOf(id) !in reports
    ensures r.Status() == 200 <==> ParseObjectId(id).Some? && KeyOf(id) in reports
    ensures r.Status() == 200 ==> r == Ok(reports[KeyOf(id)])
  {
    FindById(reports, id)
  }

  /** The stored hazard reports. `parseDate` is the store's cast of date
      strings. */
  class ReportStore {
    var reports: map<Id, Report>
    const parseDate: string -> Option<Date>

    constructor (parseDate: string -> Option<Date>)
      ensures reports == map[] && this.parseDate == parseDate
    {
      reports := map[];
      this.parseDate := parseDate;
    }

    /** `createReport`: 400 when a field is falsy, 500 when the save fails,
        otherwise 201 with the report stored under `newId`. */
    method CreateReport(body: ReportBody, newId: Id) returns (r: Reply<Report>)
      requires newId !in reports
      modifies this
      ensures !ReportFieldsPresent(body) ==> r == BadRequest
      ensures ReportFieldsPresent(body) && ReportFromBody(body, parseDate).None? ==> r == StoreError
      ensures ReportFieldsPresent(body) && ReportFromBody(body, parseDate).Some? ==>
                r == Created(ReportFromBody(body, parseDate).value)
      ensures r.Created? ==> reports == old(reports)[newId := r.value]
      ensures !r.Created? ==> reports == old(reports)
      ensures r.Created? ==> GetReportById(reports, ObjectIdText(newId)) == Ok(r.value)
    {
      if !ReportFieldsPresent(body) {
        return BadRequest;
      }
      var created := ReportFromBody(body, parseDate);
      if created.None? {
        return StoreError;
      }
      reports := reports[newId := created.value];
      ObjectIdRoundTrip(newId);
      assert KeyOf(ObjectIdText(newId)) == newId;
      assert reports[newId] == created.value;
      r := Created(created.value);
    }

    /** `updateReport`: 500 for a malformed id, 404 for an unknown one; the
        four fields are merged one by one into the fetched report, which is
        then saved (500 on failure). */
    method UpdateReport(id: string, body: ReportBody) returns (r: Reply<Report>)
      modifies this
      ensures ParseObjectId(id).None? ==> r == StoreError
      ensures ParseObjectId(id).Some? && KeyOf(id) !in old(reports) ==> r == NotFound
      ensures ParseObjectId(id).Some? && KeyOf(id) in old(reports) ==>
                r == (match MergeReport(old(reports)[KeyOf(id)], body, parseDate)
                      case Some(rep) => Ok(rep)
                      case None => StoreError)
      ensures r.Ok? ==> reports == old(reports)[KeyOf(id) := r.value]
      ensures !r.Ok? ==> reports == old(reports)
    {
      var found := FindById(reports, id);
      if found.StoreError? {
        return StoreError;
      }
      if found.NotFound? {
        return NotFound;
      }
      var report := found.value;
      var title := Coalesce(body.title, report.title, StringOf);
      var description := Coalesce(body.description, report.description, StringOf);
      var date := Coalesce(body.date, report.date, v => DateOf(v, parseDate));
      var location := Coalesce(body.location, report.location, StringOf);
      if title.None? || description.None? || date.None? || location.None? {
        return StoreError;
      }
      var updated := Report(title.value, description.value, date.value, location.value);
      reports := reports[KeyOf(id) := updated];
      r := Ok(updated);
    }

    /** `deleteReport`: 500 for a malformed id, 404 for an unknown one,
        otherwise exactly that report is removed and a later lookup finds
        nothing. */
    method DeleteReport(id: string) returns (r: Reply<()>)
      modifies this
      ensures ParseObjectId(id).None? ==> r == StoreError
      ensures ParseObjectId(id).Some? && KeyOf(id) !in old(reports) ==> r == NotFound
      ensures ParseObjectId(id).Some? && KeyOf(id) in old(reports) ==>
                r == Ok(()) && reports == old(reports) - {KeyOf(id)}
      ensures !r.Ok? ==> reports == old(reports)
      ensures r.Ok? ==> GetReportById(reports, id) == NotFound
      ensures r.Ok? ==> forall k :: k in old(reports) && k != KeyOf(id) ==> k in reports && reports[k] == old(reports)[k]
    {
      var found := FindById(reports, id);
      if found.StoreError? {
        return StoreError;
      }
      if found.NotFound? {
        return NotFound;
      }
      reports := reports - {KeyOf(id)};
      r := Ok(());
    }
  }
}
