/** The equipment compliance handlers: the listing and the lookup are
    functions of the stored records; create, update and delete are methods of
    `ComplianceStore`. No handler checks who the caller is. */
module ComplianceController {
  import opened Text
  import opened Values
  import opened Listing
  import opened ComplianceModel

  /** The fields of a compliance request body. */
  datatype ComplianceBody = ComplianceBody(
    equipmentName: JsVal,
    checkedBy: JsVal,
    checkedAt: JsVal,
    status: JsVal,
    remarks: JsVal)

  /** The truthiness check of `createCompliance`; `remarks` is not part of it. A body that passes it
      holds a non-empty string or `true` on every checked path, so the casts
      never see `undefined` or `null` there. */
  predicate ComplianceFieldsPresent(b: ComplianceBody)
    ensures ComplianceFieldsPresent(b) ==> TrimmedStringOf(b.equipmentName).Some? && StringOf(b.status).Some?
    ensures ComplianceFieldsPresent(b) ==> b.checkedAt == Bool(true) || (b.checkedAt.Str? && b.checkedAt.s != "")
    ensures b.equipmentName == Str("") ==> !ComplianceFieldsPresent(b)
  {
    Truthy(b.equipmentName) && Truthy(b.checkedBy) && Truthy(b.checkedAt) && Truthy(b.status)
  }

  function ComplianceFromBody(b: ComplianceBody, parseDate: string -> Option<Date>): (r: Option<Compliance>)
    ensures r.Some? ==> ValidCompliance(r.value)
    ensures r.Some? ==> Some(r.value.equipmentName) == TrimmedStringOf(b.equipmentName)
    ensures r.Some? ==> Some(r.value.checkedBy) == ObjectIdOf(b.checkedBy)
    ensures r.Some? ==> Some(r.value.checkedAt) == DateOf(b.checkedAt, parseDate)
    ensures r.Some? ==> StringOf(b.status) == Some(ComplianceStatusName(r.value.status))
    ensures r.Some? ==> r.value.remarks == NewTrimmedStringOf(b.remarks, "")
  {
    BuildCompliance(b.equipmentName, b.checkedBy, b.checkedAt, b.status, b.remarks, parseDate)
  }

  /** The cast of `remarks` on update: it never fails; `null` and `undefined`
      store `null`, and anything else stores a trimmed string. */
  function RemarksOf(v: JsVal): (r: Option<Option<string>>)
    ensures r.Some?
    ensures r.value.None? <==> v.Null? || v.Undefined?
    ensures r.value.Some? ==> IsTrimmed(r.value.value)
  {
    Some(TrimmedStringOf(v))
  }

  /** The update rule of `updateCompliance`: each of the five paths,
      `remarks` included, takes the body's value only when it is truthy; then
      the record is saved, which may fail. */
  function MergeCompliance(c: Compliance, b: ComplianceBody, parseDate: string -> Option<Date>): (r: Option<Compliance>)
    ensures ValidCompliance(c) ==>
              (r.Some? <==> && (!Truthy(b.equipmentName) || NonBlank(TrimmedStringOf(b.equipmentName)))
                            && (!Truthy(b.checkedBy) || ObjectIdOf(b.checkedBy).Some?)
                            && (!Truthy(b.checkedAt) || DateOf(b.checkedAt, parseDate).Some?)
                            && (!Truthy(b.status) || ComplianceStatusOf(b.status).Some?))
    ensures r.Some? ==> ValidCompliance(r.value)
    ensures r.Some? && !Truthy(b.equipmentName) ==> r.value.equipmentName == c.equipmentName
    ensures r.Some? && Truthy(b.equipmentName) ==> Some(r.value.equipmentName) == TrimmedStringOf(b.equipmentName)
    ensures r.Some? && !Truthy(b.checkedBy) ==> r.value.checkedBy == c.checkedBy
    ensures r.Some? && Truthy(b.checkedBy) ==> Some(r.value.checkedBy) == ObjectIdOf(b.checkedBy)
    ensures r.Some? && !Truthy(b.checkedAt) ==> r.value.checkedAt == c.checkedAt
    ensures r.Some? && Truthy(b.checkedAt) ==> Some(r.value.checkedAt) == DateOf(b.checkedAt, parseDate)
    ensures r.Some? && !Truthy(b.status) ==> r.value.status == c.status
    ensures r.Some? && Truthy(b.status) ==> StringOf(b.status) == Some(ComplianceStatusName(r.value.status))
    ensures r.Some? && !Truthy(b.remarks) ==> r.value.remarks == c.remarks
    ensures r.Some? && Truthy(b.remarks) ==> r.value.remarks == TrimmedStringOf(b.remarks)
  {
    match (Coalesce(b.equipmentName, c.equipmentName, TrimmedStringOf),
           Coalesce(b.checkedBy, c.checkedBy, ObjectIdOf),
           Coalesce(b.checkedAt, c.checkedAt, v => DateOf(v, parseDate)),
           Coalesce(b.status, c.status, ComplianceStatusOf),
           Coalesce(b.remarks, c.remarks, RemarksOf))
    case (Some(n), Some(checker), Some(at), Some(st), Some(remarks)) =>
      var merged := Compliance(n, checker, at, st, remarks);
      if ValidCompliance(merged) then Some(merged) else None
    case _ => None
  }

  /** `remarks || old` cannot clear the remarks: an update with `""` or
      `null` keeps them, whatever else it changes. */
  lemma ComplianceRemarksNotClearable(c: Compliance, b: ComplianceBody, parseDate: string -> Option<Date>)
    requires b.remarks == Str("") || b.remarks == Null
    requires MergeCompliance(c, b, parseDate).Some?
    ensures MergeCompliance(c, b, parseDate).value.remarks == c.remarks
  {
  }

  const EmptyComplianceBody := ComplianceBody(Undefined, Undefined, Undefined, Undefined, Undefined)

  /** An update with an empty body saves the record as it was. */
  lemma EmptyComplianceUpdateKeeps(c: Compliance, parseDate: string -> Option<Date>)
    requires ValidCompliance(c)
    ensures MergeCompliance(c, EmptyComplianceBody, parseDate) == Some(c)
  {
  }

  /** Applying the same update twice gives what applying it once gave. */
  lemma {:induction false} MergeComplianceIdempotent(c: Compliance, b: ComplianceBody, parseDate: string -> Option<Date>)
    requires MergeCompliance(c, b, parseDate).Some?
    ensures MergeCompliance(MergeCompliance(c, b, parseDate).value, b, parseDate) == MergeCompliance(c, b, parseDate)
  {
    var once := MergeCompliance(c, b, parseDate).value;
    assert MergeCompliance(once, b, parseDate).Some?;
  }

  /** The order of `sort({ checkedAt: -1 })`: later checks first. Records
      checked at the same time may come in either order, and whenever `a` may
      not come before `b`, `b` was checked strictly later. */
  predicate CheckedLaterFirst(a: (Id, Compliance), b: (Id, Compliance))
    ensures a.1.checkedAt == b.1.checkedAt ==> CheckedLaterFirst(a, b)
    ensures !CheckedLaterFirst(a, b) ==> b.1.checkedAt > a.1.checkedAt
  {
    a.1.checkedAt >= b.1.checkedAt
  }

  /** `getCompliances`: every stored record, once, latest check first. */
  function GetCompliances(compliances: map<Id, Compliance>): (r: Reply<seq<(Id, Compliance)>>)
    ensures r.Ok?
    ensures forall e :: e in r.value <==> e.0 in compliances && compliances[e.0] == e.1
    ensures |r.value| == |compliances|
    ensures forall i, j :: 0 <= i < j < |r.value| ==> r.value[i].1.checkedAt >= r.value[j].1.checkedAt
  {
    assert TotalPreorder(CheckedLaterFirst);
    var listed := Query(compliances, (c: Compliance) => true, CheckedLaterFirst);
    assert Sorted(listed, CheckedLaterFirst);
    ListedCount(compliances, listed);
    Ok(listed)
  }

  /** `getComplianceById`: 500 for an id that is not an ObjectId, 404 for an
      unknown one, otherwise 200 with the record. */
  function GetComplianceById(compliances: map<Id, Compliance>, id: string): (r: Reply<Compliance>)
    ensures r.Status() == 500 <==> ParseObjectId(id).None?
    ensures r.Status() == 404 <==> ParseObjectId(id).Some? && KeyOf(id) !in compliances
    ensures r.Status() == 200 <==> ParseObjectId(id).Some? && KeyOf(id) in compliances
    ensures r.Status() == 200 ==> r == Ok(compliances[KeyOf(id)])
  {
    FindById(compliances, id)
  }

  /** The stored compliance records. `parseDate` is the store's cast of date
      strings. */
  class ComplianceStore {
    var compliances: map<Id, Compliance>
    const parseDate: string -> Option<Date>

    /** Every stored record passed the schema's validators. */
    ghost predicate Valid()
      reads this
    {
      AllCompliancesValid(compliances)
    }

    constructor (parseDate: string -> Option<Date>)
      ensures Valid() && compliances == map[] && this.parseDate == parseDate
    {
      compliances := map[];
      this.parseDate := parseDate;
    }

    /** `createCompliance`: 400 when a required field is falsy, 500 when the
        save fails, otherwise 201 with the record stored under `newId`. */
    method CreateCompliance(body: ComplianceBody, newId: Id) returns (r: Reply<Compliance>)
      requires Valid() && newId !in compliances
      modifies this
      ensures Valid()
      ensures !ComplianceFieldsPresent(body) ==> r == BadRequest
      ensures ComplianceFieldsPresent(body) && ComplianceFromBody(body, parseDate).None? ==> r == StoreError
      ensures ComplianceFieldsPresent(body) && ComplianceFromBody(body, parseDate).Some? ==>
                r == Created(ComplianceFromBody(body, parseDate).value)
      ensures r.Created? ==> compliances == old(compliances)[newId := r.value]
      ensures !r.Created? ==> compliances == old(compliances)
      ensures r.Created? ==> GetComplianceById(compliances, ObjectIdText(newId)) == Ok(r.value)
    {
      if !ComplianceFieldsPresent(body) {
        return BadRequest;
      }
      var created := ComplianceFromBody(body, parseDate);
      if created.None? {
        return StoreError;
      }
      assert ValidCompliance(created.value);
      compliances := compliances[newId := created.value];
      ObjectIdRoundTrip(newId);
      assert KeyOf(ObjectIdText(newId)) == newId;
      assert compliances[newId] == created.value;
      r := Created(created.value);
    }

    /** `updateCompliance`: 500 for a malformed id, 404 for an unknown one;
        the fields are merged one by one into the fetched record, which is
        then saved (500 on failure). */
    method UpdateCompliance(id: string, body: ComplianceBody) returns (r: Reply<Compliance>)
      requires Valid()
      modifies this
      ensures Valid()
      ensures ParseObjectId(id).None? ==> r == StoreError
      ensures ParseObjectId(id).Some? && KeyOf(id) !in old(compliances) ==> r == NotFound
      ensures ParseObjectId(id).Some? && KeyOf(id) in old(compliances) ==>
                r == (match MergeCompliance(old(compliances)[KeyOf(id)], body, parseDate)
                      case Some(c) => Ok(c)
                      case None => StoreError)
      ensures r.Ok? ==> compliances == old(compliances)[KeyOf(id) := r.value]
      ensures !r.Ok? ==> compliances == old(compliances)
    {
      var found := FindById(compliances, id);
      if found.StoreError? {
        return StoreError;
      }
      if found.NotFound? {
        return NotFound;
      }
      var compliance := found.value;
      var equipmentName := Coalesce(body.equipmentName, compliance.equipmentName, TrimmedStringOf);
      var checkedBy := Coalesce(body.checkedBy, compliance.checkedBy, ObjectIdOf);
      var checkedAt := Coalesce(body.checkedAt, compliance.checkedAt, v => DateOf(v, parseDate));
      var status := Coalesce(body.status, compliance.status, ComplianceStatusOf);
      var remarks := Coalesce(body.remarks, compliance.remarks, RemarksOf);
      if equipmentName.None? || checkedBy.None? || checkedAt.None? || status.None? || remarks.None? {
        return StoreError;
      }
      var updated := Compliance(equipmentName.value, checkedBy.value, checkedAt.value, status.value, remarks.value);
      if !ValidCompliance(updated) {
        return StoreError;
      }
      compliances := compliances[KeyOf(id) := updated];
      r := Ok(updated);
    }

    /** `deleteCompliance`: 500 for a malformed id, 404 for an unknown one,
        otherwise exactly that record is removed and a later lookup gives
        404. */
    method DeleteCompliance(id: string) returns (r: Reply<()>)
      requires Valid()
      modifies this
      ensures Valid()
      ensures ParseObjectId(id).None? ==> r == StoreError
      ensures ParseObjectId(id).Some? && KeyOf(id) !in old(compliances) ==> r == NotFound
      ensures ParseObjectId(id).Some? && KeyOf(id) in old(compliances) ==>
                r == Ok(()) && compliances == old(compliances) - {KeyOf(id)}
      ensures !r.Ok? ==> compliances == old(compliances)
      ensures r.Ok? ==> GetComplianceById(compliances, id) == NotFound
    {
      var found := FindById(compliances, id);
      if found.StoreError? {
        return StoreError;
      }
      if found.NotFound? {
        return NotFound;
      }
      compliances := compliances - {KeyOf(id)};
      r := Ok(());
    }
  }
}
