# Site safety monitor: the request handlers and their schemas

This project models the backend of a site-safety record keeper. The backend serves five resource kinds: incidents, protective-gear logs, equipment compliance records, hazard reports and workers.

- Each kind is a collection of documents keyed by ObjectId, modelled as a `map<Id, Record>`.
- Each handler reads a request body and replies with one outcome: `Ok` (200), `Created` (201), `BadRequest` (400), `NotFound` (404), `Forbidden` (403) or `StoreError` (500).
- The handlers that write are methods of a store class over those maps: `SafetyStore` (incidents and gear logs), `ComplianceStore` and `ReportStore`. Their `ensures` list the exits in the order the handler takes them, and give the new collection for each exit.
- The read-only handlers are functions of the collections.

Modules:

- `Text`: the `trim` and `lowercase` setters, and the order `sort` uses on strings.
- `Values`: request values and their JavaScript truthiness, the casts a schema applies on assignment, ObjectIds and their text form, replies, and `findById`.
- `Listing`: `find(filter).sort(spec)` over a collection.
- `IncidentModel`, `GearLogModel`, `ComplianceModel`, `WorkerModel`, `ReportModel`: each schema as a datatype, its enums, and what a `save` stores or refuses.
- `SafetyController`, `ComplianceController`, `ReportController`, `WorkerController`: the handlers.

How a save works here: the casts run first, then the setters (`trim`, `lowercase`), then the validators (`required` on the trimmed value, `enum`). Any failure is a 500 reply and leaves the store unchanged.

Two merge rules are used on update:

- Falsy-coalescing `x || old` keeps the stored value whenever the body's value is falsy.
- For gear-log `remarks`, any value other than `undefined` replaces the stored one, so `""` clears it.

## Model

| member | source | states |
|---|---|---|
| `Text.Trim` | backend/models/Incident.js:20-29 | the `trim` setter: the result is a slice of the input with only whitespace before and after it, it has no surrounding whitespace, and it is empty exactly when the input was whitespace only |
| `Text.TrimOfTrimmed` | backend/models/GearLog.js:15-24 | trimming a trimmed string changes nothing |
| `Text.TrimIdempotent` | backend/models/GearLog.js:15-24 | trimming twice is trimming once |
| `Text.Lower` | backend/models/Worker.js:19 | the `lowercase` setter maps each character to its lower-case form and keeps the length |
| `Text.LowerOfTrimmed` | backend/models/Worker.js:18-19 | lower-casing keeps a trimmed email trimmed and is idempotent |
| `Text.LowerTrimStart` | backend/models/Worker.js:18-19 | lower-casing commutes with removing leading whitespace |
| `Text.LowerTrimEnd` | backend/models/Worker.js:18-19 | lower-casing commutes with removing trailing whitespace |
| `Text.LowerTrimCommute` | backend/models/Worker.js:18-19 | the `trim` and `lowercase` setters commute |
| `Text.StrLeTotal` | backend/controllers/workerController.js:6 | the string order of a sort compares any two strings |
| `Text.StrLeReflexive` | backend/controllers/workerController.js:6 | the string order of a sort puts every string no later than itself |
| `Text.StrLeTransitive` | backend/controllers/workerController.js:6 | the string order is transitive |
| `Text.StrLeAntisymmetric` | backend/controllers/workerController.js:6 | strings ordered both ways are equal |
| `Values.Coalesce` | backend/controllers/safetyController.js:231-236 | falsy-coalescing onto a typed path keeps the current value whenever `v` is falsy |
| `Values.ParseObjectId` | backend/controllers/safetyController.js:19 | an id string casts to an ObjectId exactly when it is 24 hexadecimal digits |
| `Values.ObjectIdText` | backend/controllers/safetyController.js:94 | `toString()` of an ObjectId is 24 characters |
| `Values.HexRoundTrip` | backend/controllers/safetyController.js:94 | the hex text of a number below 16^width parses back to that number |
| `Values.ObjectIdRoundTrip` | backend/controllers/safetyController.js:60 | the text of an id casts back to that id, so a created document can be fetched by the id in the reply |
| `Values.ObjectIdTextInjective` | backend/controllers/safetyController.js:94 | comparing `toString()` texts compares the ids, both ways |
| `Values.StringOf` | backend/models/Incident.js:20-22 | the String cast accepts strings and booleans and nothing else |
| `Values.TrimmedStringOf` | backend/models/GearLog.js:15-19 | a trimmed String path stores a trimmed string, and nothing exactly for `null` or `undefined` |
| `Values.NewTrimmedStringOf` | backend/models/GearLog.js:34-38 | on a new document a missing value takes the default; any other value is cast and trimmed |
| `Values.TrimmedStringOfTrimmed` | backend/models/Incident.js:20-24 | a trimmed String path stores a string that is already trimmed as itself |
| `Values.BooleanOf` | backend/models/Incident.js:39-42 | the Boolean cast: only booleans and strings cast, and a boolean keeps its value; a falsy value never casts to true; a truthy value casts to false exactly for the strings "false", "0" and "no" |
| `Values.ObjectIdOf` | backend/models/GearLog.js:5-14 | an ObjectId path casts a string exactly as an id string parses, and refuses every value that is not a string |
| `Values.DateOf` | backend/models/GearLog.js:25-28 | a required Date path takes exactly the non-empty strings the date parser accepts, with the parsed date; `null`, `""`, booleans and `undefined` give no date |
| `Values.NullableDateOf` | backend/models/Worker.js:33-36 | a Date path that may hold `null` stores `null` for `null` and `""`, succeeds on a non-empty string exactly when the parser accepts it, and refuses booleans |
| `Values.NullableBooleanOf` | backend/models/Worker.js:37-40 | a Boolean path that may hold `null` stores `null` for `null`, and otherwise succeeds exactly when the Boolean cast does, with its value |
| `Values.FindById` | backend/controllers/safetyController.js:19-23 | `findById` and a 404 check: 500 exactly for a malformed id, 200 with the document exactly for a stored id, 404 otherwise |
| `Listing.LeastKey` | backend/controllers/safetyController.js:143 | every non-empty set of ids has a least element |
| `Listing.MinKeyExists` | backend/controllers/safetyController.js:143 | a non-empty set of ids has a least id, and only one |
| `Listing.EntriesStep` | backend/controllers/safetyController.js:143 | the least id's document followed by an ascending listing of the others lists the whole collection, once each, in ascending id order |
| `Listing.Entries` | backend/controllers/safetyController.js:143 | `find()` yields each stored document exactly once, in ascending id order |
| `Listing.Filter` | backend/controllers/safetyController.js:7 | a query filter keeps exactly the matching documents, without duplicates |
| `Listing.Insert` | backend/controllers/safetyController.js:7 | one insertion step of a sort adds exactly the inserted element |
| `Listing.InsertSorted` | backend/controllers/safetyController.js:7 | inserting into a sorted listing keeps it sorted under a total preorder |
| `Listing.InsertDistinct` | backend/controllers/safetyController.js:7 | inserting a new element keeps a listing free of duplicates |
| `Listing.SortBy` | backend/controllers/safetyController.js:7 | `.sort(spec)` gives a listing sorted by the key with the same documents, each as often as before |
| `Listing.Query` | backend/controllers/safetyController.js:7 | `find(filter).sort(spec)` gives exactly the matching documents, each once, sorted |
| `Listing.ListedCount` | backend/controllers/workerController.js:6 | a listing holding each stored document exactly once has as many entries as the collection |
| `IncidentModel.ParseIncidentType` | backend/models/Incident.js:15-19 | `incident_type` accepts exactly Fall, Electrical, Equipment Failure, Fire, Chemical and Other |
| `IncidentModel.ParseSeverityLevel` | backend/models/Incident.js:30-34 | `severity_level` accepts exactly Low, Medium and High |
| `IncidentModel.IncidentTypeOf` | backend/models/Incident.js:15-19 | the String cast and then the enum validator of `incident_type`: the stored type's name is exactly the value's text, and a value whose text names no type is refused |
| `IncidentModel.SeverityLevelOf` | backend/models/Incident.js:30-34 | the String cast and then the enum validator of `severity_level`: the stored level's name is exactly the value's text, and a value whose text names no level is refused |
| `IncidentModel.ValidIncident` | backend/models/Incident.js:20-29 | the invariant every stored incident keeps: title and description are non-empty and trimmed |
| `IncidentModel.ValidIncidentRecasts` | backend/models/Incident.js:20-29 | cast and trimmed again, a stored title and description come back unchanged and still pass `required` |
| `IncidentModel.ResolvedOf` | backend/models/Incident.js:39-42 | `resolved` defaults to false when absent |
| `IncidentModel.BuildIncident` | backend/models/Incident.js:5-42 | the save succeeds exactly when the site id, both enums, the date and `resolved` cast and the title and description are not blank once trimmed; a saved incident has non-empty trimmed title and description, the given owner, and every path equal to its cast value |
| `IncidentModel.BlankTitleRefused` | backend/models/Incident.js:20-24 | a whitespace-only title is trimmed to "" and fails `required` |
| `IncidentModel.BlankDescriptionRefused` | backend/models/Incident.js:25-29 | a whitespace-only description is trimmed to "" and fails `required` |
| `GearLogModel.ParseGearStatus` | backend/models/GearLog.js:29-33 | `status` accepts exactly Good, Damaged and Replaced |
| `GearLogModel.GearStatusOf` | backend/models/GearLog.js:29-33 | the String cast and then the enum validator of `status`: the stored status's name is exactly the value's text, and a value whose text names no status is refused |
| `GearLogModel.ValidGearLog` | backend/models/GearLog.js:15-38 | the invariant every stored gear log keeps: gear type and condition are non-empty and trimmed, and stored remarks are trimmed |
| `GearLogModel.ValidGearLogRecasts` | backend/models/GearLog.js:15-38 | cast and trimmed again, a stored gear type, condition and remarks come back unchanged, and the required two still pass `required` |
| `GearLogModel.BuildGearLog` | backend/models/GearLog.js:5-38 | the save succeeds exactly when both ids, the date and the status cast and the gear type and condition are not blank once trimmed; a saved gear log has non-empty trimmed gear type and condition, trimmed remarks, and every path equal to its cast value |
| `GearLogModel.RemarksDefault` | backend/models/GearLog.js:34-38 | a gear log created without `remarks` stores "" |
| `GearLogModel.BlankGearTypeRefused` | backend/models/GearLog.js:15-19 | a whitespace-only gear type fails `required` |
| `ComplianceModel.ParseComplianceStatus` | backend/models/Compliance.js:18-22 | `status` accepts exactly Compliant, Non-compliant and Pending |
| `ComplianceModel.ComplianceStatusOf` | backend/models/Compliance.js:18-22 | the String cast and then the enum validator of `status`: the stored status's name is exactly the value's text, and a value whose text names no status is refused |
| `ComplianceModel.ValidCompliance` | backend/models/Compliance.js:4-27 | the invariant every stored record keeps: the equipment name is non-empty and trimmed, and stored remarks are trimmed |
| `ComplianceModel.ValidComplianceRecasts` | backend/models/Compliance.js:4-27 | cast and trimmed again, a stored equipment name and remarks come back unchanged, and the name still passes `required` |
| `ComplianceModel.BuildCompliance` | backend/models/Compliance.js:4-27 | the save succeeds exactly when the checker id, the date and the status cast and the equipment name is not blank once trimmed; a saved record has a non-empty trimmed equipment name, trimmed remarks defaulting to "", and every path equal to its cast value |
| `ComplianceModel.BlankEquipmentNameRefused` | backend/models/Compliance.js:4-8 | a whitespace-only equipment name fails `required` |
| `WorkerModel.EmailOf` | backend/models/Worker.js:14-20 | a stored email is trimmed and lower case; only `null` and `undefined` give none |
| `WorkerModel.ValidWorker` | backend/models/Worker.js:4-32 | the invariant every stored worker keeps: names and email are non-empty and trimmed, the email is lower case, and the optional contact fields are trimmed |
| `WorkerModel.ValidWorkerRecasts` | backend/models/Worker.js:4-20 | cast and trimmed again, stored names come back unchanged, and a stored email passes the email path unchanged |
| `WorkerModel.EmailsUnique` | backend/models/Worker.js:17 | the `unique` index: no two stored workers share an email |
| `WorkerModel.EmailsUniqueLookup` | backend/models/Worker.js:17 | the index is unique exactly when looking up any stored worker by its email finds that worker and no other |
| `WorkerModel.BuildWorker` | backend/models/Worker.js:4-40 | the save succeeds exactly when the names and the email are not blank once trimmed and a given `dateHired` and `active` cast; a saved worker has trimmed names, a trimmed lower-case email, optional trimmed contact fields, `dateHired` defaulting to the time of the save and `active` to true, and `null` stored as `null` on those two |
| `WorkerModel.InsertWorker` | backend/models/Worker.js:17 | the unique index refuses a worker exactly when a stored one has the same email; otherwise validity and uniqueness are kept |
| `WorkerModel.EmailsEqualUpToCaseCollide` | backend/models/Worker.js:17-19 | two emails that differ only in case or surrounding whitespace collide in the unique index |
| `WorkerModel.ByName` | backend/controllers/workerController.js:6 | the order of `sort({ lastName: 1, firstName: 1 })`: workers with the same names compare either way, and a strictly smaller last name comes first whatever the first names |
| `WorkerModel.ByNameTotal` | backend/controllers/workerController.js:6 | the last-name-then-first-name order compares any two workers |
| `WorkerModel.ByNameTransitive` | backend/controllers/workerController.js:6 | the last-name-then-first-name order is transitive |
| `WorkerController.ByNameIsTotalPreorder` | backend/controllers/workerController.js:6 | the worker sort specification is a total preorder |
| `WorkerController.GetWorkers` | backend/controllers/workerController.js:4-13 | every stored worker exactly once, with no filter, by last name and then first name ascending |
| `WorkerController.GetWorkerById` | backend/controllers/workerController.js:16-27 | 500 exactly for a malformed id, 404 exactly for an unknown id, else 200 with that worker |
| `SafetyController.IncidentFromBody` | backend/controllers/safetyController.js:49-58 | a created or updated incident is owned by the given user; the falsy-coalesced `resolved` stores false for a falsy value and the Boolean cast of a truthy one |
| `SafetyController.IncidentFieldsPresent` | backend/controllers/safetyController.js:44-45 | the 400 check of create, repeated at line 82 by update: a body that passes it has a string value on title, description and both enums and a non-empty string or `true` as date; an empty title or description fails it |
| `SafetyController.FalsyResolvedSavesUnresolved` | backend/controllers/safetyController.js:56 | any falsy `resolved` saves the same incident as `false` does, and that incident is unresolved |
| `SafetyController.BlankTitlePassesPresenceCheck` | backend/controllers/safetyController.js:44-58 | a title of spaces passes the 400 check and is refused by the save, which gives 500 |
| `SafetyController.IncidentLaterFirst` | backend/controllers/safetyController.js:7 | the order of `sort({ date: -1 })`: incidents on the same date compare either way, and when one may not come first the other is strictly later |
| `SafetyController.GetIncidents` | backend/controllers/safetyController.js:5-12 | exactly the caller's incidents, each once, latest date first |
| `SafetyController.GetIncidentById` | backend/controllers/safetyController.js:15-30 | no ownership check: 500 for a malformed id, 404 for an unknown one, else 200 with the incident |
| `SafetyController.GearLogFromBody` | backend/controllers/safetyController.js:194-204 | a created gear log is valid, trimmed, and has remarks defaulting to "" |
| `SafetyController.GearLogFieldsPresent` | backend/controllers/safetyController.js:182-191 | the 400 check of create: a body that passes it has a string value on gear type, condition and status and a non-empty string or `true` as date; an empty gear type or condition fails it |
| `SafetyController.MergeGearLog` | backend/controllers/safetyController.js:231-239 | the six required paths change only for truthy values; `remarks` changes for any defined value; the result is valid |
| `SafetyController.EmptyGearLogUpdateKeeps` | backend/controllers/safetyController.js:225-239 | an update with an empty body saves the gear log unchanged |
| `SafetyController.GearLogRemarksClearable` | backend/controllers/safetyController.js:237 | `""` clears gear-log remarks and `null` stores null |
| `SafetyController.MergeGearLogAccepts` | backend/controllers/safetyController.js:231-239 | for a valid stored gear log, the save succeeds exactly when every truthy body value casts to its path's type and neither gear type nor condition is blank once trimmed |
| `SafetyController.MergeGearLogIdempotent` | backend/controllers/safetyController.js:231-239 | applying the same update twice gives the same record as applying it once |
| `SafetyController.GetGearLogs` | backend/controllers/safetyController.js:141-152 | every stored gear log exactly once, unfiltered, in natural order |
| `SafetyController.GetGearLogById` | backend/controllers/safetyController.js:155-168 | 500 for a malformed id, 404 for an unknown one, else 200 with the gear log |
| `SafetyController.SafetyStore.constructor` | backend/controllers/safetyController.js:1-2 | an empty store satisfies every schema invariant |
| `SafetyController.SafetyStore.CreateIncident` | backend/controllers/safetyController.js:32-65 | 400 for a falsy required field, 500 when the save fails, else 201; the new incident is stored under the fresh id, owned by the caller, and fetchable by the id's text; nothing is stored on an error |
| `SafetyController.SafetyStore.UpdateIncident` | backend/controllers/safetyController.js:69-114 | exits in order 400, 500 for a malformed id, 404, 403, then 500 or 200; only the owner's incident changes, its owner is kept, its other fields come from the body, and no other incident changes |
| `SafetyController.SafetyStore.DeleteIncident` | backend/controllers/safetyController.js:118-137 | exits in order 500, 404, 403, 200; only the owner can remove, exactly that incident is removed, and a later lookup gives 404 |
| `SafetyController.SafetyStore.CreateGearLog` | backend/controllers/safetyController.js:171-210 | 400 for a falsy required field, 500 when the save fails, else 201 with the gear log stored under the fresh id and fetchable by its text |
| `SafetyController.SafetyStore.UpdateGearLog` | backend/controllers/safetyController.js:213-245 | no 400 and no ownership check; 500, 404, then the merged gear log is saved (500 on failure) and nothing else changes |
| `SafetyController.SafetyStore.DeleteGearLog` | backend/controllers/safetyController.js:254-269 | 500, 404, else exactly that gear log is removed, whoever asks, and a later lookup gives 404 |
| `ComplianceController.ComplianceFromBody` | backend/controllers/complianceController.js:50-58 | the stored record carries the five supplied fields as cast, with remarks defaulting to "" |
| `ComplianceController.ComplianceFieldsPresent` | backend/controllers/complianceController.js:45-46 | the 400 check of create: a body that passes it has a string value on equipment name and status and a non-empty string or `true` as check date; an empty equipment name fails it |
| `ComplianceController.RemarksOf` | backend/controllers/complianceController.js:82 | the cast of an updated `remarks` never fails: `null` and `undefined` store `null`, anything else a trimmed string |
| `ComplianceController.MergeCompliance` | backend/controllers/complianceController.js:78-84 | each of the five paths, remarks included, changes only for a truthy value; the result is valid; for a valid stored record the save succeeds exactly when every truthy value casts and the equipment name is not blank once trimmed |
| `ComplianceController.ComplianceRemarksNotClearable` | backend/controllers/complianceController.js:82 | `""` or `null` cannot clear compliance remarks |
| `ComplianceController.EmptyComplianceUpdateKeeps` | backend/controllers/complianceController.js:78-84 | an update with an empty body saves the record unchanged |
| `ComplianceController.MergeComplianceIdempotent` | backend/controllers/complianceController.js:78-84 | applying the same update twice gives the same record as applying it once |
| `ComplianceController.CheckedLaterFirst` | backend/controllers/complianceController.js:8 | the order of `sort({ checkedAt: -1 })`: records checked at the same time compare either way, and when one may not come first the other was checked strictly later |
| `ComplianceController.GetCompliances` | backend/controllers/complianceController.js:5-16 | every stored record exactly once, latest `checkedAt` first |
| `ComplianceController.GetComplianceById` | backend/controllers/complianceController.js:20-36 | 500 for a malformed id, 404 for an unknown one, else 200 with the record |
| `ComplianceController.ComplianceStore.constructor` | backend/controllers/complianceController.js:1 | an empty store satisfies the schema invariant |
| `ComplianceController.ComplianceStore.CreateCompliance` | backend/controllers/complianceController.js:41-64 | 400 for a falsy required field, 500 when the save fails, else 201 with the record stored under the fresh id; nothing is stored on an error |
| `ComplianceController.ComplianceStore.UpdateCompliance` | backend/controllers/complianceController.js:68-90 | 500, 404 with no change, then the merged record is saved (500 on failure) |
| `ComplianceController.ComplianceStore.DeleteCompliance` | backend/controllers/complianceController.js:93-108 | 500, 404, else exactly that record is removed and a later lookup gives 404 |
| `ReportModel.BuildReport` | backend/controllers/reportController.js:42-47 | a report is built exactly when the four values cast, and it carries the cast values |
| `ReportController.ReportFromBody` | backend/controllers/reportController.js:42-47 | a body that passes the 400 check and has a parseable date gives a report carrying the supplied fields |
| `ReportController.ReportFieldsPresent` | backend/controllers/reportController.js:37-38 | the 400 check of create: a body that passes it has a string value on title, description and location and a non-empty string or `true` as date; an empty title, description or location fails it |
| `ReportController.MergeReport` | backend/controllers/reportController.js:68-73 | each of the four fields changes only for a truthy value; the save fails exactly for a truthy unparseable date |
| `ReportController.FalsyReportUpdateKeeps` | backend/controllers/reportController.js:68-71 | an update whose fields are all falsy leaves the report unchanged |
| `ReportController.MergeReportIdempotent` | backend/controllers/reportController.js:68-73 | applying the same update twice gives the same report as applying it once |
| `ReportController.ReportLaterFirst` | backend/controllers/reportController.js:6 | the order of `sort({ date: -1 })`: reports on the same date compare either way, and when one may not come first the other is strictly later |
| `ReportController.GetReports` | backend/controllers/reportController.js:4-12 | every stored report exactly once, latest date first |
| `ReportController.GetReportById` | backend/controllers/reportController.js:15-30 | 500 for a malformed id, 404 for an unknown one, else 200 with the report |
| `ReportController.ReportStore.constructor` | backend/controllers/reportController.js:1 | a new store holds no reports |
| `ReportController.ReportStore.CreateReport` | backend/controllers/reportController.js:33-55 | 400 for a falsy field, 500 when a cast fails, else 201 with the report stored under the fresh id and fetchable by its text |
| `ReportController.ReportStore.UpdateReport` | backend/controllers/reportController.js:58-79 | 500, 404 with no change, then the merged report is saved (500 on failure) |
| `ReportController.ReportStore.DeleteReport` | backend/controllers/reportController.js:82-97 | 500, 404, else exactly that report is removed, no other report changes, and a later lookup gives 404 |

## Left out

- The schema file of hazard reports is not part of this model. `ReportModel.Report` assumes String paths for `title`, `description` and `location`, a Date path for `date`, and no setters or validators beyond the casts.
- Request values are `undefined`, `null`, booleans and strings. JSON numbers, arrays and objects are not modelled.
- The caller's id is set by authentication middleware, which is not part of this model. It is taken to be a stored ObjectId, whose text is the lower-case form `toString()` gives.
- ObjectId generation is a parameter: a create handler receives the new document's id and requires that it is unused. The 12-byte string form of an ObjectId is not modelled.
- Date parsing is a parameter, `parseDate`, of each store. `Date.now` is the parameter `now` of `WorkerModel.BuildWorker`. Dates are opaque ordered integers.
- `null` on the worker's `dateHired` and `active` is stored as `null`. On the incident's `resolved`, `null` is modelled as a cast failure; the handlers never assign `null` there, because of `resolved || false`.
- ReportModel.BuildReport: a `null` or `""` date is refused, where a Date path without `required` would store `null`. The report handlers only ever pass a truthy date, so no reply differs.
- `lowercase` is modelled on the ASCII letters only. The string order of a sort compares Unicode code points, which is the same order as MongoDB's comparison of UTF-8 bytes.
- Natural order of `find()` without a sort is modelled as ascending id. Documents with equal sort keys come in an order the model leaves open.
- `populate` of references, `timestamps`, logging, and the text of error messages are not modelled. Only status codes and stored documents are.
- On update, the store validates every path, where the real save validates only modified and required paths. The two agree on documents that already passed validation, which the stores' `Valid` invariant keeps.
- `remove()` is modelled as deleting the document. Whether the installed mongoose version still provides `Document.remove()` is not part of this model.
- Database failures other than cast and validation errors are not modelled, nor is concurrency between requests.
- There is no worker create handler. `WorkerModel.BuildWorker` and `WorkerModel.InsertWorker` model what a save of a worker would store or refuse.
