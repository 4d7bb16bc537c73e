/** The read-only worker handlers: the sorted listing and the lookup by id.
    Neither takes the store by reference, so neither can change it. */
module WorkerController {
  import opened Text
  import opened Values
  import opened Listing
  import opened WorkerModel

  lemma ByNameIsTotalPreorder()
    ensures TotalPreorder(ByName)
  {
    forall a, b ensures ByName(a, b) || ByName(b, a) {
      ByNameTotal(a, b);
    }
    forall a, b, c | ByName(a, b) && ByName(b, c) ensures ByName(a, c) {
      ByNameTransitive(a, b, c);
    }
  }

  /** `getWorkers`: every stored worker, once, by last name and then first
      name, ascending. */
  function GetWorkers(workers: map<Id, Worker>): (r: Reply<seq<(Id, Worker)>>)
    ensures r.Ok?
    ensures forall e :: e in r.value <==> e.0 in workers && workers[e.0] == e.1
    ensures |r.value| == |workers|
    ensures Sorted(r.value, ByName)
  {
    ByNameIsTotalPreorder();
    var listed := Query(workers, (w: Worker) => true, ByName);
    assert |listed| == |workers| by {
      ListedCount(workers, listed);
    }
    Ok(listed)
  }

  /** `getWorkerById`: 500 for an id that is not an ObjectId, 404 for an
      unknown one, otherwise 200 with the worker. */
  function GetWorkerById(workers: map<Id, Worker>, id: string): (r: Reply<Worker>)
    ensures r.Status() == 500 <==> ParseObjectId(id).None?
    ensures r.Status() == 404 <==> ParseObjectId(id).Some? && KeyOf(id) !in workers
    ensures r.Status() == 200 <==> ParseObjectId(id).Some? && KeyOf(id) in workers
    ensures r.Status() == 200 ==> r == Ok(workers[KeyOf(id)])
  {
    FindById(workers, id)
  }
}
