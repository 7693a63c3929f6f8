/** Exactly-once accounting between pending requests and outstanding jobs, independent of where the jobs are. */
module Accounting {
  import opened Text
  import opened Messages
  import opened Ordering
  import opened Requesters
  import opened DelegatorStates

  /** The likelihood: the answer to a job type on the data of a request. */
  type Likelihood = (nat, string) -> string

  /** A job without the time it was started at, which changes when it is dispatched. */
  function Core(j: Job): Job { j.(startTime := 0) }

  function OfRequest(jobs: set<Job>, id: string): set<Job> { set j | j in jobs && j.requesterID == id }

  ghost predicate Open(jobs: set<Job>, id: string, index: nat) {
    exists j :: j in jobs && j.requesterID == id && j.requesterIndex == index
  }

  /** The index-th smallest requested type. */
  ghost function TypeAt(r: Request, index: nat): nat
    requires index < |r.jobTypes|
  {
    InTypeOrder(r.jobTypes)[index]
  }

  /** What a request is answered with: the likelihood of every requested type, in ascending order of the types. */
  ghost function Expected(types: set<nat>, data: string, f: Likelihood): seq<string> {
    seq(|types|, i requires 0 <= i < |types| => f(InTypeOrder(types)[i], data))
  }

  ghost predicate JobOk(j: Job, requests: map<string, Request>, nextJobId: nat) {
    && Number(j.id) < nextJobId
    && j.startTime == 0
    && j.requesterID in requests
    && j.requesterIndex < |requests[j.requesterID].jobTypes|
    && j.typ == TypeAt(requests[j.requesterID], j.requesterIndex)
  }

  ghost predicate RequestOk(id: string, r: Request, jobs: set<Job>, f: Likelihood) {
    && r.address != [] && id == Join(r.address, ':')
    && |r.results| == |r.jobTypes|
    && r.nDone + |OfRequest(jobs, id)| == |r.jobTypes|
    && (forall i | 0 <= i < |r.jobTypes| ::
          r.results[i] == if Open(jobs, id, i) then "" else f(TypeAt(r, i), r.data))
  }

  /** Every outstanding job belongs to a pending request and asks for the type of its slot; no two have the same name or
      the same slot; every slot is either empty with its job outstanding, or holds the right answer; and nDone counts the
      slots that are answered. */
  ghost predicate Accounted(requests: map<string, Request>, jobs: set<Job>, nextJobId: nat, f: Likelihood) {
    && JobsOk(jobs, requests, nextJobId)
    && Distinct(jobs)
    && RequestsOk(requests, jobs, f)
    && NoneComplete(requests)
  }

  /** No request stays pending when all its slots are answered. */
  ghost predicate NoneComplete(requests: map<string, Request>) {
    forall id | id in requests :: requests[id].jobTypes != {} ==> requests[id].nDone < |requests[id].jobTypes|
  }

  ghost predicate JobsOk(jobs: set<Job>, requests: map<string, Request>, nextJobId: nat) {
    forall j | j in jobs :: JobOk(j, requests, nextJobId)
  }

  ghost predicate SameSlot(j: Job, k: Job) {
    j.requesterID == k.requesterID && j.requesterIndex == k.requesterIndex
  }

  ghost predicate Distinct(jobs: set<Job>) {
    forall j, k | j in jobs && k in jobs && (j.id == k.id || SameSlot(j, k)) :: j == k
  }

  ghost predicate RequestsOk(requests: map<string, Request>, jobs: set<Job>, f: Likelihood) {
    forall id | id in requests :: RequestOk(id, requests[id], jobs, f)
  }

  // ---------------------------------------------------------- a job is answered

  lemma AnsweredKeepsRequest(id: string, r: Request, jobs: set<Job>, f: Likelihood, j: Job, value: string)
    requires RequestOk(id, r, jobs, f)
    requires j in jobs && j.requesterID == id && j.requesterIndex < |r.jobTypes|
    requires forall k | k in jobs && k.requesterID == id && k.requesterIndex == j.requesterIndex :: k == j
    requires value == f(TypeAt(r, j.requesterIndex), r.data)
    ensures RequestOk(id, Answered(r, j.requesterIndex, value), jobs - {j}, f)
  {
    var r' := Answered(r, j.requesterIndex, value);
    assert OfRequest(jobs - {j}, id) == OfRequest(jobs, id) - {j};
    forall i | 0 <= i < |r'.jobTypes|
      ensures r'.results[i] == if Open(jobs - {j}, id, i) then "" else f(TypeAt(r', i), r'.data)
    {
      if i != j.requesterIndex && Open(jobs, id, i) {
        var k :| k in jobs && k.requesterID == id && k.requesterIndex == i;
        assert k in jobs - {j};
      }
    }
  }

  lemma OtherRequestKept(id: string, r: Request, jobs: set<Job>, f: Likelihood, j: Job)
    requires RequestOk(id, r, jobs, f) && j.requesterID != id
    ensures RequestOk(id, r, jobs - {j}, f)
  {
    assert OfRequest(jobs - {j}, id) == OfRequest(jobs, id);
    forall i | 0 <= i < |r.jobTypes|
      ensures Open(jobs - {j}, id, i) <==> Open(jobs, id, i)
    {
      if Open(jobs, id, i) {
        var k :| k in jobs && k.requesterID == id && k.requesterIndex == i;
        assert k in jobs - {j};
      }
    }
  }

  /** A request all of whose slots are answered holds exactly the expected answers. */
  lemma CompleteIsExpected(id: string, r: Request, jobs: set<Job>, f: Likelihood)
    requires RequestOk(id, r, jobs, f) && r.nDone == |r.jobTypes|
    ensures r.results == Expected(r.jobTypes, r.data, f)
    ensures forall j | j in jobs :: j.requesterID != id
  {
    assert OfRequest(jobs, id) == {};
    forall j | j in jobs
      ensures j.requesterID != id
    {
      assert j.requesterID == id ==> j in OfRequest(jobs, id);
    }
  }

  /** One right answer to an outstanding job keeps the books; and when it is the last one of its request, that request
      leaves with exactly the expected answers and none of its jobs stays behind. */
  lemma AnswerKeepsAccounted(requests: map<string, Request>, jobs: set<Job>, nextJobId: nat, f: Likelihood, j: Job, r: Request)
    requires Accounted(requests, jobs, nextJobId, f) && j in jobs
    requires JobOk(j, requests, nextJobId) && RequestOk(j.requesterID, requests[j.requesterID], jobs, f)
    requires r == Answered(requests[j.requesterID], j.requesterIndex, f(j.typ, requests[j.requesterID].data))
    ensures r.nDone <= |r.jobTypes|
    ensures r.nDone == |r.jobTypes| ==>
              && r.results == Expected(r.jobTypes, r.data, f)
              && Accounted(requests - {j.requesterID}, jobs - {j}, nextJobId, f)
    ensures r.nDone != |r.jobTypes| ==> Accounted(requests[j.requesterID := r], jobs - {j}, nextJobId, f)
  {
    var id := j.requesterID;
    SlotIsOwn(jobs, j);
    AnsweredKeepsRequest(id, requests[id], jobs, f, j, f(j.typ, requests[id].data));
    OtherRequestsKept(requests, jobs, f, j);
    if r.nDone == |r.jobTypes| {
      CompleteIsExpected(id, r, jobs - {j}, f);
      JobsOkWithout(jobs, requests, nextJobId, j);
    } else {
      JobsOkAnswered(jobs, requests, nextJobId, j, r);
      RequestsOkAnswered(requests, jobs - {j}, f, id, r);
    }
  }

  lemma SlotIsOwn(jobs: set<Job>, j: Job)
    requires Distinct(jobs) && j in jobs
    ensures forall k | k in jobs && k.requesterID == j.requesterID && k.requesterIndex == j.requesterIndex :: k == j
    ensures Distinct(jobs - {j})
  {
  }

  lemma RequestsOkAnswered(requests: map<string, Request>, jobs: set<Job>, f: Likelihood, id: string, r: Request)
    requires RequestsOk(requests - {id}, jobs, f) && RequestOk(id, r, jobs, f)
    ensures RequestsOk(requests[id := r], jobs, f)
  {
    var requests' := requests[id := r];
    forall other | other in requests'
      ensures RequestOk(other, requests'[other], jobs, f)
    {
      if other != id {
        assert other in requests - {id};
      }
    }
  }

  lemma OtherRequestsKept(requests: map<string, Request>, jobs: set<Job>, f: Likelihood, j: Job)
    requires RequestsOk(requests, jobs, f)
    ensures RequestsOk(requests - {j.requesterID}, jobs - {j}, f)
  {
    forall other | other in requests && other != j.requesterID
      ensures RequestOk(other, requests[other], jobs - {j}, f)
    {
      OtherRequestKept(other, requests[other], jobs, f, j);
    }
  }

  lemma JobsOkWithout(jobs: set<Job>, requests: map<string, Request>, nextJobId: nat, j: Job)
    requires JobsOk(jobs, requests, nextJobId)
    requires forall k | k in jobs - {j} :: k.requesterID != j.requesterID
    ensures JobsOk(jobs - {j}, requests - {j.requesterID}, nextJobId)
  {
  }

  lemma JobsOkAnswered(jobs: set<Job>, requests: map<string, Request>, nextJobId: nat, j: Job, r: Request)
    requires JobsOk(jobs, requests, nextJobId) && j in jobs
    requires j.requesterID in requests && r.jobTypes == requests[j.requesterID].jobTypes
    ensures JobsOk(jobs - {j}, requests[j.requesterID := r], nextJobId)
  {
  }

  // ------------------------------------------------------- a request is accepted

  function Cores(jobs: seq<Job>): set<Job> { set j | j in jobs :: Core(j) }

  lemma NewJobsFacts(types: seq<nat>, id: string, nextJobId: nat)
    ensures forall i | 0 <= i < |types| ::
              var j := NewJobs(types, id, nextJobId)[i];
              Core(j) == j && Number(j.id) == nextJobId + i
    ensures forall j | j in Cores(NewJobs(types, id, nextJobId)) ::
              && j.requesterID == id && j.requesterIndex < |types|
              && j == NewJobs(types, id, nextJobId)[j.requesterIndex]
              && Number(j.id) == nextJobId + j.requesterIndex
    ensures |Cores(NewJobs(types, id, nextJobId))| == |types|
    ensures Distinct(Cores(NewJobs(types, id, nextJobId)))
    decreases |types|
  {
    var jobs := NewJobs(types, id, nextJobId);
    forall i | 0 <= i < |types|
      ensures Core(jobs[i]) == jobs[i] && Number(jobs[i].id) == nextJobId + i
    {
      NewJobAt(types, id, nextJobId, i);
    }
    forall j | j in Cores(jobs)
      ensures j.requesterID == id && j.requesterIndex < |types|
      ensures j == jobs[j.requesterIndex] && Number(j.id) == nextJobId + j.requesterIndex
    {
      var i :| 0 <= i < |jobs| && Core(jobs[i]) == j;
      NewJobAt(types, id, nextJobId, i);
    }
    NewJobsCount(types, id, nextJobId);
    hide NewJobs, Number, Core, Cores;
  }

  lemma NewJobAt(types: seq<nat>, id: string, nextJobId: nat, i: nat)
    requires i < |types|
    ensures var j := NewJobs(types, id, nextJobId)[i];
            Core(j) == j && Number(j.id) == nextJobId + i && j.requesterID == id && j.requesterIndex == i
  {
    NumberOfToString(nextJobId + i);
  }

  lemma {:induction false} NewJobsCount(types: seq<nat>, id: string, nextJobId: nat)
    ensures |Cores(NewJobs(types, id, nextJobId))| == |types|
    ensures forall j | j in Cores(NewJobs(types, id, nextJobId)) :: j.requesterIndex < |types|
    decreases |types|
  {
    if types == [] {
      assert Cores(NewJobs(types, id, nextJobId)) == {};
    } else {
      NewJobsCount(types[..|types| - 1], id, nextJobId);
      LastNewJob(types, id, nextJobId);
      hide NewJobs, Core, Cores;
    }
  }

  lemma LastNewJob(types: seq<nat>, id: string, nextJobId: nat)
    requires types != []
    ensures var (n, jobs) := (|types| - 1, NewJobs(types, id, nextJobId));
            var init := NewJobs(types[..n], id, nextJobId);
            && jobs == init + [jobs[n]] && jobs[n].requesterIndex == n
            && Core(jobs[n]) == jobs[n] && Cores(jobs) == Cores(init) + {jobs[n]}
  {
    var (n, jobs) := (|types| - 1, NewJobs(types, id, nextJobId));
    var init := NewJobs(types[..n], id, nextJobId);
    assert jobs == init + [jobs[n]];
    hide NewJobs;
    CoresOfAppended(init, jobs[n]);
  }

  lemma CoresOfAppended(jobs: seq<Job>, j: Job)
    ensures Cores(jobs + [j]) == Cores(jobs) + {Core(j)}
  {
  }

  /** A new request enters with all its slots empty and one outstanding job for each. */
  lemma RequestKeepsAccounted(requests: map<string, Request>, jobs: set<Job>, nextJobId: nat, f: Likelihood,
                              address: Address, typeStrs: set<string>, data: string)
    requires Accounted(requests, jobs, nextJobId, f)
    requires address != [] && Join(address, ':') !in requests
    requires AllParse(typeStrs) && |typeStrs| == |ParsedTypes(typeStrs)|
    ensures var id := Join(address, ':');
            var types := InTypeOrder(ParsedTypes(typeStrs));
            Accounted(requests[id := NewRequest(address, typeStrs, data)],
                      jobs + Cores(NewJobs(types, id, nextJobId)), nextJobId + |types|, f)
  {
    var id := Join(address, ':');
    var types := InTypeOrder(ParsedTypes(typeStrs));
    var r := NewRequest(address, typeStrs, data);
    var new_ := Cores(NewJobs(types, id, nextJobId));
    hide JobsOk, Distinct, RequestsOk, NewJobs, Cores;
    JobsOkWithNew(jobs, requests, nextJobId, id, r, types);
    DistinctWithNew(jobs, requests, nextJobId, id, types);
    RequestsOkWithNew(jobs, requests, nextJobId, id, r, types, f);
  }

  lemma RequestsOkWithNew(jobs: set<Job>, requests: map<string, Request>, nextJobId: nat, id: string, r: Request,
                          types: seq<nat>, f: Likelihood)
    requires JobsOk(jobs, requests, nextJobId) && RequestsOk(requests, jobs, f) && id !in requests
    requires r.address != [] && id == Join(r.address, ':')
    requires types == InTypeOrder(r.jobTypes) && |r.results| == |types| && r.nDone == 0
    requires forall i | 0 <= i < |types| :: r.results[i] == ""
    ensures RequestsOk(requests[id := r], jobs + Cores(NewJobs(types, id, nextJobId)), f)
  {
    hide NewJobs, Cores, RequestOk, Join;
    var new_ := Cores(NewJobs(types, id, nextJobId));
    forall j | j in jobs
      ensures j.requesterID != id
    {
      assert JobOk(j, requests, nextJobId);
    }
    NewJobsFacts(types, id, nextJobId);
    NewRequestOk(id, r, jobs, types, nextJobId, f);
    forall other | other in requests
      ensures RequestOk(other, requests[other], jobs + new_, f)
    {
      RequestKeptByOthers(other, requests[other], jobs, new_, f);
    }
    hide RequestOk;
  }

  lemma JobsOkWithNew(jobs: set<Job>, requests: map<string, Request>, nextJobId: nat, id: string, r: Request, types: seq<nat>)
    requires JobsOk(jobs, requests, nextJobId) && id !in requests && types == InTypeOrder(r.jobTypes)
    ensures JobsOk(jobs + Cores(NewJobs(types, id, nextJobId)), requests[id := r], nextJobId + |types|)
  {
    var new_ := Cores(NewJobs(types, id, nextJobId));
    NewJobsFacts(types, id, nextJobId);
    forall j | j in jobs + new_
      ensures JobOk(j, requests[id := r], nextJobId + |types|)
    {
      assert j in jobs ==> JobOk(j, requests, nextJobId);
    }
  }

  lemma DistinctWithNew(jobs: set<Job>, requests: map<string, Request>, nextJobId: nat, id: string, types: seq<nat>)
    requires JobsOk(jobs, requests, nextJobId) && Distinct(jobs) && id !in requests
    ensures Distinct(jobs + Cores(NewJobs(types, id, nextJobId)))
  {
    var new_ := Cores(NewJobs(types, id, nextJobId));
    NewJobsFacts(types, id, nextJobId);
    forall j | j in jobs
      ensures Number(j.id) < nextJobId && j.requesterID != id
    {
      assert JobOk(j, requests, nextJobId);
    }
    DistinctUnion(jobs, new_, nextJobId);
  }

  lemma DistinctUnion(jobs: set<Job>, new_: set<Job>, nextJobId: nat)
    requires Distinct(jobs) && Distinct(new_)
    requires forall j | j in jobs :: Number(j.id) < nextJobId
    requires forall j | j in new_ :: Number(j.id) >= nextJobId
    requires forall j, k | j in jobs && k in new_ :: j.requesterID != k.requesterID
    ensures Distinct(jobs + new_)
  {
  }

  lemma NewRequestOk(id: string, r: Request, jobs: set<Job>, types: seq<nat>, nextJobId: nat, f: Likelihood)
    requires r.address != [] && id == Join(r.address, ':')
    requires types == InTypeOrder(r.jobTypes) && |r.results| == |types| && r.nDone == 0
    requires forall i | 0 <= i < |types| :: r.results[i] == ""
    requires forall j | j in jobs :: j.requesterID != id
    ensures RequestOk(id, r, jobs + Cores(NewJobs(types, id, nextJobId)), f)
  {
    var new_ := Cores(NewJobs(types, id, nextJobId));
    NewJobsFacts(types, id, nextJobId);
    assert OfRequest(jobs + new_, id) == new_;
    forall i | 0 <= i < |types|
      ensures Open(jobs + new_, id, i)
    {
      var j := NewJobs(types, id, nextJobId)[i];
      assert Core(j) == j && j in new_;
    }
  }

  lemma RequestKeptByOthers(id: string, r: Request, jobs: set<Job>, new_: set<Job>, f: Likelihood)
    requires RequestOk(id, r, jobs, f)
    requires forall j | j in new_ :: j.requesterID != id
    ensures RequestOk(id, r, jobs + new_, f)
  {
    assert OfRequest(jobs + new_, id) == OfRequest(jobs, id);
    forall i | 0 <= i < |r.jobTypes|
      ensures Open(jobs + new_, id, i) <==> Open(jobs, id, i)
    {
      if Open(jobs, id, i) {
        var k :| k in jobs && k.requesterID == id && k.requesterIndex == i;
        assert k in jobs + new_;
      }
    }
  }
}
