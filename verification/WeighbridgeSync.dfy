/** The sync thread beside the web operations: every interleaving of single transactions with the thread's
    fetch, POST and mark steps, and what all of them keep. */
module WeighbridgeSync {
  import opened Common
  import opened WeighbridgeDb

  /** The answer to one HTTP request: a JSON body (truthy or not, with or without an error key), an HTTP
      error, or any other failure. */
  datatype Reply = Body(truthy: bool, error: bool, cloudId: string) | HttpError(code: int) | NetworkFailure

  predicate IsPermanentRejection(reply: Reply) {
    reply.HttpError? && 400 <= reply.code < 500 && reply.code !in {401, 403, 408, 429}
  }

  const BACKOFF_INITIAL_SECONDS := 10
  const MAX_CONSECUTIVE_FAILURES := 3

  /** What the thread remembers of its requests. */
  datatype Link = Link(backoff: int, factoryReachable: bool, cloudReachable: bool, lastTarget: string, lastFailureTransient: bool)

  /** Both servers' answers to one POST; the cloud's is used only when the factory is off or failed. */
  datatype Answer = Answer(factoryEnabled: bool, factory: Reply, cloud: Reply) {
    /** The body the call returns, if any. */
    function Result(): Option<Reply> {
      if factoryEnabled && factory.Body? then Some(factory) else if cloud.Body? then Some(cloud) else None
    }

    predicate Accepted() {
      Result().Some? && Result().value.truthy && !Result().value.error
    }

    /** A server read the payload and refused it. */
    predicate Refused() {
      if Result().Some? then Result().value.truthy && Result().value.error else IsPermanentRejection(cloud)
    }

    /** No server answers with an empty body. */
    predicate Proper() {
      Result().Some? ==> Result().value.truthy
    }
  }

  function AfterPost(link: Link, a: Answer): Link {
    var tried := if a.factoryEnabled then link.(factoryReachable := a.factory.Body?) else link;
    if a.factoryEnabled && a.factory.Body? then tried.(lastTarget := "factory", backoff := BACKOFF_INITIAL_SECONDS)
    else if a.cloud.Body? then tried.(cloudReachable := true, lastTarget := "cloud", backoff := BACKOFF_INITIAL_SECONDS)
    else tried.(cloudReachable := false, lastFailureTransient := !IsPermanentRejection(a.cloud))
  }

  /** Whether push_weighments counts the failed attempt, given the link after the POST. */
  predicate CountsAttempt(link: Link, a: Answer) {
    (a.Result().Some? && a.Result().value.truthy) || !link.lastFailureTransient
  }

  /** Where the sync thread is: between passes, about to POST the first entry of its page, or about to mark it. */
  datatype Pc = Idle | Posting(page: seq<Entry>, failures: nat) | Marking(page: seq<Entry>, failures: nat, answer: Answer)

  /** `accepted` and `log` are what an observer of the servers knows. */
  datatype State = State(db: Db, pc: Pc, link: Link, accepted: set<Weighment>, log: seq<Event>)
  datatype Event = RefusedRow(q: nat) | Requeueing

  datatype Action =
    | Create(id: string, direction: string, vehicleNo: string, details: seq<string>, now: int)
    | First(id: string, weight: real, source: string, now: int)
    | Second(id: string, weight: real, now: int)
    | LabResult(id: string, lab: Lab, now: int)
    | Delete(id: string)
    | Requeue
    | Cleanup(cutoff: int)
    | Fetch(fetched: seq<Entry>)
    | Post(answer: Answer, reached: bool)
    | Mark(now: int)
    | OtherRequest(answered: Answer)
    | Restart

  ghost predicate Enabled(s: State, a: Action) {
    match a
    case Create(id, _, _, _, _) => id !in s.db.weighments
    case Fetch(fetched) => s.pc.Idle? && IsPage(s.db, fetched)
    case Post(_, _) => s.pc.Posting? && s.pc.page != []
    case Mark(_) => s.pc.Marking? && s.pc.page != []
    case OtherRequest(_) => s.pc.Idle?
    case _ => true
  }

  function AfterMark(page: seq<Entry>, failures: nat): Pc
    requires page != []
  {
    if |page| == 1 || failures >= MAX_CONSECUTIVE_FAILURES then Idle else Posting(page[1..], failures)
  }

  function MarkDb(db: Db, q: nat, link: Link, a: Answer, now: int): Db {
    if a.Accepted() then MarkSynced(db, q, a.Result().value.cloudId, now) else MarkSyncFailed(db, q, CountsAttempt(link, a), now)
  }

  /** One atomic step. A POST may reach a server though its answer is lost (`reached`). */
  function Apply(s: State, a: Action): State
    requires Enabled(s, a)
  {
    match a
    case Create(id, direction, vehicleNo, details, now) => s.(db := CreateGateEntry(s.db, id, direction, vehicleNo, details, now))
    case First(id, weight, source, now) => s.(db := CaptureFirstWeight(s.db, id, weight, source, now))
    case Second(id, weight, now) => s.(db := CaptureSecondWeight(s.db, id, weight, now))
    case LabResult(id, lab, now) => s.(db := UpdateLabResult(s.db, id, lab, now))
    case Delete(id) => s.(db := DeleteWeighment(s.db, id))
    case Requeue => s.(db := RequeueStuck(s.db), log := s.log + [Requeueing])
    case Cleanup(cutoff) => s.(db := CleanupOldSyncQueue(s.db, cutoff))
    case Fetch(fetched) => s.(pc := if fetched == [] then Idle else Posting(fetched, 0))
    case Post(answer, reached) =>
      s.(pc := Marking(s.pc.page, s.pc.failures, answer), link := AfterPost(s.link, answer),
         accepted := if answer.Accepted() || reached then s.accepted + {s.pc.page[0].payload} else s.accepted)
    case Mark(now) =>
      var q, answer := s.pc.page[0].q, s.pc.answer;
      s.(db := MarkDb(s.db, q, s.link, answer, now),
         pc := AfterMark(s.pc.page, if answer.Accepted() then 0 else s.pc.failures + 1),
         log := if answer.Refused() then s.log + [RefusedRow(q)] else s.log)
    case OtherRequest(answered) => s.(link := AfterPost(s.link, answered))
    case Restart => s.(db := RequeueStuck(s.db), pc := Idle, link := Link(BACKOFF_INITIAL_SECONDS, false, false, "", true),
                       log := s.log + [Requeueing])
  }
}
