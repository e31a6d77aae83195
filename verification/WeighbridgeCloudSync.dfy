/** The sync thread's own code: one POST with its fallback, and one push pass over the queue. */
module WeighbridgeCloudSync {
  import opened Common
  import opened WeighbridgeDb
  import opened WeighbridgeSync
  import opened WeighbridgeDelivery

  class CloudSync {
    const db: LocalDb
    var backoff: int
    var factoryReachable: bool
    var cloudReachable: bool
    var lastTarget: string
    var lastFailureTransient: bool
    ghost var accepted: set<Weighment>
    ghost var log: seq<Event>

    ghost function LinkNow(): Link
      reads this
    {
      Link(backoff, factoryReachable, cloudReachable, lastTarget, lastFailureTransient)
    }

    ghost function StateAt(pc: Pc): State
      reads this, db
    {
      State(db.Tables(), pc, LinkNow(), accepted, log)
    }

    constructor (db: LocalDb)
      ensures this.db == db && LinkNow() == Link(BACKOFF_INITIAL_SECONDS, false, false, "", true)
      ensures accepted == {} && log == []
    {
      this.db := db;
      backoff, factoryReachable, cloudReachable, lastTarget := BACKOFF_INITIAL_SECONDS, false, false, "";
      lastFailureTransient := true;
      accepted, log := {}, [];
    }

    /** POST with the factory tried first, when it is enabled, and the cloud as fallback. */
    method Post(answer: Answer) returns (result: Option<Reply>)
      modifies this
      ensures result == answer.Result() && LinkNow() == AfterPost(old(LinkNow()), answer)
      ensures accepted == old(accepted) && log == old(log)
    {
      if answer.factoryEnabled {
        if answer.factory.Body? {
          factoryReachable, lastTarget, backoff := true, "factory", BACKOFF_INITIAL_SECONDS;
          return Some(answer.factory);
        }
        factoryReachable := false;
      }
      if answer.cloud.Body? {
        cloudReachable, lastTarget, backoff := true, "cloud", BACKOFF_INITIAL_SECONDS;
        return Some(answer.cloud);
      }
      cloudReachable, lastFailureTransient := false, !IsPermanentRejection(answer.cloud);
      return None;
    }

    /** The POST and mark of the first entry of a page, given the failures in a row so far. */
    method PushEntry(entry: Entry, answer: Answer, failures: nat, now: int, ghost page: seq<Entry>) returns (failures': nat)
      requires page != [] && page[0] == entry
      modifies this, db
      ensures failures' == if answer.Accepted() then 0 else failures + 1
      ensures StateAt(AfterMark(page, failures')) ==
              Apply(Apply(old(StateAt(Posting(page, failures))), Action.Post(answer, false)), Mark(now))
    {
      var result := Post(answer);
      if result.Some? && result.value.truthy && !result.value.error {
        db.MarkSent(entry.q, result.value.cloudId, now);
        accepted := accepted + {entry.payload};
        failures' := 0;
      } else {
        var permanent := (result.Some? && result.value.truthy) || !lastFailureTransient;
        db.MarkFailed(entry.q, permanent, now);
        failures' := failures + 1;
      }
      log := if answer.Refused() then log + [RefusedRow(entry.q)] else log;
    }

    /** Works through a page, stopping after three failures in a row. */
    method PushPage(pending: seq<Entry>, server: Server, now: int)
      modifies this, db
      ensures StateAt(Idle) == Pass(old(StateAt(if pending == [] then Idle else Posting(pending, 0))), server, 0, now)
    {
      var failures, k := 0, 0;
      ghost var pc := if pending == [] then Idle else Posting(pending, 0);
      assert pending[0..] == pending;
      while k < |pending|
        invariant 0 <= k <= |pending|
        invariant pc == if k == |pending| then Idle else Posting(pending[k..], failures)
        invariant Pass(StateAt(pc), server, k, now) ==
                  Pass(old(StateAt(if pending == [] then Idle else Posting(pending, 0))), server, 0, now)
      {
        PassUnfolds(StateAt(pc), server, k, now);
        failures := PushEntry(pending[k], server(k, pending[k].payload), failures, now, pending[k..]);
        pc := AfterMark(pending[k..], failures);
        k := k + 1;
        if failures >= MAX_CONSECUTIVE_FAILURES {
          break;
        }
        assert k < |pending| ==> pending[k - 1..][1..] == pending[k..];
      }
    }

    /** A push pass: fetch a page and work through it. */
    method PushWeighments(server: Server, now: int) returns (ghost page: seq<Entry>)
      requires forall q | q in db.queue :: q < db.nextId
      modifies this, db
      ensures PassOf(old(StateAt(Idle)), StateAt(Idle), server, page, now)
    {
      var pending := db.GetPendingSync();
      page := pending;
      assert Apply(StateAt(Idle), Fetch(page)) == StateAt(if pending == [] then Idle else Posting(pending, 0));
      PushPage(pending, server, now);
    }
  }

  lemma PassUnfolds(s: State, server: Server, k: nat, now: int)
    requires s.pc.Posting? && s.pc.page != []
    ensures Pass(s, server, k, now) == Pass(PostAndMark(s, server, k, now), server, k + 1, now)
  {
  }
}
