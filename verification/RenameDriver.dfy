/** The script that renames on every device and then tells the cloud about the pairs that succeeded everywhere. */
module RenameDriver {
  import opened BiometricDevice
  import opened RenameReference
  import opened RenameSafety
  import opened RenameHistory
  import opened RenameCaches
  import opened RenameSlots
  import opened RenameBridge
  import opened RenameAgreement
  import opened RenameChunks
  import opened RenameGroups

  /** One chunk as one request. The answer may be lost, and always is when the bridge dies. */
  method CallRenameOneChunk(dev: Device, pairs: seq<Pair>, read: Reader, tape: Tape, lost: bool)
    returns (dev': Device, results: seq<PairResult>)
    ensures Sending(dev', results) == ChunkOn(dev, pairs, read, tape, lost)
  {
    var answers, died;
    dev', answers, died := HandleRename(dev, pairs, read, tape);
    results := if died || lost then Failed(pairs) else Tagged(answers);
  }

  /** What `whole` still has to do is to send pairs[i..] from chunk c on. */
  ghost predicate ChunksGoOn(whole: Sending, results: seq<PairResult>, dev: Device, pairs: seq<Pair>, i: nat, read: Reader,
                             tapes: nat -> Tape, lost: nat -> bool, c: nat) {
    i <= |pairs| &&
    var rest := ChunksOn(dev, pairs[i..], read, tapes, lost, c);
    whole == Sending(rest.dev, results + rest.results)
  }

  lemma ChunksStep(whole: Sending, results: seq<PairResult>, dev: Device, pairs: seq<Pair>, i: nat, end: nat, read: Reader,
                   tapes: nat -> Tape, lost: nat -> bool, c: nat)
    requires i < |pairs| && end == (if i + CHUNK_SIZE < |pairs| then i + CHUNK_SIZE else |pairs|)
    requires ChunksGoOn(whole, results, dev, pairs, i, read, tapes, lost, c)
    ensures var one := ChunkOn(dev, pairs[i..end], read, tapes(c), lost(c));
            ChunksGoOn(whole, results + one.results, one.dev, pairs, end, read, tapes, lost, c + 1)
  {
    var n := ChunkEnd(pairs[i..]);
    assert pairs[i..][..n] == pairs[i..end] && pairs[i..][n..] == pairs[end..];
    var one := ChunkOn(dev, pairs[i..end], read, tapes(c), lost(c));
    var rest := ChunksOn(one.dev, pairs[end..], read, tapes, lost, c + 1);
    assert results + (one.results + rest.results) == results + one.results + rest.results;
  }

  /** One device: the pairs in chunks of CHUNK_SIZE, each its own request. */
  method CallRename(dev: Device, pairs: seq<Pair>, read: Reader, tapes: nat -> Tape, lost: nat -> bool)
    returns (dev': Device, results: seq<PairResult>)
    ensures Sending(dev', results) == ChunksOn(dev, pairs, read, tapes, lost, 0)
  {
    dev', results := dev, [];
    var i, chunk := 0, 0;
    ghost var whole := ChunksOn(dev, pairs, read, tapes, lost, 0);
    assert pairs[0..] == pairs;
    while i < |pairs|
      invariant 0 <= i <= |pairs| && 0 <= chunk
      invariant ChunksGoOn(whole, results, dev', pairs, i, read, tapes, lost, chunk)
    {
      var end := if i + CHUNK_SIZE < |pairs| then i + CHUNK_SIZE else |pairs|;
      ChunksStep(whole, results, dev', pairs, i, end, read, tapes, lost, chunk);
      var answers;
      dev', answers := CallRenameOneChunk(dev', pairs[i..end], read, tapes(chunk), lost(chunk));
      results := results + answers;
      i, chunk := end, chunk + 1;
    }
  }

  datatype Kind = Employee | Labor
  type Key = (Kind, string)
  datatype Worker = Worker(kind: Kind, id: string, pair: Pair) {
    function Key(): Key {
      (kind, id)
    }
  }

  function PairsOf(workers: seq<Worker>): seq<Pair> {
    seq(|workers|, i requires 0 <= i < |workers| => workers[i].pair)
  }

  /** A device's response; Lost when the whole call to it failed. */
  datatype Response = Lost | Results(results: seq<PairResult>)

  function SuccessesIn(results: seq<PairResult>, newId: string): nat {
    if results == [] then 0 else
    var last := results[|results| - 1];
    SuccessesIn(results[..|results| - 1], newId) + if last.newId == newId && last.status.Success() then 1 else 0
  }

  function Successes(responses: seq<Response>, newId: string): nat {
    if responses == [] then 0 else
    var last := responses[|responses| - 1];
    Successes(responses[..|responses| - 1], newId) + if last.Results? then SuccessesIn(last.results, newId) else 0
  }

  /** Distinct workers have distinct keys and distinct new ids. */
  ghost predicate DistinctWorkers(workers: seq<Worker>) {
    forall i, j | 0 <= i < j < |workers| ::
      workers[i].Key() != workers[j].Key() && workers[i].pair.newId != workers[j].pair.newId
  }

  function CountAt(count: map<Key, nat>, key: Key): nat {
    if key in count then count[key] else 0
  }

  /** The tally counts, for each worker, base plus the successes among the results seen so far. */
  ghost predicate Tallied(count: map<Key, nat>, workers: seq<Worker>, base: seq<Response>, seen: seq<PairResult>) {
    forall i | 0 <= i < |workers| ::
      CountAt(count, workers[i].Key()) == Successes(base, workers[i].pair.newId) + SuccessesIn(seen, workers[i].pair.newId)
  }

  method IndexByNew(workers: seq<Worker>) returns (byNew: map<string, Worker>)
    requires DistinctWorkers(workers)
    ensures forall id :: id in byNew <==> exists i :: 0 <= i < |workers| && workers[i].pair.newId == id
    ensures forall i | 0 <= i < |workers| :: byNew[workers[i].pair.newId] == workers[i]
  {
    byNew := map[];
    for i := 0 to |workers|
      invariant forall id :: id in byNew <==> exists j :: 0 <= j < i && workers[j].pair.newId == id
      invariant forall j | 0 <= j < i :: byNew[workers[j].pair.newId] == workers[j]
    {
      byNew := byNew[workers[i].pair.newId := workers[i]];
    }
  }

  method TallyOne(count: map<Key, nat>, workers: seq<Worker>, byNew: map<string, Worker>,
                  ghost base: seq<Response>, results: seq<PairResult>) returns (count': map<Key, nat>)
    requires DistinctWorkers(workers) && Tallied(count, workers, base, [])
    requires forall id :: id in byNew <==> exists i :: 0 <= i < |workers| && workers[i].pair.newId == id
    requires forall i | 0 <= i < |workers| :: byNew[workers[i].pair.newId] == workers[i]
    ensures Tallied(count', workers, base + [Results(results)], [])
  {
    count' := count;
    for j := 0 to |results|
      invariant Tallied(count', workers, base, results[..j])
    {
      var r := results[j];
      assert results[..j + 1][..j] == results[..j];
      if r.newId in byNew && r.status.Success() {
        var key := byNew[r.newId].Key();
        count' := count'[key := CountAt(count', key) + 1];
      }
    }
    assert results[..|results|] == results;
    assert (base + [Results(results)])[..|base|] == base;
  }

  method Tally(workers: seq<Worker>, responses: seq<Response>) returns (count: map<Key, nat>)
    requires DistinctWorkers(workers)
    ensures Tallied(count, workers, responses, [])
  {
    var byNew := IndexByNew(workers);
    count := map[];
    for d := 0 to |responses|
      invariant Tallied(count, workers, responses[..d], [])
    {
      assert responses[..d + 1] == responses[..d] + [responses[d]];
      if responses[d].Results? {
        count := TallyOne(count, workers, byNew, responses[..d], responses[d].results);
      }
    }
    assert responses[..|responses|] == responses;
  }

  /** Writes the new id of each worker whose count is the number of devices. */
  method UpdateCloud(workers: seq<Worker>, count: map<Key, nat>, devices: nat, cloud: map<Key, string>) returns (cloud': map<Key, string>)
    requires DistinctWorkers(workers)
    requires forall i | 0 <= i < |workers| :: workers[i].Key() in cloud
    ensures cloud'.Keys == cloud.Keys
    ensures forall i | 0 <= i < |workers| ::
              cloud'[workers[i].Key()] ==
              if CountAt(count, workers[i].Key()) == devices then workers[i].pair.newId else cloud[workers[i].Key()]
    ensures forall key | key in cloud && (forall i | 0 <= i < |workers| :: workers[i].Key() != key) :: cloud'[key] == cloud[key]
  {
    cloud' := cloud;
    for i := 0 to |workers|
      invariant cloud'.Keys == cloud.Keys
      invariant forall j | 0 <= j < i ::
                  cloud'[workers[j].Key()] ==
                  if CountAt(count, workers[j].Key()) == devices then workers[j].pair.newId else cloud[workers[j].Key()]
      invariant forall key | key in cloud && (forall j | 0 <= j < i :: workers[j].Key() != key) :: cloud'[key] == cloud[key]
    {
      if CountAt(count, workers[i].Key()) == devices {
        cloud' := cloud'[workers[i].Key() := workers[i].pair.newId];
      }
    }
  }

  /** Each device reports each pair once, so its successes for a pair are one or none. */
  lemma {:induction false} OneSuccessAtMost(results: seq<PairResult>, pairs: seq<Pair>, k: nat)
    requires NewIdsDistinct(pairs) && Reports(results, pairs) && k < |pairs|
    ensures SuccessesIn(results, pairs[k].newId) == if results[k].status.Success() then 1 else 0
    decreases |pairs|
  {
    var n := |pairs| - 1;
    if k < n {
      OneSuccessAtMost(results[..n], pairs[..n], k);
    } else {
      NoSuccess(results[..n], pairs[..n], pairs[n].newId);
    }
  }

  lemma {:induction false} NoSuccess(results: seq<PairResult>, pairs: seq<Pair>, newId: string)
    requires Reports(results, pairs) && forall k | 0 <= k < |pairs| :: pairs[k].newId != newId
    ensures SuccessesIn(results, newId) == 0
    decreases |pairs|
  {
    if pairs != [] {
      NoSuccess(results[..|pairs| - 1], pairs[..|pairs| - 1], newId);
    }
  }

  predicate SucceededAt(r: Response, k: nat) {
    r.Results? && k < |r.results| && r.results[k].status.Success()
  }

  /** The count reaches the number of devices exactly when every device reported success for the pair. */
  lemma {:induction false} UnanimousIff(responses: seq<Response>, pairs: seq<Pair>, k: nat)
    requires NewIdsDistinct(pairs) && k < |pairs|
    requires forall r | r in responses :: r.Results? ==> Reports(r.results, pairs)
    ensures Successes(responses, pairs[k].newId) <= |responses|
    ensures Successes(responses, pairs[k].newId) == |responses| <==> forall r | r in responses :: SucceededAt(r, k)
    decreases |responses|
  {
    if responses != [] {
      var front, last := responses[..|responses| - 1], responses[|responses| - 1];
      assert responses == front + [last];
      UnanimousIff(front, pairs, k);
      assert last in responses && forall r | r in front :: r in responses;
      assert (forall r | r in responses :: SucceededAt(r, k)) <==> SucceededAt(last, k) && forall r | r in front :: SucceededAt(r, k);
      if last.Results? {
        OneSuccessAtMost(last.results, pairs, k);
      }
    }
  }

  /** Device by device: all chunks were sent to it. */
  predicate DeviceDone(dev: Device, dev': Device, r: Response, pairs: seq<Pair>, read: Reader, tapes: nat -> Tape, lost: nat -> bool) {
    r.Results? && Sending(dev', r.results) == ChunksOn(dev, pairs, read, tapes, lost, 0)
  }

  /** What a success on a device means for the worker of pair k, unless another pair brings its old id as a new id: the
      old id is gone if the device held it in one slot; and if no other pair names the old id, only if so. */
  ghost predicate SuccessMeansGone(dev: Device, dev': Device, r: Response, pairs: seq<Pair>, k: nat) {
    k < |pairs| &&
    var id := pairs[k].oldId;
    SucceededAt(r, k) && id !in NewIds(pairs) ==>
      && (InOneSlot(dev, id) ==> InNoSlot(dev', id))
      && (NamedOnce(pairs, k) && InNoSlot(dev', id) ==> InOneSlot(dev, id))
  }

  /** The worker keeps a valid template and no other's, and a success is right. */
  ghost predicate WorkerServed(v: View, w: View, r: Response, p: Pair, k: nat) {
    Protected(v, w, p) && (SucceededAt(r, k) ==> Renamed(v, w, p))
  }

  /** With clean targets no group of ids loses its last valid template; in a plan no worker does. */
  ghost predicate PromisesKept(v: View, w: View, r: Response, pairs: seq<Pair>) {
    && (Targets(pairs) ==> forall p | p in pairs :: GroupProtected(v, w, Group(pairs, p.oldId)))
    && (Plan(pairs) ==> forall k | 0 <= k < |pairs| :: WorkerServed(v, w, r, pairs[k], k))
  }

  /** The device, which showed v, again holds each id in one slot, and keeps what it promised. */
  ghost predicate ViewKept(v: View, dev': Device, r: Response, pairs: seq<Pair>) {
    exists w :: Shows(dev', w) && PromisesKept(v, w, r, pairs)
  }

  lemma SentProtects(v: View, sent: seq<Sent>, pairs: seq<Pair>, k: nat)
    requires InTurn(v, sent) && PairsSent(sent) == pairs && Targets(pairs) && k < |pairs|
    ensures GroupProtected(v, ViewAfter(v, sent), Group(pairs, pairs[k].oldId))
  {
    forall s | s in sent ensures NewIdsDistinct(s.pairs) && forall p | p in s.pairs :: p in pairs {
      var c :| 0 <= c < |sent| && sent[c] == s;
      RequestPart(sent, c);
    }
    assert pairs[k].oldId !in NewIds(pairs);
    RequestsProtect(v, sent, pairs, pairs[k].oldId);
  }

  /** The pairs of one request are a stretch of all pairs sent. */
  lemma {:induction false} RequestPart(sent: seq<Sent>, c: nat)
    requires c < |sent|
    ensures NewIdsDistinct(PairsSent(sent)) ==> NewIdsDistinct(sent[c].pairs)
    ensures forall p | p in sent[c].pairs :: p in PairsSent(sent)
  {
    var n := |sent| - 1;
    var front, last := PairsSent(sent[..n]), sent[n].pairs;
    if NewIdsDistinct(front + last) {
      assert forall i | 0 <= i < |front| :: (front + last)[i] == front[i];
      assert forall i | 0 <= i < |last| :: (front + last)[|front| + i] == last[i];
    }
    if c < n {
      RequestPart(sent[..n], c);
    }
  }

  lemma SentServes(v: View, sent: seq<Sent>, r: Response, pairs: seq<Pair>, k: nat)
    requires InTurn(v, sent) && PairsSent(sent) == pairs && Plan(pairs) && k < |pairs| && r == Results(Answers(sent))
    ensures WorkerServed(v, ViewAfter(v, sent), r, pairs[k], k)
    ensures (forall s | s in sent :: Quiet(s)) ==> (SucceededAt(r, k) <==> !Unnameable(v, pairs[k]))
  {
    SuccessSentIsTrue(v, sent, k);
    assert pairs == pairs[..|pairs|] && pairs[k] in pairs;
    SentIsHistory(v, sent, pairs);
    HistoryProtects(v, RunsOf(sent), pairs, pairs[k]);
  }

  lemma DeviceKeepsView(dev: Device, v: View, dev': Device, r: Response, pairs: seq<Pair>, read: Reader, tapes: nat -> Tape,
                        lost: nat -> bool)
    requires DeviceDone(dev, dev', r, pairs, read, tapes, lost) && Truthful(read) && NewIdsDistinct(pairs) && Shows(dev, v)
    ensures ViewKept(v, dev', r, pairs)
  {
    var sent := ChunksServed(v, dev, pairs, read, tapes, lost, 0);
    var w := ViewAfter(v, sent);
    if Targets(pairs) {
      forall p | p in pairs ensures GroupProtected(v, w, Group(pairs, p.oldId)) {
        var k :| 0 <= k < |pairs| && pairs[k] == p;
        SentProtects(v, sent, pairs, k);
      }
    }
    if Plan(pairs) {
      forall k | 0 <= k < |pairs| ensures WorkerServed(v, w, r, pairs[k], k) {
        SentServes(v, sent, r, pairs, k);
      }
    }
  }

  /** What holds of any device, whatever it listed. */
  lemma DeviceKeepsSlots(dev: Device, dev': Device, r: Response, pairs: seq<Pair>, read: Reader, tapes: nat -> Tape, lost: nat -> bool)
    requires DeviceDone(dev, dev', r, pairs, read, tapes, lost) && Truthful(read)
    ensures dev'.replaced == dev.replaced && Reports(r.results, pairs)
    ensures forall k | 0 <= k < |pairs| :: SuccessMeansGone(dev, dev', r, pairs, k)
  {
    ChunksAreSafe(dev, pairs, read, tapes, lost, 0);
    ChunksReport(dev, pairs, read, tapes, lost, 0);
    forall k | 0 <= k < |pairs| ensures SuccessMeansGone(dev, dev', r, pairs, k) {
      if SucceededAt(r, k) && pairs[k].oldId !in NewIds(pairs) {
        ChunksGoneIff(dev, pairs, read, tapes, lost, 0, k);
      }
    }
  }

  /** The check before anything is sent: the new ids that a later pair repeats. */
  method RepeatedNewIds(pairs: seq<Pair>) returns (dupes: seq<string>)
    ensures dupes == [] <==> forall i, j | 0 <= i < j < |pairs| :: pairs[i].newId != pairs[j].newId
    ensures forall id | id in dupes :: exists i, j :: 0 <= i < j < |pairs| && pairs[i].newId == pairs[j].newId == id
  {
    var seen: set<string> := {};
    dupes := [];
    for k := 0 to |pairs|
      invariant forall id :: id in seen <==> exists i :: 0 <= i < k && pairs[i].newId == id
      invariant dupes == [] <==> forall i, j | 0 <= i < j < k :: pairs[i].newId != pairs[j].newId
      invariant forall id | id in dupes :: exists i, j :: 0 <= i < j < |pairs| && pairs[i].newId == pairs[j].newId == id
    {
      if pairs[k].newId in seen {
        dupes := dupes + [pairs[k].newId];
      }
      seen := seen + {pairs[k].newId};
    }
  }

  /** All devices, one after the other; in the script they run side by side. */
  method RenameOnDevices(pairs: seq<Pair>, devices: seq<Device>, read: Reader, tapes: nat -> nat -> Tape, lost: nat -> nat -> bool)
    returns (devices': seq<Device>, responses: seq<Response>)
    ensures |devices'| == |responses| == |devices|
    ensures forall d | 0 <= d < |devices| :: DeviceDone(devices[d], devices'[d], responses[d], pairs, read, tapes(d), lost(d))
  {
    devices', responses := [], [];
    for d := 0 to |devices|
      invariant |devices'| == |responses| == d
      invariant forall e | 0 <= e < d :: DeviceDone(devices[e], devices'[e], responses[e], pairs, read, tapes(e), lost(e))
    {
      var dev, results := CallRename(devices[d], pairs, read, tapes(d), lost(d));
      devices', responses := devices' + [dev], responses + [Results(results)];
    }
  }

  /** A worker's cloud row after the script. */
  function RowAfter(worker: Worker, i: nat, responses: seq<Response>, row: string): string {
    if forall r | r in responses :: SucceededAt(r, i) then worker.pair.newId else row
  }

  method Reconcile(workers: seq<Worker>, responses: seq<Response>, cloud: map<Key, string>) returns (cloud': map<Key, string>)
    requires DistinctWorkers(workers) && NewIdsDistinct(PairsOf(workers))
    requires forall i | 0 <= i < |workers| :: workers[i].Key() in cloud
    requires forall r | r in responses :: r.Results? ==> Reports(r.results, PairsOf(workers))
    ensures cloud'.Keys == cloud.Keys
    ensures forall i | 0 <= i < |workers| :: cloud'[workers[i].Key()] == RowAfter(workers[i], i, responses, cloud[workers[i].Key()])
    ensures forall key | key in cloud && (forall i | 0 <= i < |workers| :: workers[i].Key() != key) :: cloud'[key] == cloud[key]
  {
    var count := Tally(workers, responses);
    cloud' := UpdateCloud(workers, count, |responses|, cloud);
    forall i | 0 <= i < |workers|
      ensures CountAt(count, workers[i].Key()) == |responses| <==> forall r | r in responses :: SucceededAt(r, i)
    {
      UnanimousIff(responses, PairsOf(workers), i);
    }
  }

  /** The whole script. It stops when there is no device or a new id repeats. Otherwise each device is served as the
      bridge does, without writing an occupied slot, and the cloud takes a worker's new id exactly when every device
      reported success; what a success means, and what a device keeps that holds each id in one slot, is said above. */
  method RenameEverywhere(workers: seq<Worker>, devices: seq<Device>, read: Reader,
                          tapes: nat -> nat -> Tape, lost: nat -> nat -> bool, cloud: map<Key, string>)
    returns (aborted: bool, devices': seq<Device>, responses: seq<Response>, cloud': map<Key, string>)
    requires Truthful(read)
    requires forall i, j | 0 <= i < j < |workers| :: workers[i].Key() != workers[j].Key()
    requires forall i | 0 <= i < |workers| :: workers[i].Key() in cloud
    ensures aborted <==> devices == [] || !NewIdsDistinct(PairsOf(workers))
    ensures aborted ==> devices' == devices && cloud' == cloud
    ensures !aborted ==> |devices'| == |responses| == |devices|
    ensures !aborted ==>
              forall d | 0 <= d < |devices| ::
                && DeviceDone(devices[d], devices'[d], responses[d], PairsOf(workers), read, tapes(d), lost(d))
                && devices'[d].replaced == devices[d].replaced
    ensures cloud'.Keys == cloud.Keys
    ensures !aborted ==>
              forall i | 0 <= i < |workers| ::
                cloud'[workers[i].Key()] == RowAfter(workers[i], i, responses, cloud[workers[i].Key()])
    ensures forall key | key in cloud && (forall i | 0 <= i < |workers| :: workers[i].Key() != key) :: cloud'[key] == cloud[key]
    ensures !aborted ==>
              forall i, d | 0 <= i < |workers| && 0 <= d < |devices| ::
                SuccessMeansGone(devices[d], devices'[d], responses[d], PairsOf(workers), i)
    ensures !aborted ==>
              forall d, v | 0 <= d < |devices| && Shows(devices[d], v) :: ViewKept(v, devices'[d], responses[d], PairsOf(workers))
  {
    var pairs := PairsOf(workers);
    var dupes := RepeatedNewIds(pairs);
    if devices == [] || dupes != [] {
      return true, devices, [], cloud;
    }
    aborted := false;
    devices', responses := RenameOnDevices(pairs, devices, read, tapes, lost);
    forall d | 0 <= d < |devices|
      ensures devices'[d].replaced == devices[d].replaced && Reports(responses[d].results, pairs)
      ensures forall k | 0 <= k < |pairs| :: SuccessMeansGone(devices[d], devices'[d], responses[d], pairs, k)
    {
      DeviceKeepsSlots(devices[d], devices'[d], responses[d], pairs, read, tapes(d), lost(d));
    }
    forall d, v | 0 <= d < |devices| && Shows(devices[d], v) ensures ViewKept(v, devices'[d], responses[d], pairs) {
      DeviceKeepsView(devices[d], v, devices'[d], responses[d], pairs, read, tapes(d), lost(d));
    }
    assert forall i | 0 <= i < |workers| :: pairs[i] == workers[i].pair;
    cloud' := Reconcile(workers, responses, cloud);
  }

  /** With distinct old ids, no failing call and no lost answer, on devices that hold each id in one slot, the cloud
      takes exactly the workers who could be named on every device that needed it. */
  lemma UndisturbedMeansUpdated(workers: seq<Worker>, devices: seq<Device>, views: seq<View>, devices': seq<Device>,
                                responses: seq<Response>, read: Reader, tapes: nat -> nat -> Tape, lost: nat -> nat -> bool, i: nat,
                                row: string)
    requires |views| == |devices| == |devices'| == |responses| && i < |workers| && Plan(PairsOf(workers)) && Truthful(read)
    requires forall d | 0 <= d < |devices| ::
               && DeviceDone(devices[d], devices'[d], responses[d], PairsOf(workers), read, tapes(d), lost(d))
               && Shows(devices[d], views[d]) && Undisturbed(tapes(d), lost(d))
    ensures RowAfter(workers[i], i, responses, row) ==
            if forall d | 0 <= d < |devices| :: !Unnameable(views[d], workers[i].pair) then workers[i].pair.newId else row
  {
    forall d | 0 <= d < |devices| ensures SucceededAt(responses[d], i) <==> !Unnameable(views[d], workers[i].pair) {
      var sent := ChunksServed(views[d], devices[d], PairsOf(workers), read, tapes(d), lost(d), 0);
      forall s | s in sent ensures Quiet(s) {
        var c :| 0 <= c < |sent| && sent[c] == s;
        assert FailureFree(tapes(d)(c), 0) && !lost(d)(c);
      }
      SentServes(views[d], sent, responses[d], PairsOf(workers), i);
    }
    if forall r | r in responses :: SucceededAt(r, i) {
      assert forall d | 0 <= d < |devices| :: responses[d] in responses;
    }
  }
}
