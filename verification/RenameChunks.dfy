/** The script on one device: the pairs in chunks, each a request that may be lost. */
module RenameChunks {
  import opened Common
  import opened BiometricDevice
  import opened RenameReference
  import opened RenameHistory
  import opened RenameCaches
  import opened RenameSlots
  import opened RenameRefinement
  import opened RenameAgreement

  const CHUNK_SIZE := 30

  /** The device after some requests, and the results the script has for it. */
  datatype Sending = Sending(dev: Device, results: seq<PairResult>)

  /** A lost answer, or that of a bridge that died, is replaced by a chunk error for each pair. */
  function ChunkOn(dev: Device, pairs: seq<Pair>, read: Reader, tape: Tape, lost: bool): Sending {
    var end := Handled(dev, pairs, read, tape);
    Sending(end.dev, if end.died || lost then Failed(pairs) else Tagged(end.results))
  }

  function ChunkEnd(pairs: seq<Pair>): (n: nat)
    ensures n <= |pairs| && (pairs != [] ==> n > 0)
  {
    if CHUNK_SIZE < |pairs| then CHUNK_SIZE else |pairs|
  }

  /** The chunks from number c on, one request after the other. */
  function ChunksOn(dev: Device, pairs: seq<Pair>, read: Reader, tapes: nat -> Tape, lost: nat -> bool, c: nat): Sending
    decreases |pairs|
  {
    if pairs == [] then Sending(dev, []) else
    var n := ChunkEnd(pairs);
    var one := ChunkOn(dev, pairs[..n], read, tapes(c), lost(c));
    var rest := ChunksOn(one.dev, pairs[n..], read, tapes, lost, c + 1);
    rest.(results := one.results + rest.results)
  }

  // ---- on any device ----

  lemma ChunkReports(dev: Device, pairs: seq<Pair>, read: Reader, tape: Tape, lost: bool)
    ensures Reports(ChunkOn(dev, pairs, read, tape, lost).results, pairs)
  {
    ResultsInOrder(dev, TablesOf(read(dev).0, read(dev).1), pairs, tape, 0);
  }

  /** One result per pair, in order, failed chunks included. */
  lemma {:induction false} ChunksReport(dev: Device, pairs: seq<Pair>, read: Reader, tapes: nat -> Tape, lost: nat -> bool, c: nat)
    ensures Reports(ChunksOn(dev, pairs, read, tapes, lost, c).results, pairs)
    decreases |pairs|
  {
    if pairs != [] {
      var n := ChunkEnd(pairs);
      var one := ChunkOn(dev, pairs[..n], read, tapes(c), lost(c));
      ChunkReports(dev, pairs[..n], read, tapes(c), lost(c));
      ChunksReport(one.dev, pairs[n..], read, tapes, lost, c + 1);
      var rest := ChunksOn(one.dev, pairs[n..], read, tapes, lost, c + 1);
      ReportsJoin(one.results, rest.results, pairs[..n], pairs[n..]);
      assert pairs == pairs[..n] + pairs[n..];
    }
  }

  function ThirtyFrom(pairs: seq<Pair>, m: nat): seq<Pair>
    requires m <= |pairs|
  {
    if m + 30 < |pairs| then pairs[m..m + 30] else pairs[m..]
  }

  lemma ThirtyOfRest(pairs: seq<Pair>, m: nat)
    requires 30 <= m <= |pairs|
    ensures ThirtyFrom(pairs[30..], m - 30) == ThirtyFrom(pairs, m)
  {
  }

  /** The answer to request q: the q-th thirty of the pairs, sent to the device as the requests before it left it. */
  function ThirtyOf(dev: Device, pairs: seq<Pair>, read: Reader, tapes: nat -> Tape, lost: nat -> bool, c: nat, q: nat): seq<PairResult>
    requires 30 * q < |pairs|
  {
    ChunkOn(ChunksOn(dev, pairs[..30 * q], read, tapes, lost, c).dev, ThirtyFrom(pairs, 30 * q), read, tapes(c + q), lost(c + q)).results
  }

  lemma ChunksFromSecond(dev: Device, pairs: seq<Pair>, read: Reader, tapes: nat -> Tape, lost: nat -> bool, c: nat, m: nat)
    requires 30 <= m <= |pairs|
    ensures var one := ChunkOn(dev, pairs[..30], read, tapes(c), lost(c));
            ChunksOn(dev, pairs[..m], read, tapes, lost, c).dev == ChunksOn(one.dev, pairs[30..][..m - 30], read, tapes, lost, c + 1).dev
  {
    var first := pairs[..m];
    assert ChunkEnd(first) == 30 && first[..30] == pairs[..30] && first[30..] == pairs[30..][..m - 30];
  }

  lemma ThirtyShifts(dev: Device, pairs: seq<Pair>, read: Reader, tapes: nat -> Tape, lost: nat -> bool, c: nat, q: nat)
    requires q > 0 && 30 * q < |pairs|
    ensures var one := ChunkOn(dev, pairs[..30], read, tapes(c), lost(c));
            ThirtyOf(dev, pairs, read, tapes, lost, c, q) == ThirtyOf(one.dev, pairs[30..], read, tapes, lost, c + 1, q - 1)
  {
    ChunksFromSecond(dev, pairs, read, tapes, lost, c, 30 * q);
    ThirtyOfRest(pairs, 30 * q);
    assert 30 * (q - 1) == 30 * q - 30;
  }

  lemma FirstThenRest(dev: Device, pairs: seq<Pair>, read: Reader, tapes: nat -> Tape, lost: nat -> bool, c: nat)
    requires pairs != []
    ensures var n := if |pairs| > 30 then 30 else |pairs|;
            var one := ChunkOn(dev, pairs[..n], read, tapes(c), lost(c));
            var rest := ChunksOn(one.dev, pairs[n..], read, tapes, lost, c + 1);
            && |one.results| == n && |rest.results| == |pairs| - n
            && ChunksOn(dev, pairs, read, tapes, lost, c).results == one.results + rest.results
  {
    var n := ChunkEnd(pairs);
    var one := ChunkOn(dev, pairs[..n], read, tapes(c), lost(c));
    ChunkReports(dev, pairs[..n], read, tapes(c), lost(c));
    ChunksReport(one.dev, pairs[n..], read, tapes, lost, c + 1);
  }

  lemma FirstThirty(dev: Device, pairs: seq<Pair>, read: Reader, tapes: nat -> Tape, lost: nat -> bool, c: nat)
    requires pairs != []
    ensures var n := if |pairs| > 30 then 30 else |pairs|;
            ThirtyOf(dev, pairs, read, tapes, lost, c, 0) == ChunkOn(dev, pairs[..n], read, tapes(c), lost(c)).results
  {
    assert pairs[..0] == [] && ChunksOn(dev, pairs[..0], read, tapes, lost, c).dev == dev;
    assert ThirtyFrom(pairs, 0) == pairs[..if |pairs| > 30 then 30 else |pairs|];
  }

  ghost predicate HeldAt(all: seq<PairResult>, size: nat, part: seq<PairResult>, q: nat, j: nat) {
    |all| == size && j < |part| && 30 * q + j < size && all[30 * q + j] == part[j]
  }

  lemma HeldBehind(first: seq<PairResult>, rest: seq<PairResult>, size: nat, part: seq<PairResult>, q: nat, j: nat)
    requires |first| == 30 && HeldAt(rest, size, part, q, j)
    ensures HeldAt(first + rest, size + 30, part, q + 1, j)
  {
  }

  /** Pair 30 q + j has the j-th result of request q. */
  ghost predicate AnsweredAt(dev: Device, pairs: seq<Pair>, read: Reader, tapes: nat -> Tape, lost: nat -> bool, c: nat, q: nat, j: nat)
    requires 30 * q < |pairs|
  {
    HeldAt(ChunksOn(dev, pairs, read, tapes, lost, c).results, |pairs|, ThirtyOf(dev, pairs, read, tapes, lost, c, q), q, j)
  }

  lemma AnsweredBehind(dev: Device, pairs: seq<Pair>, read: Reader, tapes: nat -> Tape, lost: nat -> bool, c: nat, q: nat, j: nat)
    requires q > 0 && 30 * q < |pairs|
    requires AnsweredAt(ChunkOn(dev, pairs[..30], read, tapes(c), lost(c)).dev, pairs[30..], read, tapes, lost, c + 1, q - 1, j)
    ensures AnsweredAt(dev, pairs, read, tapes, lost, c, q, j)
  {
    var one := ChunkOn(dev, pairs[..30], read, tapes(c), lost(c));
    FirstThenRest(dev, pairs, read, tapes, lost, c);
    ThirtyShifts(dev, pairs, read, tapes, lost, c, q);
    HeldBehind(one.results, ChunksOn(one.dev, pairs[30..], read, tapes, lost, c + 1).results, |pairs| - 30,
               ThirtyOf(dev, pairs, read, tapes, lost, c, q), q - 1, j);
  }

  /** The pairs are sent by thirties, each once and in order. */
  lemma {:induction false} ChunksAreThirties(dev: Device, pairs: seq<Pair>, read: Reader, tapes: nat -> Tape, lost: nat -> bool, c: nat,
                                             q: nat, j: nat)
    requires j < 30 && 30 * q + j < |pairs|
    ensures AnsweredAt(dev, pairs, read, tapes, lost, c, q, j)
    decreases q
  {
    if q == 0 {
      FirstThenRest(dev, pairs, read, tapes, lost, c);
      FirstThirty(dev, pairs, read, tapes, lost, c);
    } else {
      ChunksAreThirties(ChunkOn(dev, pairs[..30], read, tapes(c), lost(c)).dev, pairs[30..], read, tapes, lost, c + 1, q - 1, j);
      AnsweredBehind(dev, pairs, read, tapes, lost, c, q, j);
    }
  }

  /** No occupied slot is written. */
  lemma {:induction false} ChunksAreSafe(dev: Device, pairs: seq<Pair>, read: Reader, tapes: nat -> Tape, lost: nat -> bool, c: nat)
    requires Truthful(read)
    ensures ChunksOn(dev, pairs, read, tapes, lost, c).dev.replaced == dev.replaced
    decreases |pairs|
  {
    if pairs != [] {
      var n := ChunkEnd(pairs);
      HandledIsSafe(dev, pairs[..n], read, tapes(c));
      ChunksAreSafe(ChunkOn(dev, pairs[..n], read, tapes(c), lost(c)).dev, pairs[n..], read, tapes, lost, c + 1);
    }
  }

  /** Every slot that holds id afterwards held it before. */
  ghost predicate Shrunk(dev: Device, dev': Device, id: string) {
    forall u | Occupies(dev', u, id) :: Occupies(dev, u, id)
  }

  ghost predicate SlotsSame(dev: Device, dev': Device, id: string) {
    forall u :: Occupies(dev', u, id) <==> Occupies(dev, u, id)
  }

  lemma PartNewIds(pairs: seq<Pair>, n: nat)
    requires n <= |pairs|
    ensures NewIds(pairs[..n]) <= NewIds(pairs) && NewIds(pairs[n..]) <= NewIds(pairs)
  {
    NewIdsJoin(pairs[..n], pairs[n..]);
    assert pairs == pairs[..n] + pairs[n..];
  }

  lemma {:induction false} ChunksShrink(dev: Device, pairs: seq<Pair>, read: Reader, tapes: nat -> Tape, lost: nat -> bool, c: nat,
                                        id: string)
    requires Truthful(read) && id !in NewIds(pairs)
    ensures Shrunk(dev, ChunksOn(dev, pairs, read, tapes, lost, c).dev, id)
    decreases |pairs|
  {
    if pairs != [] {
      var n := ChunkEnd(pairs);
      PartNewIds(pairs, n);
      RequestTracks(dev, pairs[..n], read, tapes(c), id);
      ChunksShrink(ChunkOn(dev, pairs[..n], read, tapes(c), lost(c)).dev, pairs[n..], read, tapes, lost, c + 1, id);
    }
  }

  lemma {:induction false} ChunksSpare(dev: Device, pairs: seq<Pair>, read: Reader, tapes: nat -> Tape, lost: nat -> bool, c: nat,
                                       id: string)
    requires Truthful(read) && forall p | p in pairs :: p.oldId != id && p.newId != id
    ensures SlotsSame(dev, ChunksOn(dev, pairs, read, tapes, lost, c).dev, id)
    decreases |pairs|
  {
    if pairs != [] {
      var n := ChunkEnd(pairs);
      assert pairs == pairs[..n] + pairs[n..];
      RequestSpares(dev, pairs[..n], read, tapes(c), id);
      ChunksSpare(ChunkOn(dev, pairs[..n], read, tapes(c), lost(c)).dev, pairs[n..], read, tapes, lost, c + 1, id);
    }
  }

  /** No other pair names the old id of pair k. */
  predicate NamedOnce(pairs: seq<Pair>, k: nat)
    requires k < |pairs|
  {
    forall j | 0 <= j < |pairs| && j != k :: pairs[j].oldId != pairs[k].oldId
  }

  lemma SuccessInChunk(dev: Device, pairs: seq<Pair>, read: Reader, tape: Tape, lost: bool, k: nat)
    requires Truthful(read) && k < |pairs| && pairs[k].oldId !in NewIds(pairs)
    requires var results := ChunkOn(dev, pairs, read, tape, lost).results; k < |results| && results[k].status.Success()
    ensures InNoSlot(ChunkOn(dev, pairs, read, tape, lost).dev, pairs[k].oldId) <==> InOneSlot(dev, pairs[k].oldId)
  {
    SlotGoneIff(dev, pairs, read, tape, k);
  }

  /** The first chunk has pair k; the others leave what it did. */
  lemma GoneInFirst(dev: Device, pairs: seq<Pair>, read: Reader, tapes: nat -> Tape, lost: nat -> bool, c: nat, k: nat)
    requires Truthful(read) && k < ChunkEnd(pairs) && pairs[k].oldId !in NewIds(pairs)
    requires var results := ChunkOn(dev, pairs[..ChunkEnd(pairs)], read, tapes(c), lost(c)).results;
             k < |results| && results[k].status.Success()
    ensures var dev' := ChunksOn(dev, pairs, read, tapes, lost, c).dev;
            && (InOneSlot(dev, pairs[k].oldId) ==> InNoSlot(dev', pairs[k].oldId))
            && (NamedOnce(pairs, k) && InNoSlot(dev', pairs[k].oldId) ==> InOneSlot(dev, pairs[k].oldId))
  {
    var n, id := ChunkEnd(pairs), pairs[k].oldId;
    var one := ChunkOn(dev, pairs[..n], read, tapes(c), lost(c));
    PartNewIds(pairs, n);
    SuccessInChunk(dev, pairs[..n], read, tapes(c), lost(c), k);
    ChunksShrink(one.dev, pairs[n..], read, tapes, lost, c + 1, id);
    if NamedOnce(pairs, k) {
      OthersElsewhere(pairs, n, |pairs|, k);
      ChunksSpare(one.dev, pairs[n..], read, tapes, lost, c + 1, id);
    }
  }

  /** A chunk without pair k adds no slot to its old id, and takes none unless it names the id. */
  lemma BeforeChunk(dev: Device, pairs: seq<Pair>, read: Reader, tape: Tape, lost: bool, n: nat, k: nat)
    requires Truthful(read) && n <= k < |pairs| && pairs[k].oldId !in NewIds(pairs)
    ensures var dev' := ChunkOn(dev, pairs[..n], read, tape, lost).dev;
            && (InOneSlot(dev, pairs[k].oldId) ==> InOneSlot(dev', pairs[k].oldId))
            && (NamedOnce(pairs, k) ==>
                  NamedOnce(pairs[n..], k - n) && (InOneSlot(dev', pairs[k].oldId) ==> InOneSlot(dev, pairs[k].oldId)))
  {
    PartNewIds(pairs, n);
    RequestTracks(dev, pairs[..n], read, tape, pairs[k].oldId);
    if NamedOnce(pairs, k) {
      OthersElsewhere(pairs, 0, n, k);
      RequestSpares(dev, pairs[..n], read, tape, pairs[k].oldId);
    }
  }

  /** All chunks sent to a device, whatever is lost: after a success for an old id that is no pair's new id, no slot
      holds it any more if at most one slot held it at the start; and, if no other pair names it, only if so. */
  lemma {:induction false} ChunksGoneIff(dev: Device, pairs: seq<Pair>, read: Reader, tapes: nat -> Tape, lost: nat -> bool, c: nat, k: nat)
    requires Truthful(read) && k < |pairs| && pairs[k].oldId !in NewIds(pairs)
    requires var results := ChunksOn(dev, pairs, read, tapes, lost, c).results; k < |results| && results[k].status.Success()
    ensures var dev' := ChunksOn(dev, pairs, read, tapes, lost, c).dev;
            && (InOneSlot(dev, pairs[k].oldId) ==> InNoSlot(dev', pairs[k].oldId))
            && (NamedOnce(pairs, k) && InNoSlot(dev', pairs[k].oldId) ==> InOneSlot(dev, pairs[k].oldId))
    decreases |pairs|
  {
    var n, id := ChunkEnd(pairs), pairs[k].oldId;
    var one := ChunkOn(dev, pairs[..n], read, tapes(c), lost(c));
    ChunkReports(dev, pairs[..n], read, tapes(c), lost(c));
    if k < n {
      GoneInFirst(dev, pairs, read, tapes, lost, c, k);
    } else {
      PartNewIds(pairs, n);
      BeforeChunk(dev, pairs, read, tapes(c), lost(c), n, k);
      ChunksGoneIff(one.dev, pairs[n..], read, tapes, lost, c + 1, k - n);
    }
  }

  lemma OthersElsewhere(pairs: seq<Pair>, i: nat, j: nat, k: nat)
    requires i <= j <= |pairs| && k < |pairs| && !(i <= k < j) && NamedOnce(pairs, k) && pairs[k].oldId !in NewIds(pairs)
    ensures forall p | p in pairs[i..j] :: p.oldId != pairs[k].oldId && p.newId != pairs[k].oldId
  {
    forall p | p in pairs[i..j] ensures p.oldId != pairs[k].oldId && p.newId != pairs[k].oldId {
      var m :| 0 <= m < j - i && pairs[i..j][m] == p;
      assert pairs[i + m] == p && p.newId in NewIds(pairs);
    }
  }

  // ---- on a device that shows a view ----

  /** What has happened when the requests have taken a device that showed v to dev. */
  ghost predicate Reached(v: View, sent: seq<Sent>, dev: Device, results: seq<PairResult>) {
    InTurn(v, sent) && Shows(dev, ViewAfter(v, sent)) && results == Answers(sent)
  }

  lemma {:induction false} AnswersFirst(s: Sent, rest: seq<Sent>)
    ensures Answers([s] + rest) == Answer(s) + Answers(rest)
  {
    var all, n := [s] + rest, |rest|;
    if rest == [] {
      assert all[..0] == [] && all[0] == s;
      assert Answers([s][..0]) == [];
    } else {
      AnswersFirst(s, rest[..n - 1]);
      assert all[..n] == [s] + rest[..n - 1] && all[n] == rest[n - 1];
      Regroup(Answer(s), Answers(rest[..n - 1]), Answer(all[n]));
    }
  }

  lemma {:induction false} PairsFirst(s: Sent, rest: seq<Sent>)
    ensures PairsSent([s] + rest) == s.pairs + PairsSent(rest)
  {
    var all, n := [s] + rest, |rest|;
    if rest == [] {
      assert all[..0] == [] && all[0] == s;
    } else {
      PairsFirst(s, rest[..n - 1]);
      assert all[..n] == [s] + rest[..n - 1] && all[n] == rest[n - 1];
      Regroup(s.pairs, PairsSent(rest[..n - 1]), all[n].pairs);
    }
  }

  lemma ViewsFirst(v: View, s: Sent, rest: seq<Sent>, c: nat)
    requires c <= |rest|
    ensures ViewAfter(v, ([s] + rest)[..c + 1]) == ViewAfter(s.ending.view, rest[..c])
  {
  }

  lemma ReachedFirst(v: View, s: Sent, rest: seq<Sent>, dev: Device, results: seq<PairResult>)
    requires Served(v, s) && Reached(s.ending.view, rest, dev, results)
    ensures Reached(v, [s] + rest, dev, Answer(s) + results)
  {
    var all := [s] + rest;
    AnswersFirst(s, rest);
    ViewsFirst(v, s, rest, |rest|);
    assert all[..|rest| + 1] == all && rest[..|rest|] == rest;
    forall c | 0 <= c < |all| ensures ServedAt(v, all, c) {
      if c > 0 {
        assert ServedAt(s.ending.view, rest, c - 1);
        ViewsFirst(v, s, rest, c - 1);
      } else {
        assert all[..0] == [];
      }
    }
  }

  /** No call fails and no answer is lost. */
  ghost predicate Undisturbed(tapes: nat -> Tape, lost: nat -> bool) {
    forall c: nat :: FailureFree(tapes(c), 0) && !lost(c)
  }

  lemma ChunkServed(v: View, dev: Device, pairs: seq<Pair>, read: Reader, tape: Tape, lost: bool) returns (s: Sent)
    requires Truthful(read) && NewIdsDistinct(pairs) && Shows(dev, v)
    ensures s.pairs == pairs && s.tape == tape && s.lost == lost && Served(v, s)
    ensures var one := ChunkOn(dev, pairs, read, tape, lost); Shows(one.dev, s.ending.view) && one.results == Answer(s)
  {
    HandledIsCached(dev, v, pairs, read, tape);
    s := Sent(pairs, Read(dev, read), tape, lost, CachedAll(v, Read(dev, read), pairs, tape, 0));
  }

  /** The requests had these tapes and losses, from number c on. */
  ghost predicate Numbered(sent: seq<Sent>, tapes: nat -> Tape, lost: nat -> bool, c: nat) {
    forall i | 0 <= i < |sent| :: sent[i].tape == tapes(c + i) && sent[i].lost == lost(c + i)
  }

  /** The requests are the chunks of these pairs, served one after the other on what the device shows. */
  ghost predicate Serves(v: View, sent: seq<Sent>, end: Sending, pairs: seq<Pair>, tapes: nat -> Tape, lost: nat -> bool, c: nat) {
    Reached(v, sent, end.dev, end.results) && PairsSent(sent) == pairs && Numbered(sent, tapes, lost, c)
  }

  lemma NumberedFirst(s: Sent, rest: seq<Sent>, tapes: nat -> Tape, lost: nat -> bool, c: nat)
    requires s.tape == tapes(c) && s.lost == lost(c) && Numbered(rest, tapes, lost, c + 1)
    ensures Numbered([s] + rest, tapes, lost, c)
  {
    var all := [s] + rest;
    forall i | 0 <= i < |all| ensures all[i].tape == tapes(c + i) && all[i].lost == lost(c + i) {
      if i > 0 { assert all[i] == rest[i - 1] && c + i == c + 1 + (i - 1); }
    }
  }

  lemma ServesFirst(v: View, s: Sent, rest: seq<Sent>, end: Sending, pairs: seq<Pair>, tapes: nat -> Tape, lost: nat -> bool, c: nat)
    requires Served(v, s) && s.tape == tapes(c) && s.lost == lost(c)
    requires Serves(s.ending.view, rest, end, pairs, tapes, lost, c + 1)
    ensures Serves(v, [s] + rest, Sending(end.dev, Answer(s) + end.results), s.pairs + pairs, tapes, lost, c)
  {
    ReachedFirst(v, s, rest, end.dev, end.results);
    PairsFirst(s, rest);
    NumberedFirst(s, rest, tapes, lost, c);
  }

  /** The first chunk as request s, and the others as the rest. */
  lemma FirstServed(v: View, dev: Device, s: Sent, rest: seq<Sent>, pairs: seq<Pair>, read: Reader, tapes: nat -> Tape, lost: nat -> bool,
                    c: nat)
    requires pairs != [] && Served(v, s) && s.tape == tapes(c) && s.lost == lost(c) && s.pairs == pairs[..ChunkEnd(pairs)]
    requires var one := ChunkOn(dev, pairs[..ChunkEnd(pairs)], read, tapes(c), lost(c));
             && one.results == Answer(s)
             && Serves(s.ending.view, rest, ChunksOn(one.dev, pairs[ChunkEnd(pairs)..], read, tapes, lost, c + 1),
                       pairs[ChunkEnd(pairs)..], tapes, lost, c + 1)
    ensures Serves(v, [s] + rest, ChunksOn(dev, pairs, read, tapes, lost, c), pairs, tapes, lost, c)
  {
    var n := ChunkEnd(pairs);
    var one := ChunkOn(dev, pairs[..n], read, tapes(c), lost(c));
    assert pairs == pairs[..n] + pairs[n..];
    ServesFirst(v, s, rest, ChunksOn(one.dev, pairs[n..], read, tapes, lost, c + 1), pairs[n..], tapes, lost, c);
    ChunksUnfold(dev, pairs, read, tapes, lost, c);
  }

  lemma ChunksUnfold(dev: Device, pairs: seq<Pair>, read: Reader, tapes: nat -> Tape, lost: nat -> bool, c: nat)
    requires pairs != []
    ensures var n := ChunkEnd(pairs);
            var one := ChunkOn(dev, pairs[..n], read, tapes(c), lost(c));
            var rest := ChunksOn(one.dev, pairs[n..], read, tapes, lost, c + 1);
            ChunksOn(dev, pairs, read, tapes, lost, c) == Sending(rest.dev, one.results + rest.results)
  {
  }

  lemma PartDistinct(pairs: seq<Pair>, n: nat)
    requires NewIdsDistinct(pairs) && n <= |pairs|
    ensures NewIdsDistinct(pairs[..n]) && NewIdsDistinct(pairs[n..])
  {
  }

  lemma {:induction false} ChunksServed(v: View, dev: Device, pairs: seq<Pair>, read: Reader, tapes: nat -> Tape, lost: nat -> bool, c: nat)
    returns (sent: seq<Sent>)
    requires Truthful(read) && NewIdsDistinct(pairs) && Shows(dev, v)
    ensures Serves(v, sent, ChunksOn(dev, pairs, read, tapes, lost, c), pairs, tapes, lost, c)
    decreases |pairs|
  {
    sent := [];
    if pairs != [] {
      var n := ChunkEnd(pairs);
      PartDistinct(pairs, n);
      var s := ChunkServed(v, dev, pairs[..n], read, tapes(c), lost(c));
      var one := ChunkOn(dev, pairs[..n], read, tapes(c), lost(c));
      var rest := ChunksServed(s.ending.view, one.dev, pairs[n..], read, tapes, lost, c + 1);
      FirstServed(v, dev, s, rest, pairs, read, tapes, lost, c);
      sent := [s] + rest;
    }
  }
}
