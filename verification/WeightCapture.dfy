/** The scale reader and the decision whether its weight may be captured. Times are in seconds. */
module WeightCapture {
  import opened Common

  const STALE_THRESHOLD := 3.0
  const STABLE_COUNT := 4
  const STABLE_TOLERANCE := 10.0
  const MAX_FRAMES_PER_DRAIN := 64

  /** A weight the reader recorded, and when. */
  datatype Frame = Frame(weight: real, at: real)

  datatype Status = Status(weight: real, stable: bool, connected: bool, stale: bool, ageMs: Option<int>, frameCount: nat)

  // ---- the reader, as a function of everything it ever recorded ----

  function Weights(frames: seq<Frame>): seq<real> {
    seq(|frames|, i requires 0 <= i < |frames| => frames[i].weight)
  }

  function Max(s: seq<real>): real
    requires s != []
  {
    if |s| == 1 then s[0] else
    var m := Max(s[1..]);
    if m < s[0] then s[0] else m
  }

  function Min(s: seq<real>): real
    requires s != []
  {
    if |s| == 1 then s[0] else
    var m := Min(s[1..]);
    if s[0] < m then s[0] else m
  }

  lemma {:induction false} MaxIsGreatest(s: seq<real>)
    requires s != []
    ensures Max(s) in s && forall x :: x in s ==> x <= Max(s)
  {
    if |s| > 1 {
      MaxIsGreatest(s[1..]);
      assert s == [s[0]] + s[1..];
    }
  }

  lemma {:induction false} MinIsLeast(s: seq<real>)
    requires s != []
    ensures Min(s) in s && forall x :: x in s ==> Min(s) <= x
  {
    if |s| > 1 {
      MinIsLeast(s[1..]);
      assert s == [s[0]] + s[1..];
    }
  }

  predicate IsStable(window: seq<real>) {
    |window| >= STABLE_COUNT && Max(window) - Min(window) <= STABLE_TOLERANCE
  }

  predicate IsStale(frames: seq<Frame>, now: real) {
    frames != [] && now - frames[|frames| - 1].at > STALE_THRESHOLD
  }

  function Truncate(x: real): int {
    if x >= 0.0 then x.Floor else -(-x).Floor
  }

  function StatusOf(frames: seq<Frame>, connected: bool, now: real): Status {
    var stale := IsStale(frames, now);
    Status(
      if stale || frames == [] then 0.0 else frames[|frames| - 1].weight,
      !stale && IsStable(Last(Weights(frames), STABLE_COUNT)),
      connected, stale,
      if frames == [] then None else Some(Truncate((now - frames[|frames| - 1].at) * 1000.0)),
      |frames|)
  }

  // ---- _resolve_capture_weight ----

  datatype ClientWeight = Absent | NotANumber | Given(weight: real)

  /** The reason is the stripped one. */
  datatype Request = Request(overridden: bool, reason: string, client: ClientWeight)

  datatype Source = Manual | Serial

  datatype Captured = Weight(weight: real, source: Source, stable: bool) | Refused(status: int)

  function ResolveCaptureWeight(req: Request, allowManual: bool, reader: Option<Status>): Captured {
    if req.overridden && req.reason == "" then Refused(400)
    else if req.client.NotANumber? then Refused(400)
    else if req.client.Given? && (allowManual || req.overridden) then Weight(req.client.weight, Manual, true)
    else if reader.None? then Refused(400)
    else
      var s := reader.value;
      if s.stale || !s.connected then
        if req.overridden then Weight(s.weight, Serial, s.stable) else Refused(409)
      else if !s.stable then
        if req.overridden then Weight(s.weight, Serial, false) else Refused(409)
      else Weight(s.weight, Serial, true)
  }

  /** No two of the frames are over 10 kg apart. */
  predicate Settled(frames: seq<Frame>) {
    forall i, j :: 0 <= i < |frames| && 0 <= j < |frames| ==> frames[i].weight - frames[j].weight <= STABLE_TOLERANCE
  }

  /** Four frames or more, the newest at most three seconds old, and the last four settled. */
  predicate Live(frames: seq<Frame>, connected: bool, now: real) {
    && connected && |frames| >= STABLE_COUNT
    && now - frames[|frames| - 1].at <= STALE_THRESHOLD
    && Settled(frames[|frames| - STABLE_COUNT..])
  }

  lemma SpreadIff(w: seq<real>)
    requires w != []
    ensures Max(w) - Min(w) <= STABLE_TOLERANCE <==>
            forall i, j :: 0 <= i < |w| && 0 <= j < |w| ==> w[i] - w[j] <= STABLE_TOLERANCE
  {
    MaxIsGreatest(w);
    MinIsLeast(w);
    var a :| 0 <= a < |w| && w[a] == Max(w);
    var b :| 0 <= b < |w| && w[b] == Min(w);
    if forall i, j :: 0 <= i < |w| && 0 <= j < |w| ==> w[i] - w[j] <= STABLE_TOLERANCE {
      assert w[a] - w[b] <= STABLE_TOLERANCE;
    }
    if Max(w) - Min(w) <= STABLE_TOLERANCE {
      forall i, j | 0 <= i < |w| && 0 <= j < |w|
        ensures w[i] - w[j] <= STABLE_TOLERANCE
      {
        assert w[i] in w && w[j] in w;
      }
    }
  }

  /** The spread test looks at all pairs of the last four frames. */
  lemma StableIff(frames: seq<Frame>)
    requires |frames| >= STABLE_COUNT
    ensures IsStable(Last(Weights(frames), STABLE_COUNT)) <==> Settled(frames[|frames| - STABLE_COUNT..])
  {
    var w, last := Last(Weights(frames), STABLE_COUNT), frames[|frames| - STABLE_COUNT..];
    assert |w| == |last| && forall i :: 0 <= i < |w| ==> w[i] == last[i].weight;
    SettledIff(w, last);
  }

  lemma SettledIff(w: seq<real>, last: seq<Frame>)
    requires |w| == |last| > 0 && forall i :: 0 <= i < |w| ==> w[i] == last[i].weight
    ensures Max(w) - Min(w) <= STABLE_TOLERANCE <==> Settled(last)
  {
    SpreadIff(w);
    if Settled(last) {
      forall i, j | 0 <= i < |w| && 0 <= j < |w|
        ensures w[i] - w[j] <= STABLE_TOLERANCE
      {
        assert last[i].weight - last[j].weight <= STABLE_TOLERANCE;
      }
    }
  }

  /** The status, field by field: the newest frame unless it is over three seconds old, its age in whole
      milliseconds, and stability as the spread of the last four frames. */
  lemma StatusSays(frames: seq<Frame>, connected: bool, now: real)
    ensures var s, n := StatusOf(frames, connected, now), |frames|;
            && s.connected == connected && s.frameCount == n
            && (s.stale <==> n > 0 && now - frames[n - 1].at > 3.0)
            && s.weight == (if n == 0 || s.stale then 0.0 else frames[n - 1].weight)
            && (s.stable <==> !s.stale && n >= 4 && forall i, j | n - 4 <= i < n && n - 4 <= j < n ::
                  frames[i].weight - frames[j].weight <= 10.0)
            && (s.ageMs.None? <==> n == 0)
            && (n > 0 ==> WholeMs(now - frames[n - 1].at, s.ageMs.value))
  {
    if |frames| >= STABLE_COUNT {
      var last := frames[|frames| - STABLE_COUNT..];
      StableIff(frames);
      assert forall i | |frames| - 4 <= i < |frames| :: frames[i] == last[i - (|frames| - 4)];
    }
  }

  /** These are the full milliseconds of so many seconds, counted towards zero. */
  predicate WholeMs(seconds: real, ms: int) {
    var exact := seconds * 1000.0;
    if seconds >= 0.0 then ms as real <= exact < ms as real + 1.0 else ms as real - 1.0 < exact <= ms as real
  }

  predicate Trusted(req: Request, allowManual: bool) {
    !req.overridden && (req.client.Absent? || (req.client.Given? && !allowManual))
  }

  /** Without an override or an allowed client value, a weight is captured exactly when the reader is live, and
      then it is the newest frame. */
  lemma CapturedIffLive(req: Request, allowManual: bool, frames: seq<Frame>, connected: bool, now: real)
    requires Trusted(req, allowManual)
    ensures var c := ResolveCaptureWeight(req, allowManual, Some(StatusOf(frames, connected, now)));
            && (c.Weight? <==> Live(frames, connected, now))
            && (c.Weight? ==> c == Weight(frames[|frames| - 1].weight, Serial, true))
            && (!c.Weight? ==> c == Refused(409))
  {
    if |frames| >= STABLE_COUNT {
      StableIff(frames);
    }
  }

  /** Every way a weight gets in: an allowed or overriding client value, an override with a reason and a reader,
      or a live reader. */
  lemma AcceptedIff(req: Request, allowManual: bool, running: bool, frames: seq<Frame>, connected: bool, now: real)
    ensures var c := ResolveCaptureWeight(req, allowManual, if running then Some(StatusOf(frames, connected, now)) else None);
            && (c.Weight? <==>
                  && (req.overridden ==> req.reason != "") && !req.client.NotANumber?
                  && (|| (req.client.Given? && (allowManual || req.overridden))
                      || (running && (req.overridden || Live(frames, connected, now)))))
            && (c.Weight? && c.source.Manual? ==> req.client == Given(c.weight))
            && (req.client.Given? && (allowManual || req.overridden) && (req.overridden ==> req.reason != "") ==>
                  c == Weight(req.client.weight, Manual, true))
            && (c.Weight? && c.source.Serial? ==>
                  c.weight == if frames == [] || IsStale(frames, now) then 0.0 else frames[|frames| - 1].weight)
            && (c.Weight? ==> c.stable == (c.source.Manual? || StatusOf(frames, connected, now).stable))
            && (c.Refused? ==>
                  c.status == if running && (req.overridden ==> req.reason != "") && !req.client.NotANumber? then 409 else 400)
  {
    if |frames| >= STABLE_COUNT {
      StableIff(frames);
    }
  }

  /** The window is not emptied by a silence. Whatever frames came before it and after it, a captured weight is
      vouched for only by frames after the silence exactly when at least four have arrived; with fewer, the weight is
      captured exactly when the newest is fresh and the missing places are taken by the last frames before the
      silence, settled together with those after it. */
  lemma VouchedAcrossSilence(req: Request, allowManual: bool, before: seq<Frame>, after: seq<Frame>, connected: bool, now: real)
    requires Trusted(req, allowManual) && after != []
    ensures var frames := before + after;
            var c := ResolveCaptureWeight(req, allowManual, Some(StatusOf(frames, connected, now)));
            && (c.Weight? ==> (Last(frames, STABLE_COUNT) == Last(after, STABLE_COUNT) <==> |after| >= STABLE_COUNT))
            && (|after| < STABLE_COUNT ==>
                  (c.Weight? <==>
                     && connected && |before| + |after| >= STABLE_COUNT && now - after[|after| - 1].at <= STALE_THRESHOLD
                     && Settled(before[|before| - (STABLE_COUNT - |after|)..] + after)))
  {
    CapturedIffLive(req, allowManual, before + after, connected, now);
    if |before + after| >= STABLE_COUNT {
      LastFour(before, after);
    }
  }

  lemma LastFour(before: seq<Frame>, after: seq<Frame>)
    requires after != [] && |before + after| >= STABLE_COUNT
    ensures var frames := before + after;
            && frames[|frames| - 1] == after[|after| - 1]
            && (Last(frames, STABLE_COUNT) == Last(after, STABLE_COUNT) <==> |after| >= STABLE_COUNT)
            && (|after| < STABLE_COUNT ==>
                  frames[|frames| - STABLE_COUNT..] == before[|before| - (STABLE_COUNT - |after|)..] + after)
  {
    if |after| >= STABLE_COUNT {
      assert Last(before + after, STABLE_COUNT) == Last(after, STABLE_COUNT);
    }
  }

  // ---- draining the port ----

  datatype Line = Junk | Reading(weight: real)

  /** What one line read at one time is recorded as: negative and unreadable ones are dropped. */
  function RecordedLine(line: Line, at: real): seq<Frame> {
    if IsValid(line) then [Frame(line.weight, at)] else []
  }

  /** The frames of the lines, read one after the other. */
  function Recorded(lines: seq<Line>, clock: nat -> real): seq<Frame> {
    if lines == [] then [] else
    var n := |lines| - 1;
    Recorded(lines[..n], clock) + RecordedLine(lines[n], clock(n))
  }

  predicate IsValid(line: Line) {
    line.Reading? && line.weight >= 0.0
  }

  /** The reader recorded the lines on top of what it had. */
  ghost predicate Records(frames: seq<Frame>, was: seq<Frame>, lines: seq<Line>, clock: nat -> real) {
    frames == was + Recorded(lines, clock)
  }

  lemma RecordsOneMore(frames: seq<Frame>, was: seq<Frame>, lines: seq<Line>, clock: nat -> real, line: Line)
    requires Records(frames, was, lines, clock)
    ensures Records(frames + RecordedLine(line, clock(|lines|)), was, lines + [line], clock)
  {
  }

  /** The frames are the lines at these positions, each with the time it was read. */
  ghost predicate FramesAt(frames: seq<Frame>, lines: seq<Line>, clock: nat -> real, at: seq<nat>) {
    |frames| == |at| && forall k | 0 <= k < |at| :: FrameAt(frames[k], lines, clock, at[k])
  }

  ghost predicate FrameAt(frame: Frame, lines: seq<Line>, clock: nat -> real, i: nat) {
    i < |lines| && lines[i] == Reading(frame.weight) && clock(i) == frame.at
  }

  lemma FramesOfMore(frames: seq<Frame>, lines: seq<Line>, clock: nat -> real, at: seq<nat>, line: Line)
    requires FramesAt(frames, lines, clock, at)
    ensures FramesAt(frames, lines + [line], clock, at)
  {
    forall k | 0 <= k < |at| ensures FrameAt(frames[k], lines + [line], clock, at[k]) {
      assert FrameAt(frames[k], lines, clock, at[k]);
    }
  }

  /** Recorded of the lines is every weight that is not negative, in order, each once, with the time it was read. */
  lemma {:induction false} RecordedIsValidLines(lines: seq<Line>, clock: nat -> real) returns (at: seq<nat>)
    ensures AllWhere(lines, 0, at, (l: Line) => l.Reading? && l.weight >= 0.0)
    ensures FramesAt(Recorded(lines, clock), lines, clock, at)
  {
    at := [];
    if lines != [] {
      var n := |lines| - 1;
      at := RecordedIsValidLines(lines[..n], clock);
      OneBehind(lines, at, (l: Line) => l.Reading? && l.weight >= 0.0);
      FramesOfMore(Recorded(lines[..n], clock), lines[..n], clock, at, lines[n]);
      assert lines[..n] + [lines[n]] == lines;
      if lines[n].Reading? && lines[n].weight >= 0.0 { at := at + [n]; }
    }
  }

  /** The last recorded frame is the newest valid line of the pass. */
  lemma {:induction false} NewestIsLast(lines: seq<Line>, clock: nat -> real, k: nat)
    requires k < |lines| && lines[k].Reading? && lines[k].weight >= 0.0
    requires forall i :: k < i < |lines| ==> lines[i].Junk? || lines[i].weight < 0.0
    ensures var r := Recorded(lines, clock);
            r != [] && r[|r| - 1] == Frame(lines[k].weight, clock(k))
  {
    var n := |lines| - 1;
    if k < n {
      NewestIsLast(lines[..n], clock, k);
    }
  }

  /** Lines that arrive before the first read and before each test for more. */
  function Arrived(arriving: nat -> seq<Line>, n: nat): seq<Line> {
    if n == 0 then [] else Arrived(arriving, n - 1) + arriving(n - 1)
  }

  function Drained(backlog: nat): nat {
    if backlog < MAX_FRAMES_PER_DRAIN then backlog else MAX_FRAMES_PER_DRAIN
  }

  /** The lines read so far and those still buffered are all that was there and arrived, in order. */
  ghost predicate NothingLost(lines: seq<Line>, port: seq<Line>, start: seq<Line>, arriving: nat -> seq<Line>, passed: nat) {
    lines + port == start + Arrived(arriving, passed)
  }

  lemma FirstArrivals(start: seq<Line>, arriving: nat -> seq<Line>)
    ensures NothingLost([], start + arriving(0), start, arriving, 1)
  {
    assert Arrived(arriving, 1) == [] + arriving(0);
  }

  lemma ReadOne(lines: seq<Line>, port: seq<Line>, start: seq<Line>, arriving: nat -> seq<Line>, passed: nat)
    requires port != [] && NothingLost(lines, port, start, arriving, passed)
    ensures NothingLost(lines + [port[0]], port[1..] + arriving(passed), start, arriving, passed + 1)
  {
    var more, arrived := arriving(passed), Arrived(arriving, passed);
    assert (lines + [port[0]]) + (port[1..] + more) == (lines + port) + more;
    assert (start + arrived) + more == start + (arrived + more);
  }

  /** The pass took min(backlog, 64) lines from the front of all that was there and arrived. */
  ghost predicate PassDone(start: seq<Line>, arriving: nat -> seq<Line>, passed: nat, lines: seq<Line>, port: seq<Line>) {
    var all := start + Arrived(arriving, passed);
    lines == all[..Drained(|all|)] && port == all[Drained(|all|)..]
  }

  /** Within a pass: nothing is lost, and the lines read are recorded. */
  ghost predicate Draining(lines: seq<Line>, port: seq<Line>, frames: seq<Frame>, start: seq<Line>, was: seq<Frame>,
                           arriving: nat -> seq<Line>, clock: nat -> real, passed: nat) {
    NothingLost(lines, port, start, arriving, passed) && Records(frames, was, lines, clock)
  }

  lemma DrainingOneMore(lines: seq<Line>, port: seq<Line>, frames: seq<Frame>, start: seq<Line>, was: seq<Frame>,
                        arriving: nat -> seq<Line>, clock: nat -> real, passed: nat)
    requires port != [] && passed == |lines| + 1 && Draining(lines, port, frames, start, was, arriving, clock, passed)
    ensures Draining(lines + [port[0]], port[1..] + arriving(passed), frames + RecordedLine(port[0], clock(|lines|)), start, was,
                     arriving, clock, passed + 1)
  {
    ReadOne(lines, port, start, arriving, passed);
    RecordsOneMore(frames, was, lines, clock, port[0]);
  }

  lemma DrainEnds(lines: seq<Line>, port: seq<Line>, start: seq<Line>, arriving: nat -> seq<Line>, passed: nat)
    requires NothingLost(lines, port, start, arriving, passed)
    requires |lines| <= MAX_FRAMES_PER_DRAIN && (port == [] || |lines| == MAX_FRAMES_PER_DRAIN)
    ensures PassDone(start, arriving, passed, lines, port)
  {
    var all := start + Arrived(arriving, passed);
    assert |lines + port| == |all| && (lines + port)[..|lines|] == lines && (lines + port)[|lines|..] == port;
  }

  /** The window of one frame more needs only the old window. */
  lemma WindowMoves(frames: seq<Frame>, f: Frame)
    ensures Last(Weights(frames + [f]), STABLE_COUNT) == Last(Last(Weights(frames), STABLE_COUNT) + [f.weight], STABLE_COUNT)
  {
    assert Weights(frames + [f]) == Weights(frames) + [f.weight];
  }

  /** The lines of one pass: those that arrive while it runs, then those that arrive before the next. */
  datatype Pass = Pass(during: seq<Line>, after: seq<Line>)

  function Backlog(port: seq<Line>, passes: seq<Pass>): seq<Line> {
    if passes == [] then port else
    var n := |passes| - 1;
    var seen := Backlog(port, passes[..n]) + passes[n].during;
    seen[Drained(|seen|)..] + passes[n].after
  }

  /** If at most 64 lines arrive per pass, a backlog of at most 64 never exceeds 64, whenever they arrive. */
  lemma {:induction false} BacklogStaysBounded(port: seq<Line>, passes: seq<Pass>)
    requires |port| <= 64
    requires forall k :: 0 <= k < |passes| ==> |passes[k].during| + |passes[k].after| <= 64
    ensures |Backlog(port, passes)| <= 64
  {
    if passes != [] {
      BacklogStaysBounded(port, passes[..|passes| - 1]);
    }
  }

  /** And 64 is the limit: with 65 lines per pass the backlog grows without bound. */
  lemma {:induction false} FasterLinesPileUp(line: Line, passes: nat)
    ensures |Backlog([], seq(passes, _ => Pass(seq(65, _ => line), [])))| == passes
  {
    if passes > 0 {
      FasterLinesPileUp(line, passes - 1);
      var all := seq(passes, _ => Pass(seq(65, _ => line), []));
      assert all[..passes - 1] == seq(passes - 1, _ => Pass(seq(65, _ => line), []));
    }
  }

  /** All lines of the passes, in the order they arrive. */
  function AllLines(port: seq<Line>, passes: seq<Pass>): seq<Line> {
    if passes == [] then port else
    var n := |passes| - 1;
    AllLines(port, passes[..n]) + passes[n].during + passes[n].after
  }

  /** These lines are left of all when so many have been read. */
  predicate LeftOf(left: seq<Line>, all: seq<Line>, read: nat) {
    read <= |all| && left == all[read..]
  }

  /** No line is lost or overtaken: the backlog is what is left behind the lines read, at most 64 a pass. */
  lemma {:induction false} BacklogIsTheRest(port: seq<Line>, passes: seq<Pass>) returns (read: nat)
    ensures read <= 64 * |passes| && LeftOf(Backlog(port, passes), AllLines(port, passes), read)
  {
    read := 0;
    if passes != [] {
      var n := |passes| - 1;
      var before := BacklogIsTheRest(port, passes[..n]);
      var left, all, p := Backlog(port, passes[..n]), AllLines(port, passes[..n]), passes[n];
      var more := Drained(|left + p.during|);
      read := before + more;
      LeftAfter(left, all, p.during, p.after, before, more);
    }
  }

  lemma LeftAfter(left: seq<Line>, all: seq<Line>, during: seq<Line>, after: seq<Line>, before: nat, more: nat)
    requires LeftOf(left, all, before) && more <= |left + during|
    ensures LeftOf((left + during)[more..] + after, all + during + after, before + more)
  {
  }

  /** The lines of each pass are those that arrive while it reads, up to some moment, and then before the next. */
  ghost predicate ArriveSo(passes: seq<Pass>, arriving: nat -> nat -> seq<Line>, between: nat -> seq<Line>) {
    forall k | 0 <= k < |passes| :: passes[k].after == between(k) && ArrivedBy(passes[k].during, arriving(k))
  }

  ghost predicate ArrivedBy(lines: seq<Line>, arriving: nat -> seq<Line>) {
    exists m :: lines == Arrived(arriving, m)
  }

  /** At most 64 lines per pass, however long it takes. */
  ghost predicate SlowEnough(arriving: nat -> nat -> seq<Line>, between: nat -> seq<Line>) {
    forall k: nat, m: nat :: |Arrived(arriving(k), m)| + |between(k)| <= 64
  }

  lemma SlowIsBounded(start: seq<Line>, passes: seq<Pass>, arriving: nat -> nat -> seq<Line>, between: nat -> seq<Line>)
    requires ArriveSo(passes, arriving, between)
    ensures |start| <= 64 && SlowEnough(arriving, between) ==> |Backlog(start, passes)| <= 64
  {
    if |start| <= 64 && SlowEnough(arriving, between) {
      forall k | 0 <= k < |passes| ensures |passes[k].during| + |passes[k].after| <= 64 {
        var m :| passes[k].during == Arrived(arriving(k), m);
      }
      BacklogStaysBounded(start, passes);
    }
  }

  ghost predicate AfterPasses(start: seq<Line>, passes: seq<Pass>, port: seq<Line>, arriving: nat -> nat -> seq<Line>,
                              between: nat -> seq<Line>) {
    port == Backlog(start, passes) && ArriveSo(passes, arriving, between)
  }

  lemma NextPass(start: seq<Line>, passes: seq<Pass>, was: seq<Line>, port: seq<Line>, passed: nat,
                 arriving: nat -> nat -> seq<Line>, between: nat -> seq<Line>)
    requires AfterPasses(start, passes, was, arriving, between)
    requires exists lines :: PassDone(was, arriving(|passes|), passed, lines, port)
    ensures var k := |passes|;
            AfterPasses(start, passes + [Pass(Arrived(arriving(k), passed), between(k))], port + between(k), arriving, between)
  {
    var pass := Pass(Arrived(arriving(|passes|), passed), between(|passes|));
    assert (passes + [pass])[..|passes|] == passes;
  }

  class SerialReader {
    var weight: real
    var stable: bool
    var connected: bool
    var recent: seq<real>
    var lastFrameAt: real
    var everReceived: bool
    var frameCount: nat
    var port: seq<Line>
    ghost var frames: seq<Frame>

    ghost predicate Valid()
      reads this
    {
      && recent == Last(Weights(frames), STABLE_COUNT)
      && stable == IsStable(recent)
      && everReceived == (frames != []) && frameCount == |frames|
      && (if frames == [] then weight == 0.0 else frames[|frames| - 1] == Frame(weight, lastFrameAt))
    }

    constructor (now: real)
      ensures Valid() && frames == [] && port == [] && !connected
    {
      weight, stable, connected, recent := 0.0, false, false, [];
      lastFrameAt, everReceived, frameCount := now, false, 0;
      port, frames := [], [];
    }

    method UpdateWeight(raw: real, now: real)
      requires Valid()
      modifies this
      ensures Valid() && frames == old(frames) + [Frame(raw, now)]
      ensures connected == old(connected) && port == old(port)
    {
      ghost var all := frames + [Frame(raw, now)];
      WindowMoves(frames, Frame(raw, now));
      var window := recent + [raw];
      if |window| > STABLE_COUNT {
        window := window[|window| - STABLE_COUNT..];
      }
      assert window == Last(Weights(all), STABLE_COUNT);
      weight, lastFrameAt, everReceived, frameCount := raw, now, true, frameCount + 1;
      recent := window;
      stable := |window| >= STABLE_COUNT && Max(window) - Min(window) <= STABLE_TOLERANCE;
      frames := all;
    }

    /** readline, and what arrives by the time the buffer is looked at again. */
    method ReadLine(now: real, more: seq<Line>) returns (valid: bool)
      requires Valid() && port != []
      modifies this
      ensures Valid() && frames == old(frames) + RecordedLine(old(port)[0], now)
      ensures frameCount == old(frameCount) + if valid then 1 else 0
      ensures port == old(port)[1..] + more && connected == old(connected)
    {
      var line := port[0];
      port := port[1..];
      valid := line.Reading? && line.weight >= 0.0;
      if valid {
        UpdateWeight(line.weight, now);
      }
      port := port + more;
    }

    /** One readline of a pass. */
    method DrainOne(now: real, more: seq<Line>, ghost lines: seq<Line>, ghost start: seq<Line>, ghost was: seq<Frame>,
                    ghost arriving: nat -> seq<Line>, ghost clock: nat -> real, ghost passed: nat)
      returns (valid: bool, ghost lines': seq<Line>, ghost passed': nat)
      requires Valid() && port != [] && passed == |lines| + 1 && now == clock(|lines|) && more == arriving(passed)
      requires Draining(lines, port, frames, start, was, arriving, clock, passed)
      modifies this
      ensures Valid() && connected == old(connected) && |lines'| == |lines| + 1 && passed' == passed + 1
      ensures Draining(lines', port, frames, start, was, arriving, clock, passed')
      ensures frameCount == old(frameCount) + if valid then 1 else 0
    {
      DrainingOneMore(lines, port, frames, start, was, arriving, clock, passed);
      lines', passed' := lines + [port[0]], passed + 1;
      valid := ReadLine(now, more);
    }

    /** What the status says is a function of the recorded frames alone. */
    method GetStatus(now: real) returns (s: Status)
      requires Valid()
      ensures s == StatusOf(frames, connected, now)
    {
      var stale := everReceived && now - lastFrameAt > STALE_THRESHOLD;
      var ageMs := if everReceived then Some(Truncate((now - lastFrameAt) * 1000.0)) else None;
      s := Status(if stale then 0.0 else weight, if stale then false else stable, connected, stale, ageMs, frameCount);
    }

    /** One pass reads min(backlog, 64) lines in order, counting the lines that arrive meanwhile. */
    method DrainFrames(arriving: nat -> seq<Line>, clock: nat -> real)
        returns (gotFrame: bool, ghost passed: nat, ghost lines: seq<Line>)
      requires Valid()
      modifies this
      ensures Valid() && connected == old(connected)
      ensures PassDone(old(port), arriving, passed, lines, port)
      ensures Records(frames, old(frames), lines, clock)
      ensures gotFrame <==> frameCount > old(frameCount)
    {
      ghost var start, was, count := port, frames, frameCount;
      gotFrame, lines, passed := false, [], 1;
      port := port + arriving(0);
      FirstArrivals(start, arriving);
      for n := 0 to MAX_FRAMES_PER_DRAIN
        invariant Valid() && connected == old(connected) && |lines| == n && passed == n + 1
        invariant Draining(lines, port, frames, start, was, arriving, clock, passed)
        invariant frameCount >= count && (gotFrame <==> frameCount > count)
      {
        if port == [] { break; }
        var valid;
        valid, lines, passed := DrainOne(clock(n), arriving(n + 1), lines, start, was, arriving, clock, passed);
        gotFrame := gotFrame || valid;
        if port == [] { break; }
      }
      DrainEnds(lines, port, start, arriving, passed);
    }

    /** The reader's loop: pass after pass. Lines of pass k arrive by arriving(k) while it reads and as between(k)
        before the next one. A bounded rate keeps the backlog bounded. */
    method DrainRepeatedly(n: nat, arriving: nat -> nat -> seq<Line>, between: nat -> seq<Line>, clock: nat -> nat -> real)
        returns (ghost passes: seq<Pass>)
      requires Valid()
      modifies this
      ensures Valid() && |passes| == n && port == Backlog(old(port), passes) && ArriveSo(passes, arriving, between)
      ensures |old(port)| <= 64 && SlowEnough(arriving, between) ==> |port| <= 64
    {
      passes := [];
      ghost var start := port;
      for k := 0 to n
        invariant Valid() && |passes| == k && AfterPasses(start, passes, port, arriving, between)
      {
        var got;
        ghost var was, passed, lines := port, 0, [];
        got, passed, lines := DrainFrames(arriving(k), clock(k));
        NextPass(start, passes, was, port, passed, arriving, between);
        port := port + between(k);
        passes := passes + [Pass(Arrived(arriving(k), passed), between(k))];
      }
      SlowIsBounded(start, passes, arriving, between);
    }
  }
}
