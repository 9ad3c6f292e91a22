/** One running check (src/execute.rs): process group, pipes, capture threads, clock and token as one transition system. */
module Lifecycle {
  // Every shared access is one atomic event and events interleave arbitrarily. A process that leaves the group, or that
  // cannot be signalled, is outside the model.

  import opened Basics

  const SUMMARY_BYTES: nat := 4096

  const READ_BUFFER_BYTES: nat := 8192

  datatype Status = Exited(code: int) | Signalled(signal: nat)

  datatype Leader = Running | Zombie(status: Status) | Reaped(status: Status)

  datatype Phase =
    | Reading
    | Adding(chunk: Bytes)      // about to fetch_add the chunk's length to the shared total
    | Flagging(chunk: Bytes)    // about to raise the shared limit flag
    | Closed
    | Broken

  /** A pipe and the thread that drains it: `stream` is all that was ever written to the pipe, `position` how much
      of it was read, `file` what was written to the temporary log and `hashed` what was fed to the hasher. */
  datatype Capture = Capture(stream: Bytes, position: nat, file: Bytes, hashed: Bytes, bytes: nat, tail: Bytes,
                             truncated: bool, phase: Phase)

  datatype Sys = Sys(now: nat, cancelled: bool, leader: Leader, others: set<nat>,
                     out: Capture, err: Capture, total: nat, limit: bool)

  datatype Stream = Stdout | Stderr

  datatype Event =
    | Tick(ms: nat)
    | Cancel
    | LeaderExits(status: Status)
    | Fork(pid: nat)
    | Exit(pid: nat)
    | Emit(stream: Stream, bytes: Bytes)
    | Read(stream: Stream, count: nat)
    | Add(stream: Stream)
    | Flag(stream: Stream)
    | Fail(stream: Stream)

  const EMPTY: Capture := Capture([], 0, [], [], 0, [], false, Reading)

  function Of(s: Sys, stream: Stream): Capture {
    match stream case Stdout => s.out case Stderr => s.err
  }

  function With(s: Sys, stream: Stream, c: Capture): Sys {
    match stream case Stdout => s.(out := c) case Stderr => s.(err := c)
  }

  /** Some member of the group is alive, so the group can fork, write and keep the pipes open. */
  predicate Live(s: Sys) {
    s.leader.Running? || s.others != {}
  }

  function LastBytes(s: Bytes, n: nat): (r: Bytes)
    ensures |r| == Min(|s|, n)
  {
    if |s| > n then s[|s| - n..] else s
  }

  function SaturatingAdd(a: nat, b: nat): nat {
    Min(a + b, U64_MAX)
  }

  /** Appends a chunk to the summary tail and drops the excess. */
  function Absorb(c: Capture, chunk: Bytes): Capture {
    c.(tail := LastBytes(c.tail + chunk, SUMMARY_BYTES),
       truncated := c.truncated || |c.tail + chunk| > SUMMARY_BYTES,
       phase := Reading)
  }

  /** What a thread does on its own with a chunk it has read: write it to the log, hash it, count it. */
  function Take(c: Capture, chunk: Bytes): Capture {
    c.(position := c.position + |chunk|, file := c.file + chunk, hashed := c.hashed + chunk,
       bytes := SaturatingAdd(c.bytes, |chunk|), phase := Adding(chunk))
  }

  /** One `read` of at most `count` bytes into the buffer; zero bytes means end of file, once no writer is left. */
  function Fill(c: Capture, count: nat, live: bool): Capture {
    if !c.phase.Reading? || c.position > |c.stream| then c
    else
      var k := Min(Min(count, READ_BUFFER_BYTES), |c.stream| - c.position);
      if k > 0 then Take(c, c.stream[c.position..c.position + k])
      else if c.position == |c.stream| && !live then c.(phase := Closed)
      else c
  }

  /** What follows the `fetch_add` of the pending chunk. */
  function AfterAdd(c: Capture, over: bool): Capture
    requires c.phase.Adding?
  {
    if over then c.(phase := Flagging(c.phase.chunk)) else Absorb(c, c.phase.chunk)
  }

  /** The effect of one event; an event that is not enabled does nothing. */
  function Apply(max: nat, s: Sys, e: Event): Sys {
    match e
    case Tick(ms) => s.(now := s.now + ms)
    case Cancel => s.(cancelled := true)
    case LeaderExits(status) => if s.leader.Running? then s.(leader := Zombie(status)) else s
    case Fork(pid) => if Live(s) then s.(others := s.others + {pid}) else s
    case Exit(pid) => s.(others := s.others - {pid})
    case Emit(stream, bytes) =>
      if Live(s) then With(s, stream, Of(s, stream).(stream := Of(s, stream).stream + bytes)) else s
    case Read(stream, count) => With(s, stream, Fill(Of(s, stream), count, Live(s)))
    case Add(stream) =>
      var c := Of(s, stream);
      if c.phase.Adding? then
        With(s.(total := (s.total + |c.phase.chunk|) % U64_MODULUS), stream,
             AfterAdd(c, SaturatingAdd(s.total, |c.phase.chunk|) > max))
      else s
    case Flag(stream) =>
      var c := Of(s, stream);
      if c.phase.Flagging? then With(s.(limit := true), stream, Absorb(c, c.phase.chunk)) else s
    case Fail(stream) =>
      if Of(s, stream).phase.Closed? then s else With(s, stream, Of(s, stream).(phase := Broken))
  }

  function ApplyAll(max: nat, s: Sys, events: seq<Event>): Sys
    decreases |events|
  {
    if events == [] then s else ApplyAll(max, Apply(max, s, events[0]), events[1..])
  }

  /** The state right after `spawn`: the leader runs and nothing has been written. */
  predicate Spawned(s: Sys) {
    s.leader.Running? && s.others == {} && Pristine(s.out) && Pristine(s.err) && s.total == 0 && !s.limit
  }

  /** Nothing has been written to the pipe or read from it. */
  predicate Pristine(c: Capture) {
    |c.stream| == c.position == |c.file| == |c.hashed| == c.bytes == |c.tail| == 0 && !c.truncated && c.phase.Reading?
  }

  /** The chunk read but not yet in the shared total. */
  function Uncounted(c: Capture): nat {
    if c.phase.Adding? then |c.phase.chunk| else 0
  }

  /** The chunk read but not yet in the summary tail. */
  function Unsummarised(c: Capture): nat {
    if c.phase.Adding? || c.phase.Flagging? then |c.phase.chunk| else 0
  }

  function Counted(c: Capture): int {
    c.position - Uncounted(c)
  }

  /** Everything a capture thread holds is determined by the prefix of the stream it has read. */
  predicate CaptureInv(c: Capture) {
    && c.position == |c.file| && c.hashed == c.file && c.file <= c.stream
    && Unsummarised(c) <= |c.file|
    && c.bytes == Min(|c.file|, U64_MAX)
    && (!c.phase.Broken? ==>
          var absorbed := c.file[..|c.file| - Unsummarised(c)];
          && c.tail == LastBytes(absorbed, SUMMARY_BYTES)
          && (c.truncated <==> |absorbed| > SUMMARY_BYTES))
    && (c.phase.Adding? || c.phase.Flagging? ==> c.phase.chunk == c.file[|c.file| - |c.phase.chunk|..])
    && (c.phase.Closed? ==> c.file == c.stream)
  }

  /** Neither thread has failed and all bytes written so far can be counted in a u64. */
  predicate Countable(s: Sys) {
    !s.out.phase.Broken? && !s.err.phase.Broken? && |s.out.stream| + |s.err.stream| < U64_MODULUS
  }

  /** The shared counters agree with what the two threads have counted, at every step. */
  predicate CountersInv(max: nat, s: Sys) {
    Countable(s) ==>
      && s.total == Counted(s.out) + Counted(s.err)
      && (s.limit ==> s.total > max)
      && (s.out.phase.Flagging? || s.err.phase.Flagging? ==> s.total > max)
      && (s.total > max ==> s.limit || s.out.phase.Flagging? || s.err.phase.Flagging?)
  }

  predicate Inv(max: nat, s: Sys) {
    && CaptureInv(s.out) && CaptureInv(s.err)
    && (s.out.phase.Closed? || s.err.phase.Closed? ==> !Live(s))
    && CountersInv(max, s)
  }

  lemma PristineInv(c: Capture)
    requires Pristine(c)
    ensures CaptureInv(c)
  {
    assert c.hashed == c.file;
    assert c.tail == LastBytes(c.file[..0], SUMMARY_BYTES);
  }

  lemma IdleInv(max: nat, s: Sys)
    requires s.others == {} && Pristine(s.out) && Pristine(s.err) && s.total == 0 && !s.limit
    ensures Inv(max, s)
  {
    PristineInv(s.out);
    PristineInv(s.err);
  }

  lemma SpawnedInv(max: nat, s: Sys)
    requires Spawned(s)
    ensures Inv(max, s)
  {
    IdleInv(max, s);
  }

  /** The tail of the tail with a chunk is the tail of everything. */
  lemma LastBytesAbsorb(absorbed: Bytes, chunk: Bytes, n: nat)
    ensures LastBytes(LastBytes(absorbed, n) + chunk, n) == LastBytes(absorbed + chunk, n)
    ensures |LastBytes(absorbed, n) + chunk| > n || |absorbed| > n <==> |absorbed + chunk| > n
  {
  }

  lemma SplitChunk(file: Bytes, chunk: Bytes)
    requires |chunk| <= |file| && chunk == file[|file| - |chunk|..]
    ensures file[..|file| - |chunk|] + chunk == file && file[..|file|] == file
  {
  }

  lemma AbsorbInv(c: Capture, chunk: Bytes)
    requires CaptureInv(c) && (c.phase == Adding(chunk) || c.phase == Flagging(chunk))
    ensures CaptureInv(Absorb(c, chunk))
  {
    LastBytesAbsorb(c.file[..|c.file| - |chunk|], chunk, SUMMARY_BYTES);
    SplitChunk(c.file, chunk);
  }

  lemma FillInv(c: Capture, count: nat, live: bool)
    requires CaptureInv(c)
    ensures CaptureInv(Fill(c, count, live))
  {
    if c.phase.Reading? && Min(Min(count, READ_BUFFER_BYTES), |c.stream| - |c.file|) > 0 {
      ReadChunk(c, Min(Min(count, READ_BUFFER_BYTES), |c.stream| - |c.file|));
    }
  }

  /** A read counts nothing and raises no flag. */
  lemma FillKeeps(c: Capture, count: nat, live: bool)
    ensures var c' := Fill(c, count, live);
            && c'.stream == c.stream && Counted(c') == Counted(c)
            && (c'.phase.Flagging? <==> c.phase.Flagging?) && (c'.phase.Broken? <==> c.phase.Broken?)
            && (c'.phase.Closed? && !c.phase.Closed? ==> !live)
  {
  }

  lemma ReadChunk(c: Capture, k: nat)
    requires CaptureInv(c) && c.phase.Reading? && 0 < k <= |c.stream| - |c.file|
    ensures var chunk := c.stream[|c.file|..|c.file| + k];
            CaptureInv(Take(c, chunk))
  {
    var chunk := c.stream[|c.file|..|c.file| + k];
    var file := c.file + chunk;
    assert file == c.stream[..|c.file| + k];
    assert file[..|file| - k] == c.file && c.file[..|c.file|] == c.file;
    assert file[|file| - k..] == chunk;
  }

  lemma EmitInv(c: Capture, bytes: Bytes)
    requires CaptureInv(c) && !c.phase.Closed?
    ensures CaptureInv(c.(stream := c.stream + bytes))
  {
  }

  /** Reading moves bytes into a pending chunk: no shared counter changes, and the other thread is untouched. */
  lemma ReadStep(max: nat, s: Sys, stream: Stream, count: nat)
    requires Inv(max, s)
    ensures var s' := Apply(max, s, Read(stream, count));
            && Inv(max, s') && s'.total == s.total && s'.limit == s.limit
            && Counted(s'.out) == Counted(s.out) && Counted(s'.err) == Counted(s.err)
            && (stream.Stdout? ==> s'.err == s.err) && (stream.Stderr? ==> s'.out == s.out)
  {
    FillInv(Of(s, stream), count, Live(s));
    FillKeeps(Of(s, stream), count, Live(s));
  }

  /** `fetch_add` moves the pending chunk into the shared total and decides on its result. */
  lemma AddStep(max: nat, s: Sys, stream: Stream)
    requires Inv(max, s)
    ensures Inv(max, Apply(max, s, Add(stream)))
  {
    var c := Of(s, stream);
    if c.phase.Adding? {
      AddCapture(c, SaturatingAdd(s.total, |c.phase.chunk|) > max);
      AddCounters(max, s, stream);
    }
  }

  lemma AddCapture(c: Capture, over: bool)
    requires CaptureInv(c) && c.phase.Adding?
    ensures CaptureInv(AfterAdd(c, over)) && !AfterAdd(c, over).phase.Closed?
  {
    AbsorbInv(c, c.phase.chunk);
  }

  lemma NoWrap(total: nat, k: nat)
    requires total + k < U64_MODULUS
    ensures (total + k) % U64_MODULUS == total + k == SaturatingAdd(total, k)
  {
  }

  /** Before the addition the total leaves room for the pending chunk. */
  lemma ChunkFits(max: nat, s: Sys, stream: Stream)
    requires Inv(max, s) && Countable(s) && Of(s, stream).phase.Adding?
    ensures s.total + |Of(s, stream).phase.chunk| < U64_MODULUS
  {
    assert |s.out.file| <= |s.out.stream| && |s.err.file| <= |s.err.stream|;
    assert Counted(Of(s, stream)) + |Of(s, stream).phase.chunk| == |Of(s, stream).file|;
  }

  lemma AddCounters(max: nat, s: Sys, stream: Stream)
    requires Inv(max, s) && Of(s, stream).phase.Adding?
    ensures CountersInv(max, Apply(max, s, Add(stream)))
  {
    var s' := Apply(max, s, Add(stream));
    if Countable(s') {
      var c, k := Of(s, stream), |Of(s, stream).phase.chunk|;
      assert Countable(s);
      ChunkFits(max, s, stream);
      NoWrap(s.total, k);
      assert s'.total == s.total + k && Of(s', stream) == AfterAdd(c, s.total + k > max);
      assert Counted(Of(s', stream)) == Counted(c) + k;
    }
  }

  lemma FlagStep(max: nat, s: Sys, stream: Stream)
    requires Inv(max, s)
    ensures Inv(max, Apply(max, s, Flag(stream)))
  {
    var c := Of(s, stream);
    if c.phase.Flagging? {
      AbsorbInv(c, c.phase.chunk);
    }
  }

  lemma EmitStep(max: nat, s: Sys, stream: Stream, bytes: Bytes)
    requires Inv(max, s)
    ensures Inv(max, Apply(max, s, Emit(stream, bytes)))
    ensures Of(Apply(max, s, Emit(stream, bytes)), stream).stream == Of(s, stream).stream + if Live(s) then bytes else []
  {
    if Live(s) {
      EmitInv(Of(s, stream), bytes);
    }
  }

  lemma GroupStep(max: nat, s: Sys, e: Event)
    requires Inv(max, s) && (e.LeaderExits? || e.Fork? || e.Exit?)
    ensures Inv(max, Apply(max, s, e))
  {
    var s' := Apply(max, s, e);
    assert !Live(s) ==> !Live(s');
    assert s'.out == s.out && s'.err == s.err && s'.total == s.total && s'.limit == s.limit;
  }

  lemma FailStep(max: nat, s: Sys, stream: Stream)
    requires Inv(max, s)
    ensures Inv(max, Apply(max, s, Fail(stream)))
  {
    assert CaptureInv(Of(s, stream).(phase := Broken));
  }

  /** Every event keeps the invariant, whichever thread or process it belongs to. */
  lemma ApplyInv(max: nat, s: Sys, e: Event)
    requires Inv(max, s)
    ensures Inv(max, Apply(max, s, e))
  {
    match e
    case Tick(ms) =>
      assert Apply(max, s, e) == s.(now := s.now + ms);
    case Cancel =>
      assert Apply(max, s, e) == s.(cancelled := true);
    case Read(stream, count) => ReadStep(max, s, stream, count);
    case Add(stream) => AddStep(max, s, stream);
    case Flag(stream) => FlagStep(max, s, stream);
    case Emit(stream, bytes) => EmitStep(max, s, stream, bytes);
    case Fail(stream) => FailStep(max, s, stream);
    case _ => GroupStep(max, s, e);
  }

  lemma {:induction false} ApplyAllInv(max: nat, s: Sys, events: seq<Event>)
    requires Inv(max, s)
    ensures Inv(max, ApplyAll(max, s, events))
    decreases |events|
  {
    if events != [] {
      ApplyInv(max, s, events[0]);
      ApplyAllInv(max, Apply(max, s, events[0]), events[1..]);
    }
  }

  /** How far a capture thread is from end of file when nobody writes any more. */
  function Remaining(c: Capture): int {
    match c.phase
    case Adding(_) => 3 * (|c.stream| - c.position) + 3
    case Flagging(_) => 3 * (|c.stream| - c.position) + 2
    case Reading => 3 * (|c.stream| - c.position) + 1
    case _ => 0
  }

  /** A capture only advances; with no writer left its distance to end of file never grows. */
  predicate CaptureEvolves(c: Capture, c': Capture, live: bool) {
    && c.stream <= c'.stream
    && (c.phase.Closed? ==> c' == c)
    && (c.phase.Broken? ==> c'.phase.Broken?)
    && (!live ==> c'.stream == c.stream && Remaining(c') <= Remaining(c))
  }

  /** Facts about the environment that no event undoes. */
  predicate Evolves(s: Sys, s': Sys) {
    && s.now <= s'.now
    && (s.cancelled ==> s'.cancelled)
    && (s.limit ==> s'.limit)
    && (s'.leader == s.leader || (s.leader.Running? && s'.leader.Zombie?))
    && (!Live(s) ==> !Live(s'))
    && CaptureEvolves(s.out, s'.out, Live(s))
    && CaptureEvolves(s.err, s'.err, Live(s))
  }

  lemma FillEvolves(c: Capture, count: nat, live: bool)
    requires CaptureInv(c)
    ensures CaptureEvolves(c, Fill(c, count, live), live)
  {
  }

  lemma ReadEvolves(max: nat, s: Sys, stream: Stream, count: nat)
    requires Inv(max, s)
    ensures Evolves(s, Apply(max, s, Read(stream, count)))
  {
    FillEvolves(Of(s, stream), count, Live(s));
  }

  lemma ApplyEvolves(max: nat, s: Sys, e: Event)
    requires Inv(max, s)
    ensures Evolves(s, Apply(max, s, e))
  {
    match e
    case Tick(ms) =>
      assert Apply(max, s, e) == s.(now := s.now + ms);
    case Cancel =>
      assert Apply(max, s, e) == s.(cancelled := true);
    case Read(stream, count) => ReadEvolves(max, s, stream, count);
    case Add(stream) => AddEvolves(max, s, stream);
    case Flag(stream) => FlagEvolves(max, s, stream);
    case Emit(stream, bytes) => EmitEvolves(max, s, stream, bytes);
    case Fail(stream) => FailEvolves(max, s, stream);
    case _ => GroupEvolves(max, s, e);
  }

  lemma FlagEvolves(max: nat, s: Sys, stream: Stream)
    requires Inv(max, s)
    ensures Evolves(s, Apply(max, s, Flag(stream)))
  {
  }

  lemma EmitEvolves(max: nat, s: Sys, stream: Stream, bytes: Bytes)
    requires Inv(max, s)
    ensures Evolves(s, Apply(max, s, Emit(stream, bytes)))
  {
  }

  lemma FailEvolves(max: nat, s: Sys, stream: Stream)
    requires Inv(max, s)
    ensures Evolves(s, Apply(max, s, Fail(stream)))
  {
  }

  lemma AddEvolves(max: nat, s: Sys, stream: Stream)
    requires Inv(max, s)
    ensures Evolves(s, Apply(max, s, Add(stream)))
  {
  }

  lemma GroupEvolves(max: nat, s: Sys, e: Event)
    requires Inv(max, s) && (e.LeaderExits? || e.Fork? || e.Exit?)
    ensures Evolves(s, Apply(max, s, e))
  {
    var s' := Apply(max, s, e);
    assert s'.out == s.out && s'.err == s.err && s'.limit == s.limit;
  }

  lemma {:induction false} ApplyAllEvolves(max: nat, s: Sys, events: seq<Event>)
    requires Inv(max, s)
    ensures Evolves(s, ApplyAll(max, s, events))
    decreases |events|
  {
    if events != [] {
      ApplyInv(max, s, events[0]);
      ApplyEvolves(max, s, events[0]);
      ApplyAllEvolves(max, Apply(max, s, events[0]), events[1..]);
    }
  }

  /** Both threads have reached end of file. */
  predicate Joined(s: Sys) {
    s.out.phase.Closed? && s.err.phase.Closed?
  }

  /** What a joined capture of `stream` must be, independently of how reads split it. */
  predicate Captures(c: Capture, stream: Bytes) {
    && c.file == stream && c.hashed == stream
    && c.bytes == Min(|stream|, U64_MAX)
    && c.tail == LastBytes(stream, SUMMARY_BYTES)
    && (c.truncated <==> |stream| > SUMMARY_BYTES)
  }

  /** Capture under every interleaving: after any events, a raised limit flag means the shared total is over the
      limit; once both threads are joined the flag is raised exactly when it is, the total is the number of bytes
      written, and each capture holds the whole stream and its last 4096 bytes. */
  lemma CaptureIsExact(max: nat, s: Sys, events: seq<Event>)
    requires Spawned(s)
    ensures var end := ApplyAll(max, s, events);
            && (Countable(end) && end.limit ==> end.total > max)
            && (Joined(end) ==> Captures(end.out, end.out.stream) && Captures(end.err, end.err.stream))
            && (Joined(end) && Countable(end) ==>
                  && end.total == |end.out.stream| + |end.err.stream|
                  && (end.limit <==> end.total > max))
  {
    SpawnedInv(max, s);
    ApplyAllInv(max, s, events);
    var end := ApplyAll(max, s, events);
    JoinedCapture(end.out);
    JoinedCapture(end.err);
  }

  lemma JoinedCapture(c: Capture)
    requires CaptureInv(c)
    ensures c.phase.Closed? ==> Captures(c, c.stream)
  {
    assert c.file[..|c.file|] == c.file;
  }
}
