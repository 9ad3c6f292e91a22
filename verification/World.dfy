/** The main thread of `execute_check`: polling, termination and joining, against an arbitrary environment. */
module World {
  import opened Basics
  import opened Lifecycle
  import opened Model

  const POLL_INTERVAL_MS: nat := 25

  const GRACE_PERIOD_MS: nat := 500

  const ORPHAN_DELAY_MS: nat := 100

  const SIGKILL: nat := 9

  /** SIGKILL reaches every member of the group at once, so none is left to fork. */
  function Killed(s: Sys): Sys {
    s.(leader := if s.leader.Running? then Zombie(Signalled(SIGKILL)) else s.leader, others := {})
  }

  lemma KilledInv(max: nat, s: Sys)
    requires Inv(max, s)
    ensures Inv(max, Killed(s)) && !Live(Killed(s)) && Evolves(s, Killed(s))
  {
  }

  /** The next event of a capture thread scheduled on its own. */
  function Next(stream: Stream, c: Capture): Event {
    match c.phase
    case Adding(_) => Add(stream)
    case Flagging(_) => Flag(stream)
    case _ => Lifecycle.Read(stream, READ_BUFFER_BYTES)
  }

  lemma FillProgresses(c: Capture)
    requires CaptureInv(c) && c.phase.Reading?
    ensures 0 <= Remaining(Fill(c, READ_BUFFER_BYTES, false)) < Remaining(c)
  {
  }

  lemma NextProgresses(max: nat, s: Sys, stream: Stream)
    requires Inv(max, s) && !Live(s)
    requires !Of(s, stream).phase.Closed? && !Of(s, stream).phase.Broken?
    ensures 0 <= Remaining(Of(Apply(max, s, Next(stream, Of(s, stream))), stream)) < Remaining(Of(s, stream))
  {
    if Of(s, stream).phase.Reading? {
      FillProgresses(Of(s, stream));
    }
  }

  lemma NextWorking(max: nat, s: Sys, stream: Stream)
    ensures Working(s) ==> Working(Apply(max, s, Next(stream, Of(s, stream))))
  {
  }

  lemma EvolvesTransitive(a: Sys, b: Sys, c: Sys)
    requires Evolves(a, b) && Evolves(b, c)
    ensures Evolves(a, c)
  {
  }

  /** What the main thread can rely on across any number of its own and other actions. */
  predicate Later(s: Sys, s': Sys) {
    && s.now <= s'.now
    && (s.cancelled ==> s'.cancelled)
    && (s.limit ==> s'.limit)
    && (!Live(s) ==> !Live(s'))
  }

  /** What the main thread saw in one turn of the poll loop, test by test. */
  datatype Poll = Poll(exit: Sys, token: Sys, limit: Sys, clock: Sys)

  /** Why the poll loop ended. */
  datatype Reason = LeaderExited | TokenRaised | LimitRaised | DeadlinePassed

  /** How one check ended: the reason, the status the leader was reaped with, and every turn of the loop. */
  datatype Ended = Ended(reason: Reason, status: Status, polls: seq<Poll>)

  /** The tests of one turn come one after the other. */
  predicate InOrder(p: Poll) {
    Later(p.exit, p.token) && Later(p.token, p.limit) && Later(p.limit, p.clock)
  }

  /** A turn that found the leader running, the token and the flag down, and time left. */
  predicate Undecided(p: Poll, deadline: nat) {
    && p.exit.leader.Running? && !p.token.cancelled && !p.limit.limit && p.clock.now < deadline
  }

  /** The turn in which the loop ended: an earlier test that had succeeded would have ended it instead. */
  predicate Decides(p: Poll, deadline: nat, reason: Reason, status: Status) {
    match reason
    case LeaderExited => p.exit.leader == Reaped(status)
    case TokenRaised => p.exit.leader.Running? && p.token.cancelled
    case LimitRaised => p.exit.leader.Running? && !p.token.cancelled && p.limit.limit
    case DeadlinePassed => p.exit.leader.Running? && !p.token.cancelled && !p.limit.limit && p.clock.now >= deadline
  }

  /** The loop went on as long as nothing was decided, waiting between turns, and ended in its last turn. */
  predicate Decided(ended: Ended, deadline: nat) {
    var n := |ended.polls|;
    && n > 0
    && (forall k :: 0 <= k < n ==> InOrder(ended.polls[k]))
    && (forall k :: 0 <= k < n - 1 ==> Undecided(ended.polls[k], deadline))
    && Spaced(ended.polls)
    && Decides(ended.polls[n - 1], deadline, ended.reason, ended.status)
  }

  /** Turns that decided nothing, the last of them at least one interval ago. */
  predicate Quiet(polls: seq<Poll>, deadline: nat, now: nat) {
    && (forall k :: 0 <= k < |polls| ==> InOrder(polls[k]) && Undecided(polls[k], deadline))
    && Spaced(polls)
    && (polls != [] ==> now >= polls[|polls| - 1].clock.now + POLL_INTERVAL_MS)
  }

  predicate Spaced(polls: seq<Poll>) {
    forall k :: 0 < k < |polls| ==> polls[k].exit.now >= polls[k - 1].clock.now + POLL_INTERVAL_MS
  }

  lemma QuietNext(polls: seq<Poll>, poll: Poll, deadline: nat, now: nat, now': nat)
    requires Quiet(polls, deadline, now) && now <= poll.exit.now && InOrder(poll) && Undecided(poll, deadline)
    requires now' >= poll.clock.now + POLL_INTERVAL_MS
    ensures Quiet(polls + [poll], deadline, now')
  {
  }

  lemma QuietEnds(polls: seq<Poll>, poll: Poll, deadline: nat, now: nat, reason: Reason, status: Status)
    requires Quiet(polls, deadline, now) && now <= poll.exit.now && InOrder(poll) && Decides(poll, deadline, reason, status)
    ensures Decided(Ended(reason, status, polls + [poll]), deadline)
  {
  }

  /** The outcome each reason for stopping a check forces. */
  function ForcedBy(reason: Reason): Option<CheckOutcome> {
    match reason
    case LeaderExited => None
    case TokenRaised => Some(Cancelled)
    case LimitRaised => Some(LogLimitExceeded)
    case DeadlinePassed => Some(TimedOut)
  }

  /** An empty pipe and the locals of the thread that will drain it. */
  method NewCapture() returns (c: Capture)
    ensures Pristine(c)
  {
    c := EMPTY;
  }

  /** Neither capture thread has failed. */
  predicate Working(s: Sys) {
    !s.out.phase.Broken? && !s.err.phase.Broken?
  }

  /** Only a failing thread stops working. */
  lemma {:induction false} ApplyAllWorking(max: nat, s: Sys, events: seq<Event>)
    requires Working(s) && forall e :: e in events ==> !e.Fail?
    ensures Working(ApplyAll(max, s, events))
    decreases |events|
  {
    if events != [] {
      assert events[0] in events;
      ApplyAllWorking(max, Apply(max, s, events[0]), events[1..]);
    }
  }

  /** The environment is an oracle: `schedule(k)` is what every other thread and process does, in order, before
      the main thread's k-th action, and `faults(k)` tells whether that action's system call fails. `stopped` tells
      whether the running check was ever asked to stop. */
  class World {
    const max: nat
    const schedule: nat -> seq<Event>
    const faults: nat -> bool
    var turn: nat
    var sys: Sys
    ghost var stopped: bool

    /** No system call of the main thread fails. */
    ghost predicate Faultless() {
      forall k :: !faults(k)
    }

    /** No capture thread fails. */
    ghost predicate Unbroken() {
      forall k, e :: e in schedule(k) ==> !e.Fail?
    }

    ghost predicate Valid()
      reads this
    {
      Inv(max, sys) && (Unbroken() ==> Working(sys))
    }

    constructor (max: nat, schedule: nat -> seq<Event>, faults: nat -> bool, now: nat)
      ensures Valid()
      ensures this.max == max && this.schedule == schedule && this.faults == faults
      ensures sys.now == now && !sys.cancelled && !Live(sys)
    {
      this.max, this.schedule, this.faults := max, schedule, faults;
      var out := NewCapture();
      var err := NewCapture();
      turn, sys, stopped := 0, Sys(now, false, Reaped(Exited(0)), {}, out, err, 0, false), false;
      new;
      IdleInv(max, sys);
    }

    /** The main thread is suspended for at least `ms` milliseconds. */
    method Elapse(ms: nat)
      requires Valid()
      modifies this`turn, this`sys
      ensures Valid() && Evolves(old(sys), sys) && sys.now >= old(sys).now + ms
    {
      ApplyAllInv(max, sys, schedule(turn));
      if Unbroken() {
        ApplyAllWorking(max, sys, schedule(turn));
      }
      ApplyAllEvolves(max, sys, schedule(turn));
      sys := ApplyAll(max, sys, schedule(turn));
      ApplyInv(max, sys, Tick(ms));
      sys := Apply(max, sys, Tick(ms));
      turn := turn + 1;
    }

    /** Whether the next system call fails. */
    method Faulty() returns (fault: bool)
      requires Valid()
      modifies this`turn, this`sys
      ensures Valid() && Evolves(old(sys), sys)
      ensures fault ==> !Faultless()
    {
      fault := faults(turn);
      Elapse(0);
    }

    /** `spawn`: a new group with one running member and two empty pipes, each drained by a thread. */
    method Spawn()
      modifies this
      ensures Valid() && Spawned(sys) && sys.now == old(sys).now && sys.cancelled == old(sys).cancelled && !stopped
    {
      var out := NewCapture();
      var err := NewCapture();
      sys := Sys(sys.now, sys.cancelled, Running, {}, out, err, 0, false);
      SpawnedInv(max, sys);
      turn, stopped := turn + 1, false;
    }

    method TryWait() returns (r: Result<Option<Status>, TaskError>)
      requires Valid()
      modifies this`turn, this`sys
      ensures Valid()
      ensures r.Err? ==> !Faultless()
      ensures r.Err? ==> r.error == EXECUTION_ERROR
      ensures r.Ok? && r.value.Some? ==> sys.leader == Reaped(r.value.value)
      ensures r.Ok? && r.value.None? ==> sys.leader.Running?
      ensures Later(old(sys), sys)
    {
      var fault := Faulty();
      if fault {
        return Err(EXECUTION_ERROR);
      }
      match sys.leader
      case Running => r := Ok(None);
      case Zombie(status) =>
        sys := sys.(leader := Reaped(status));
        r := Ok(Some(status));
      case Reaped(status) => r := Ok(Some(status));
    }

    method KillGroup()
      requires Valid()
      modifies this`turn, this`sys
      ensures Valid() && !Live(sys) && Evolves(old(sys), sys)
    {
      Elapse(0);
      KilledInv(max, sys);
      EvolvesTransitive(old(sys), sys, Killed(sys));
      sys := Killed(sys);
    }

    /** `terminate_process_tree`: TERM, at most 500 ms of grace, then KILL; the leader is reaped either way. `graceful`
        tells whether it exited within the grace period; KILL comes no earlier than that period for one that did not. */
    method TerminateProcessTree() returns (r: Result<Status, TaskError>, polls: nat, ghost graceful: bool)
      requires Valid()
      modifies this
      ensures Valid() && polls <= 20 && stopped
      ensures r.Ok? ==> !Live(sys) && sys.leader == Reaped(r.value)
      ensures r.Ok? && !graceful ==> sys.now >= old(sys).now + GRACE_PERIOD_MS
      ensures r.Err? ==> r.error == EXECUTION_ERROR && !Faultless()
      ensures Later(old(sys), sys)
    {
      polls, graceful, stopped := 0, false, true;
      var fault := Faulty();
      if fault {
        return Err(EXECUTION_ERROR), polls, graceful;
      }
      var start := sys.now;
      var deadline := start + GRACE_PERIOD_MS;
      while sys.now < deadline
        invariant Valid() && start + POLL_INTERVAL_MS * polls <= sys.now
        invariant polls <= 20 && stopped
        invariant Later(old(sys), sys)
        decreases deadline - sys.now
      {
        polls := polls + 1;
        var waited := TryWait();
        if waited.Err? {
          return Err(waited.error), polls, graceful;
        }
        if waited.value.Some? {
          KillGroup();
          return Ok(waited.value.value), polls, true;
        }
        Elapse(POLL_INTERVAL_MS);
      }
      fault := Faulty();
      if fault {
        return Err(EXECUTION_ERROR), polls, graceful;
      }
      KillGroup();
      r := Wait();
    }

    /** A blocking wait on a leader that is no longer running. */
    method Wait() returns (r: Result<Status, TaskError>)
      requires Valid() && !Live(sys)
      modifies this`turn, this`sys
      ensures Valid() && !Live(sys)
      ensures r.Ok? ==> sys.leader == Reaped(r.value)
      ensures r.Err? ==> r.error == EXECUTION_ERROR && !Faultless()
      ensures Later(old(sys), sys)
    {
      var waited := TryWait();
      if waited.Err? {
        return Err(waited.error);
      }
      r := Ok(waited.value.value);
    }

    /** `terminate_orphaned_process_group`: after a natural exit, TERM then KILL whatever the leader left behind, with
        100 ms between the two. */
    method TerminateOrphanedProcessGroup() returns (ghost orphans: bool)
      requires Valid() && sys.leader.Reaped?
      modifies this`turn, this`sys
      ensures Valid() && !Live(sys) && Later(old(sys), sys) && sys.leader == old(sys).leader
      ensures !Live(old(sys)) ==> !orphans
      ensures orphans ==> sys.now >= old(sys).now + ORPHAN_DELAY_MS
    {
      Elapse(0);
      orphans := Live(sys);
      if Live(sys) {
        Elapse(ORPHAN_DELAY_MS);
        KillGroup();
      }
    }

    /** One turn of the poll loop: natural exit, then cancellation, then the log limit, then the deadline. `forced` is the
        outcome of a check that must be stopped. */
    method TakeTurn(deadline: nat)
      returns (waited: Result<Option<Status>, TaskError>, forced: Option<CheckOutcome>, ghost poll: Poll, ghost reason: Reason)
      requires Valid()
      modifies this`turn, this`sys
      ensures Valid() && Later(old(sys), poll.exit) && InOrder(poll) && Later(poll.clock, sys)
      ensures waited.Err? ==> waited.error == EXECUTION_ERROR && !Faultless()
      ensures waited.Ok? && waited.value.Some? ==>
                forced.None? && sys.leader == Reaped(waited.value.value) && Decides(poll, deadline, LeaderExited, waited.value.value)
      ensures waited.Ok? && waited.value.None? ==>
                if forced.None? then Undecided(poll, deadline)
                else forced == ForcedBy(reason) && forall status :: Decides(poll, deadline, reason, status)
    {
      forced, reason := None, LeaderExited;
      waited := TryWait();
      poll := Poll(sys, sys, sys, sys);
      if waited.Err? || waited.value.Some? {
        return;
      }
      Elapse(0);
      poll := poll.(token := sys, limit := sys, clock := sys);
      if sys.cancelled {
        forced, reason := Some(Cancelled), TokenRaised;
        return;
      }
      Elapse(0);
      poll := poll.(limit := sys, clock := sys);
      if sys.limit {
        forced, reason := Some(LogLimitExceeded), LimitRaised;
        return;
      }
      Elapse(0);
      poll := poll.(clock := sys);
      if sys.now >= deadline {
        forced, reason := Some(TimedOut), DeadlinePassed;
      }
    }

    /** The poll loop. Whichever way it succeeds the leader is reaped and no group member is alive; it polls at most
        ceil(budget / 25) + 1 times. `ended` is what it saw: the check is asked to stop exactly when the last turn found
        a reason to, and no earlier turn did. */
    method AwaitExit(started: nat, maxRuntimeMs: nat)
      returns (r: Result<(Option<CheckOutcome>, Status), TaskError>, polls: nat, ghost ended: Ended)
      requires Valid() && started <= sys.now && !stopped
      modifies this
      ensures Valid() && Later(old(sys), sys)
      ensures polls <= (maxRuntimeMs + POLL_INTERVAL_MS - 1) / POLL_INTERVAL_MS + 1
      ensures r.Ok? ==> !Live(sys) && sys.leader == Reaped(r.value.1)
      ensures r.Err? ==> r.error == EXECUTION_ERROR && !Faultless()
      ensures r.Ok? ==> Decided(ended, started + maxRuntimeMs) && |ended.polls| == polls
      ensures r.Ok? ==> r.value == (ForcedBy(ended.reason), ended.status)
      ensures r.Ok? ==> (stopped <==> !ended.reason.LeaderExited?)
      ensures r.Ok? ==> Later(ended.polls[polls - 1].clock, sys)
    {
      polls := 0;
      var deadline := started + maxRuntimeMs;
      ghost var turns: seq<Poll> := [];
      ended := Ended(LeaderExited, Exited(0), []);
      while true
        invariant Valid() && Later(old(sys), sys) && !stopped
        invariant started + POLL_INTERVAL_MS * polls <= sys.now
        invariant polls > 0 ==> POLL_INTERVAL_MS * (polls - 1) < maxRuntimeMs
        invariant |turns| == polls && Quiet(turns, deadline, sys.now)
        decreases deadline + POLL_INTERVAL_MS - sys.now
      {
        polls := polls + 1;
        var waited, forced; ghost var poll, reason;
        ghost var before := sys.now;
        waited, forced, poll, reason := TakeTurn(deadline);
        if waited.Err? {
          return Err(waited.error), polls, ended;
        }
        if waited.value.Some? {
          QuietEnds(turns, poll, deadline, before, LeaderExited, waited.value.value);
          ended := Ended(LeaderExited, waited.value.value, turns + [poll]);
          var _ := TerminateOrphanedProcessGroup();
          return Ok((None, waited.value.value)), polls, ended;
        }
        if forced.Some? {
          var terminated, _, _ := TerminateProcessTree();
          if terminated.Err? {
            return Err(terminated.error), polls, ended;
          }
          QuietEnds(turns, poll, deadline, before, reason, terminated.value);
          ended := Ended(reason, terminated.value, turns + [poll]);
          return Ok((forced, terminated.value)), polls, ended;
        }
        Elapse(POLL_INTERVAL_MS);
        QuietNext(turns, poll, deadline, before, sys.now);
        turns := turns + [poll];
      }
    }

    /** The environment moves, and then the thread itself if it still can. */
    method Advance(stream: Stream)
      requires Valid() && !Live(sys) && !Of(sys, stream).phase.Closed? && !Of(sys, stream).phase.Broken?
      modifies this`turn, this`sys
      ensures Valid() && Evolves(old(sys), sys) && !Live(sys)
      ensures Of(sys, stream).phase.Closed? || Of(sys, stream).phase.Broken?
              || 0 <= Remaining(Of(sys, stream)) < Remaining(Of(old(sys), stream))
    {
      ghost var before := sys;
      Elapse(0);
      var c := Of(sys, stream);
      if !c.phase.Closed? && !c.phase.Broken? {
        ghost var middle := sys;
        NextProgresses(max, middle, stream);
        ApplyInv(max, middle, Next(stream, c));
        ApplyEvolves(max, middle, Next(stream, c));
        NextWorking(max, middle, stream);
        sys := Apply(max, sys, Next(stream, c));
        EvolvesTransitive(before, middle, sys);
      }
    }

    /** Joining a capture thread once the group is gone: it reaches end of file, or failed. */
    method Join(stream: Stream) returns (r: Result<Capture, TaskError>)
      requires Valid() && !Live(sys)
      modifies this`turn, this`sys
      ensures Valid() && Later(old(sys), sys) && Evolves(old(sys), sys)
      ensures r.Err? ==> r.error == EXECUTION_ERROR && !Unbroken()
      ensures r.Ok? ==> r.value == Of(sys, stream) && r.value.phase.Closed?
    {
      while !Of(sys, stream).phase.Closed? && !Of(sys, stream).phase.Broken?
        invariant Valid() && Evolves(old(sys), sys) && !Live(sys)
        decreases Remaining(Of(sys, stream))
      {
        ghost var before := sys;
        Advance(stream);
        EvolvesTransitive(old(sys), before, sys);
      }
      r := if Of(sys, stream).phase.Closed? then Ok(Of(sys, stream)) else Err(EXECUTION_ERROR);
    }
  }
}
