/**
 startReadLoop: while the stop flag is clear, receive one proc_event on the
 connector socket and react to its kind. The flag, the received events and
 the outcome of each /proc lookup are inputs, one Step per iteration.
 */
module EventLoop {
  import opened Connection
  import CmdLine
  import opened Output

  /** proc_event.what values (linux/cn_proc.h). */
  const EventNone: int := 0
  const EventExec: int := 2
  const EventExit: int := 0x8000_0000

  /**
   A decoded proc_event: its kind and the `process_pid` field, which the exec
   and the exit data both start with.
   */
  datatype Event = Event(what: int, pid: int)

  /** The outcome of `::recv`: a message, or an error that leaves the buffer as initialised. */
  datatype Received = Received(event: Event) | RecvFailed

  /**
   The outcome of the lookups for an exec: read_symlink of /proc/<pid>/exe
   throws filesystem_error, or it yields the executable and the line then read
   from /proc/<pid>/cmdline.
   */
  datatype Resolution = SymlinkFails | Resolved(exe: string, line: string)

  /** A pseudo-file etrace reads for a pid. */
  datatype Probe = ReadExe(pid: int) | ReadCmdLine(pid: int)

  /** What one iteration does: the files it reads, the lines it prints, whether it logs "Listening". */
  datatype Reaction = Reaction(probes: seq<Probe>, printed: seq<OutLine>, listening: bool)

  /** One iteration's inputs: the stop flag at the loop head, the receive, the lookups. */
  datatype Step = Step(stop: bool, received: Received, resolution: Resolution)

  /** What the switch sees: the message is zero-initialised, so a failed receive reads as PROC_EVENT_NONE. */
  function EventOf(r: Received): (e: Event)
    ensures r.RecvFailed? ==> e == Event(EventNone, 0)
    ensures r.Received? ==> e == r.event
  {
    match r
    case Received(e) => e
    case RecvFailed => Event(0, 0)
  }

  /** The switch on `message.event.what`. */
  function Dispatch(e: Event, res: Resolution): (r: Reaction)
    ensures r.probes != [] <==> e.what == EventExec
    ensures e.what == EventExec ==>
              r.probes == (if res.Resolved? then [ReadExe(e.pid), ReadCmdLine(e.pid)] else [ReadExe(e.pid)])
    ensures r.listening <==> e.what == EventNone
    ensures |r.printed| <= 1
    ensures |r.printed| == 1 <==> e.what == EventExec && res.Resolved?
    ensures |r.printed| == 1 ==> r.printed[0] == OutLine(e.pid, CmdLine.Normalize(res.line))
  {
    if e.what == EventNone then
      Reaction([], [], true)
    else if e.what == EventExec then
      match res
      case SymlinkFails => Reaction([ReadExe(e.pid)], [], false)
      case Resolved(_, line) =>
        Reaction([ReadExe(e.pid), ReadCmdLine(e.pid)], [OutLine(e.pid, CmdLine.Normalize(line))], false)
    else if e.what == EventExit then
      Reaction([], [], false)
    else
      Reaction([], [], false)
  }

  function DispatchStep(st: Step): Reaction
  {
    Dispatch(EventOf(st.received), st.resolution)
  }

  /** A failed receive only logs "Listening": no file is read and nothing is printed, whatever the lookups would give. */
  lemma FailedRecvOnlyListens(res: Resolution)
    ensures Dispatch(EventOf(RecvFailed), res) == Reaction([], [], true)
  {
  }

  /** Only an exec consults the lookups: any other kind reacts the same whatever they would give. */
  lemma OnlyExecLooksUp(e: Event, a: Resolution, b: Resolution)
    requires e.what != EventExec
    ensures Dispatch(e, a) == Dispatch(e, b)
    ensures Dispatch(e, a).probes == [] && Dispatch(e, a).printed == []
  {
  }

  /** A pid whose executable can no longer be resolved is reported as nothing at all. */
  lemma ExitedProcessIsSilent(e: Event)
    ensures Dispatch(e, SymlinkFails).printed == []
    ensures !Dispatch(e, SymlinkFails).listening || e.what == EventNone
  {
  }

  /** The number of iterations before the flag is found set: the index of the first stop, or |steps|. */
  function FirstStop(steps: seq<Step>): (n: nat)
    ensures n <= |steps|
    ensures forall j :: 0 <= j < n ==> !steps[j].stop
    ensures n < |steps| ==> steps[n].stop
    decreases |steps|
  {
    if |steps| == 0 || steps[0].stop then 0 else 1 + FirstStop(steps[1..])
  }

  /** `n` receives on `fd`. */
  function Recvs(fd: int, n: nat): (r: seq<Syscall>)
    ensures |r| == n
    ensures forall i :: 0 <= i < n ==> r[i] == Recv(fd)
  {
    seq(n, _ => Recv(fd))
  }

  /**
   The loop over a finite run of iterations: the state afterwards, the
   reactions, and whether the loop ended (false: still running when the steps
   ran out).
   */
  datatype LoopRun = LoopRun(state: State, reactions: seq<Reaction>, halted: bool)

  /** The loop, one iteration at a time. */
  function RunLoop(s: State, steps: seq<Step>): (r: LoopRun)
    ensures |r.reactions| == FirstStop(steps)
    ensures forall i :: 0 <= i < |r.reactions| ==> r.reactions[i] == DispatchStep(steps[i])
    ensures r.halted <==> FirstStop(steps) < |steps|
    ensures r.state == s.(calls := s.calls + Recvs(s.sockFd, FirstStop(steps)))
    decreases |steps|
  {
    if |steps| == 0 then LoopRun(s, [], false)
    else if steps[0].stop then LoopRun(s, [], true)
    else
      var rest := RunLoop(s.(calls := s.calls + [Recv(s.sockFd)]), steps[1..]);
      assert [Recv(s.sockFd)] + Recvs(s.sockFd, FirstStop(steps[1..])) == Recvs(s.sockFd, FirstStop(steps));
      LoopRun(rest.state, [DispatchStep(steps[0])] + rest.reactions, rest.halted)
  }

  /** The while loop of startReadLoop: the stop flag is sampled only at the head of each iteration. */
  method StartReadLoop(s: State, steps: seq<Step>) returns (state: State, reactions: seq<Reaction>, halted: bool)
    ensures |reactions| == FirstStop(steps)
    ensures forall i :: 0 <= i < |reactions| ==> reactions[i] == DispatchStep(steps[i])
    ensures state.sockFd == s.sockFd && state.open == s.open
    ensures state.calls == s.calls + Recvs(s.sockFd, |reactions|)
    ensures LoopRun(state, reactions, halted) == RunLoop(s, steps)
  {
    state := s;
    reactions := [];
    var i := 0;
    while i < |steps| && !steps[i].stop
      invariant 0 <= i <= |steps|
      invariant forall j :: 0 <= j < i ==> !steps[j].stop
      invariant |reactions| == i
      invariant forall j :: 0 <= j < i ==> reactions[j] == DispatchStep(steps[j])
      invariant state == State(s.sockFd, s.open, s.calls + Recvs(s.sockFd, i))
      decreases |steps| - i
    {
      state := State(state.sockFd, state.open, state.calls + [Recv(state.sockFd)]);
      reactions := reactions + [DispatchStep(steps[i])];
      i := i + 1;
    }
    FirstStopIsFirst(steps, i);
    halted := i < |steps|;
  }

  /** The first stop is found where the loop finds it. */
  lemma FirstStopIsFirst(steps: seq<Step>, i: nat)
    requires i <= |steps|
    requires forall j :: 0 <= j < i ==> !steps[j].stop
    requires i == |steps| || steps[i].stop
    ensures FirstStop(steps) == i
  {
  }

  /** Every line the reactions print, in order. */
  function Printed(rs: seq<Reaction>): seq<OutLine>
    decreases |rs|
  {
    if |rs| == 0 then [] else rs[0].printed + Printed(rs[1..])
  }

  /**
   The reference for what the monitor reports: for each exec whose
   executable resolves, its pid and displayed command line, in order.
   */
  function ReportedExecs(steps: seq<Step>): seq<OutLine>
    decreases |steps|
  {
    if |steps| == 0 then []
    else
      var e := EventOf(steps[0].received);
      var res := steps[0].resolution;
      (if e.what == EventExec && res.Resolved? then [OutLine(e.pid, CmdLine.Normalize(res.line))] else [])
        + ReportedExecs(steps[1..])
  }

  /**
   The loop prints exactly the reported execs among the iterations it runs,
   one line each, in the order the events arrive, and nothing else.
   */
  lemma {:induction false} PrintedAreReportedExecs(s: State, steps: seq<Step>)
    ensures Printed(RunLoop(s, steps).reactions) == ReportedExecs(steps[..FirstStop(steps)])
    decreases |steps|
  {
    if |steps| == 0 || steps[0].stop {
      assert steps[..FirstStop(steps)] == [];
    } else {
      var next := s.(calls := s.calls + [Recv(s.sockFd)]);
      PrintedAreReportedExecs(next, steps[1..]);
      var n := FirstStop(steps);
      assert n == 1 + FirstStop(steps[1..]);
      assert steps[..n][0] == steps[0];
      assert steps[..n][1..] == steps[1..][..n - 1];
      var rs := RunLoop(s, steps).reactions;
      assert rs[1..] == RunLoop(next, steps[1..]).reactions;
    }
  }

  /** Once the flag is set, nothing after it is received or looked at. */
  lemma StepsAfterStopIgnored(s: State, steps: seq<Step>, later: seq<Step>)
    requires FirstStop(steps) < |steps|
    ensures RunLoop(s, steps + later) == RunLoop(s, steps)
  {
    var n := FirstStop(steps);
    assert (steps + later)[n].stop;
    FirstStopIsFirst(steps + later, n);
    var a := RunLoop(s, steps + later);
    var b := RunLoop(s, steps);
    assert a.reactions == b.reactions;
  }
}
