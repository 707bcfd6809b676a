/**
 The ETrace object's entry points: `start` (privilege check, connection,
 read loop) and the destructor (a final teardown), and what a whole run of
 the monitor does to the connector socket.
 */
module ETrace {
  import opened Netlink
  import opened Connection
  import opened EventLoop

  /** How `start` ends: it returns a value, or it is still in the read loop. */
  datatype StartResult = Returned(value: bool) | Looping

  /** The object's state after `start`, how `start` ended, and the loop's reactions. */
  datatype Started = Started(state: State, result: StartResult, reactions: seq<Reaction>)

  /**
   The object before `start`. The constructor is declared but its definition
   is not part of this model; it is taken to leave no socket held.
   */
  function Fresh(): (s: State)
    ensures s.sockFd == NoSocket && s.open == multiset{} && s.calls == []
    ensures Owns(s)
  {
    State(NoSocket, multiset{}, [])
  }

  /** start: refuse unless the effective uid is 0, connect, then run the read loop. */
  function Start(s: State, euid: int, pid: int, os: ConnectOs, steps: seq<Step>): (r: Started)
    ensures euid != 0 ==> r == Started(s, Returned(false), [])
    ensures euid == 0 && !InitiateConnection(s, pid, os).1 ==>
              r == Started(InitiateConnection(s, pid, os).0, Returned(false), [])
    ensures r.result == Returned(true) <==>
              euid == 0 && InitiateConnection(s, pid, os).1 && FirstStop(steps) < |steps|
    ensures r.result == Looping <==>
              euid == 0 && InitiateConnection(s, pid, os).1 && FirstStop(steps) == |steps|
    ensures r.result.Returned? && r.result.value ==> |r.reactions| == FirstStop(steps)
    ensures euid == 0 && InitiateConnection(s, pid, os).1 ==>
              var run := RunLoop(InitiateConnection(s, pid, os).0, steps);
              r.state == run.state && r.reactions == run.reactions
  {
    if euid != 0 then Started(s, Returned(false), [])
    else
      var (connected, ok) := InitiateConnection(s, pid, os);
      if !ok then Started(connected, Returned(false), [])
      else
        var run := RunLoop(connected, steps);
        Started(run.state, if run.halted then Returned(true) else Looping, run.reactions)
  }

  /**
   ~ETrace: a last teardown. Holding nothing, it changes nothing; holding a
   handle, it unsubscribes and closes it, and when that close succeeds the
   object is left owning nothing.
   */
  function Destroy(s: State, pid: int, os: TeardownOs): (r: State)
    ensures s.sockFd == NoSocket ==> r == s
    ensures s.sockFd != NoSocket ==>
              r.calls == s.calls + [Send(s.sockFd, SubscribeRequest(false, pid), os.send), Close(s.sockFd, os.close)]
    ensures s.sockFd != NoSocket && os.close == 0 ==> r.sockFd == NoSocket
    ensures s.sockFd != NoSocket && os.close != 0 ==> r.sockFd == s.sockFd && r.open == s.open
    ensures Owns(s) && os.close == 0 ==> r.sockFd == NoSocket && r.open == multiset{}
    ensures Owns(s) ==> Owns(r)
  {
    Teardown(s, pid, os)
  }

  /** The destructor after a successful teardown sends and closes nothing. */
  lemma DestroyAfterTeardown(s: State, pid: int, first: TeardownOs, last: TeardownOs)
    requires first.close == 0
    ensures Destroy(Teardown(s, pid, first), pid, last) == Teardown(s, pid, first)
  {
    TeardownTwice(s, pid, first, last);
  }

  /** A refused or failed start leaves a fresh object owning nothing, if a failed bind's close succeeds. */
  lemma FailedStartOwnsNothing(euid: int, pid: int, os: ConnectOs, steps: seq<Step>)
    requires os.bindFailClose == 0
    requires Start(Fresh(), euid, pid, os, steps).result == Returned(false)
    ensures Start(Fresh(), euid, pid, os, steps).state.open == multiset{}
    ensures Start(Fresh(), euid, pid, os, steps).state.sockFd == NoSocket
  {
    if euid == 0 {
      ReconnectWithoutLeak(Fresh(), pid, os);
    }
  }

  /**
   A whole run from a fresh object: start as root, connect, loop until the
   flag is found set, then destroy. Exactly one socket is created, subscribed,
   read from, unsubscribed and closed once, and no handle is left open. This
   holds even when the LISTEN send failed, which the code does not detect.
   */
  lemma {:induction false} WholeRun(pid: int, os: ConnectOs, steps: seq<Step>, last: TeardownOs)
    requires os.socket != -1 && os.bind != -1
    requires FirstStop(steps) < |steps|
    requires last.close == 0
    ensures var started := Start(Fresh(), 0, pid, os, steps);
            var fd := os.socket;
            var end := Destroy(started.state, pid, last);
            && started.result == Returned(true)
            && end.sockFd == NoSocket
            && end.open == multiset{}
            && end.calls == [Socket(fd), Bind(fd, BindAddress(pid), os.bind),
                             Send(fd, SubscribeRequest(true, pid), os.subscribe)]
                            + Recvs(fd, FirstStop(steps))
                            + [Send(fd, SubscribeRequest(false, pid), last.send), Close(fd, 0)]
  {
    var fd := os.socket;
    var (connected, ok) := InitiateConnection(Fresh(), pid, os);
    assert ok && connected.sockFd == fd;
    assert connected.open == multiset{fd};
    var run := RunLoop(connected, steps);
    assert run.state.sockFd == fd && run.state.open == multiset{fd};
    var started := Start(Fresh(), 0, pid, os, steps);
    assert started.state == run.state;
  }
}
