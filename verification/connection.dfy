/**
 The lifecycle of etrace's netlink connector socket: subscribeToProcEvents,
 teardown and initiateConnection as pure transitions of the object's state.
 Every system call is replaced by the value it returned, supplied by the
 caller, and compared exactly as the code compares it.
 */
module Connection {
  import opened Netlink

  /** The value of `_sockFd` while no socket is held. */
  const NoSocket: int := -1

  /** A system call made on the connector socket, with the value it returned. */
  datatype Syscall =
    | Socket(ret: int)
    | Bind(fd: int, addr: SockAddr, ret: int)
    | Send(fd: int, req: Request, ret: int)
    | Recv(fd: int)
    | Close(fd: int, ret: int)

  /**
   The object's `_sockFd`, the handles opened and not yet closed, and every
   system call made so far. By the model's convention a close that returns
   non-zero leaves its handle here; Linux releases it even then.
   */
  datatype State = State(sockFd: int, open: multiset<int>, calls: seq<Syscall>)

  /** What `send` and `close` return during one teardown. */
  datatype TeardownOs = TeardownOs(send: int, close: int)

  /**
   What the system calls return during one initiateConnection: the teardown
   of a held socket, `socket`, `bind`, the `close` after a failed bind, the
   subscribe `send`, and the `close` after a failed subscribe.
   */
  datatype ConnectOs = ConnectOs(
    teardown: TeardownOs,
    socket: int,
    bind: int,
    bindFailClose: int,
    subscribe: int,
    subscribeFailClose: int)

  /** The object holds exactly the handles that are open: none, or its `_sockFd`. */
  predicate Owns(s: State)
  {
    s.open == if s.sockFd == NoSocket then multiset{} else multiset{s.sockFd}
  }

  /** `::close(fd)`; by the model's convention a handle is released only when close returns 0. */
  function CloseFd(s: State, fd: int, ret: int): (r: State)
    ensures r.sockFd == s.sockFd
    ensures r.calls == s.calls + [Close(fd, ret)]
    ensures ret == 0 ==> r.open == s.open - multiset{fd}
    ensures ret != 0 ==> r.open == s.open
  {
    State(s.sockFd, if ret == 0 then s.open - multiset{fd} else s.open, s.calls + [Close(fd, ret)])
  }

  /** subscribeToProcEvents: send one request on `sock`; false exactly when send returned -1. */
  function SubscribeToProcEvents(s: State, sock: int, enabled: bool, pid: int, sendRet: int): (r: (State, bool))
    ensures r.0.sockFd == s.sockFd && r.0.open == s.open
    ensures r.0.calls == s.calls + [Send(sock, SubscribeRequest(enabled, pid), sendRet)]
    ensures r.0.calls[|s.calls|].req.op == (if enabled then McastListen else McastIgnore)
    ensures r.1 <==> sendRet != -1
  {
    (s.(calls := s.calls + [Send(sock, SubscribeRequest(enabled, pid), sendRet)]), sendRet != -1)
  }

  /**
   teardown: when a socket is held, unsubscribe on it (ignoring the send
   result) and close it; forget it only when close succeeds.
   */
  function Teardown(s: State, pid: int, os: TeardownOs): (r: State)
    ensures s.sockFd == NoSocket ==> r == s
    ensures s.sockFd != NoSocket ==>
              r.calls == s.calls + [Send(s.sockFd, SubscribeRequest(false, pid), os.send), Close(s.sockFd, os.close)]
    ensures s.sockFd != NoSocket && os.close == 0 ==>
              r.sockFd == NoSocket && r.open == s.open - multiset{s.sockFd}
    ensures s.sockFd != NoSocket && os.close != 0 ==>
              r.sockFd == s.sockFd && r.open == s.open
  {
    if s.sockFd != NoSocket then
      var (unsubscribed, _) := SubscribeToProcEvents(s, s.sockFd, false, pid, os.send);
      var closed := CloseFd(unsubscribed, s.sockFd, os.close);
      if os.close != 0 then closed
      else closed.(sockFd := NoSocket)
    else
      s.(sockFd := NoSocket)
  }

  /**
   The part of initiateConnection before the subscribe request: tear down a
   held socket, create a socket and bind it. The flag says whether a bound
   socket `os.socket` is ready; when it is false the attempt has ended.
   */
  function OpenAndBind(s: State, pid: int, os: ConnectOs): (r: (State, bool))
    ensures var t := Teardown(s, pid, os.teardown);
            && r.0.sockFd == t.sockFd
            && (r.1 <==> os.socket != -1 && os.bind != -1)
            && (os.socket == -1 ==> r.0.open == t.open && r.0.calls == t.calls + [Socket(-1)])
            && (r.1 ==> (r.0.open == t.open + multiset{os.socket}
                  && r.0.calls == t.calls + [Socket(os.socket), Bind(os.socket, BindAddress(pid), os.bind)]))
            && (os.socket != -1 && os.bind == -1 ==>
                  r.0.calls == t.calls + [Socket(os.socket), Bind(os.socket, BindAddress(pid), -1), Close(os.socket, os.bindFailClose)]
                  && (os.bindFailClose == 0 ==> r.0.open == t.open)
                  && (os.bindFailClose != 0 ==> r.0.open == t.open + multiset{os.socket}))
  {
    var held := if s.sockFd != NoSocket then Teardown(s, pid, os.teardown) else s;
    var sock := os.socket;
    var created := held.(calls := held.calls + [Socket(sock)]);
    if sock == -1 then (created, false)
    else
      var bound := State(created.sockFd, created.open + multiset{sock},
                         created.calls + [Bind(sock, BindAddress(pid), os.bind)]);
      if os.bind == -1 then (CloseFd(bound, sock, os.bindFailClose), false)
      else (bound, true)
  }

  /** How C++ converts a bool to int in a comparison with an int. */
  function BoolAsInt(b: bool): (n: int)
    ensures 0 <= n <= 1
    ensures n == 1 <==> b
  {
    if b then 1 else 0
  }

  /** The comparison initiateConnection makes with subscribeToProcEvents' result never holds. */
  lemma SubscribeCheckNeverFires(b: bool)
    ensures BoolAsInt(b) != -1
  {
  }

  /**
   initiateConnection as written: the subscribe result (a bool) is compared
   with -1, so a failed subscribe send does not end the attempt.
   */
  function InitiateConnection(s: State, pid: int, os: ConnectOs): (r: (State, bool))
    ensures var t := Teardown(s, pid, os.teardown);
            && (r.1 <==> os.socket != -1 && os.bind != -1)
            && (r.1 ==> (r.0.sockFd == os.socket && r.0.open == t.open + multiset{os.socket}
                  && r.0.calls == t.calls + [Socket(os.socket), Bind(os.socket, BindAddress(pid), os.bind),
                                             Send(os.socket, SubscribeRequest(true, pid), os.subscribe)]))
            && (!r.1 ==> r.0.sockFd == t.sockFd)
            && (os.socket == -1 ==> r.0.open == t.open && r.0.calls == t.calls + [Socket(-1)])
            && (os.socket != -1 && os.bind == -1 ==>
                  r.0.calls == t.calls + [Socket(os.socket), Bind(os.socket, BindAddress(pid), -1), Close(os.socket, os.bindFailClose)]
                  && (os.bindFailClose == 0 ==> r.0.open == t.open))
  {
    var (bound, ready) := OpenAndBind(s, pid, os);
    if !ready then (bound, false)
    else
      var (sent, subscribed) := SubscribeToProcEvents(bound, os.socket, true, pid, os.subscribe);
      if BoolAsInt(subscribed) == -1 then (CloseFd(sent, os.socket, os.subscribeFailClose), false)
      else (sent.(sockFd := os.socket), true)
  }

  /**
   initiateConnection with the subscribe check it evidently intends: a failed
   subscribe send closes the new socket and ends the attempt.
   */
  function InitiateConnectionIntended(s: State, pid: int, os: ConnectOs): (r: (State, bool))
    ensures var t := Teardown(s, pid, os.teardown);
            && (r.1 <==> os.socket != -1 && os.bind != -1 && os.subscribe != -1)
            && (r.1 ==> r.0.sockFd == os.socket && r.0.open == t.open + multiset{os.socket})
            && (!r.1 ==> r.0.sockFd == t.sockFd)
            && (os.socket != -1 && os.bind != -1 && os.subscribe == -1 ==>
                  r.0.calls == t.calls + [Socket(os.socket), Bind(os.socket, BindAddress(pid), os.bind),
                                          Send(os.socket, SubscribeRequest(true, pid), -1),
                                          Close(os.socket, os.subscribeFailClose)]
                  && (os.subscribeFailClose == 0 ==> r.0.open == t.open))
  {
    var (bound, ready) := OpenAndBind(s, pid, os);
    if !ready then (bound, false)
    else
      var (sent, subscribed) := SubscribeToProcEvents(bound, os.socket, true, pid, os.subscribe);
      if !subscribed then (CloseFd(sent, os.socket, os.subscribeFailClose), false)
      else (sent.(sockFd := os.socket), true)
  }

  /** As written, a LISTEN request the kernel never received still yields a connection. */
  lemma FailedSubscribeStillConnects(s: State, pid: int, os: ConnectOs)
    requires os.socket != -1 && os.bind != -1 && os.subscribe == -1
    ensures InitiateConnection(s, pid, os).1
    ensures InitiateConnection(s, pid, os).0.sockFd == os.socket
    ensures !InitiateConnectionIntended(s, pid, os).1
  {
  }

  /** The two versions differ only when the subscribe send fails. */
  lemma IntendedAgreesWhenSubscribed(s: State, pid: int, os: ConnectOs)
    requires os.subscribe != -1
    ensures InitiateConnectionIntended(s, pid, os) == InitiateConnection(s, pid, os)
  {
  }

  /** teardown keeps the object owning exactly the open handles, whatever close returns. */
  lemma TeardownKeepsOwnership(s: State, pid: int, os: TeardownOs)
    requires Owns(s)
    ensures Owns(Teardown(s, pid, os))
  {
  }

  /** A teardown after a successful one (the destructor's, say) sends and closes nothing. */
  lemma TeardownTwice(s: State, pid: int, first: TeardownOs, second: TeardownOs)
    requires first.close == 0
    ensures var once := Teardown(s, pid, first);
            Teardown(once, pid, second) == once
  {
  }

  /**
   After a failed close the handle is still held, so the next teardown
   unsubscribes on it and closes it again.
   */
  lemma TeardownAfterFailedClose(s: State, pid: int, first: TeardownOs, second: TeardownOs)
    requires s.sockFd != NoSocket && first.close != 0
    ensures var once := Teardown(s, pid, first);
            && once.sockFd == s.sockFd
            && Teardown(once, pid, second).calls
               == s.calls + [Send(s.sockFd, SubscribeRequest(false, pid), first.send), Close(s.sockFd, first.close),
                             Send(s.sockFd, SubscribeRequest(false, pid), second.send), Close(s.sockFd, second.close)]
  {
  }

  /**
   Reconnecting does not leak: when the old handle's close and the cleanup
   close after a failed bind succeed, the object again owns exactly the open
   handles, so after a successful connection the new socket is the only one.
   */
  lemma ReconnectWithoutLeak(s: State, pid: int, os: ConnectOs)
    requires Owns(s)
    requires s.sockFd != NoSocket ==> os.teardown.close == 0
    requires os.bindFailClose == 0
    ensures var (r, ok) := InitiateConnection(s, pid, os);
            && Owns(r)
            && (ok ==> r.open == multiset{os.socket} && r.sockFd == os.socket)
            && (!ok ==> r.open == multiset{} && r.sockFd == NoSocket)
  {
  }

  /**
   A reconnect whose teardown close failed still replaces `_sockFd`: by the
   model's close convention the old handle stays open and nothing refers to it
   any more.
   */
  lemma ReconnectAfterFailedCloseLeaks(s: State, pid: int, os: ConnectOs)
    requires Owns(s) && s.sockFd != NoSocket
    requires os.teardown.close != 0
    requires os.socket != -1 && os.bind != -1
    ensures var (r, ok) := InitiateConnection(s, pid, os);
            && ok
            && r.sockFd == os.socket
            && r.open == multiset{s.sockFd, os.socket}
            && (os.socket != s.sockFd ==> !Owns(r))
  {
  }

  /** After a successful (re)connection the LISTEN request was the last call, on the new handle. */
  lemma SubscribedOnNewHandle(s: State, pid: int, os: ConnectOs)
    requires InitiateConnection(s, pid, os).1
    ensures var r := InitiateConnection(s, pid, os).0;
            && |r.calls| > 0
            && r.calls[|r.calls| - 1] == Send(r.sockFd, SubscribeRequest(true, pid), os.subscribe)
  {
  }
}
