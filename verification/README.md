# etrace in Dafny

etrace is a Linux process-event monitor. It opens a netlink connector
socket, subscribes to the kernel's process-event multicast group and then
prints one `[pid] command line` line for every exec whose executable link
can still be read when the event is handled. This
project models the four pieces of sequential logic inside `etrace.cpp`:

- **Netlink** (`netlink.dfy`): the subscription request `subscribeToProcEvents`
  fills in (netlink header, connector header, LISTEN/IGNORE opcode), as field
  values, and the address the socket is bound to.
- **CmdLine** (`cmdline.dfy`): `cmdLineForPid`'s replacement of every NUL in
  the line read from `/proc/<pid>/cmdline` by a space.
- **Output** (`output.dfy`): the `[<pid>] <command line>` line and the decimal
  form of the pid, with a parser showing that a line gives back both parts.
- **Connection** (`connection.dfy`): the connection lifecycle. It covers
  `subscribeToProcEvents`, `teardown` and `initiateConnection` as pure
  transitions of a state: `_sockFd`, the multiset of handles opened and not
  yet closed, and the trace of system calls made.
- **EventLoop** (`event_loop.dfy`): `startReadLoop`, meaning the per-event
  switch and the stop flag sampled at the head of each iteration, as a
  recursive reference (`RunLoop`) and as the while loop itself (`StartReadLoop`).
- **ETrace** (`etrace.dfy`): `start`, the destructor, and a whole run from
  connection to destruction.

Every system call is replaced by the value it returned, supplied by the
caller: `socket`, `bind`, `send`, `close`, and `recv` (failed or a decoded
event). Each value is compared exactly as the code compares it: `socket`,
`bind` and `send` with `== -1`, `close` with `!= 0`. `geteuid()` and
`getpid()` are parameters. The stop flag, the received events and the
outcomes of the `/proc` lookups form a sequence of `Step`s, one per loop
iteration.

Behaviour reproduced from the code:

- A failed `close` in `teardown` returns early. `_sockFd` keeps the handle, and
  the next teardown (the destructor's, say) unsubscribes on it and closes it
  again.
- `initiateConnection` continues after such a failed teardown and overwrites
  `_sockFd` with the new socket. The model counts a handle whose `close`
  returned non-zero as still open (see `Connection.CloseFd` under Left out), so
  under that convention the old handle is left open with nothing referring to
  it (`ReconnectAfterFailedCloseLeaks`).
- A failed `recv` leaves the zero-initialised message, which the switch reads
  as `PROC_EVENT_NONE`.
- `cmdLineForPid` trims nothing: `std::replace` maps characters one for one,
  so a trailing NUL becomes a trailing space. `"ls\0-la\0/tmp\0"` becomes
  `"ls -la /tmp "`.
- The subscribe check in `initiateConnection` can never fire (see Findings).
  `Start` and `WholeRun` keep this as-written behaviour, because that is what
  the program does. The corrected connection is defined and proved beside it.

## Model

| member | source | states |
|---|---|---|
| Netlink.Align | etrace.cpp:23 | the aligned size is a multiple of NLMSG_ALIGNTO and less than 4 bytes above the length |
| Netlink.SubscribeRequest | etrace.cpp:141-153 | the request is well formed for the sender: length is the whole message size, type NLMSG_DONE, connector id (CN_IDX_PROC, CN_VAL_PROC), payload length the opcode size, other fields zero; opcode LISTEN iff enabled, IGNORE iff not |
| Netlink.BindAddress | etrace.cpp:110-114 | the socket is bound with family AF_NETLINK, the process's pid and the CN_IDX_PROC group |
| Netlink.BindAddressMatchesRequest | etrace.cpp:110-152 | the bound multicast group is the connector index the request addresses, and the bound pid is the pid in the request header |
| Netlink.ListensRecoversEnabled | etrace.cpp:145 | the opcode of a built request gives back the `enabled` flag it was built from |
| Netlink.WellFormedIsSubscribeRequest | etrace.cpp:143-153 | a well-formed request is exactly the LISTEN or the IGNORE request of its sender |
| Netlink.RequestSizeIsUnpadded | etrace.cpp:22-33 | the declared length (40) is the sum of header, connector header and opcode sizes, with no tail padding, and is 4-aligned |
| CmdLine.Normalize | etrace.cpp:66-72 | the result has the line's length; each NUL becomes a space, every other character is kept, and no NUL remains |
| CmdLine.TrailingNulBecomesSpace | etrace.cpp:70-72 | nothing is trimmed: a trailing NUL becomes a trailing space |
| CmdLine.NormalizeWithoutNul | etrace.cpp:70 | a line without NULs is displayed unchanged |
| CmdLine.NormalizeIdempotent | etrace.cpp:70 | applying the replacement twice equals applying it once |
| CmdLine.NormalizeAppend | etrace.cpp:70 | the replacement of a concatenation is the concatenation of the replacements |
| CmdLine.Example | etrace.cpp:66-72 | `"ls\0-la\0/tmp\0"` is displayed as `"ls -la /tmp "` |
| Output.Decimal | etrace.cpp:213 | the pid is written as decimal digits, with a leading `-` when negative, and with no leading zero |
| Output.DecimalRoundTrip | etrace.cpp:213 | reading back the written pid gives the pid |
| Output.DecimalIsUnique | etrace.cpp:213 | every string read back as a pid (canonical digits, optionally after a `-`, with no `-0`) is the one written for that pid, so `"07"` is never written |
| Output.Render | etrace.cpp:213 | the printed line is `[`, then the pid as Decimal writes it, then `] `, then the command line |
| Output.ParseRender | etrace.cpp:213 | a printed line determines the pid and the command line, even when the command line contains `]` or spaces |
| Connection.CloseFd | etrace.cpp:119 | close is recorded; the handle leaves the open multiset only when close returns 0 |
| Connection.SubscribeToProcEvents | etrace.cpp:141-162 | exactly one request is sent on the given socket, with opcode LISTEN iff enabled; the result is false exactly when send returned -1; the held handle and open handles are unchanged |
| Connection.Teardown | etrace.cpp:164-180 | with no handle held nothing is sent or closed and the state is unchanged; otherwise an IGNORE request is sent on the handle and then it is closed; on close success `_sockFd` becomes -1 and the handle is released, on failure both stay |
| Connection.OpenAndBind | etrace.cpp:96-121 | a held handle is torn down first; on socket failure nothing is opened; on bind failure the new socket is closed; `_sockFd` is not assigned |
| Connection.SubscribeCheckNeverFires | etrace.cpp:123 | a bool converted to int is never -1 |
| Connection.InitiateConnection | etrace.cpp:91-139 | the result is true iff socket and bind succeed, whatever the subscribe send returns; on success `_sockFd` is the new socket and it is the one added handle; on failure `_sockFd` is what teardown left; socket failure opens nothing; bind failure closes the new socket |
| Connection.InitiateConnectionIntended | etrace.cpp:123-128 | with the intended check: the result is true iff socket, bind and subscribe succeed; a failed subscribe closes the new socket and leaves `_sockFd` unassigned |
| Connection.FailedSubscribeStillConnects | etrace.cpp:123-138 | as written, a failed LISTEN send still yields true with `_sockFd` set; the intended version returns false |
| Connection.IntendedAgreesWhenSubscribed | etrace.cpp:123-128 | the two versions agree whenever the subscribe send succeeds |
| Connection.TeardownKeepsOwnership | etrace.cpp:164-180 | teardown keeps "the object holds exactly the open handles", whatever close returns |
| Connection.TeardownTwice | etrace.cpp:164-180 | a teardown after a successful teardown changes nothing |
| Connection.TeardownAfterFailedClose | etrace.cpp:171-175 | after a failed close the handle is still held, and the next teardown sends IGNORE and closes it again |
| Connection.ReconnectWithoutLeak | etrace.cpp:96-133 | when the closes succeed, reconnecting keeps ownership exact; after success the new socket is the only open handle, after failure none is |
| Connection.ReconnectAfterFailedCloseLeaks | etrace.cpp:96-133 | when the old handle's close failed, a successful reconnect leaves both the old and the new handle open, and only the new one held |
| Connection.SubscribedOnNewHandle | etrace.cpp:123-133 | after a successful connection, the last call is the LISTEN request on the handle now held |
| EventLoop.EventOf | etrace.cpp:191-192 | a failed receive leaves a zeroed message, read as PROC_EVENT_NONE; a received message is used as decoded |
| EventLoop.FailedRecvOnlyListens | etrace.cpp:190-203 | after a failed receive the iteration only logs "Listening": no file is read and nothing is printed, whatever the lookups would give |
| EventLoop.Dispatch | etrace.cpp:200-229 | files are read iff the event is an exec, the executable link first and the command line only when the link resolves; exactly one line `[pid] cmdLine` iff exec and the link resolved, otherwise none; "Listening" iff NONE |
| EventLoop.OnlyExecLooksUp | etrace.cpp:200-229 | for non-exec kinds, such as NONE, EXIT and others, the reaction does not depend on the lookups and reads and prints nothing |
| EventLoop.ExitedProcessIsSilent | etrace.cpp:208-218 | when read_symlink throws, nothing is printed for that pid |
| EventLoop.FirstStop | etrace.cpp:189 | the loop runs until the first iteration whose flag is set: no earlier flag is set, and the one found is set |
| EventLoop.RunLoop | etrace.cpp:189-230 | iteration i reacts to step i, for exactly the steps before the first set flag; each iteration makes one receive on `_sockFd`; the loop ends iff a flag is set; the handle and open handles are unchanged |
| EventLoop.StartReadLoop | etrace.cpp:187-231 | the while loop reacts to step i in iteration i for exactly the steps before the first set flag, receives once per iteration on `_sockFd`, keeps the handle and open handles, and agrees with the recursive reference, including on whether it ended |
| EventLoop.PrintedAreReportedExecs | etrace.cpp:205-221 | the lines printed over the iterations run are exactly, in order, one `[pid] cmdLine` per exec whose link resolved, and nothing else |
| EventLoop.StepsAfterStopIgnored | etrace.cpp:189 | steps after the flag is found set have no effect |
| ETrace.Fresh | etrace.h:7 | the object starts with no socket held and nothing open |
| ETrace.Start | etrace.cpp:75-89 | not root: false, without touching anything; connection failure: false, after the connection attempt; otherwise the read loop runs on the connected state, its final state and reactions are the loop's, and `start` returns true iff the loop ends |
| ETrace.Destroy | etrace.cpp:182-185 | holding no socket the destructor changes nothing; holding one it sends IGNORE and closes it, and a successful close sets `_sockFd` to -1 whatever else is open, and a failed one keeps `_sockFd` and the open handles; for an owning object that close leaves nothing open, and ownership is kept either way |
| ETrace.DestroyAfterTeardown | etrace.cpp:182-185 | the destructor after a successful teardown sends and closes nothing |
| ETrace.FailedStartOwnsNothing | etrace.cpp:75-121 | a start that returns false leaves a fresh object with no open handle and no socket held, if a failed bind's close succeeds |
| ETrace.WholeRun | etrace.cpp:75-185 | a run from fresh object to destructor makes exactly socket, bind, LISTEN, the receives, IGNORE and one close on one handle, and leaves nothing open, even when the LISTEN send failed |

## Findings

| source | as written | input that shows it | evidently intended | confidence | as-written member | corrected member |
|---|---|---|---|---|---|---|
| etrace.cpp:123 | `subscribeToProcEvents(sock, true) == -1` compares a bool (0 or 1) with -1, so the branch that reports "Could not subscribe", closes the socket and returns false never runs | socket and bind succeed, and the LISTEN `send` returns -1: `initiateConnection` returns true and keeps a socket that receives no process events | test `!subscribeToProcEvents(sock, true)`: close the socket and return false | not executed | Connection.FailedSubscribeStillConnects | Connection.InitiateConnectionIntended |

## Left out

- The system calls themselves (`socket`, `bind`, `send`, `recv`, `close`, `geteuid`, `getpid`): each is replaced by the value it returned, supplied by the caller. The `socket` call's arguments (`PF_NETLINK`, `SOCK_DGRAM | SOCK_CLOEXEC`, `NETLINK_CONNECTOR`) are not recorded.
- Reading `/proc/<pid>/exe` and `/proc/<pid>/cmdline`, and `std::getline`: the line read is an input, and the link lookup either yields a path or throws `filesystem_error`. Other exceptions, such as allocation failure, are not modelled. The path, `appName`, is otherwise unused by the code.
- The byte layout and alignment of `NetlinkRequest` and `NetlinkResponse`: only field values are modelled. The constants and struct sizes come from the Linux headers `linux/netlink.h`, `linux/connector.h` and `linux/cn_proc.h`, which are not part of this model. The code has no request decoder, so no encode/decode round trip is stated.
- Decoding of `proc_event`, including short reads: a receive yields a decoded kind and pid, or an error.
- The SIGTERM handler, its registration with `signal`, and the asynchronous write to `stop`: the flag is an input sampled at the head of each iteration. The loop itself can run forever; the model runs it over a finite sequence of steps and reports whether it ended.
- Diagnostics written to `std::cerr` and `showError`: the only diagnostic modelled is whether "Listening" is logged.
- `etrace.h`: its declarations do not match the definitions. The constructor is declared but not defined, so `Fresh` takes the object to start with no socket held. `FailedStartOwnsNothing` and `WholeRun` start from `Fresh`. `TeardownKeepsOwnership`, `ReconnectWithoutLeak` and `ReconnectAfterFailedCloseLeaks` hold only for states satisfying `Owns`, which an undefined constructor leaving an arbitrary `_sockFd` with nothing open would violate. The other lemmas hold for any starting state.
- Connection.CloseFd: the model treats a `close` that returns non-zero as leaving the descriptor open. The code ignores the result of `close` at etrace.cpp:119 and 126, and on Linux close(2) releases the descriptor even when it reports an error. The hazard the model does not capture is a different one: the `_sockFd` that a failed teardown keeps is closed a second time by the next teardown (etrace.cpp:171), when that number may by then belong to another descriptor.
- Output.Render: the newline that `std::endl` writes after each line, and the flush, are not part of the rendered text.
