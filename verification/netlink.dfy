/**
 The subscription request that etrace sends to the kernel's process-event
 connector, as a record of field values. The constants are those of the Linux
 UAPI headers linux/netlink.h, linux/connector.h and linux/cn_proc.h; the
 sizes are the sizes of the C structs on Linux (all fields are fixed-width).
 */
module Netlink {

  /** NLMSG_ALIGNTO: netlink messages are aligned to 4 bytes. */
  const AlignTo: nat := 4
  /** NLMSG_DONE: message type of the last (here: only) part of a message. */
  const MsgTypeDone: int := 3
  /** CN_IDX_PROC / CN_VAL_PROC: connector id of the process-event group. */
  const CnIdxProc: int := 1
  const CnValProc: int := 1
  /** PROC_CN_MCAST_LISTEN / PROC_CN_MCAST_IGNORE opcodes. */
  const McastListen: int := 1
  const McastIgnore: int := 2
  /** AF_NETLINK address family. */
  const AfNetlink: int := 16

  /** sizeof(nlmsghdr): u32 len, u16 type, u16 flags, u32 seq, u32 pid. */
  const NlMsgHdrSize: nat := 4 + 2 + 2 + 4 + 4
  /** sizeof(cn_msg): cb_id (u32 idx, u32 val), u32 seq, u32 ack, u16 len, u16 flags. */
  const CnMsgSize: nat := 4 + 4 + 4 + 4 + 2 + 2
  /** sizeof(proc_cn_mcast_op): an enum, 4 bytes. */
  const McastOpSize: nat := 4

  /** NLMSG_ALIGN: round a length up to the netlink alignment. */
  function Align(n: nat): (r: nat)
    ensures r % AlignTo == 0
    ensures n <= r < n + AlignTo
  {
    n + (AlignTo - n % AlignTo) % AlignTo
  }

  /**
   sizeof(NetlinkRequest): the header followed by the packed connector header
   and opcode, the whole struct aligned to NLMSG_ALIGNTO.
   */
  const RequestSize: nat := Align(NlMsgHdrSize + CnMsgSize + McastOpSize)

  datatype NlMsgHdr = NlMsgHdr(len: int, msgType: int, flags: int, sequence: int, pid: int)
  datatype CbId = CbId(idx: int, val: int)
  datatype CnMsg = CnMsg(id: CbId, sequence: int, ack: int, len: int, flags: int)
  /** The fields of a NetlinkRequest. */
  datatype Request = Request(header: NlMsgHdr, body: CnMsg, op: int)

  /** The sockaddr_nl passed to bind. */
  datatype SockAddr = SockAddr(family: int, pid: int, groups: int)

  /** The request shape subscribeToProcEvents builds for `pid`. */
  predicate WellFormed(r: Request, pid: int)
  {
    && r.header == NlMsgHdr(RequestSize, MsgTypeDone, 0, 0, pid)
    && r.body == CnMsg(CbId(CnIdxProc, CnValProc), 0, 0, McastOpSize, 0)
    && (r.op == McastListen || r.op == McastIgnore)
  }

  /** Whether a request asks the kernel to start (rather than stop) sending events. */
  predicate Listens(r: Request)
  {
    r.op == McastListen
  }

  /**
   The request subscribeToProcEvents fills in: a zero-initialised message
   whose opcode, header and connector header are then set.
   */
  function SubscribeRequest(enabled: bool, pid: int): (r: Request)
    ensures WellFormed(r, pid)
    ensures r.op == McastListen <==> enabled
    ensures r.op == McastIgnore <==> !enabled
  {
    var op := if enabled then McastListen else McastIgnore;
    Request(
      NlMsgHdr(RequestSize, MsgTypeDone, 0, 0, pid),
      CnMsg(CbId(CnIdxProc, CnValProc), 0, 0, McastOpSize, 0),
      op)
  }

  /** The address initiateConnection binds the socket to. */
  function BindAddress(pid: int): (a: SockAddr)
    ensures a.family == AfNetlink && a.pid == pid && a.groups == CnIdxProc
  {
    SockAddr(AfNetlink, pid, CnIdxProc)
  }

  /** The socket joins the multicast group the request addresses, under the pid the request carries. */
  lemma BindAddressMatchesRequest(enabled: bool, pid: int)
    ensures BindAddress(pid).groups == SubscribeRequest(enabled, pid).body.id.idx
    ensures BindAddress(pid).pid == SubscribeRequest(enabled, pid).header.pid
  {
  }

  /** The opcode recovers the flag the request was built from. */
  lemma ListensRecoversEnabled(enabled: bool, pid: int)
    ensures Listens(SubscribeRequest(enabled, pid)) == enabled
  {
  }

  /**
   A well-formed request is determined by its sender and its opcode, so the
   two requests etrace ever builds for one process are exactly the LISTEN and
   the IGNORE request.
   */
  lemma WellFormedIsSubscribeRequest(r: Request, pid: int)
    requires WellFormed(r, pid)
    ensures r == SubscribeRequest(Listens(r), pid)
  {
  }

  /** The declared length is the whole message: the packed parts need no tail padding. */
  lemma RequestSizeIsUnpadded()
    ensures RequestSize == NlMsgHdrSize + CnMsgSize + McastOpSize == 40
    ensures RequestSize % AlignTo == 0
  {
  }
}
