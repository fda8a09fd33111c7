/**
 * The RPC codec of the bridge between the Go runtime and the VM:
 * golang/cosmos/vm/client.go. The channel of responses is a queue: Receive adds
 * to it, the single reader of the net/rpc client takes from it.
 */
module ClientCodec {
  import opened Wrappers

  const UINT64: int := 0x1_0000_0000_0000_0000
  const INT64_MAX: int := 0x7FFF_FFFF_FFFF_FFFF
  const RECEIVE_MESSAGE_METHOD := "agvm.ReceiveMessage"
  const NO_REPLY := "<no-reply-requested>"

  type Seq = n: int | 0 <= n < UINT64

  datatype Message = Message(port: int, data: string, needsReply: bool)
  datatype Request = Request(serviceMethod: string, seqNo: Seq)
  datatype Response = Response(serviceMethod: string, seqNo: Seq, error: string)
  datatype WriteError = UnknownMethod | NotAMessage

  /** int(r.Seq + 1): the sum wraps as uint64, the conversion as int64. */
  function ReplyPort(seqNo: Seq): int {
    var sum := (seqNo + 1) % UINT64;
    if sum <= INT64_MAX then sum else sum - UINT64
  }

  /** The request number whose reply port is 0, which means that no reply is wanted. */
  const LAST: Seq := UINT64 - 1

  lemma ReplyPortInjective(a: Seq, b: Seq)
    ensures ReplyPort(a) == ReplyPort(b) <==> a == b
    ensures ReplyPort(a) == 0 <==> a == LAST
  {
  }

  /** The port is the number's successor as a 64-bit signed integer. */
  lemma ReplyPortIs(s: Seq)
    ensures -0x8000_0000_0000_0000 <= ReplyPort(s) < 0x8000_0000_0000_0000
    ensures ReplyPort(s) == s + 1 || ReplyPort(s) == s + 1 - 0x1_0000_0000_0000_0000
  {
  }

  /** The request a reply port stands for. */
  function SeqOf(rPort: int): Seq {
    (rPort - 1) % UINT64
  }

  lemma SeqOfReplyPort(s: Seq)
    ensures SeqOf(ReplyPort(s)) == s
  {
  }

  datatype Codec = Codec(
    outbound: map<int, Request>,
    inbound: seq<Response>,
    replies: map<Seq, string>,
    replyToRead: Seq,
    // every call of send: port, reply port, data
    sent: seq<(int, int, string)>)

  function ReceiveStep(c: Codec, rPort: int, isError: bool, data: string): Codec {
    // an absent port reads as the zero request
    var outb := if rPort in c.outbound then c.outbound[rPort] else Request("", 0);
    c.(outbound := c.outbound - {rPort},
       replies := if isError then c.replies else c.replies[outb.seqNo := data],
       inbound := c.inbound + [Response(outb.serviceMethod, outb.seqNo, if isError then data else "")])
  }

  function WriteStep(c: Codec, r: Request, body: Option<Message>): (Codec, Result<(), WriteError>) {
    if r.serviceMethod != RECEIVE_MESSAGE_METHOD then (c, Err(UnknownMethod))
    else if body.None? then (c, Err(NotAMessage))
    else
      var msg := body.value;
      var rPort := ReplyPort(r.seqNo);
      var c1 := c.(outbound := c.outbound[rPort := r],
                   sent := c.sent + [(msg.port, if msg.needsReply then rPort else 0, msg.data)]);
      (if msg.needsReply then c1 else ReceiveStep(c1, rPort, false, NO_REPLY), Ok(()))
  }

  function HeaderStep(c: Codec): (Codec, Response)
    requires c.inbound != []
  {
    (c.(inbound := c.inbound[1..], replyToRead := c.inbound[0].seqNo), c.inbound[0])
  }

  /** The string is written only when the caller passes a body to fill in. */
  function BodyStep(c: Codec): (Codec, string) {
    (c.(replies := c.replies - {c.replyToRead}), if c.replyToRead in c.replies then c.replies[c.replyToRead] else "")
  }

  /** What an answer leaves: its request is no longer outbound, and a response waits, with the reply unless it is an error. */
  lemma ReceiveStepIs(c: Codec, rPort: int, isError: bool, data: string)
    ensures var t := ReceiveStep(c, rPort, isError, data);
            var known := rPort in c.outbound;
            && rPort !in t.outbound && (forall p :: p != rPort ==> (p in t.outbound <==> p in c.outbound))
            && (forall p :: p in t.outbound ==> t.outbound[p] == c.outbound[p])
            && |t.inbound| == |c.inbound| + 1 && t.inbound[..|c.inbound|] == c.inbound
            && var r := t.inbound[|c.inbound|];
               && r.serviceMethod == (if known then c.outbound[rPort].serviceMethod else "")
               && r.seqNo == (if known then c.outbound[rPort].seqNo else 0)
               && r.error == (if isError then data else "")
               && t.replies == (if isError then c.replies else c.replies[r.seqNo := data])
               && t.replyToRead == c.replyToRead && t.sent == c.sent
  {
  }

  class ClientCodecObject {
    var outbound: map<int, Request>
    var inbound: seq<Response>
    var replies: map<Seq, string>
    var replyToRead: Seq
    var sent: seq<(int, int, string)>

    ghost function Abs(): Codec
      reads this
    {
      Codec(outbound, inbound, replies, replyToRead, sent)
    }

    constructor ()
      ensures Abs() == Codec(map[], [], map[], 0, [])
    {
      outbound, inbound, replies, replyToRead, sent := map[], [], map[], 0, [];
    }

    method WriteRequest(r: Request, body: Option<Message>) returns (err: Result<(), WriteError>)
      modifies this
      ensures (Abs(), err) == WriteStep(old(Abs()), r, body)
    {
      if r.serviceMethod != RECEIVE_MESSAGE_METHOD { return Err(UnknownMethod); }
      if body.None? { return Err(NotAMessage); }
      var msg := body.value;
      var rPort := ReplyPort(r.seqNo);
      outbound := outbound[rPort := r];
      var senderReplyPort := 0;
      if msg.needsReply { senderReplyPort := rPort; }
      sent := sent + [(msg.port, senderReplyPort, msg.data)];
      if !msg.needsReply { Receive(rPort, false, NO_REPLY); }
      return Ok(());
    }

    method ReadResponseHeader() returns (r: Response)
      requires inbound != []
      modifies this`inbound, this`replyToRead
      ensures (Abs(), r) == HeaderStep(old(Abs()))
    {
      r := inbound[0];
      inbound := inbound[1..];
      replyToRead := r.seqNo;
    }

    method ReadResponseBody() returns (body: string)
      modifies this`replies
      ensures (Abs(), body) == BodyStep(old(Abs()))
    {
      body := if replyToRead in replies then replies[replyToRead] else "";
      replies := replies - {replyToRead};
    }

    method Receive(rPort: int, isError: bool, data: string)
      modifies this`outbound, this`inbound, this`replies
      ensures Abs() == ReceiveStep(old(Abs()), rPort, isError, data)
    {
      var outb := if rPort in outbound then outbound[rPort] else Request("", 0);
      outbound := outbound - {rPort};
      var resp := Response(outb.serviceMethod, outb.seqNo, "");
      if isError {
        resp := resp.(error := data);
      } else {
        replies := replies[resp.seqNo := data];
      }
      inbound := inbound + [resp];
    }
  }

  /**
   * Reading a header first and then receiving or writing is receiving or writing
   * first. So whatever happens between a header and its body could as well have
   * happened before both, and the client's two reads count as one step.
   */
  lemma HeaderCommutes(c: Codec, rPort: int, isError: bool, data: string, r: Request, body: Option<Message>)
    requires c.inbound != []
    ensures var (c1, header) := HeaderStep(c);
            && HeaderStep(ReceiveStep(c, rPort, isError, data)) == (ReceiveStep(c1, rPort, isError, data), header)
            && HeaderStep(WriteStep(c, r, body).0) == (WriteStep(c1, r, body).0, header)
            && WriteStep(c, r, body).1 == WriteStep(c1, r, body).1
  {
    hide ReplyPort;
    forall x: Response ensures (c.inbound + [x])[1..] == c.inbound[1..] + [x] { }
  }

  // -------------------------------------------------------------- the bridge

  datatype Answer = Answer(isError: bool, data: string)

  /** One response as the client hands it to its caller: the reply is filled in only without an error. */
  datatype Delivery = Delivery(seqNo: Seq, serviceMethod: string, error: string, reply: string)

  datatype World = World(
    codec: Codec,
    issued: map<Seq, Message>,
    answered: map<Seq, Answer>,
    delivered: seq<Delivery>)

  const START: World := World(Codec(map[], [], map[], 0, []), map[], map[], [])

  datatype Event =
    | Issue(request: Request, body: Option<Message>)
    | VmAnswers(rPort: int, isError: bool, data: string)
    | ClientReads

  /**
   * The client numbers its calls apart; the VM answers each non-zero reply port it
   * was sent once, in any order; the reader waits for a response.
   */
  ghost predicate Allowed(w: World, e: Event) {
    match e
    case Issue(r, _) => r.seqNo !in w.issued
    case VmAnswers(rPort, _, _) =>
      rPort != 0 && (exists k :: 0 <= k < |w.codec.sent| && w.codec.sent[k].1 == rPort) && SeqOf(rPort) !in w.answered
    case ClientReads => w.codec.inbound != []
  }

  /** The net/rpc client: header, then the body, which it asks for only when there is no error. */
  function ReadStep(w: World): World
    requires w.codec.inbound != []
  {
    var (c1, r) := HeaderStep(w.codec);
    var (c2, body) := BodyStep(c1);
    w.(codec := c2,
       delivered := w.delivered + [Delivery(r.seqNo, r.serviceMethod, r.error, if r.error != "" then "" else body)])
  }

  ghost function Apply(w: World, e: Event): World
    requires Allowed(w, e)
  {
    match e
    case Issue(r, body) =>
      var (c, err) := WriteStep(w.codec, r, body);
      if err.Err? then w.(codec := c)
      else
        w.(codec := c, issued := w.issued[r.seqNo := body.value],
           answered := if body.value.needsReply then w.answered else w.answered[r.seqNo := Answer(false, NO_REPLY)])
    case VmAnswers(rPort, isError, data) =>
      w.(codec := ReceiveStep(w.codec, rPort, isError, data), answered := w.answered[SeqOf(rPort) := Answer(isError, data)])
    case ClientReads => ReadStep(w)
  }

  ghost predicate IsRun(worlds: seq<World>, events: seq<Event>) {
    && |worlds| == |events| + 1 && worlds[0] == START
    && forall k :: 0 <= k < |events| ==> Allowed(worlds[k], events[k]) && worlds[k + 1] == Apply(worlds[k], events[k])
  }

  /** Requests not answered yet are exactly the outbound ones, each under its own port. */
  ghost predicate OutboundInv(w: World) {
    && (forall s :: s in w.answered ==> s in w.issued)
    && (forall s :: s in w.issued && s !in w.answered ==>
          ReplyPort(s) in w.codec.outbound && w.codec.outbound[ReplyPort(s)] == Request(RECEIVE_MESSAGE_METHOD, s))
    && (forall p :: p in w.codec.outbound ==>
          p == ReplyPort(w.codec.outbound[p].seqNo) && w.codec.outbound[p].seqNo in w.issued && w.codec.outbound[p].seqNo !in w.answered)
  }

  ghost predicate Waiting(w: World, s: Seq) {
    exists i :: 0 <= i < |w.codec.inbound| && w.codec.inbound[i].seqNo == s
  }

  ghost predicate Delivered(w: World, s: Seq) {
    exists i :: 0 <= i < |w.delivered| && w.delivered[i].seqNo == s
  }

  /** Answered requests are either in the channel or delivered, once, and replies holds what the channel still needs. */
  ghost predicate InboundInv(w: World) {
    && (forall i :: 0 <= i < |w.codec.inbound| ==> var r := w.codec.inbound[i];
          && r.seqNo in w.answered && r.serviceMethod == RECEIVE_MESSAGE_METHOD
          && r.error == (if w.answered[r.seqNo].isError then w.answered[r.seqNo].data else ""))
    && (forall i, j :: 0 <= i < j < |w.codec.inbound| ==> w.codec.inbound[i].seqNo != w.codec.inbound[j].seqNo)
    && (forall s :: s in w.codec.replies <==> s in w.answered && !w.answered[s].isError && !Delivered(w, s))
    && (forall s :: s in w.codec.replies ==> w.codec.replies[s] == w.answered[s].data)
  }

  ghost predicate DeliveredRight(w: World) {
    && (forall i :: 0 <= i < |w.delivered| ==> w.delivered[i].seqNo in w.answered && RightDelivery(w, w.delivered[i]))
    && (forall i, j :: 0 <= i < j < |w.delivered| ==> w.delivered[i].seqNo != w.delivered[j].seqNo)
  }

  ghost predicate DeliveryInv(w: World) {
    && DeliveredRight(w)
    && (forall s :: s in w.answered ==> (Waiting(w, s) <==> !Delivered(w, s)))
  }

  /** Its own method; an error as the error, anything else as the reply. */
  ghost predicate RightDelivery(w: World, d: Delivery)
    requires d.seqNo in w.answered
  {
    var a := w.answered[d.seqNo];
    && d.serviceMethod == RECEIVE_MESSAGE_METHOD
    && d.error == (if a.isError then a.data else "")
    && d.reply == (if a.isError then "" else a.data)
  }

  /** A request that wants no reply is answered as it is written. */
  ghost predicate NoReplyInv(w: World) {
    forall s :: s in w.issued && !w.issued[s].needsReply ==> s in w.answered && w.answered[s] == Answer(false, NO_REPLY)
  }

  ghost predicate Inv(w: World) {
    OutboundInv(w) && InboundInv(w) && DeliveryInv(w)
  }

  /** What the VM is sent for an issued request: its message, with a reply port if it wants a reply. */
  function MessageOf(w: World, s: Seq): (int, int, string)
    requires s in w.issued
  {
    (w.issued[s].port, if w.issued[s].needsReply then ReplyPort(s) else 0, w.issued[s].data)
  }

  ghost predicate SentFor(w: World, s: Seq)
    requires s in w.issued
  {
    exists k :: 0 <= k < |w.codec.sent| && w.codec.sent[k] == MessageOf(w, s)
  }

  ghost predicate PortOfRequest(w: World, sent: (int, int, string)) {
    var s := SeqOf(sent.1);
    s in w.issued && w.issued[s].needsReply && ReplyPort(s) == sent.1 && sent == MessageOf(w, s)
  }

  /** One message for each request, and every reply port in them stands for one request that wants a reply. */
  ghost predicate SentInv(w: World) {
    && |w.codec.sent| == |w.issued|
    && (forall s :: s in w.issued ==> SentFor(w, s))
    && (forall k :: 0 <= k < |w.codec.sent| && w.codec.sent[k].1 != 0 ==> PortOfRequest(w, w.codec.sent[k]))
  }

  lemma AnsweredPort(w: World, e: Event)
    requires SentInv(w) && Allowed(w, e) && e.VmAnswers?
    ensures var s := SeqOf(e.rPort);
            s in w.issued && w.issued[s].needsReply && ReplyPort(s) == e.rPort && s !in w.answered
  {
    hide ReplyPort, SeqOf;
  }

  lemma WrittenSent(w: World, r: Request, msg: Message)
    requires SentInv(w) && r.seqNo !in w.issued
    ensures SentInv(Written(w, r, msg))
  {
    SeqOfReplyPort(r.seqNo);
    hide ReplyPort, SeqOf;
    var t := Written(w, r, msg);
    var n := |w.codec.sent|;
    assert t.codec.sent[n] == MessageOf(t, r.seqNo);
    forall s | s in w.issued ensures SentFor(t, s) {
      assert SentFor(w, s);
      var k :| 0 <= k < n && w.codec.sent[k] == MessageOf(w, s);
      assert t.codec.sent[k] == MessageOf(t, s);
    }
    forall k | 0 <= k < |t.codec.sent| && t.codec.sent[k].1 != 0 ensures PortOfRequest(t, t.codec.sent[k]) {
      if k < n { assert PortOfRequest(w, w.codec.sent[k]); }
    }
  }

  lemma ApplySent(w: World, e: Event)
    requires SentInv(w) && Allowed(w, e)
    ensures SentInv(Apply(w, e))
  {
    match e
    case Issue(r, body) =>
      if r.serviceMethod == RECEIVE_MESSAGE_METHOD && body.Some? {
        WrittenSent(w, r, body.value);
        SameSent(Written(w, r, body.value), Apply(w, e));
      } else {
        SameSent(w, Apply(w, e));
      }
    case _ => SameSent(w, Apply(w, e));
  }

  lemma SameSent(w: World, t: World)
    requires SentInv(w) && t.codec.sent == w.codec.sent && t.issued == w.issued
    ensures SentInv(t)
  {
    hide ReplyPort, SeqOf;
    forall s | s in w.issued ensures SentFor(t, s) {
      assert SentFor(w, s);
      var k :| 0 <= k < |w.codec.sent| && w.codec.sent[k] == MessageOf(w, s);
      assert t.codec.sent[k] == MessageOf(t, s);
    }
    forall k | 0 <= k < |t.codec.sent| && t.codec.sent[k].1 != 0 ensures PortOfRequest(t, t.codec.sent[k]) {
      assert PortOfRequest(w, w.codec.sent[k]);
    }
  }

  /** The world after Receive is called for a request that is outbound. */
  ghost function Answered(w: World, s: Seq, a: Answer): World {
    w.(codec := ReceiveStep(w.codec, ReplyPort(s), a.isError, a.data), answered := w.answered[s := a])
  }

  lemma ReceiveOutbound(w: World, s: Seq, a: Answer)
    requires OutboundInv(w) && s in w.issued && s !in w.answered
    ensures OutboundInv(Answered(w, s, a))
    ensures Answered(w, s, a).codec.inbound
            == w.codec.inbound + [Response(RECEIVE_MESSAGE_METHOD, s, if a.isError then a.data else "")]
    ensures Answered(w, s, a).codec.replies == if a.isError then w.codec.replies else w.codec.replies[s := a.data]
  {
  }

  lemma ReceiveWaiting(w: World, s: Seq, a: Answer)
    requires OutboundInv(w) && s in w.issued && s !in w.answered
    ensures forall q :: Waiting(Answered(w, s, a), q) <==> Waiting(w, q) || q == s
    ensures forall q :: Delivered(Answered(w, s, a), q) <==> Delivered(w, q)
  {
    ReceiveOutbound(w, s, a);
    hide OutboundInv, ReceiveStep;
    var t := Answered(w, s, a);
    var n := |w.codec.inbound|;
    assert t.codec.inbound[n].seqNo == s;
    forall q | Waiting(w, q) ensures Waiting(t, q) {
      var i :| 0 <= i < n && w.codec.inbound[i].seqNo == q;
      assert t.codec.inbound[i].seqNo == q;
    }
  }

  lemma UnansweredIsNowhere(w: World, s: Seq)
    requires InboundInv(w) && DeliveryInv(w) && s !in w.answered
    ensures !Waiting(w, s) && !Delivered(w, s)
    ensures forall i :: 0 <= i < |w.delivered| ==> w.delivered[i].seqNo != s
    ensures forall i :: 0 <= i < |w.codec.inbound| ==> w.codec.inbound[i].seqNo != s
  {
  }

  lemma ReceiveDelivery(w: World, s: Seq, a: Answer)
    requires DeliveryInv(w) && s !in w.answered && !Delivered(w, s)
    requires forall i :: 0 <= i < |w.delivered| ==> w.delivered[i].seqNo != s
    requires forall q :: Waiting(Answered(w, s, a), q) <==> Waiting(w, q) || q == s
    requires forall q :: Delivered(Answered(w, s, a), q) <==> Delivered(w, q)
    ensures DeliveryInv(Answered(w, s, a))
  {
  }

  lemma ReceiveInbound(w: World, s: Seq, a: Answer)
    requires InboundInv(w) && s !in w.answered && !Delivered(w, s)
    requires forall i :: 0 <= i < |w.codec.inbound| ==> w.codec.inbound[i].seqNo != s
    requires forall q :: Delivered(Answered(w, s, a), q) <==> Delivered(w, q)
    requires Answered(w, s, a).codec.inbound
             == w.codec.inbound + [Response(RECEIVE_MESSAGE_METHOD, s, if a.isError then a.data else "")]
    requires Answered(w, s, a).codec.replies == if a.isError then w.codec.replies else w.codec.replies[s := a.data]
    ensures InboundInv(Answered(w, s, a))
  {
  }

  lemma ReceiveInv(w: World, s: Seq, a: Answer)
    requires Inv(w) && s in w.issued && s !in w.answered
    ensures Inv(Answered(w, s, a))
  {
    hide OutboundInv, InboundInv, DeliveryInv, Waiting, Delivered, Answered;
    ReceiveOutbound(w, s, a);
    ReceiveWaiting(w, s, a);
    UnansweredIsNowhere(w, s);
    ReceiveDelivery(w, s, a);
    ReceiveInbound(w, s, a);
  }

  /** The world once a request is written and before any answer to it. */
  ghost function Written(w: World, r: Request, msg: Message): World {
    w.(issued := w.issued[r.seqNo := msg],
       codec := w.codec.(outbound := w.codec.outbound[ReplyPort(r.seqNo) := r],
                         sent := w.codec.sent + [(msg.port, if msg.needsReply then ReplyPort(r.seqNo) else 0, msg.data)]))
  }

  lemma IssueOutbound(w: World, r: Request, msg: Message)
    requires OutboundInv(w) && r.seqNo !in w.issued && r.serviceMethod == RECEIVE_MESSAGE_METHOD
    ensures OutboundInv(Written(w, r, msg))
  {
    forall q: Seq | q != r.seqNo ensures ReplyPort(q) != ReplyPort(r.seqNo) { ReplyPortInjective(q, r.seqNo); }
    hide ReplyPort;
  }

  lemma IssueInv(w: World, r: Request, msg: Message)
    requires Inv(w) && r.seqNo !in w.issued && r.serviceMethod == RECEIVE_MESSAGE_METHOD
    ensures Inv(Written(w, r, msg))
  {
    IssueOutbound(w, r, msg);
    IssueInbound(w, r, msg);
    IssueDelivery(w, r, msg);
    hide OutboundInv, InboundInv, DeliveryInv, Written;
  }

  lemma IssueInbound(w: World, r: Request, msg: Message)
    requires InboundInv(w) && r.seqNo !in w.issued
    ensures InboundInv(Written(w, r, msg))
  {
  }

  lemma IssueDelivery(w: World, r: Request, msg: Message)
    requires DeliveryInv(w) && r.seqNo !in w.issued
    ensures DeliveryInv(Written(w, r, msg))
  {
  }

  lemma ReadWaiting(w: World)
    requires w.codec.inbound != []
    ensures var t := ReadStep(w);
            && (forall s :: Delivered(t, s) <==> Delivered(w, s) || s == w.codec.inbound[0].seqNo)
            && (forall s :: Waiting(w, s) <==> Waiting(t, s) || s == w.codec.inbound[0].seqNo)
  {
    var t := ReadStep(w);
    var r := w.codec.inbound[0];
    assert Waiting(w, r.seqNo);
    assert t.delivered[|w.delivered|].seqNo == r.seqNo;
    forall s | Delivered(w, s) ensures Delivered(t, s) {
      var i :| 0 <= i < |w.delivered| && w.delivered[i].seqNo == s;
      assert t.delivered[i].seqNo == s;
    }
    forall s | Waiting(w, s) ensures Waiting(t, s) || s == r.seqNo {
      var i :| 0 <= i < |w.codec.inbound| && w.codec.inbound[i].seqNo == s;
      if i > 0 { assert t.codec.inbound[i - 1].seqNo == s; }
    }
    forall s | Waiting(t, s) ensures Waiting(w, s) {
      var i :| 0 <= i < |t.codec.inbound| && t.codec.inbound[i].seqNo == s;
      assert w.codec.inbound[i + 1].seqNo == s;
    }
  }

  lemma ReadInbound(w: World)
    requires InboundInv(w) && w.codec.inbound != []
    requires forall s :: Delivered(ReadStep(w), s) <==> Delivered(w, s) || s == w.codec.inbound[0].seqNo
    ensures InboundInv(ReadStep(w))
  {
  }

  lemma ReadInv(w: World)
    requires Inv(w) && w.codec.inbound != []
    ensures Inv(ReadStep(w))
  {
    ReadWaiting(w);
    FirstIsWaitingOnce(w);
    assert OutboundInv(ReadStep(w)) by { hide InboundInv, DeliveryInv, ReplyPort; }
    hide OutboundInv, InboundInv, DeliveryInv, ReadStep, Waiting, Delivered;
    ReadDelivery(w);
    ReadInbound(w);
  }

  lemma FirstIsWaitingOnce(w: World)
    requires InboundInv(w) && DeliveryInv(w) && w.codec.inbound != []
    ensures !Delivered(w, w.codec.inbound[0].seqNo) && !Waiting(ReadStep(w), w.codec.inbound[0].seqNo)
  {
  }

  lemma ReadDelivery(w: World)
    requires Inv(w) && w.codec.inbound != [] && !Waiting(ReadStep(w), w.codec.inbound[0].seqNo)
    requires !Delivered(w, w.codec.inbound[0].seqNo)
    ensures DeliveryInv(ReadStep(w))
  {
    ReadWaiting(w);
    FirstIsRight(w);
    var t, n := ReadStep(w), |w.delivered|;
    assert DeliveredRight(t) by {
      assert forall i :: 0 <= i < n ==> w.delivered[i].seqNo != w.codec.inbound[0].seqNo;
      hide OutboundInv, InboundInv, ReadStep, Waiting, Delivered, RightDelivery;
      DeliveredMore(w, t);
    }
    hide OutboundInv, InboundInv, ReadStep, Waiting, Delivered, DeliveredRight, RightDelivery;
  }

  lemma DeliveredMore(w: World, t: World)
    requires DeliveredRight(w) && t.answered == w.answered && |t.delivered| == |w.delivered| + 1
    requires t.delivered[..|w.delivered|] == w.delivered
    requires var d := t.delivered[|w.delivered|];
             && d.seqNo in t.answered && RightDelivery(t, d)
             && forall i :: 0 <= i < |w.delivered| ==> w.delivered[i].seqNo != d.seqNo
    ensures DeliveredRight(t)
  {
    assert forall i :: 0 <= i < |w.delivered| ==> t.delivered[i] == t.delivered[..|w.delivered|][i];
  }

  /** What is read first is delivered last, and right. */
  lemma FirstIsRight(w: World)
    requires InboundInv(w) && w.codec.inbound != [] && !Delivered(w, w.codec.inbound[0].seqNo)
    ensures var t, s := ReadStep(w), w.codec.inbound[0].seqNo;
            && t.answered == w.answered && s in t.answered && |t.delivered| == |w.delivered| + 1
            && t.delivered[..|w.delivered|] == w.delivered
            && t.delivered[|w.delivered|].seqNo == s && RightDelivery(t, t.delivered[|w.delivered|])
  {
    assert ReadStep(w).delivered == w.delivered + [ReadStep(w).delivered[|w.delivered|]];
  }

  lemma ApplyInv(w: World, e: Event)
    requires Inv(w) && SentInv(w) && Allowed(w, e)
    ensures Inv(Apply(w, e))
  {
    if e.VmAnswers? { AnsweredPort(w, e); }
    hide OutboundInv, InboundInv, DeliveryInv, SentInv, ReadStep, ReceiveStep, ReplyPort, SeqOf;
    match e
    case Issue(r, body) =>
      if r.serviceMethod == RECEIVE_MESSAGE_METHOD && body.Some? {
        var msg := body.value;
        IssueInv(w, r, msg);
        if !msg.needsReply {
          IssuedIsUnanswered(w, r.seqNo);
          ReceiveInv(Written(w, r, msg), r.seqNo, Answer(false, NO_REPLY));
        }
      }
    case VmAnswers(rPort, isError, data) => ReceiveInv(w, SeqOf(rPort), Answer(isError, data));
    case ClientReads => ReadInv(w);
  }

  lemma IssuedIsUnanswered(w: World, s: Seq)
    requires OutboundInv(w) && s !in w.issued
    ensures s !in w.answered
  {
  }

  lemma {:induction false} RunInv(worlds: seq<World>, events: seq<Event>, k: nat)
    requires IsRun(worlds, events) && k < |worlds|
    ensures Inv(worlds[k]) && NoReplyInv(worlds[k]) && SentInv(worlds[k])
  {
    hide Inv, NoReplyInv, SentInv, Apply, Allowed;
    if k == 0 {
      StartInv();
    } else {
      RunInv(worlds, events, k - 1);
      ApplySent(worlds[k - 1], events[k - 1]);
      ApplyInv(worlds[k - 1], events[k - 1]);
      ApplyNoReply(worlds[k - 1], events[k - 1]);
    }
  }

  lemma ApplyNoReply(w: World, e: Event)
    requires NoReplyInv(w) && SentInv(w) && Allowed(w, e)
    ensures NoReplyInv(Apply(w, e))
  {
  }

  lemma StartInv()
    ensures Inv(START) && NoReplyInv(START) && SentInv(START)
  {
  }

  /** The requests in the order they were sent, each once. */
  ghost predicate SentInOrder(w: World, order: seq<Seq>) {
    && |order| == |w.codec.sent|
    && (forall k :: 0 <= k < |order| ==> order[k] in w.issued && w.codec.sent[k] == MessageOf(w, order[k]))
    && (forall s :: s in w.issued ==> s in order)
    && (forall i, j :: 0 <= i < j < |order| ==> order[i] != order[j])
  }

  /**
   * What the VM is sent: one message for each request and none besides, with the
   * request's port and data, and with its own reply port exactly if it wants a
   * reply.
   */
  lemma {:induction false} MessagesAreSent(worlds: seq<World>, events: seq<Event>, k: nat) returns (order: seq<Seq>)
    requires IsRun(worlds, events) && k < |worlds|
    ensures SentInOrder(worlds[k], order)
  {
    if k == 0 {
      order := [];
    } else {
      order := MessagesAreSent(worlds, events, k - 1);
      var w, e := worlds[k - 1], events[k - 1];
      hide IsRun, ReplyPort, SeqOf;
      if e.Issue? && e.request.serviceMethod == RECEIVE_MESSAGE_METHOD && e.body.Some? {
        SentOneMore(w, worlds[k], order, e.request, e.body.value);
        order := order + [e.request.seqNo];
      } else {
        SentNoMore(w, worlds[k], order);
      }
    }
  }

  lemma SentNoMore(w: World, t: World, order: seq<Seq>)
    requires SentInOrder(w, order) && t.codec.sent == w.codec.sent && t.issued == w.issued
    ensures SentInOrder(t, order)
  {
  }

  lemma SentOneMore(w: World, t: World, order: seq<Seq>, r: Request, msg: Message)
    requires SentInOrder(w, order) && r.seqNo !in w.issued && t.issued == w.issued[r.seqNo := msg]
    requires t.codec.sent == w.codec.sent + [MessageOf(t, r.seqNo)]
    ensures SentInOrder(t, order + [r.seqNo])
  {
    hide ReplyPort;
    var longer := order + [r.seqNo];
    forall s | s in t.issued ensures s in longer {
      if s != r.seqNo { assert s in order; }
    }
    forall k | 0 <= k < |longer| ensures longer[k] in t.issued && t.codec.sent[k] == MessageOf(t, longer[k]) {
      if k < |order| { assert t.codec.sent[k] == w.codec.sent[k]; }
    }
  }

  /** Every response a caller gets is for a request it made, carries that request's answer, and comes once. */
  lemma ResponsesAreRight(worlds: seq<World>, events: seq<Event>, k: nat, i: nat)
    requires IsRun(worlds, events) && k < |worlds| && i < |worlds[k].delivered|
    ensures var w := worlds[k];
            var d := w.delivered[i];
            && d.seqNo in w.issued && d.seqNo in w.answered && RightDelivery(w, d)
            && (!w.issued[d.seqNo].needsReply ==> d.error == "" && d.reply == NO_REPLY)
            && (d.error != "" <==> w.answered[d.seqNo].isError && w.answered[d.seqNo].data != "")
            && forall j :: 0 <= j < |w.delivered| && j != i ==> w.delivered[j].seqNo != d.seqNo
  {
    RunInv(worlds, events, k);
    hide IsRun, ReplyPort;
  }

  /**
   * A request numbered 2^64 - 1 that wants a reply never completes: the VM is told
   * that it wants none, so in no state of any run is it answered or delivered.
   */
  lemma {:induction false} LastRequestNeverCompletes(worlds: seq<World>, events: seq<Event>, k: nat)
    requires IsRun(worlds, events) && k < |worlds|
    requires LAST in worlds[k].issued && worlds[k].issued[LAST].needsReply
    ensures LAST !in worlds[k].answered && !Waiting(worlds[k], LAST) && !Delivered(worlds[k], LAST)
  {
    RunInv(worlds, events, k);
    UnansweredLast(worlds, events, k);
    hide IsRun, OutboundInv, SentInv, NoReplyInv;
    UnansweredIsNowhere(worlds[k], LAST);
  }

  ghost predicate LastInv(w: World) {
    LAST in w.answered ==> LAST in w.issued && !w.issued[LAST].needsReply
  }

  lemma {:induction false} UnansweredLast(worlds: seq<World>, events: seq<Event>, k: nat)
    requires IsRun(worlds, events) && k < |worlds|
    ensures LastInv(worlds[k])
  {
    hide Inv, SentInv, NoReplyInv, Apply, Allowed;
    if k > 0 {
      UnansweredLast(worlds, events, k - 1);
      RunInv(worlds, events, k - 1);
      ApplyLast(worlds[k - 1], events[k - 1]);
    }
  }

  lemma ApplyLast(w: World, e: Event)
    requires LastInv(w) && SentInv(w) && Inv(w) && Allowed(w, e)
    ensures LastInv(Apply(w, e))
  {
    if e.VmAnswers? {
      AnsweredPort(w, e);
      ReplyPortInjective(SeqOf(e.rPort), LAST);
    }
    hide SentInv, InboundInv, DeliveryInv, ReplyPort, SeqOf, ReceiveStep, ReadStep;
  }

  /** A request that wants a reply and cannot get one. */
  ghost predicate Unanswerable(w: World, s: Seq)
    requires s in w.issued
  {
    s == LAST && w.issued[s].needsReply
  }

  /** The VM has answered every reply port it was sent. */
  ghost predicate VmIsDone(w: World) {
    forall j :: 0 <= j < |w.codec.sent| && w.codec.sent[j].1 != 0 ==> SeqOf(w.codec.sent[j].1) in w.answered
  }

  lemma DoneMeansAnswered(w: World, s: Seq)
    requires SentInv(w) && NoReplyInv(w) && VmIsDone(w) && s in w.issued && !Unanswerable(w, s)
    ensures s in w.answered
  {
    ReplyPortInjective(s, LAST);
    SeqOfReplyPort(s);
    hide ReplyPort, SeqOf;
    if w.issued[s].needsReply {
      assert SentFor(w, s);
      var j :| 0 <= j < |w.codec.sent| && w.codec.sent[j] == MessageOf(w, s);
      assert SeqOf(w.codec.sent[j].1) in w.answered;
    }
  }

  lemma LeftOutbound(w: World)
    requires OutboundInv(w)
    requires forall s :: s in w.issued ==> (s in w.answered <==> !Unanswerable(w, s))
    ensures w.codec.outbound
            == if LAST in w.issued && w.issued[LAST].needsReply then map[0 := Request(RECEIVE_MESSAGE_METHOD, LAST)] else map[]
  {
    ReplyPortInjective(LAST, LAST);
    hide ReplyPort;
    var out := w.codec.outbound;
    if LAST in w.issued && w.issued[LAST].needsReply {
      assert Unanswerable(w, LAST);
      forall p ensures p in out <==> p == 0 {
        if p in out { assert Unanswerable(w, out[p].seqNo); }
      }
    } else {
      forall p ensures p !in out { }
    }
  }

  /**
   * Completeness of the bridge. Once the VM has answered every reply port it was
   * sent and all responses are read, each request has its response except one
   * numbered 2^64 - 1 that wants a reply, which alone is left outbound; no reply is
   * left over.
   */
  lemma AllRequestsComplete(worlds: seq<World>, events: seq<Event>, k: nat)
    requires IsRun(worlds, events) && k < |worlds|
    requires VmIsDone(worlds[k]) && worlds[k].codec.inbound == []
    ensures var w := worlds[k];
            var lost := LAST in w.issued && w.issued[LAST].needsReply;
            && (forall s :: s in w.issued ==> (Delivered(w, s) <==> !Unanswerable(w, s)))
            && ((forall s :: s in w.issued ==> Delivered(w, s)) <==> !lost)
            && w.codec.outbound == (if lost then map[0 := Request(RECEIVE_MESSAGE_METHOD, LAST)] else map[])
            && w.codec.replies == map[]
  {
    RunInv(worlds, events, k);
    var w := worlds[k];
    forall s | s in w.issued ensures (s in w.answered <==> !Unanswerable(w, s)) && (Delivered(w, s) <==> s in w.answered) {
      if Unanswerable(w, s) {
        LastRequestNeverCompletes(worlds, events, k);
      } else {
        DoneMeansAnswered(w, s);
        assert !Waiting(w, s);
      }
    }
    hide IsRun, SentInv, VmIsDone;
    LeftOutbound(w);
    forall s ensures s !in w.codec.replies { }
    hide OutboundInv, InboundInv, DeliveryInv, Delivered, Waiting;
  }

  /** A request of the right method whose body is a message is issued; any other changes nothing. */
  lemma IssuedIff(worlds: seq<World>, events: seq<Event>, k: nat)
    requires IsRun(worlds, events) && k < |events| && events[k].Issue?
    ensures var r, body, w, t := events[k].request, events[k].body, worlds[k], worlds[k + 1];
            if r.serviceMethod == "agvm.ReceiveMessage" && body.Some? then
              && t.issued == w.issued[r.seqNo := body.value]
              && t.codec.sent == w.codec.sent + [MessageOf(t, r.seqNo)]
              && WriteStep(w.codec, r, body).1.Ok?
            else
              && r.seqNo !in t.issued && t == w
              && WriteStep(w.codec, r, body).1
                 == Err(if r.serviceMethod != "agvm.ReceiveMessage" then UnknownMethod else NotAMessage)
  {
    hide ReplyPort;
    assert Allowed(worlds[k], events[k]) && worlds[k + 1] == Apply(worlds[k], events[k]);
  }

  /** What is issued stays issued. */
  lemma {:induction false} StaysIssued(worlds: seq<World>, events: seq<Event>, j: nat, k: nat, s: Seq)
    requires IsRun(worlds, events) && j <= k < |worlds| && s in worlds[j].issued
    ensures s in worlds[k].issued && worlds[k].issued[s] == worlds[j].issued[s]
    decreases k
  {
    if j < k {
      StaysIssued(worlds, events, j, k - 1, s);
      hide ReplyPort, ReceiveStep, ReadStep, SeqOf;
      assert Allowed(worlds[k - 1], events[k - 1]) && worlds[k] == Apply(worlds[k - 1], events[k - 1]);
    }
  }

  /** A message that wants no reply is sent so, and completes by itself: once the channel is drained its caller has been told. */
  lemma NoReplyCompletes(worlds: seq<World>, events: seq<Event>, j: nat, k: nat)
    requires IsRun(worlds, events) && j < k < |worlds| && worlds[k].codec.inbound == []
    requires events[j].Issue? && events[j].request.serviceMethod == "agvm.ReceiveMessage"
    requires events[j].body.Some? && !events[j].body.value.needsReply
    ensures exists i :: 0 <= i < |worlds[k].delivered|
                        && worlds[k].delivered[i]
                           == Delivery(events[j].request.seqNo, "agvm.ReceiveMessage", "", "<no-reply-requested>")
  {
    var s := events[j].request.seqNo;
    IssuedIff(worlds, events, j);
    StaysIssued(worlds, events, j + 1, k, s);
    RunInv(worlds, events, k);
    var w := worlds[k];
    hide IsRun, OutboundInv, InboundInv, SentInv;
    assert s in w.answered && w.answered[s] == Answer(false, NO_REPLY) && !Waiting(w, s);
    var i :| 0 <= i < |w.delivered| && w.delivered[i].seqNo == s;
    assert RightDelivery(w, w.delivered[i]);
  }

  // ------------------------------------------------------------ three runs

  /** The run that makes the exception: the last number, issued with a reply wanted. Nothing is left to answer or to read. */
  lemma LastRequestExample(msg: Message) returns (worlds: seq<World>, events: seq<Event>)
    requires msg.needsReply
    ensures IsRun(worlds, events) && |worlds| == 2 && worlds[1].issued == map[LAST := msg]
    ensures worlds[1].codec.sent == [(msg.port, 0, msg.data)] && VmIsDone(worlds[1]) && worlds[1].codec.inbound == []
    ensures worlds[1].codec.outbound == map[0 := Request(RECEIVE_MESSAGE_METHOD, LAST)] && worlds[1].delivered == []
  {
    events := [Issue(Request(RECEIVE_MESSAGE_METHOD, LAST), Some(msg))];
    worlds := [START, Apply(START, events[0])];
  }

  /**
   * An error answer with an empty message is delivered as a success with an empty
   * reply: the caller gets what it would have got for an empty answer.
   */
  lemma EmptyErrorExample(s: Seq, msg: Message, isError: bool) returns (worlds: seq<World>, events: seq<Event>)
    requires msg.needsReply && s != LAST
    ensures IsRun(worlds, events) && |worlds| == 4 && worlds[3].answered == map[s := Answer(isError, "")]
    ensures worlds[3].delivered == [Delivery(s, RECEIVE_MESSAGE_METHOD, "", "")]
  {
    ReplyPortInjective(s, s);
    SeqOfReplyPort(s);
    hide ReplyPort, SeqOf;
    var port := ReplyPort(s);
    events := [Issue(Request(RECEIVE_MESSAGE_METHOD, s), Some(msg)), VmAnswers(port, isError, ""), ClientReads];
    var w1 := Apply(START, events[0]);
    assert w1.codec.sent == [(msg.port, port, msg.data)] && w1.codec.sent[0].1 == port;
    var w2 := Apply(w1, events[1]);
    assert w2.codec.inbound == [Response(RECEIVE_MESSAGE_METHOD, s, "")];
    worlds := [START, w1, w2, Apply(w2, events[2])];
  }
}
