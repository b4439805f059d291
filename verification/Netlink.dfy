/** The reader of a sock_diag netlink dump (internal/activity/procnet.py, parse_diag and
    diag_dump; RFC 3549, section 2.3.2). Multi-byte fields are little-endian, the native
    order of the machines the helper runs on; ports are big-endian. */
module Netlink {
  import opened Common

  type Byte = b: nat | b < 256

  const HEADER := 16   // struct nlmsghdr
  const DIAG := 72     // struct inet_diag_msg
  const ATTR := 4      // struct rtattr
  const SOCK_DIAG_BY_FAMILY := 20
  const NLMSG_ERROR := 2
  const NLMSG_DONE := 3
  const DUMP_INTR := 0x10
  const CGROUP_ID := 21
  const AF_INET := 2

  // ---------------------------------------------------------------------
  // Integers in bytes.
  // ---------------------------------------------------------------------

  function Pow256(k: nat): nat {
    if k == 0 then 1 else 256 * Pow256(k - 1)
  }

  function Value(bytes: seq<Byte>): nat {
    if bytes == [] then 0 else bytes[0] + 256 * Value(bytes[1..])
  }

  function Bytes(n: nat, k: nat): (bytes: seq<Byte>)
    ensures |bytes| == k
  {
    if k == 0 then [] else [n % 256] + Bytes(n / 256, k - 1)
  }

  lemma {:induction false} BytesRoundTrip(n: nat, k: nat)
    requires n < Pow256(k)
    ensures Value(Bytes(n, k)) == n
  {
    if k > 0 {
      assert n / 256 < Pow256(k - 1);
      BytesRoundTrip(n / 256, k - 1);
      assert Bytes(n, k)[1..] == Bytes(n / 256, k - 1);
    }
  }

  /** struct.unpack_from: the little-endian field of `size` bytes at `at`. */
  function Field(s: seq<Byte>, at: nat, size: nat): nat
    requires at + size <= |s|
  {
    Value(s[at..at + size])
  }

  function Signed32(n: nat): int {
    if n >= 0x8000_0000 then n - 0x1_0000_0000 else n
  }

  /** The next multiple of 4. */
  function Align4(n: nat): (a: nat)
    ensures n <= a < n + 4 && a % 4 == 0
  {
    (n + 3) / 4 * 4
  }

  // ---------------------------------------------------------------------
  // What a read yields.
  // ---------------------------------------------------------------------

  datatype Proto = Tcp | Udp

  datatype Address = V4(quad: seq<Byte>) | V6(bytes: seq<Byte>)

  datatype State = Est | SynSent | SynRecv | Closed | Listen | Other

  datatype Sock = Sock(proto: Proto, lip: Address, lport: nat, rip: Address, rport: nat, cgroup: Option<nat>, state: State)

  /** `error` is 0, the errno of a refused dump, or -1 for bytes that are not netlink. */
  datatype Batch = Batch(sockets: seq<Sock>, done: bool, error: int, interrupted: bool)

  predicate Zero(bytes: seq<Byte>) {
    forall b :: b in bytes ==> b == 0
  }

  /** An IPv4-mapped IPv6 address folds to IPv4. */
  function AddressOf(raw: seq<Byte>, family: Byte): Address
    requires |raw| == 16
  {
    if family == AF_INET then V4(raw[..4])
    else if Zero(raw[..10]) && raw[10] == 255 && raw[11] == 255 then V4(raw[12..])
    else V6(raw)
  }

  predicate Unspecified(a: Address) {
    Zero(if a.V4? then a.quad else a.bytes)
  }

  function TcpState(code: Byte): State {
    if code == 1 then Est
    else if code == 2 then SynSent
    else if code == 3 then SynRecv
    else if code in [4, 5, 6, 8, 9, 11] then Closed
    else if code == 10 then Listen
    else Other
  }

  /** A port, in network order. */
  function Port(high: Byte, low: Byte): nat {
    256 * high as int + low as int
  }

  function SockOf(body: seq<Byte>, proto: Proto): Sock
    requires |body| >= DIAG
  {
    var rip := AddressOf(body[24..40], body[0]);
    var rport := Port(body[6], body[7]);
    Sock(proto, AddressOf(body[8..24], body[0]), Port(body[4], body[5]), rip, rport,
         Folded(AttrsFrom(body, DIAG), None),
         if proto.Udp? then (if rport != 0 && !Unspecified(rip) then Est else Other) else TcpState(body[1]))
  }

  /** The attributes of one message, as they follow each other. */
  datatype Attrs = NoMore | Attr(kind: nat, payload: seq<Byte>, rest: Attrs)

  /** The whole attributes from offset `a` on; a short or overlong one ends the reading. */
  function AttrsFrom(body: seq<Byte>, a: nat): Attrs
    decreases |body| - a
  {
    if a + ATTR > |body| then NoMore
    else
      var length := Field(body, a, 2);
      if length < ATTR || a + length > |body| then NoMore
      else Attr(Field(body, a + 2, 2), body[a + ATTR..a + length], AttrsFrom(body, a + Align4(length)))
  }

  /** Reading them front to back: the last one that names a cgroup decides, and a zero id
      counts as none. */
  function Folded(attrs: Attrs, found: Option<nat>): Option<nat> {
    match attrs
    case NoMore => found
    case Attr(kind, payload, rest) => Folded(rest, AttributeSays(payload, kind, found))
  }

  function AttributeSays(payload: seq<Byte>, kind: nat, found: Option<nat>): Option<nat> {
    if kind != CGROUP_ID || |payload| < 8 then found
    else if Field(payload, 0, 8) == 0 then None
    else Some(Field(payload, 0, 8))
  }

  function Prepend(found: seq<Sock>, b: Batch): Batch {
    b.(sockets := found + b.sockets)
  }

  /** The messages of one datagram; `Garbled` when the next header is not netlink. */
  datatype Frames = Short | Garbled | Frame(kind: nat, flags: nat, body: seq<Byte>, rest: Frames)

  function FramesFrom(data: seq<Byte>, off: nat): Frames
    decreases |data| - off
  {
    if off + HEADER > |data| then Short
    else
      var length := Field(data, off, 4);
      if length < HEADER || off + length > |data| then Garbled
      else
        Frame(Field(data, off + 4, 2), Field(data, off + 6, 2), data[off + HEADER..off + length],
              FramesFrom(data, off + Align4(length)))
  }

  function Read(frames: Frames, proto: Proto): Batch {
    match frames
    case Short => Batch([], false, 0, false)
    case Garbled => Batch([], true, -1, false)
    case Frame(kind, flags, body, rest) => Message(kind, flags, body, Read(rest, proto), proto)
  }

  /** The reading of one netlink datagram. */
  function Parse(data: seq<Byte>, proto: Proto): Batch {
    Read(FramesFrom(data, 0), proto)
  }

  /** One message: a closing one ends the reading, a socket comes before `rest`, any other is skipped. */
  function Message(kind: nat, flags: nat, body: seq<Byte>, rest: Batch, proto: Proto): Batch {
    if kind == NLMSG_DONE || kind == NLMSG_ERROR then Batch([], true, ErrorOf(kind, body), Interrupted(kind, flags))
    else if kind != SOCK_DIAG_BY_FAMILY || |body| < DIAG then rest
    else Prepend([SockOf(body, proto)], rest)
  }

  /** The errno a closing message carries: DONE only reports a negative one, and an
      ERROR with no number counts as one. */
  function ErrorOf(kind: nat, body: seq<Byte>): int {
    var err := if |body| >= 4 then Signed32(Field(body, 0, 4)) else if kind == NLMSG_DONE then 0 else -1;
    if err < 0 then -err else if kind == NLMSG_DONE then 0 else err
  }

  predicate Interrupted(kind: nat, flags: nat) {
    kind == NLMSG_DONE && flags / DUMP_INTR % 2 == 1
  }

  // ---------------------------------------------------------------------
  // The source's loops: a moving offset over the buffer.
  // ---------------------------------------------------------------------

  /** struct.unpack_from: a little-endian field, inside the buffer. */
  method Unpack(data: seq<Byte>, at: nat, size: nat) returns (n: nat)
    requires at + size <= |data|
    ensures n == Field(data, at, size)
  {
    n := 0;
    var i := size;
    while i > 0
      invariant 0 <= i <= size
      invariant n == Value(data[at + i..at + size])
    {
      i := i - 1;
      assert data[at + i..at + size][1..] == data[at + i + 1..at + size];
      n := data[at + i] + 256 * n;
    }
  }

  /** One attribute, and where the next begins. */
  method NextAttr(body: seq<Byte>, a: nat) returns (kind: nat, payload: seq<Byte>, next: nat, ok: bool)
    requires a + ATTR <= |body|
    ensures ok ==> a < next && AttrsFrom(body, a) == Attr(kind, payload, AttrsFrom(body, next))
    ensures !ok ==> AttrsFrom(body, a) == NoMore
  {
    var length := Unpack(body, a, 2);
    kind := Unpack(body, a + 2, 2);
    if length < ATTR || a + length > |body| {
      return kind, [], a, false;
    }
    return kind, body[a + ATTR..a + length], a + Align4(length), true;
  }

  method ReadCgroup(body: seq<Byte>) returns (cgroup: Option<nat>)
    requires |body| >= DIAG
    ensures cgroup == Folded(AttrsFrom(body, DIAG), None)
  {
    cgroup := None;
    var a := DIAG;
    while a + ATTR <= |body|
      invariant Folded(AttrsFrom(body, a), cgroup) == Folded(AttrsFrom(body, DIAG), None)
      decreases |body| - a
    {
      var kind, payload, next, ok := NextAttr(body, a);
      if !ok {
        return;
      }
      if kind == CGROUP_ID && |payload| >= 8 {
        var id := Unpack(payload, 0, 8);
        cgroup := if id == 0 then None else Some(id);
      }
      a := next;
    }
  }

  method ReadSock(body: seq<Byte>, proto: Proto) returns (s: Sock)
    requires |body| >= DIAG
    ensures s == SockOf(body, proto)
  {
    var cgroup := ReadCgroup(body);
    var rip := AddressOf(body[24..40], body[0]);
    var rport := Port(body[6], body[7]);
    var state := TcpState(body[1]);
    if proto.Udp? {
      state := if rport != 0 && !Unspecified(rip) then Est else Other;
    }
    s := Sock(proto, AddressOf(body[8..24], body[0]), Port(body[4], body[5]), rip, rport, cgroup, state);
  }

  lemma PrependPrepend(a: seq<Sock>, b: seq<Sock>, r: Batch)
    ensures Prepend(a, Prepend(b, r)) == Prepend(a + b, r)
  {
    assert a + (b + r.sockets) == (a + b) + r.sockets;
  }

  /** The number a closing message carries. */
  method ReadError(body: seq<Byte>, kind: nat) returns (error: int)
    requires kind == NLMSG_DONE || kind == NLMSG_ERROR
    ensures error == ErrorOf(kind, body)
  {
    if kind == NLMSG_DONE {
      var err := 0;
      if |body| >= 4 {
        var n := Unpack(body, 0, 4);
        err := Signed32(n);
      }
      error := if err < 0 then -err else 0;
    } else {
      var err := -1;
      if |body| >= 4 {
        var n := Unpack(body, 0, 4);
        err := Signed32(n);
      }
      error := if err < 0 then -err else err;
    }
  }

  lemma SocketNext(found: seq<Sock>, body: seq<Byte>, rest: Batch, flags: nat, proto: Proto)
    requires |body| >= DIAG
    ensures Prepend(found, Message(SOCK_DIAG_BY_FAMILY, flags, body, rest, proto))
            == Prepend(found + [SockOf(body, proto)], rest)
  {
    PrependPrepend(found, [SockOf(body, proto)], rest);
  }

  /** One turn of the loop: the message at `off`, and where the next begins. */
  method NextFrame(data: seq<Byte>, off: nat) returns (kind: nat, flags: nat, body: seq<Byte>, next: nat, ok: bool)
    requires off + HEADER <= |data|
    ensures ok ==> off < next && FramesFrom(data, off) == Frame(kind, flags, body, FramesFrom(data, next))
    ensures !ok ==> FramesFrom(data, off) == Garbled
  {
    var length := Unpack(data, off, 4);
    kind := Unpack(data, off + 4, 2);
    flags := Unpack(data, off + 6, 2);
    if length < HEADER || off + length > |data| {
      return kind, flags, [], off, false;
    }
    return kind, flags, data[off + HEADER..off + length], off + Align4(length), true;
  }

  /** parse_diag: it ends on any bytes, and every access lies inside the buffer. */
  method ParseDiag(data: seq<Byte>, proto: Proto) returns (r: Batch)
    ensures r == Parse(data, proto)
  {
    var found: seq<Sock> := [];
    var off := 0;
    PrependNothing(Parse(data, proto));
    while off + HEADER <= |data|
      invariant Parse(data, proto) == Prepend(found, Read(FramesFrom(data, off), proto))
      decreases |data| - off
    {
      var kind, flags, body, next, ok := NextFrame(data, off);
      if !ok {
        return Batch(found, true, -1, false);
      }
      if kind == NLMSG_DONE || kind == NLMSG_ERROR {
        var err := ReadError(body, kind);
        return Batch(found, true, err, kind == NLMSG_DONE && flags / DUMP_INTR % 2 == 1);
      }
      off := next;
      if kind != SOCK_DIAG_BY_FAMILY || |body| < DIAG {
        continue;
      }
      var sock := ReadSock(body, proto);
      SocketNext(found, body, Read(FramesFrom(data, off), proto), flags, proto);
      found := found + [sock];
    }
    return Batch(found, false, 0, false);
  }

  // ---------------------------------------------------------------------
  // The kernel's side: encoding a dump.
  // ---------------------------------------------------------------------

  /** One netlink message, before it is laid out. */
  datatype Msg = Msg(kind: nat, flags: nat, number: nat, pid: nat, body: seq<Byte>)

  /** One socket as the kernel describes it; `inner` is what the reader skips. */
  datatype Diag = Diag(
    family: Byte, state: Byte, inner: seq<Byte>, sport: nat, dport: nat,
    src: seq<Byte>, dst: seq<Byte>, tail: seq<Byte>, attrs: Attrs)

  predicate ValidAttrs(attrs: Attrs) {
    match attrs
    case NoMore => true
    case Attr(kind, payload, rest) => kind < Pow256(2) && ATTR + |payload| < Pow256(2) && ValidAttrs(rest)
  }

  predicate ValidMsg(m: Msg) {
    m.kind < Pow256(2) && m.flags < Pow256(2) && HEADER + |m.body| < Pow256(4)
  }

  predicate ValidDiag(d: Diag) {
    && |d.inner| == 2 && d.sport < 65536 && d.dport < 65536
    && |d.src| == 16 && |d.dst| == 16 && |d.tail| == 32
    && ValidAttrs(d.attrs)
  }

  function Zeros(n: nat): (z: seq<Byte>)
    ensures |z| == n
  {
    seq(n, _ => 0)
  }

  function Padding(n: nat): seq<Byte> {
    Zeros(Align4(n) - n)
  }

  /** The encoders put their bytes in front of `rest`, what follows in the buffer. */
  function AttrHead(kind: nat, payload: seq<Byte>): (h: seq<Byte>)
    ensures |h| == ATTR
  {
    Bytes(ATTR + |payload|, 2) + Bytes(kind, 2)
  }

  function EncodeAttr(kind: nat, payload: seq<Byte>, rest: seq<Byte>): seq<Byte> {
    AttrHead(kind, payload) + (payload + (Padding(|payload|) + rest))
  }

  function EncodeAttrs(attrs: Attrs): seq<Byte> {
    match attrs
    case NoMore => []
    case Attr(kind, payload, rest) => EncodeAttr(kind, payload, EncodeAttrs(rest))
  }

  function EncodePort(p: nat): (b: seq<Byte>)
    requires p < 65536
    ensures |b| == 2
  {
    [p / 256, p % 256]
  }

  function EncodeDiag(d: Diag): seq<Byte>
    requires ValidDiag(d)
  {
    [d.family, d.state] + d.inner + EncodePort(d.sport) + EncodePort(d.dport) + d.src + d.dst + d.tail
    + EncodeAttrs(d.attrs)
  }

  function MsgHead(m: Msg): (h: seq<Byte>)
    ensures |h| == HEADER
  {
    Bytes(HEADER + |m.body|, 4) + (Bytes(m.kind, 2) + (Bytes(m.flags, 2) + (Bytes(m.number, 4) + Bytes(m.pid, 4))))
  }

  function EncodeMsg(m: Msg, rest: seq<Byte>): seq<Byte> {
    MsgHead(m) + (m.body + (Padding(|m.body|) + rest))
  }

  /** What stands in a dump before its end: sockets, and messages the reader skips. */
  datatype Entry = Socket(number: nat, pid: nat, flags: nat, diag: Diag) | Skipped(msg: Msg)

  function MsgOf(e: Entry): Msg
    requires e.Socket? ==> ValidDiag(e.diag)
  {
    match e
    case Socket(number, pid, flags, diag) => Msg(20, flags, number, pid, EncodeDiag(diag))
    case Skipped(m) => m
  }

  predicate ValidEntry(e: Entry) {
    && (e.Socket? ==> ValidDiag(e.diag))
    && ValidMsg(MsgOf(e))
    && (e.Skipped? ==> e.msg.kind !in [2, 3])
    && (e.Skipped? && e.msg.kind == 20 ==> |e.msg.body| < 72)
  }

  predicate ValidEntries(entries: seq<Entry>) {
    entries == [] || (ValidEntry(entries[0]) && ValidEntries(entries[1..]))
  }

  function EncodeAll(entries: seq<Entry>, rest: seq<Byte>): seq<Byte>
    requires ValidEntries(entries)
  {
    if entries == [] then rest else EncodeMsg(MsgOf(entries[0]), EncodeAll(entries[1..], rest))
  }

  // ---------------------------------------------------------------------
  // What the sockets of a dump are, without reading bytes.
  // ---------------------------------------------------------------------

  predicate NamesCgroup(kind: nat, payload: seq<Byte>) {
    kind == 21 && |payload| >= 8
  }

  predicate SomeNamesCgroup(attrs: Attrs) {
    attrs.Attr? && (NamesCgroup(attrs.kind, attrs.payload) || SomeNamesCgroup(attrs.rest))
  }

  /** The cgroup id of a socket: that of its last cgroup attribute, zero meaning none. */
  function CgroupId(attrs: Attrs): Option<nat> {
    if !SomeNamesCgroup(attrs) then None
    else if SomeNamesCgroup(attrs.rest) then CgroupId(attrs.rest)
    else if Value(attrs.payload[0..8]) == 0 then None
    else Some(Value(attrs.payload[0..8]))
  }

  function Described(d: Diag, proto: Proto): Sock
    requires ValidDiag(d)
  {
    var rip := AddressOf(d.dst, d.family);
    Sock(proto, AddressOf(d.src, d.family), d.sport, rip, d.dport, CgroupId(d.attrs),
         if proto.Udp? then (if d.dport != 0 && !Unspecified(rip) then Est else Other) else TcpState(d.state))
  }

  function Sockets(entries: seq<Entry>, proto: Proto): seq<Sock>
    requires ValidEntries(entries)
  {
    if entries == [] then []
    else EntrySockets(entries[0], proto) + Sockets(entries[1..], proto)
  }

  // ---------------------------------------------------------------------
  // The round trip.
  // ---------------------------------------------------------------------

  lemma FieldShift(pre: seq<Byte>, s: seq<Byte>, at: nat, size: nat)
    requires at + size <= |s|
    ensures Field(pre + s, |pre| + at, size) == Field(s, at, size)
  {
    assert (pre + s)[|pre| + at..|pre| + at + size] == s[at..at + size];
  }

  lemma FieldPrefix(s: seq<Byte>, post: seq<Byte>, at: nat, size: nat)
    requires at + size <= |s|
    ensures Field(s + post, at, size) == Field(s, at, size)
  {
    assert (s + post)[at..at + size] == s[at..at + size];
  }

  /** A field is read back where it was written. */
  lemma FieldHead(n: nat, size: nat, post: seq<Byte>)
    requires n < Pow256(size)
    ensures Field(Bytes(n, size) + post, 0, size) == n
  {
    assert (Bytes(n, size) + post)[0..size] == Bytes(n, size);
    BytesRoundTrip(n, size);
  }

  lemma BodySlice(head: seq<Byte>, body: seq<Byte>, post: seq<Byte>)
    ensures (head + (body + post))[|head|..|head| + |body|] == body
  {
  }

  lemma MessageShift(pre: seq<Byte>, s: seq<Byte>, off: nat)
    requires off + HEADER <= |s|
    ensures Field(pre + s, |pre| + off, 4) == Field(s, off, 4)
    ensures Field(pre + s, |pre| + off + 4, 2) == Field(s, off + 4, 2)
    ensures Field(pre + s, |pre| + off + 6, 2) == Field(s, off + 6, 2)
    ensures
      var length := Field(s, off, 4);
      HEADER <= length && off + length <= |s| ==>
        (pre + s)[|pre| + off + HEADER..|pre| + off + length] == s[off + HEADER..off + length]
  {
    FieldShift(pre, s, off, 4);
    FieldShift(pre, s, off + 4, 2);
    FieldShift(pre, s, off + 6, 2);
  }

  lemma {:induction false} FramesShift(pre: seq<Byte>, s: seq<Byte>, off: nat)
    ensures FramesFrom(pre + s, |pre| + off) == FramesFrom(s, off)
    decreases |s| - off
  {
    if off + HEADER <= |s| {
      MessageShift(pre, s, off);
      var length := Field(s, off, 4);
      if HEADER <= length && off + length <= |s| {
        FramesShift(pre, s, off + Align4(length));
      }
    }
  }

  lemma AttributeShift(pre: seq<Byte>, s: seq<Byte>, a: nat)
    requires a + ATTR <= |s|
    ensures Field(pre + s, |pre| + a, 2) == Field(s, a, 2)
    ensures Field(pre + s, |pre| + a + 2, 2) == Field(s, a + 2, 2)
    ensures
      var length := Field(s, a, 2);
      ATTR <= length && a + length <= |s| ==>
        (pre + s)[|pre| + a + ATTR..|pre| + a + length] == s[a + ATTR..a + length]
  {
    FieldShift(pre, s, a, 2);
    FieldShift(pre, s, a + 2, 2);
  }

  lemma {:induction false} AttrsShift(pre: seq<Byte>, s: seq<Byte>, a: nat)
    ensures AttrsFrom(pre + s, |pre| + a) == AttrsFrom(s, a)
    decreases |s| - a
  {
    if a + ATTR <= |s| {
      AttributeShift(pre, s, a);
      var length := Field(s, a, 2);
      if ATTR <= length && a + length <= |s| {
        AttrsShift(pre, s, a + Align4(length));
      }
    }
  }

  lemma AttrHeader(kind: nat, payload: seq<Byte>, post: seq<Byte>)
    requires kind < Pow256(2) && ATTR + |payload| < Pow256(2)
    ensures Field(AttrHead(kind, payload) + post, 0, 2) == ATTR + |payload|
    ensures Field(AttrHead(kind, payload) + post, 2, 2) == kind
  {
    var head, size, tag := AttrHead(kind, payload), Bytes(ATTR + |payload|, 2), Bytes(kind, 2);
    FieldPrefix(head, post, 0, 2);
    FieldPrefix(head, post, 2, 2);
    FieldHead(ATTR + |payload|, 2, tag);
    FieldShift(size, tag, 0, 2);
    FieldHead(kind, 2, []);
    assert tag + [] == tag;
  }

  lemma Aligned(head: nat, size: nat)
    requires head % 4 == 0
    ensures Align4(head + size) == head + (size + |Padding(size)|)
  {
  }

  lemma SkipThree(a: seq<Byte>, b: seq<Byte>, c: seq<Byte>, rest: seq<Byte>)
    ensures a + (b + (c + rest)) == (a + (b + c)) + rest && |a + (b + c)| == |a| + (|b| + |c|)
  {
  }

  lemma SkipAttr(kind: nat, payload: seq<Byte>, rest: seq<Byte>)
    ensures AttrsFrom(EncodeAttr(kind, payload, rest), Align4(ATTR + |payload|)) == AttrsFrom(rest, 0)
  {
    var head, pad := AttrHead(kind, payload), Padding(|payload|);
    SkipThree(head, payload, pad, rest);
    Aligned(ATTR, |payload|);
    AttrsShift(head + (payload + pad), rest, 0);
  }

  lemma ReadAttr(kind: nat, payload: seq<Byte>, rest: seq<Byte>)
    requires kind < Pow256(2) && ATTR + |payload| < Pow256(2)
    ensures AttrsFrom(EncodeAttr(kind, payload, rest), 0) == Attr(kind, payload, AttrsFrom(rest, 0))
  {
    AttrHeader(kind, payload, payload + (Padding(|payload|) + rest));
    BodySlice(AttrHead(kind, payload), payload, Padding(|payload|) + rest);
    SkipAttr(kind, payload, rest);
  }

  /** Any attributes are read back exactly as they were laid out. */
  lemma {:induction false} AttrsRoundTrip(attrs: Attrs)
    requires ValidAttrs(attrs)
    ensures AttrsFrom(EncodeAttrs(attrs), 0) == attrs
    decreases attrs
  {
    match attrs
    case NoMore =>
    case Attr(kind, payload, rest) =>
      AttrsRoundTrip(rest);
      ReadAttr(kind, payload, EncodeAttrs(rest));
  }

  /** Reading the attributes front to back finds the last one that names a cgroup. */
  lemma {:induction false} FoldedIsLast(attrs: Attrs, found: Option<nat>)
    ensures Folded(attrs, found) == if SomeNamesCgroup(attrs) then CgroupId(attrs) else found
    decreases attrs
  {
    match attrs
    case NoMore =>
    case Attr(kind, payload, rest) => FoldedIsLast(rest, AttributeSays(payload, kind, found));
  }

  function FixedPart(d: Diag): seq<Byte>
    requires ValidDiag(d)
  {
    [d.family, d.state] + d.inner + EncodePort(d.sport) + EncodePort(d.dport) + d.src + d.dst + d.tail
  }

  lemma FixedLayout(d: Diag)
    requires ValidDiag(d)
    ensures var fixed := FixedPart(d);
            && |fixed| == DIAG
            && fixed[8..24] == d.src && fixed[24..40] == d.dst
            && fixed[0] == d.family && fixed[1] == d.state
            && fixed[4] == d.sport / 256 && fixed[5] == d.sport % 256
            && fixed[6] == d.dport / 256 && fixed[7] == d.dport % 256
  {
  }

  lemma DiagLayout(d: Diag)
    requires ValidDiag(d)
    ensures var body := EncodeDiag(d);
            && |FixedPart(d)| == DIAG && |body| >= DIAG && body == FixedPart(d) + EncodeAttrs(d.attrs)
            && body[8..24] == d.src && body[24..40] == d.dst
            && body[0] == d.family && body[1] == d.state
            && Port(body[4], body[5]) == d.sport && Port(body[6], body[7]) == d.dport
  {
    var fixed, body := FixedPart(d), EncodeDiag(d);
    FixedLayout(d);
    assert body[8..24] == fixed[8..24] && body[24..40] == fixed[24..40];
  }

  lemma CgroupBehind(fixed: seq<Byte>, attrs: Attrs)
    requires |fixed| == DIAG && ValidAttrs(attrs)
    ensures Folded(AttrsFrom(fixed + EncodeAttrs(attrs), DIAG), None) == CgroupId(attrs)
  {
    AttrsShift(fixed, EncodeAttrs(attrs), 0);
    AttrsRoundTrip(attrs);
    FoldedIsLast(attrs, None);
  }

  lemma ReadDiag(d: Diag, proto: Proto)
    requires ValidDiag(d)
    ensures |EncodeDiag(d)| >= DIAG && SockOf(EncodeDiag(d), proto) == Described(d, proto)
  {
    DiagLayout(d);
    CgroupBehind(FixedPart(d), d.attrs);
  }

  lemma MsgHeader(m: Msg, post: seq<Byte>)
    requires ValidMsg(m)
    ensures Field(MsgHead(m) + post, 0, 4) == HEADER + |m.body|
    ensures Field(MsgHead(m) + post, 4, 2) == m.kind && Field(MsgHead(m) + post, 6, 2) == m.flags
  {
    var size, kind, flags := Bytes(HEADER + |m.body|, 4), Bytes(m.kind, 2), Bytes(m.flags, 2);
    var last := Bytes(m.number, 4) + Bytes(m.pid, 4);
    FieldPrefix(MsgHead(m), post, 0, 4);
    FieldPrefix(MsgHead(m), post, 4, 2);
    FieldPrefix(MsgHead(m), post, 6, 2);
    FieldHead(HEADER + |m.body|, 4, kind + (flags + last));
    FieldShift(size, kind + (flags + last), 0, 2);
    FieldHead(m.kind, 2, flags + last);
    FieldShift(size, kind + (flags + last), 2, 2);
    FieldShift(kind, flags + last, 0, 2);
    FieldHead(m.flags, 2, last);
  }

  lemma SkipMsg(m: Msg, rest: seq<Byte>)
    ensures FramesFrom(EncodeMsg(m, rest), Align4(HEADER + |m.body|)) == FramesFrom(rest, 0)
  {
    var head, pad := MsgHead(m), Padding(|m.body|);
    SkipThree(head, m.body, pad, rest);
    Aligned(HEADER, |m.body|);
    FramesShift(head + (m.body + pad), rest, 0);
  }

  lemma ReadFrame(m: Msg, rest: seq<Byte>)
    requires ValidMsg(m)
    ensures FramesFrom(EncodeMsg(m, rest), 0) == Frame(m.kind, m.flags, m.body, FramesFrom(rest, 0))
  {
    MsgHeader(m, m.body + (Padding(|m.body|) + rest));
    BodySlice(MsgHead(m), m.body, Padding(|m.body|) + rest);
    SkipMsg(m, rest);
  }

  lemma ReadMsg(m: Msg, rest: seq<Byte>, proto: Proto)
    requires ValidMsg(m)
    ensures Parse(EncodeMsg(m, rest), proto) == Message(m.kind, m.flags, m.body, Parse(rest, proto), proto)
  {
    ReadFrame(m, rest);
  }

  function EntrySockets(e: Entry, proto: Proto): seq<Sock>
    requires ValidEntry(e)
  {
    if e.Socket? then [Described(e.diag, proto)] else []
  }

  lemma ReadEntry(e: Entry, rest: seq<Byte>, proto: Proto)
    requires ValidEntry(e)
    ensures Parse(EncodeMsg(MsgOf(e), rest), proto) == Prepend(EntrySockets(e, proto), Parse(rest, proto))
  {
    ReadMsg(MsgOf(e), rest, proto);
    if e.Socket? {
      ReadDiag(e.diag, proto);
    } else {
      assert [] + Parse(rest, proto).sockets == Parse(rest, proto).sockets;
    }
  }

  /** THE ROUND TRIP. Reading the encoding of any sockets, with any other messages
      between them and anything behind them, gives exactly those sockets in order, each
      with its own cgroup id, followed by what the rest reads as. */
  lemma {:induction false} DumpRoundTrip(entries: seq<Entry>, rest: seq<Byte>, proto: Proto)
    requires ValidEntries(entries)
    ensures Parse(EncodeAll(entries, rest), proto) == Prepend(Sockets(entries, proto), Parse(rest, proto))
  {
    if entries == [] {
      PrependNothing(Parse(rest, proto));
    } else {
      ReadEntry(entries[0], EncodeAll(entries[1..], rest), proto);
      DumpRoundTrip(entries[1..], rest, proto);
      PrependPrepend(EntrySockets(entries[0], proto), Sockets(entries[1..], proto), Parse(rest, proto));
    }
  }

  lemma PrependNothing(r: Batch)
    ensures Prepend([], r) == r
  {
    assert [] + r.sockets == r.sockets;
  }

  /** A datagram that holds only sockets leaves the dump open. */
  lemma OpenDatagram(entries: seq<Entry>, proto: Proto)
    requires ValidEntries(entries)
    ensures Parse(EncodeAll(entries, []), proto) == Batch(Sockets(entries, proto), false, 0, false)
  {
    DumpRoundTrip(entries, [], proto);
    assert Sockets(entries, proto) + [] == Sockets(entries, proto);
  }

  /** A closing message, DONE (3) or ERROR (2), reports the errno it carries, and a DONE whether
      the table changed meanwhile. */
  lemma ClosedDatagram(entries: seq<Entry>, end: Msg, errno: nat, rest: seq<Byte>, proto: Proto)
    requires ValidEntries(entries) && ValidMsg(end) && errno <= 0x8000_0000
    requires end.kind == 3 || end.kind == 2
    requires end.body == Bytes(if errno == 0 then 0 else 0x1_0000_0000 - errno, 4)
    ensures
      Parse(EncodeAll(entries, EncodeMsg(end, rest)), proto)
      == Batch(Sockets(entries, proto), true, errno, end.kind == 3 && end.flags / 16 % 2 == 1)
  {
    ReadEnd(end, errno, rest, proto);
    DumpRoundTrip(entries, EncodeMsg(end, rest), proto);
    assert Sockets(entries, proto) + [] == Sockets(entries, proto);
  }

  lemma ReadEnd(end: Msg, errno: nat, rest: seq<Byte>, proto: Proto)
    requires ValidMsg(end) && errno <= 0x8000_0000
    requires end.kind == 3 || end.kind == 2
    requires end.body == Bytes(if errno == 0 then 0 else 0x1_0000_0000 - errno, 4)
    ensures Parse(EncodeMsg(end, rest), proto) == Batch([], true, errno, end.kind == 3 && end.flags / 16 % 2 == 1)
  {
    var n := if errno == 0 then 0 else 0x1_0000_0000 - errno;
    assert Pow256(4) == 0x1_0000_0000;
    BytesRoundTrip(n, 4);
    assert end.body[0..4] == end.body;
    ReadMsg(end, rest, proto);
  }

  /** A closing message without a number: DONE means success, ERROR counts as an error. One with
      a positive number is an error only for ERROR. */
  lemma OddEnd(entries: seq<Entry>, end: Msg, positive: nat, rest: seq<Byte>, proto: Proto)
    requires ValidEntries(entries) && ValidMsg(end) && 0 < positive < 0x8000_0000
    requires end.kind == 3 || end.kind == 2
    requires |end.body| < 4 || end.body == Bytes(positive, 4)
    ensures var b := Parse(EncodeAll(entries, EncodeMsg(end, rest)), proto);
            && b.sockets == Sockets(entries, proto) && b.done
            && b.error == if end.kind == 3 then 0 else if |end.body| < 4 then 1 else positive
  {
    assert Pow256(4) == 0x1_0000_0000;
    BytesRoundTrip(positive, 4);
    assert |end.body| == 4 ==> end.body[0..4] == end.body;
    ReadMsg(end, rest, proto);
    DumpRoundTrip(entries, EncodeMsg(end, rest), proto);
    assert Sockets(entries, proto) + [] == Sockets(entries, proto);
  }

  /** Bytes that cannot be a message, shorter than their own header or longer than the datagram,
      end the reading with -1; fewer bytes than a header are no message at all. */
  lemma GarbledDatagram(entries: seq<Entry>, rest: seq<Byte>, proto: Proto)
    requires ValidEntries(entries)
    requires |rest| >= 16 ==> Value(rest[0..4]) < 16 || Value(rest[0..4]) > |rest|
    ensures Parse(EncodeAll(entries, rest), proto)
         == if |rest| < 16 then Batch(Sockets(entries, proto), false, 0, false)
            else Batch(Sockets(entries, proto), true, -1, false)
  {
    DumpRoundTrip(entries, rest, proto);
    assert Sockets(entries, proto) + [] == Sockets(entries, proto);
  }

  // ---------------------------------------------------------------------
  // What the fields of a socket stand for.
  // ---------------------------------------------------------------------

  /** An IPv4 address reads back from an IPv4 socket, and from an IPv6 socket that maps it. */
  lemma Ipv4ReadsBack(quad: seq<Byte>, rest: seq<Byte>, family: Byte)
    requires |quad| == 4 && |rest| == 12
    ensures AddressOf(quad + rest, 2) == V4(quad)
    ensures AddressOf(Zeros(10) + [255, 255] + quad, family) == if family == 2 then V4(Zeros(4)) else V4(quad)
  {
    var mapped := Zeros(10) + [255, 255] + quad;
    assert mapped[..10] == Zeros(10) && mapped[12..] == quad && mapped[..4] == Zeros(4);
    assert (quad + rest)[..4] == quad;
  }

  /** Any other IPv6 address reads back whole. */
  lemma Ipv6ReadsBack(bytes: seq<Byte>, family: Byte)
    requires |bytes| == 16 && family != 2
    requires (exists k :: 0 <= k < 10 && bytes[k] != 0) || bytes[10] != 255 || bytes[11] != 255
    ensures AddressOf(bytes, family) == V6(bytes)
  {
    if k :| 0 <= k < 10 && bytes[k] != 0 {
      assert bytes[..10][k] in bytes[..10];
    }
  }

  /** The kernel's TCP states; TIME_WAIT and the closing ones read as closed. */
  lemma TcpStatesAre(code: Byte)
    ensures TcpState(code) == Est <==> code == 1
    ensures TcpState(code) == SynSent <==> code == 2
    ensures TcpState(code) == SynRecv <==> code == 3
    ensures TcpState(code) == Listen <==> code == 10
    ensures TcpState(code) == Closed <==> 4 <= code <= 11 && code != 7 && code != 10
  {
  }

  /** A UDP socket counts as established exactly when it has a peer: a port, and an address
      that is not all zero. */
  lemma UdpHasPeer(d: Diag)
    requires ValidDiag(d)
    ensures var s := Described(d, Udp);
            var peer := if s.rip.V4? then s.rip.quad else s.rip.bytes;
            && (s.state == Est || s.state == Other)
            && (s.state == Est <==> d.dport != 0 && exists b :: b in peer && b != 0)
  {
  }

  // ---------------------------------------------------------------------
  // A whole dump: several datagrams, a filter and a cap.
  // ---------------------------------------------------------------------

  /** Failed with errno 0 stands for a socket that times out: the reads ran out. */
  datatype Dump = Found(sockets: seq<Sock>, truncated: bool) | Failed(errno: int)

  /** Every socket in the first `n` datagrams. */
  function AllOf(received: seq<seq<Byte>>, n: nat, proto: Proto): seq<Sock>
    requires n <= |received|
  {
    if n == 0 then [] else AllOf(received, n - 1, proto) + Parse(received[n - 1], proto).sockets
  }

  function FilterUpTo(s: seq<Sock>, keep: Sock -> bool, n: nat): seq<Sock>
    requires n <= |s|
  {
    if n == 0 then [] else FilterUpTo(s, keep, n - 1) + (if keep(s[n - 1]) then [s[n - 1]] else [])
  }

  function Filter(s: seq<Sock>, keep: Sock -> bool): seq<Sock> {
    FilterUpTo(s, keep, |s|)
  }

  /** Filtering keeps every socket that passes as often as it occurs, and no other. */
  lemma {:induction false} FilterKeeps(s: seq<Sock>, keep: Sock -> bool, n: nat, x: Sock)
    requires n <= |s|
    ensures multiset(FilterUpTo(s, keep, n))[x] == if keep(x) then multiset(s[..n])[x] else 0
  {
    if n > 0 {
      FilterKeeps(s, keep, n - 1, x);
      assert s[..n] == s[..n - 1] + [s[n - 1]];
      assert multiset(s[..n])[x] == multiset(s[..n - 1])[x] + if s[n - 1] == x then 1 else 0;
    }
  }

  lemma {:induction false} FilterPrefix(a: seq<Sock>, b: seq<Sock>, keep: Sock -> bool, n: nat)
    requires n <= |a|
    ensures FilterUpTo(a + b, keep, n) == FilterUpTo(a, keep, n)
  {
    if n > 0 {
      FilterPrefix(a, b, keep, n - 1);
    }
  }

  lemma {:induction false} FilterBoth(a: seq<Sock>, b: seq<Sock>, keep: Sock -> bool, n: nat)
    requires n <= |b|
    ensures FilterUpTo(a + b, keep, |a| + n) == Filter(a, keep) + FilterUpTo(b, keep, n)
  {
    if n == 0 {
      FilterPrefix(a, b, keep, |a|);
      assert Filter(a, keep) + [] == Filter(a, keep);
    } else {
      FilterBoth(a, b, keep, n - 1);
      assert (a + b)[|a| + n - 1] == b[n - 1];
    }
  }

  lemma FilterConcat(a: seq<Sock>, b: seq<Sock>, keep: Sock -> bool)
    ensures Filter(a + b, keep) == Filter(a, keep) + Filter(b, keep)
  {
    FilterBoth(a, b, keep, |b|);
  }

  predicate LeavesOpen(data: seq<Byte>, proto: Proto) {
    !Parse(data, proto).done && Parse(data, proto).error == 0
  }

  /** Keeping the sockets of one datagram while there is room. */
  method Keep(ghost before: seq<Sock>, found: seq<Sock>, sockets: seq<Sock>, keep: Sock -> bool, room: nat)
    returns (found': seq<Sock>, taken: nat, clipped: bool)
    requires found == Filter(before, keep)
    ensures clipped <==> |sockets| > room
    ensures taken == if clipped then room else |sockets|
    ensures found' == Filter(if clipped then (before + sockets)[..|before| + room] else before + sockets, keep)
  {
    clipped := |sockets| > room;
    var kept := if clipped then sockets[..room] else sockets;
    assert before + kept == if clipped then (before + sockets)[..|before| + room] else before + sockets;
    FilterConcat(before, kept, keep);
    found', taken := found + Filter(kept, keep), |kept|;
  }

  /** diag_dump's loop: sockets are kept as they are read, at most `cap` of them. A dump
      that is not marked truncated is whole: it ran to the kernel's own end, uninterrupted,
      and no socket of it was left out but by the filter. */
  method DiagDump(received: seq<seq<Byte>>, proto: Proto, keep: Sock -> bool, cap: nat) returns (r: Dump, n: nat)
    ensures n <= |received|
    ensures forall i :: 0 <= i < n - 1 ==> LeavesOpen(received[i], proto)
    ensures r.Found? ==> n > 0 && Parse(received[n - 1], proto).error == 0
    ensures r.Found? ==>
      var all, last := AllOf(received, n, proto), Parse(received[n - 1], proto);
      && r.sockets == Filter(if |all| <= cap then all else all[..cap], keep)
      && (r.truncated <==> |all| > cap || !last.done || last.interrupted)
    ensures r.Failed? && r.errno != 0 ==> n > 0 && Parse(received[n - 1], proto).error == r.errno
    ensures r.Failed? && r.errno == 0 ==> n == |received| && |AllOf(received, n, proto)| <= cap
  {
    var found: seq<Sock> := [];
    var read := 0;
    n := 0;
    while n < |received|
      invariant n <= |received|
      invariant forall i :: 0 <= i < n ==> LeavesOpen(received[i], proto)
      invariant read == |AllOf(received, n, proto)| <= cap && (n > 0 ==> read < cap)
      invariant found == Filter(AllOf(received, n, proto), keep)
    {
      var b := ParseDiag(received[n], proto);
      ghost var before := AllOf(received, n, proto);
      n := n + 1;
      if b.error != 0 {
        return Failed(b.error), n;
      }
      var taken, clipped;
      found, taken, clipped := Keep(before, found, b.sockets, keep, cap - read);
      read := read + taken;
      if b.done {
        return Found(found, b.interrupted || clipped), n;
      }
      if read >= cap {
        return Found(found, true), n;
      }
    }
    return Failed(0), n;
  }
}
