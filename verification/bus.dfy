/** Bus messages as the library builds and reads them: typed arguments, the
    (count, string array) payload of `exec` and `Message` signals, and the
    outcome of creating and sending one message. */
module Bus {
  import opened Optional

  const UInt32Limit: int := 0x1_0000_0000
  const Int32Limit: int := 0x8000_0000

  type uint32 = x: int | 0 <= x < UInt32Limit
  type int32 = x: int | -Int32Limit <= x < Int32Limit

  /** A `guint` read as a signed `int`: values from 2^31 up wrap to negatives. */
  function UInt32AsInt32(u: uint32): (i: int32)
    ensures i as int % UInt32Limit == u as int
  {
    if u < Int32Limit then u else u - UInt32Limit
  }

  /** One marshalled argument. */
  datatype Arg = UInt32(u: uint32) | Int32(i: int32) | StrArray(items: seq<string>)

  datatype Kind = SignalKind | MethodCallKind | ReturnKind | ErrorKind

  datatype Message = Message(kind: Kind, path: string, iface: string, member: string, body: seq<Arg>)

  /** `dbus_message_is_signal`: a signal with this interface and member (the
      object path plays no part). */
  predicate IsSignal(m: Message, iface: string, member: string) {
    m.kind == SignalKind && m.iface == iface && m.member == member
  }

  /** What the transport did with one outbound signal: `created` is false when
      building the message failed; `sent` is false when queueing it failed. */
  datatype SendOracle = SendOracle(created: bool, sent: bool)

  /** The signal payload both forwarding paths build: a `uint32` count followed
      by an array whose element 0 is the target's own name. */
  function EncodeList(target: string, args: seq<string>): (body: seq<Arg>)
    requires |args| + 1 < UInt32Limit
    ensures ListDecodable(body)
    ensures ListCount(body) == |args| + 1 == |body[1].items|
    ensures ListItems(body) == [target] + args
  {
    [UInt32(|args| + 1), StrArray([target] + args)]
  }

  /** A body the receiving side can read as a list: a `uint32` count and, unless
      the count is zero (then the array is never opened), an array holding at
      least that many strings. */
  predicate ListDecodable(body: seq<Arg>) {
    && |body| >= 1
    && body[0].UInt32?
    && (body[0].u == 0 || (|body| >= 2 && body[1].StrArray? && body[0].u <= |body[1].items|))
  }

  function ListCount(body: seq<Arg>): nat
    requires ListDecodable(body)
  {
    body[0].u
  }

  /** The first `count` strings of the array: what the receiver copies out. */
  function ListItems(body: seq<Arg>): (items: seq<string>)
    requires ListDecodable(body)
    ensures |items| == ListCount(body)
  {
    if body[0].u == 0 then [] else body[1].items[..body[0].u]
  }
}
