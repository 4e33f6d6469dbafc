/** Messages and channels of the websocket multiplexer, after nat/message.go. */
module NatTypes {
  import opened Bytes

  const SEND_CHAN_LEN := 200
  const BRIDGE_CHAN_LEN := 100

  /** "create", "close" and the empty method. */
  datatype Kind = Create | Close | Data

  datatype Message = Message(id: nat, kind: Kind, body: Bytes)

  /** A buffered channel; a closed one can still be drained. */
  datatype Chan<T> = Chan(open: bool, queue: seq<T>)

  /** A hub's send: never waits; a full channel is closed instead, and a channel
      that is closed is no longer in the hub, so what is meant for it is dropped. */
  function Offer<T>(c: Chan<T>, x: T, cap: nat): Chan<T> {
    if !c.open then c
    else if |c.queue| < cap then c.(queue := c.queue + [x])
    else c.(open := false)
  }

  /** What a bridge hub does to the channel of the bridge a message names. */
  function Handle(c: Chan<Bytes>, m: Message): Chan<Bytes> {
    if m.kind == Close then c.(open := false) else Offer(c, m.body, BRIDGE_CHAN_LEN)
  }
}
