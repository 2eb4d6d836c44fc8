/** A message on its way out: enqueue_output_message of src/peer.c, from the record to the transport's queue. */
module Outgoing {
  import opened Base
  import opened Schema
  import opened Codec
  import opened RoundTrip
  import opened Framing
  import opened Transport

  /** The buffer takes over what has been encoded. */
  method TakeOver(t: Transport, buf: TransportBuf, bytes: array<Byte>, used: nat)
    requires t.ValidOutput() && t.Held(buf) && bytes.Length == OUTPUT_BUFFER_SIZE && used <= OUTPUT_BUFFER_SIZE
    modifies buf`buffer, buf`usedSize
    ensures t.ValidOutput() && buf.buffer == bytes[..] && buf.usedSize == used
  {
    hide Linked, Segment, Showing;
    buf.buffer := bytes[..];
    buf.usedSize := used;
  }

  /**
   enqueue_output_message. It fails exactly where there is no buffer or the
   message does not fit in one; then nothing has been queued, and the buffer is
   free again.
   */
  method EnqueueOutputMessage(t: Transport, schema: seq<Layout>, r: Record, memory: bool) returns (failed: bool)
    requires t.Valid() && HasKind(schema, r) && IsMessage(schema[r[HDR_TYPE].n].fields, r)
    requires TotalSize(FixedOf(schema[r[HDR_TYPE].n].fields)) <= OUTPUT_BUFFER_SIZE
    modifies t, t.pool, t.queue
    ensures t.Valid()
    ensures failed <==> (old(t.pool) == [] && !memory) || !Sendable(schema, r, OUTPUT_BUFFER_SIZE)
    ensures t.Out() == if failed then old(t.Out()) else Enqueue(old(t.Out()), MessageWire(schema, r))
  {
    hide Linked, Segment, Showing, Sendable, Accepts, MessageWire, TotalSize, FixedOf, IsMessage, HasKind, Enqueue;
    var buf := t.AllocBuffer(memory);
    if buf == null {
      return true;
    }
    var bytes := new Byte[OUTPUT_BUFFER_SIZE];
    var ok, used := EncodeMsg(schema, r, bytes, OUTPUT_BUFFER_SIZE);
    if !ok {
      t.FreeBuffer(buf);
      return true;
    }
    TakeOver(t, buf, bytes, used);
    t.AddOutputMessage(buf);
    failed := false;
  }
}
