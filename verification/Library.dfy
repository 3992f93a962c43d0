/** src/lib.rs: making a channel. */
module Library {
  import opened Prelude
  import opened Protocol
  import opened Channel
  import opened WaitStrategy
  import opened SendSide
  import opened ReceiveSide

  datatype NexusError = BufferTooSmall | BufferTooLarge

  datatype Result<+V, +E> = Ok(value: V) | Err(error: E)

  /** make_channel_with: refuses the sizes it should, and otherwise builds a channel of the
      least power of two that holds the size, at least two cells, with a sender and a receiver
      at rest. The sender's second protocol sender, for its polls, is the one step taken. */
  method MakeChannel(size: nat, headWait: HybridWait, cellWait: HybridWait)
    returns (r: Result<(SenderHandle, ReceiverHandle), NexusError>)
    ensures r.Ok? <==> 2 <= size <= ISIZE_MAX
    ensures size < 2 ==> r == Err(BufferTooSmall)
    ensures size > ISIZE_MAX ==> r == Err(BufferTooLarge)
    ensures r.Ok? ==> var (sender, receiver) := r.value;
                      var q := sender.nexus;
                      && fresh(sender) && fresh(receiver) && fresh(q) && fresh(q.buffer) && receiver.nexus == q
                      && q.buffer.Length > 0 && q.View() == Apply(Init(q.buffer.Length), NewSender)
                      && sender.headWait == headWait && sender.cellWait == cellWait && receiver.cellWait == cellWait
                      && sender.Idle() && sender.Polled() && sender.asyncId == None
                      && receiver.Valid() && receiver.cursor == 1 && receiver.Me().got == []
                      && 2 <= size <= q.buffer.Length < 2 * size
                      && forall k: nat :: size <= Pow2(k) ==> q.buffer.Length <= Pow2(k)
  {
    if size < 2 {
      return Err(BufferTooSmall);
    }
    if size > ISIZE_MAX {
      return Err(BufferTooLarge);
    }
    AcceptedSizeRounds(size);
    var q := new Nexus(MaybeNextPowerOfTwo(size));
    q.Silent(NewSender);
    var sender := new SenderHandle(q, 0, 1, headWait, cellWait);
    var receiver := new ReceiverHandle(q, 0, cellWait, 1, 0);
    return Ok((sender, receiver));
  }
}
