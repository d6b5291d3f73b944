/** A connection that uploads or downloads one file. */
module Connection {
  // connection status
  const DOING := 1
  const PAUSE := 2
  const FIN := 3
  const CLOSE := 4

  /** The connection's atomic fields with the operations the threads use on them. */
  class UpDownCon {
    var status: int
    var handledSize: nat

    constructor ()
      ensures status == DOING && handledSize == 0
    {
      status, handledSize := DOING, 0;
    }

    method CmpExchange(expected: int, desired: int) returns (swapped: bool)
      modifies this`status
      ensures swapped <==> old(status) == expected
      ensures status == if swapped then desired else old(status)
    {
      swapped := status == expected;
      if swapped {
        status := desired;
      }
    }

    /** Adds size if the handled size is at most num; under a lock, hence atomic. */
    method LessEqualAddTaskHandleSize(num: nat, size: nat) returns (added: bool)
      modifies this`handledSize
      ensures added <==> old(handledSize) <= num
      ensures handledSize == old(handledSize) + if added then size else 0
    {
      if handledSize <= num {
        handledSize := handledSize + size;
        return true;
      }
      added := false;
    }
  }
}
