/** What a capturing node tells of its work: every notification may be answered with a failure, which ends the turn. */
module Observers {
  import opened Statuses

  class Observer {
    /** The failures that were answered, in order. */
    ghost var complaints: seq<StatusCode>

    constructor ()
      ensures complaints == []
    {
      complaints := [];
    }

    method Notify() returns (code: StatusCode)
      modifies this
      ensures complaints == if code.OkStatus? then old(complaints) else old(complaints) + [code]
    {
      code := *;
      if !code.OkStatus? {
        complaints := complaints + [code];
      }
    }

    /** Tells that a turn would block, which it then answers unless the observer fails. */
    method ReportWouldBlock() returns (code: StatusCode)
      modifies this
      ensures complaints == old(complaints) || complaints == old(complaints) + [code]
      ensures !code.OkStatus? && (complaints == old(complaints) ==> code.WouldBlock?)
    {
      code := Notify();
      return if code.OkStatus? then WouldBlock else code;
    }

    /** Tells `news` things, and then that the turn would block; the first failure ends it. */
    method NotifyThenBlock(news: nat) returns (code: StatusCode)
      modifies this
      ensures complaints == old(complaints) || complaints == old(complaints) + [code]
      ensures !code.OkStatus? && (complaints == old(complaints) ==> code.WouldBlock?)
    {
      for i := 0 to news
        invariant complaints == old(complaints)
      {
        code := Notify();
        if !code.OkStatus? {
          return;
        }
      }
      code := ReportWouldBlock();
    }
  }
}
