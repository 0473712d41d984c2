/**
 * The completion channel `doneChan` (main.go:115). Every dispatch runs in its
 * own goroutine, so the order in which their messages reach the receiver is
 * up to the scheduler: the channel is modelled as the bag of messages sent
 * and not yet received, and a receive takes any one of them.
 */
module Completion {

  class Channel {
    var pending: multiset<bool>

    constructor ()
      ensures pending == multiset{}
    {
      pending := multiset{};
    }

    /** `doneChan <- b` (main.go:64 and main.go:68). */
    method Send(b: bool)
      modifies this
      ensures pending == old(pending) + multiset{b}
    {
      pending := pending + multiset{b};
    }

    /**
     * `<-doneChan` (main.go:124). A receive on an empty channel blocks; the
     * model receives only once a message has been sent.
     */
    method Receive() returns (b: bool)
      requires |pending| > 0
      modifies this
      ensures b in old(pending)
      ensures pending == old(pending) - multiset{b}
    {
      if true !in pending && false !in pending {
        assert forall x: bool :: pending[x] == multiset{}[x];
        assert false;
      }
      b :| b in pending;
      pending := pending - multiset{b};
    }
  }
}
