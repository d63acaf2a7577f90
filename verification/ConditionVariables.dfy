/** Threads counted by their relation to one condition variable. */
module ConditionVariables {

  /** `waiting` threads sleep in wait(); `signalled` ones were woken by notify_one and `woken` ones
      spuriously, and have not got the mutex back yet. */
  datatype Waiters = Waiters(waiting: nat, signalled: nat, woken: nat) {
    function Notify(): Waiters {
      if waiting > 0 then this.(waiting := waiting - 1, signalled := signalled + 1) else this
    }

    /** One waiting thread, if there is one, has become `other`'s signalled one. */
    predicate OneFewer(other: Waiters) {
      && other.woken == woken && other.waiting + other.signalled == waiting + signalled
      && other.waiting == if waiting > 0 then waiting - 1 else 0
    }

    function Block(): Waiters {
      this.(waiting := waiting + 1)
    }

    function WakeSpuriously(): Waiters
      requires waiting > 0
    {
      this.(waiting := waiting - 1, woken := woken + 1)
    }

    /** One awake thread gets the mutex back. */
    predicate CanResume(spurious: bool) {
      if spurious then woken > 0 else signalled > 0
    }

    function Resume(spurious: bool): Waiters
      requires CanResume(spurious)
    {
      if spurious then this.(woken := woken - 1) else this.(signalled := signalled - 1)
    }

    function Size(): nat {
      waiting + signalled + woken
    }
  }
}
