/** The history of timer interrupts, as seen from outside: each expiry of the timer,
    with the vector the guest had programmed, and each injection: an entry at which the
    processor was told to deliver an interrupt. */
module EventLog {
  import opened Bits
  import opened Options

  datatype Event = Expired(vector: u8) | Injected(vector: u8)

  /** Every injected interrupt comes straight after an expiry, with its vector: none is
      made up, replayed, or overtaken by an earlier one. */
  ghost predicate Paired(log: seq<Event>) {
    forall i :: 0 <= i < |log| && log[i].Injected? ==> 0 < i && log[i - 1] == Expired(log[i].vector)
  }

  /** The expiry that is still to be injected. */
  function Pending(log: seq<Event>): Option<u8> {
    if log != [] && log[|log| - 1].Expired? then Some(log[|log| - 1].vector) else None
  }

  function Expiries(log: seq<Event>): nat {
    if log == [] then 0
    else Expiries(log[..|log| - 1]) + if log[|log| - 1].Expired? then 1 else 0
  }

  function Injections(log: seq<Event>): nat {
    if log == [] then 0
    else Injections(log[..|log| - 1]) + if log[|log| - 1].Injected? then 1 else 0
  }

  /** Expiries that fell together with the next one, before any injection. */
  function Coalesced(log: seq<Event>): nat {
    if |log| < 2 then 0
    else Coalesced(log[..|log| - 1]) + if log[|log| - 1].Expired? && log[|log| - 2].Expired? then 1 else 0
  }

  /** Conservation: every expiry is injected once, coalesced, or still pending. */
  lemma {:induction false} Conservation(log: seq<Event>)
    requires Paired(log)
    ensures Expiries(log) == Injections(log) + Coalesced(log) + if Pending(log).Some? then 1 else 0
  {
    if log != [] {
      var prior := log[..|log| - 1];
      assert Paired(prior) by {
        forall i | 0 <= i < |prior| && prior[i].Injected?
          ensures 0 < i && prior[i - 1] == Expired(prior[i].vector)
        {
          assert log[i] == prior[i];
        }
      }
      Conservation(prior);
      if |log| >= 2 {
        assert log[|log| - 2] == prior[|prior| - 1];
      }
    }
  }

  lemma ExpiriesOf(log: seq<Event>, e: seq<Event>)
    requires |e| <= 1
    ensures Expiries(log + e) == Expiries(log) + if e != [] && e[0].Expired? then 1 else 0
  {
    if e == [] {
      assert log + e == log;
    } else {
      assert (log + e)[..|log + e| - 1] == log;
    }
  }

  /** An expiry may come at any time; an injection only discharges what is pending. */
  lemma Extend(log: seq<Event>, e: Event)
    requires Paired(log)
    requires e.Injected? ==> Pending(log) == Some(e.vector)
    ensures Paired(log + [e])
    ensures Pending(log + [e]) == if e.Expired? then Some(e.vector) else None
  {
  }

  /** A turn in which the timer may expire, and then what is waiting may be injected. */
  lemma ExpireThenDeliver(log: seq<Event>, expired: seq<Event>, delivered: seq<Event>, waiting: Option<u8>, left: Option<u8>)
    requires Paired(log)
    requires || (expired == [] && waiting == Pending(log))
             || (waiting.Some? && expired == [Expired(waiting.value)])
    requires || (delivered == [] && left == waiting)
             || (waiting.Some? && delivered == [Injected(waiting.value)] && left.None?)
    ensures Paired(log + expired + delivered) && Pending(log + expired + delivered) == left
  {
    var mid := log + expired;
    if expired == [] {
      assert mid == log;
    } else {
      Extend(log, expired[0]);
    }
    if delivered == [] {
      assert mid + delivered == mid;
    } else {
      Extend(mid, delivered[0]);
    }
  }

  /** A turn in which what is waiting may be injected, and then the timer may expire. */
  lemma DeliverThenExpire(log: seq<Event>, delivered: seq<Event>, expired: seq<Event>, left: Option<u8>)
    requires Paired(log)
    requires || delivered == []
             || (Pending(log).Some? && delivered == [Injected(Pending(log).value)])
    requires || (expired == [] && left == if delivered == [] then Pending(log) else None)
             || (left.Some? && expired == [Expired(left.value)])
    ensures Paired(log + delivered + expired) && Pending(log + delivered + expired) == left
  {
    var mid := log + delivered;
    if delivered == [] {
      assert mid == log;
    } else {
      Extend(log, delivered[0]);
    }
    if expired == [] {
      assert mid + expired == mid;
    } else {
      Extend(mid, expired[0]);
    }
  }
}
