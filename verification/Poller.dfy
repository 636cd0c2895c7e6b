/** The client's event queue (client/src/Poller.cs): cleared before a request is
    built, put back in front on any failure. */
module Poller {
  import opened Deliveries

  /** Where the polling thread stands: between requests, with a batch taken, with
      a request registered, with a reply being delivered, or handling a failure. */
  datatype Phase = Idle | Prepared | Open | Replied | Failed

  datatype State = State(phase: Phase, pending: seq<Event>, sending: seq<Event>, abortedByUs: bool)

  function Queue(s: State, e: Event): State {
    s.(pending := s.pending + [e], abortedByUs := s.abortedByUs || s.phase == Open)
  }

  function Take(s: State): State {
    s.(phase := Prepared, sending := s.pending, pending := [], abortedByUs := false)
  }

  function Track(s: State): State {
    if s.pending != [] then s.(phase := Failed, abortedByUs := true) else s.(phase := Open)
  }

  function Requeue(s: State): State {
    s.(phase := Idle, pending := s.sending + s.pending, sending := [])
  }

  function Finish(s: State): State {
    s.(phase := Idle, sending := [])
  }

  /** The poller object. `sending` is the loop's local list; `registered` says
      whether `current` holds a request. */
  class Poller {
    var pending: seq<Event>
    var sending: seq<Event>
    var registered: bool
    var abortedByUs: bool
    ghost var phase: Phase

    ghost predicate Valid()
      reads this
    {
      (registered <==> phase == Open) && (phase == Idle ==> sending == [])
    }

    ghost function View(): State
      reads this
    {
      State(phase, pending, sending, abortedByUs)
    }

    constructor ()
      ensures Valid() && View() == State(Idle, [], [], false)
    {
      pending, sending, registered, abortedByUs, phase := [], [], false, false, Idle;
    }

    /** Called from the user interface at any moment. */
    method QueueEvent(e: Event)
      requires Valid()
      modifies this
      ensures Valid() && View() == Queue(old(View()), e)
    {
      pending := pending + [e];
      if registered {
        abortedByUs := true;
      }
    }

    /** The first locked section of the loop. */
    method Snapshot()
      requires Valid() && phase == Idle
      modifies this
      ensures Valid() && View() == Take(old(View()))
    {
      sending := pending;
      pending := [];
      abortedByUs := false;
      phase := Prepared;
    }

    /** The locked section of `Send`: do not start a long wait with news queued. */
    method Register() returns (started: bool)
      requires Valid() && phase == Prepared
      modifies this
      ensures Valid() && View() == Track(old(View())) && (started <==> phase == Open)
    {
      if |pending| > 0 {
        abortedByUs := true;
        phase := Failed;
        return false;
      }
      registered := true;
      phase := Open;
      return true;
    }

    /** The `finally` of `Send`: the request is over, with a reply or without. */
    method Release(replied: bool)
      requires Valid() && phase == Open
      modifies this
      ensures Valid() && View() == old(View()).(phase := if replied then Replied else Failed)
    {
      registered := false;
      phase := if replied then Replied else Failed;
    }

    method Succeed()
      requires Valid() && phase == Replied
      modifies this
      ensures Valid() && View() == Finish(old(View()))
    {
      sending := [];
      phase := Idle;
    }

    /** The `catch` of the loop: everything goes back in front of the queue. */
    method PutBack() returns (ours: bool)
      requires Valid() && phase == Failed
      modifies this
      ensures Valid() && View() == Requeue(old(View())) && ours == old(abortedByUs)
    {
      ours := abortedByUs;
      pending := sending + pending;
      sending := [];
      phase := Idle;
    }
  }
}
