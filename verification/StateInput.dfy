/** The read-ahead of a published state (`stateInput` in src/disk/web/torrent-remote.js).
    Up to four range requests run at once, at most sixteen ranges are held, and they
    complete in any order; the consumer takes them in file order. One method is one
    callback, run to its end before any other. */
module StateInput {
  import opened Octets

  const UNIT := 262144
  const MAX_ACTIVE := 4
  const MAX_PENDING := 16

  // A request from its start until its promise is settled. The last callback before
  // it settles gives up its place among the active ones.
  datatype Read =
    | InFlight
    | Rejected
    | Fetched(bytes: seq<Byte>)
    | Failed
    | Resolved(bytes: seq<Byte>)
    | ResolvedError

  datatype Consumer = Idle | Awaiting(start: nat) | Closed | Errored

  predicate Unsettled(r: Read) { !r.Resolved? && !r.ResolvedError? }

  ghost function Unresolved(requests: map<nat, Read>): set<nat> { set s | s in requests && Unsettled(requests[s]) }

  function Count(size: nat, start: nat): int { if size - start < UNIT then size - start else UNIT }

  // The bytes a request holds are the file's.
  ghost predicate ReadsOk(file: seq<Byte>, requests: map<nat, Read>, next: nat) {
    forall s :: s in requests ==> s < next <= |file| && ReadOk(file, s, requests[s])
  }

  ghost predicate ReadOk(file: seq<Byte>, s: nat, r: Read) {
    (r.Fetched? || r.Resolved?) && s < |file| ==> r.bytes == file[s..s + Count(|file|, s)]
  }

  /** The ranges held tile the file from `offset` to `next`. */
  ghost predicate Tiles(size: nat, pending: seq<nat>, offset: nat, next: nat) {
    && offset <= next <= size && (offset % UNIT == 0 || offset == size)
    && next == Min(size, offset + |pending| * UNIT)
    && forall i :: 0 <= i < |pending| ==> pending[i] == offset + i * UNIT < size
  }

  ghost predicate WindowOk(
      size: nat, requests: map<nat, Read>, pending: seq<nat>, offset: nat, next: nat, stopped: bool) {
    if stopped then pending == [] && offset <= size
    else
      && Tiles(size, pending, offset, next) && |pending| <= MAX_PENDING
      && (forall s :: s in pending ==> s in requests)
      && (forall s :: s in Unresolved(requests) ==> s in pending)
      && forall s :: s in requests ==> !requests[s].Failed? && !requests[s].ResolvedError?
  }

  ghost predicate ActiveOk(requests: map<nat, Read>, active: nat) { active == |Unresolved(requests)| <= MAX_ACTIVE }

  ghost predicate ConsumerOk(
      size: nat, requests: map<nat, Read>, pending: seq<nat>, offset: nat, stopped: bool, consumer: Consumer) {
    && (consumer.Awaiting? ==> consumer.start in requests)
    && (consumer.Awaiting? && !stopped ==> pending != [] && pending[0] == consumer.start)
    && (consumer.Closed? ==> offset == size) && (consumer.Errored? ==> stopped)
  }

  /** A window that is not full is waiting for a request to finish or has reached the
      end of the file. */
  predicate Full(size: nat, pending: seq<nat>, next: nat, active: nat, stopped: bool) {
    stopped || active == MAX_ACTIVE || |pending| == MAX_PENDING || next == size
  }

  lemma AddUnresolved(requests: map<nat, Read>, s: nat)
    requires s !in requests
    ensures Unresolved(requests[s := InFlight]) == Unresolved(requests) + {s} && s !in Unresolved(requests)
  {
  }

  lemma SetRead(requests: map<nat, Read>, s: nat, r: Read)
    requires s in requests && Unsettled(requests[s])
    ensures Unresolved(requests[s := r]) == if Unsettled(r) then Unresolved(requests) else Unresolved(requests) - {s}
    ensures s in Unresolved(requests)
  {
  }

  /** Starting one more request keeps the window a tiling with one more tile. */
  lemma FillOne(size: nat, requests: map<nat, Read>, pending: seq<nat>, offset: nat, next: nat, active: nat)
    requires WindowOk(size, requests, pending, offset, next, false) && ActiveOk(requests, active) && next !in requests
    requires active < MAX_ACTIVE && |pending| < MAX_PENDING && next < size
    ensures WindowOk(size, requests[next := InFlight], pending + [next], offset, next + Count(size, next), false)
    ensures ActiveOk(requests[next := InFlight], active + 1)
  {
    AddUnresolved(requests, next);
  }

  /** Taking the head keeps the rest a tiling from the new offset. */
  lemma Shift(size: nat, pending: seq<nat>, offset: nat, next: nat)
    requires Tiles(size, pending, offset, next) && pending != []
    ensures Tiles(size, pending[1..], offset + Count(size, offset), next)
  {
  }

  /** A full window of an unfinished, unstopped stream is not empty, so the consumer
      never waits for a head that is not there. */
  lemma HeadPresent(size: nat, requests: map<nat, Read>, pending: seq<nat>, offset: nat, next: nat, active: nat)
    requires WindowOk(size, requests, pending, offset, next, false) && ActiveOk(requests, active)
    requires Full(size, pending, next, active, false) && offset < size
    ensures pending != [] && pending[0] == offset
  {
    if active > 0 {
      var s :| s in Unresolved(requests);
      assert s in pending;
    }
  }

  /** What is held ahead of the consumer is at most 4 MiB. */
  lemma Held(size: nat, requests: map<nat, Read>, pending: seq<nat>, offset: nat, next: nat)
    requires WindowOk(size, requests, pending, offset, next, false)
    ensures next - offset <= MAX_PENDING * UNIT == 4 * 1024 * 1024
  {
  }

  class StateInput {
    const file: seq<Byte>
    var offset: nat
    var next: nat
    var active: nat
    var stopped: bool
    var pending: seq<nat>
    var requests: map<nat, Read>
    var consumer: Consumer
    var output: seq<Byte>

    ghost predicate Valid()
      reads this
    {
      && ReadsOk(file, requests, next) && ActiveOk(requests, active)
      && WindowOk(|file|, requests, pending, offset, next, stopped)
      && ConsumerOk(|file|, requests, pending, offset, stopped, consumer)
      && output == file[..offset]
    }

    constructor (file: seq<Byte>)
      ensures this.file == file && Valid() && output == [] && consumer == Idle && !stopped
    {
      this.file := file;
      offset, next, active, stopped, pending, requests, consumer, output := 0, 0, 0, false, [], map[], Idle, [];
    }

    method Stop()
      requires Valid()
      modifies this`stopped, this`pending
      ensures Valid() && stopped
    {
      if !stopped {
        stopped, pending := true, [];
      }
    }

    method Fill()
      requires Valid()
      modifies this`next, this`active, this`pending, this`requests
      ensures Valid() && Full(|file|, pending, next, active, stopped)
      ensures old(pending) <= pending && (stopped ==> requests == old(requests))
      ensures forall s :: s in old(requests) ==> s in requests && requests[s] == old(requests)[s]
    {
      while !stopped && active < MAX_ACTIVE && |pending| < MAX_PENDING && next < |file|
        invariant Valid() && old(pending) <= pending && (stopped ==> requests == old(requests))
        invariant forall s :: s in old(requests) ==> s in requests && requests[s] == old(requests)[s]
        decreases |file| - next
      {
        Request();
      }
    }

    method Request()
      requires Valid() && !stopped && active < MAX_ACTIVE && |pending| < MAX_PENDING && next < |file|
      modifies this`next, this`active, this`pending, this`requests
      ensures Valid() && old(next) < next && active == old(active) + 1 && pending == old(pending) + [old(next)]
      ensures old(next) !in old(requests) && requests == old(requests)[old(next) := InFlight]
    {
      var start := next;
      FillOne(|file|, requests, pending, offset, next, active);
      next := next + Count(|file|, start);
      active := active + 1;
      requests := requests[start := InFlight];
      pending := pending + [start];
    }

    /** The answer to a request; one that is not exactly the range is an error. */
    method Arrive(start: nat, answer: Option<seq<Byte>>)
      requires Valid() && start in requests && requests[start].InFlight?
      requires answer.Some? && start < |file| && |answer.value| == Count(|file|, start) ==>
        answer.value == file[start..start + Count(|file|, start)]
      modifies this`requests
      ensures Valid()
      ensures requests == old(requests)[start :=
        if answer.Some? && |answer.value| == Count(|file|, start) then Fetched(answer.value) else Rejected]
    {
      var ok := answer.Some? && |answer.value| == Count(|file|, start);
      var r := if ok then Fetched(answer.value) else Rejected;
      SetRead(requests, start, r);
      requests := requests[start := r];
    }

    // A rejected request stops the whole stream.
    method Catch(start: nat)
      requires Valid() && start in requests && requests[start].Rejected?
      modifies this`stopped, this`pending, this`requests
      ensures Valid() && stopped && requests == old(requests)[start := Failed]
    {
      Stop();
      SetRead(requests, start, Failed);
      requests := requests[start := Failed];
    }

    method Finish(start: nat)
      requires Valid() && start in requests && (requests[start].Fetched? || requests[start].Failed?)
      modifies this`next, this`active, this`pending, this`requests
      ensures Valid() && Full(|file|, pending, next, active, stopped)
      ensures start in requests && !Unsettled(requests[start])
      ensures forall s :: s in old(requests) && s != start ==> s in requests && requests[s] == old(requests)[s]
    {
      Settle(start);
      Fill();
    }

    method Settle(start: nat)
      requires Valid() && start in requests && (requests[start].Fetched? || requests[start].Failed?)
      modifies this`active, this`requests
      ensures Valid() && active == old(active) - 1
      ensures requests == old(requests)[start :=
        if old(requests)[start].Fetched? then Resolved(old(requests)[start].bytes) else ResolvedError]
    {
      var r := if requests[start].Fetched? then Resolved(requests[start].bytes) else ResolvedError;
      SetRead(requests, start, r);
      active := active - 1;
      requests := requests[start := r];
    }

    /** The consumer asks for more. Unless the stream is over it then waits for the
        head of the window, and there always is one. */
    method Pull()
      requires Valid() && consumer == Idle
      modifies this`next, this`active, this`pending, this`requests, this`consumer
      ensures Valid()
      ensures consumer ==
        if stopped then Errored else if offset == |file| then Closed else Awaiting(offset)
    {
      if stopped {
        consumer := Errored;
      } else if offset == |file| {
        consumer := Closed;
      } else {
        Fill();
        HeadPresent(|file|, requests, pending, offset, next, active);
        consumer := Awaiting(pending[0]);
      }
    }

    /** The awaited request has settled. It cannot have failed unless the stream has
        stopped. */
    method Resume()
      requires Valid() && consumer.Awaiting? && !Unsettled(requests[consumer.start])
      modifies this`offset, this`next, this`active, this`pending, this`requests, this`consumer, this`output
      ensures Valid()
      ensures stopped ==> output == old(output) && consumer == Errored
      ensures !stopped ==> consumer == Idle && Full(|file|, pending, next, active, stopped)
      ensures !stopped ==> output == old(output) + file[old(offset)..old(offset) + Count(|file|, old(offset))]
    {
      if stopped {
        consumer := Errored;
      } else {
        var bytes := requests[consumer.start].bytes;
        Shift(|file|, pending, offset, next);
        pending := pending[1..];
        offset := offset + |bytes|;
        output := output + bytes;
        consumer := Idle;
        Fill();
      }
    }

    // The caller's signal; it is no longer listened to once the stream has ended.
    method Abort()
      requires Valid()
      modifies this`stopped, this`pending
      ensures Valid() && (old(stopped) || consumer != Closed ==> stopped)
    {
      if consumer != Closed {
        Stop();
      }
    }

    method Cancel()
      requires Valid() && consumer != Closed
      modifies this`stopped, this`pending, this`consumer
      ensures Valid() && stopped
    {
      Stop();
      if consumer == Idle {
        consumer := Errored;
      }
    }

    predicate Can(e: Event)
      reads this
    {
      match e
      case Arrive(s, answer) =>
        s in requests && requests[s].InFlight? &&
        (answer.Some? && s < |file| && |answer.value| == Count(|file|, s) ==>
          answer.value == file[s..s + Count(|file|, s)])
      case Catch(s) => s in requests && requests[s].Rejected?
      case Finish(s) => s in requests && (requests[s].Fetched? || requests[s].Failed?)
      case Pull => consumer == Idle
      case Resume => consumer.Awaiting? && consumer.start in requests && !Unsettled(requests[consumer.start])
      case Abort => true
      case Cancel => consumer != Closed
    }

    /** Any one callback: the output only grows, and not once the stream has stopped. */
    method Step(e: Event)
      requires Valid() && Can(e)
      modifies this
      ensures Valid() && old(output) <= output
      ensures old(stopped) ==> stopped && output == old(output)
    {
      match e
      case Arrive(s, answer) => Arrive(s, answer);
      case Catch(s) => Catch(s);
      case Finish(s) => Finish(s);
      case Pull => Pull();
      case Resume => Resume();
      case Abort => Abort();
      case Cancel => Cancel();
    }

    /** Every order of callbacks: what is delivered is the beginning of the file, all of
        it when the stream closes, and nothing more after a stop. */
    method Run(events: seq<Event>)
      requires Valid()
      modifies this
      ensures Valid() && old(output) <= output <= file
      ensures consumer.Closed? ==> output == file
      ensures old(stopped) ==> stopped && output == old(output)
    {
      for i := 0 to |events|
        invariant Valid() && old(output) <= output
        invariant old(stopped) ==> stopped && output == old(output)
      {
        if Can(events[i]) {
          Step(events[i]);
        }
      }
    }
  }

  datatype Event =
    | Arrive(start: nat, answer: Option<seq<Byte>>)
    | Catch(start: nat)
    | Finish(start: nat)
    | Pull
    | Resume
    | Abort
    | Cancel
}
