/** The disk adapter of the emulator (`DiskBuffer`, src/disk/web/client.js): a queue of
    reads and writes of which one at a time is with the worker. A request that fails
    stays at the head and is sent again; the worker may or may not have carried it out. */
module DiskBuffer {
  import opened Octets

  type Disk = seq<Byte>

  datatype Request = Read(offset: nat, length: nat) | Write(offset: nat, bytes: seq<Byte>)

  predicate Possible(r: Request, size: nat) {
    match r
    case Read(offset, length) => offset + length <= size
    case Write(offset, bytes) => offset + |bytes| <= size
  }

  // The disk after one request.
  function Apply(disk: Disk, r: Request): (d: Disk)
    requires Possible(r, |disk|)
    ensures |d| == |disk|
  {
    match r
    case Read(_, _) => disk
    case Write(offset, bytes) => disk[..offset] + bytes + disk[offset + |bytes|..]
  }

  function Answer(disk: Disk, r: Request): seq<Byte>
    requires Possible(r, |disk|)
  {
    match r
    case Read(offset, length) => disk[offset..offset + length]
    case Write(_, _) => []
  }

  /** A write may be carried out again: the second time changes nothing. */
  lemma ApplyTwice(disk: Disk, r: Request)
    requires Possible(r, |disk|)
    ensures Apply(Apply(disk, r), r) == Apply(disk, r)
  {
    var once := Apply(disk, r);
    if r.Write? {
      assert once[..r.offset] == disk[..r.offset];
      assert once[r.offset + |r.bytes|..] == disk[r.offset + |r.bytes|..];
    }
  }

  predicate AllPossible(requests: seq<Request>, size: nat) {
    forall i :: 0 <= i < |requests| ==> Possible(requests[i], size)
  }

  // The disk after requests, each once and in order.
  function ApplyAll(disk: Disk, requests: seq<Request>): (d: Disk)
    requires AllPossible(requests, |disk|)
    ensures |d| == |disk|
  {
    if requests == [] then disk
    else Apply(ApplyAll(disk, requests[..|requests| - 1]), requests[|requests| - 1])
  }

  /** What the callbacks were given: one answer a request, in the order in which they
      were enqueued, each from the disk as the requests before it left it. */
  ghost predicate AnswersOk(disk: Disk, requests: seq<Request>, answers: seq<seq<Byte>>) {
    && AllPossible(requests, |disk|) && |answers| == |requests|
    && forall i :: 0 <= i < |requests| ==> answers[i] == Answer(ApplyAll(disk, requests[..i]), requests[i])
  }

  lemma AnswersMore(disk: Disk, requests: seq<Request>, answers: seq<seq<Byte>>, r: Request)
    requires AnswersOk(disk, requests, answers) && Possible(r, |disk|)
    ensures AnswersOk(disk, requests + [r], answers + [Answer(ApplyAll(disk, requests), r)])
    ensures ApplyAll(disk, requests + [r]) == Apply(ApplyAll(disk, requests), r)
  {
    var more := requests + [r];
    assert more[..|requests|] == requests;
    forall i | 0 <= i < |requests|
      ensures more[..i] == requests[..i]
    {
    }
  }

  // The disk shows what was completed, and perhaps the head of the queue as well.
  ghost predicate Shown(start: Disk, done: seq<Request>, head: Option<Request>, disk: Disk) {
    && AllPossible(done, |start|)
    && (disk == ApplyAll(start, done) ||
        (head.Some? && Possible(head.value, |start|) && disk == Apply(ApplyAll(start, done), head.value)))
  }

  /** Carrying out the head, for the first time or again, completes it. */
  lemma Carried(start: Disk, done: seq<Request>, answers: seq<seq<Byte>>, r: Request, disk: Disk)
    requires AnswersOk(start, done, answers) && Shown(start, done, Some(r), disk) && Possible(r, |start|)
    ensures |disk| == |start| && AnswersOk(start, done + [r], answers + [Answer(disk, r)])
    ensures Shown(start, done, Some(r), Apply(disk, r))
    ensures forall head :: Shown(start, done + [r], head, Apply(disk, r))
  {
    ApplyTwice(ApplyAll(start, done), r);
    AnswersMore(start, done, answers, r);
  }

  lemma NextUp(enqueued: seq<Request>, done: seq<Request>, queue: seq<Request>)
    requires enqueued == done + queue && queue != []
    ensures enqueued == done + [queue[0]] + queue[1..]
  {
  }

  datatype Event =
    | Enqueue(request: Request)
    | Succeed
    | FailRequest(applied: bool)
    | Reported
    | Fail
    | Retry
    | Resumed
    | Dispose

  class DiskBuffer {
    ghost const start: Disk
    var disk: Disk
    var queue: seq<Request>
    var pumping: bool
    var failed: bool
    var disposed: bool
    var sent: Option<Request>       // with the worker, awaited by the pump
    var reporting: bool             // the pump awaits the error handler
    var calling: bool               // the pump is inside a request's callback
    ghost var enqueued: seq<Request>
    ghost var done: seq<Request>
    ghost var answers: seq<seq<Byte>>
    ghost var dropped: Option<Request>

    ghost predicate Valid()
      reads this
    {
      && AnswersOk(start, done, answers)
      && (if disposed then queue == [] && done <= enqueued else enqueued == done + queue)
      && Shown(start, done, if disposed then dropped else if queue == [] then None else Some(queue[0]), disk)
      && (sent.Some? ==> pumping && !reporting)
      && (sent.Some? && !disposed ==> queue != [] && queue[0] == sent.value)
      && (sent.Some? && disposed ==> dropped == sent)
      && (dropped.Some? ==> disposed && done + [dropped.value] <= enqueued)
      && (reporting ==> pumping && failed) && (calling ==> pumping && sent.None? && !reporting)
      && (pumping ==> sent.Some? || reporting || calling)
    }

    constructor (disk: Disk)
      ensures Valid() && start == disk && this.disk == disk && enqueued == [] && !disposed && !failed
    {
      start, this.disk := disk, disk;
      queue, pumping, failed, disposed, sent, reporting, calling := [], false, false, false, None, false, false;
      enqueued, done, answers, dropped := [], [], [], None;
      new;
      assert ApplyAll(disk, []) == disk;
    }

    method Enqueue(r: Request)
      requires Valid()
      modifies this`queue, this`enqueued, this`pumping, this`sent
      ensures Valid() && enqueued == (if disposed then old(enqueued) else old(enqueued) + [r])
      ensures queue == if disposed then old(queue) else old(queue) + [r]
    {
      if disposed {
        return;
      }
      queue := queue + [r];
      enqueued := enqueued + [r];
      Pump();
    }

    // The pump sends the head of the queue unless it is busy or held up.
    method Pump()
      requires Valid()
      modifies this`pumping, this`sent
      ensures Valid()
      ensures !old(pumping) && !failed && !disposed && queue != [] ==> sent == Some(queue[0])
    {
      if pumping || failed || disposed {
        return;
      }
      Continue();
    }

    method Continue()
      requires Valid() && !pumping
      modifies this`pumping, this`sent
      ensures Valid()
      ensures sent == if queue != [] && !failed && !disposed then Some(queue[0]) else None
    {
      if queue != [] && !failed && !disposed {
        pumping, sent := true, Some(queue[0]);
      }
    }

    /** The worker has carried out the request: it leaves the queue and its callback,
        which may use the adapter, gets the answer. */
    method Succeed()
      requires Valid() && sent.Some? && Possible(sent.value, |start|)
      modifies this`disk, this`queue, this`pumping, this`failed, this`disposed, this`sent, this`calling
      modifies this`enqueued, this`done, this`answers, this`dropped
      ensures Valid() && !calling && old(enqueued) <= enqueued
      ensures old(disposed) ==> done == old(done) && answers == old(answers) && !pumping
      ensures !old(disposed) ==> done == old(done) + [old(sent.value)] && |answers| == |old(answers)| + 1
    {
      if disposed {
        Discard();
      } else {
        Complete();
        Callback();
        Return();
      }
    }

    // The adapter was disposed of while the worker was busy.
    method Discard()
      requires Valid() && sent.Some? && Possible(sent.value, |start|) && disposed
      modifies this`disk, this`pumping, this`sent
      ensures Valid() && !pumping && sent.None?
    {
      Carried(start, done, answers, sent.value, disk);
      disk := Apply(disk, sent.value);
      sent, pumping := None, false;
    }

    method Return()
      requires Valid() && calling
      modifies this`calling, this`pumping, this`sent
      ensures Valid() && !calling
    {
      calling, pumping := false, false;
      Continue();
    }

    method Complete()
      requires Valid() && sent.Some? && Possible(sent.value, |start|) && !disposed
      modifies this`disk, this`queue, this`sent, this`calling, this`done, this`answers
      ensures Valid() && calling && pumping && sent.None?
      ensures queue == old(queue)[1..] && done == old(done) + [old(sent.value)]
      ensures |answers| == |old(answers)| + 1
    {
      var r := sent.value;
      Carried(start, done, answers, r, disk);
      NextUp(enqueued, done, queue);
      answers := answers + [Answer(disk, r)];
      disk := Apply(disk, r);
      queue := queue[1..];
      done := done + [r];
      sent, calling := None, true;
    }

    // Whatever the emulator does when it is called back.
    method Callback()
      requires Valid() && calling
      modifies this`queue, this`pumping, this`failed, this`disposed, this`sent, this`enqueued, this`dropped
      ensures Valid() && calling && pumping && sent.None? && old(enqueued) <= enqueued
    {
      var steps: int := *;
      for k := 0 to if steps < 0 then 0 else steps
        invariant Valid() && calling && pumping && sent.None? && old(enqueued) <= enqueued
      {
        var choice: int := *;
        if choice == 0 {
          Fail();
        } else if choice == 1 {
          Dispose();
        } else {
          var r: Request := *;
          Enqueue(r);
        }
      }
    }

    /** The worker reports a failure, whether or not it has written. The request keeps
        its place. */
    method FailRequest(applied: bool)
      requires Valid() && sent.Some?
      modifies this`disk, this`failed, this`sent, this`reporting
      ensures Valid() && failed && reporting && sent.None? && (applied || disk == old(disk))
    {
      var r := sent.value;
      if applied && Possible(r, |disk|) {
        ApplyTwice(ApplyAll(start, done), r);
        disk := Apply(disk, r);
      }
      sent, failed, reporting := None, true, true;
    }

    method Reported()
      requires Valid() && reporting
      modifies this`pumping, this`reporting
      ensures Valid() && !pumping && !reporting
    {
      pumping, reporting := false, false;
    }

    method Fail()
      requires Valid()
      modifies this`failed
      ensures Valid() && failed
    {
      failed := true;
    }

    /** A retry is refused while the pump is busy; it pumps again once the worker has
        resumed. */
    method Retry() returns (ok: bool)
      requires Valid()
      modifies this`failed
      ensures Valid() && ok == (!pumping && !disposed) && failed == (old(failed) && !ok)
    {
      ok := !pumping && !disposed;
      if ok {
        failed := false;
      }
    }

    method Dispose()
      requires Valid()
      modifies this`queue, this`disposed, this`dropped
      ensures Valid() && disposed && queue == []
    {
      if !disposed {
        dropped := if queue == [] then None else Some(queue[0]);
        queue, disposed := [], true;
      }
    }

    predicate Can(e: Event)
      reads this
    {
      match e
      case Succeed => sent.Some? && Possible(sent.value, |disk|)
      case FailRequest(_) => sent.Some?
      case Reported => reporting
      case _ => true
    }

    /** Any events: the completed requests are the first ones enqueued, each once and
        in order; the disk shows exactly them, or them and the next; and once nothing is
        queued the disk shows every request ever enqueued. */
    method Run(events: seq<Event>)
      requires Valid() && !calling
      modifies this
      ensures Valid() && done <= enqueued && |answers| == |done| && AllPossible(done, |start|)
      ensures disk == ApplyAll(start, done) || OneMore(start, done, enqueued, disk)
      ensures !disposed && queue == [] ==> done == enqueued && disk == ApplyAll(start, enqueued)
    {
      for i := 0 to |events|
        invariant Valid() && !calling
      {
        if Can(events[i]) {
          Step(events[i]);
        }
      }
      Progress(start, done, enqueued, if disposed then dropped else if queue == [] then None else Some(queue[0]), disk);
    }

    method Step(e: Event)
      requires Valid() && !calling && Can(e)
      modifies this
      ensures Valid() && !calling
    {
      match e
      case Enqueue(r) => Enqueue(r);
      case Succeed => Succeed();
      case FailRequest(applied) => FailRequest(applied);
      case Reported => Reported();
      case Fail => Fail();
      case Retry => var ok := Retry();
      case Resumed => Pump();
      case Dispose => Dispose();
    }
  }

  // The disk shows the completed requests and the one enqueued after them.
  ghost predicate OneMore(start: Disk, done: seq<Request>, enqueued: seq<Request>, disk: Disk) {
    && |done| < |enqueued| && AllPossible(enqueued[..|done| + 1], |start|)
    && disk == ApplyAll(start, enqueued[..|done| + 1])
  }

  lemma Progress(start: Disk, done: seq<Request>, enqueued: seq<Request>, head: Option<Request>, disk: Disk)
    requires Shown(start, done, head, disk) && (head.Some? ==> done + [head.value] <= enqueued)
    ensures disk == ApplyAll(start, done) || OneMore(start, done, enqueued, disk)
  {
    if head.Some? {
      assert enqueued[..|done| + 1] == done + [head.value];
      assert (done + [head.value])[..|done|] == done;
    }
  }
}
