/** The startup prefetch of a torrent (`prefetchStartup`, src/disk/web/torrent-window.js).
    It keeps a bounded window of target pieces selected. Selecting, releasing and
    reporting all call out, and whatever is called may verify pieces, re-enter the
    pump, abort the job or throw. */
module Prefetch {
  import opened StartupRanges

  datatype Outcome = Pending | Resolved(completed: int) | Rejected

  // Bytes of the targets verified so far.
  function Completed(size: nat, targets: seq<nat>, bits: set<nat>): int {
    if targets == [] then 0
    else (if targets[0] in bits then Bytes(size, targets[0]) else 0) + Completed(size, targets[1..], bits)
  }

  ghost predicate InFile(size: nat, targets: seq<nat>) { forall i :: 0 <= i < |targets| ==> targets[i] * PIECE < size }

  /** Everything is verified exactly when the verified bytes are all the bytes. */
  lemma {:induction false} CompletedIff(size: nat, targets: seq<nat>, bits: set<nat>)
    requires InFile(size, targets)
    ensures Completed(size, targets, bits) <= ListTotal(size, targets)
    ensures Completed(size, targets, bits) == ListTotal(size, targets) <==>
      forall i :: 0 <= i < |targets| ==> targets[i] in bits
  {
    if targets != [] {
      CompletedIff(size, targets[1..], bits);
      if targets[0] in bits && forall i :: 0 <= i < |targets[1..]| ==> targets[1..][i] in bits {
        forall i | 0 <= i < |targets|
          ensures targets[i] in bits
        {
          assert i > 0 ==> targets[i] == targets[1..][i - 1];
        }
      }
    }
  }

  lemma {:induction false} CompletedSame(size: nat, targets: seq<nat>, bits: set<nat>, more: set<nat>)
    requires forall p :: p in targets ==> (p in bits <==> p in more)
    ensures Completed(size, targets, bits) == Completed(size, targets, more)
  {
    if targets != [] {
      assert targets[0] in targets;
      CompletedSame(size, targets[1..], bits, more);
    }
  }

  ghost function Missing(targets: seq<nat>, bits: set<nat>): set<nat> { set p | p in targets && p !in bits }

  /** What holds between any two steps: each visited target is verified or owned, the
      owned ones fit the window, and no target was selected twice. */
  ghost predicate WindowOk(
      targets: seq<nat>, window: nat, bits: set<nat>, owned: set<nat>, next: nat, selected: seq<nat>) {
    && next <= |targets| && |owned| <= window
    && (forall k :: 0 <= k < next ==> targets[k] in bits || targets[k] in owned)
    && (forall p :: p in owned ==> p in selected)
    && Distinct(selected) && forall p :: p in selected ==> p in targets[..next]
  }

  /** Nothing left to do: the window is full of unverified pieces or every target has
      been visited, and some target is still missing. */
  ghost predicate Quiet(targets: seq<nat>, window: nat, bits: set<nat>, owned: set<nat>, next: nat) {
    && (forall p :: p in owned ==> p !in bits)
    && (|owned| == window || next == |targets|)
    && Missing(targets, bits) != {}
  }

  /** What calling out may have done. Only a newly verified target sets `again`, so it
      cannot be set for ever; and unless it is set, or the job is over, no target was
      verified. */
  ghost predicate After(
    targets: seq<nat>, bits: set<nat>, bits': set<nat>, again: bool, again': bool, finished: bool, finished': bool,
    outcome: Outcome, outcome': Outcome)
  {
    && bits <= bits' && Missing(targets, bits') <= Missing(targets, bits)
    && (again ==> again') && (again' && !again ==> |Missing(targets, bits')| < |Missing(targets, bits)|)
    && (again' || finished' || Missing(targets, bits') == Missing(targets, bits))
    && (finished ==> finished' && outcome' == outcome) && (outcome'.Resolved? ==> outcome' == outcome)
  }

  lemma Fewer(targets: seq<nat>, bits: set<nat>, piece: nat)
    ensures Missing(targets, bits + {piece}) == Missing(targets, bits) - {piece}
    ensures piece in targets && piece !in bits ==> |Missing(targets, bits + {piece})| == |Missing(targets, bits)| - 1
    ensures |Missing(targets, bits + {piece})| <= |Missing(targets, bits)|
  {
    var m := Missing(targets, bits);
    assert Missing(targets, bits + {piece}) == m - {piece};
    if piece in m {
      assert m == (m - {piece}) + {piece};
    } else {
      assert m - {piece} == m;
    }
  }

  lemma AfterTrans(
    targets: seq<nat>, b0: set<nat>, b1: set<nat>, b2: set<nat>, a0: bool, a1: bool, a2: bool, f0: bool, f1: bool,
    f2: bool,
    o0: Outcome, o1: Outcome, o2: Outcome)
    requires After(targets, b0, b1, a0, a1, f0, f1, o0, o1) && After(targets, b1, b2, a1, a2, f1, f2, o1, o2)
    ensures After(targets, b0, b2, a0, a2, f0, f2, o0, o2)
  {
    Smaller(Missing(targets, b1), Missing(targets, b0));
    Smaller(Missing(targets, b2), Missing(targets, b1));
  }

  lemma Smaller(a: set<nat>, b: set<nat>)
    requires a <= b
    ensures |a| <= |b|
  {
    assert b == a + (b - a);
  }

  // An owned piece that is verified is still to be released.
  ghost predicate Released(bits: set<nat>, owned: set<nat>, keys: set<nat>) {
    forall p :: p in owned && p in bits ==> p in keys
  }

  /** Calling out leaves nothing verified unnoticed. */
  lemma ReleasedAfter(
    targets: seq<nat>, bits: set<nat>, bits': set<nat>, again: bool, again': bool, finished: bool, finished': bool,
    outcome: Outcome, outcome': Outcome, owned: set<nat>, keys: set<nat>)
    requires After(targets, bits, bits', again, again', finished, finished', outcome, outcome')
    requires forall p :: p in owned ==> p in targets
    requires again || finished || Released(bits, owned, keys)
    ensures again' || finished' || Released(bits', owned, keys)
  {
    if !again' && !finished' {
      forall p | p in owned && p in bits'
        ensures p in keys
      {
        assert p !in Missing(targets, bits');
      }
    }
  }

  /** Selecting the next target. */
  lemma SelectOk(targets: seq<nat>, window: nat, bits: set<nat>, owned: set<nat>, next: nat, selected: seq<nat>)
    requires WindowOk(targets, window, bits, owned, next, selected) && Distinct(targets)
    requires |owned| < window && next < |targets|
    ensures targets[next] !in owned && targets[next] !in selected
    ensures targets[next] in bits ==> WindowOk(targets, window, bits, owned, next + 1, selected)
    ensures targets[next] !in bits ==>
      WindowOk(targets, window, bits, owned + {targets[next]}, next + 1, selected + [targets[next]])
  {
    assert targets[..next + 1] == targets[..next] + [targets[next]];
  }

  class Prefetch {
    const size: nat
    const window: nat
    const targets: seq<nat>
    var bits: set<nat>
    var owned: set<nat>
    var next: nat
    var pumping: bool
    var again: bool
    var finished: bool
    var aborted: bool
    var outcome: Outcome
    var lastCompleted: int
    ghost var selected: seq<nat>
    ghost var broke: bool           // something that was called out to has thrown

    ghost predicate Valid()
      reads this
    {
      && window >= 1 && Distinct(targets) && InFile(size, targets)
      && WindowOk(targets, window, bits, owned, next, selected)
      && (finished <==> !outcome.Pending?) && (outcome.Rejected? ==> aborted || broke)
      && (outcome.Resolved? ==> outcome.completed == ListTotal(size, targets) && Missing(targets, bits) == {})
    }

    constructor (size: nat, targets: seq<nat>, window: nat, bits: set<nat>)
      requires window >= 1 && Distinct(targets) && InFile(size, targets)
      ensures this.size == size && this.targets == targets && this.window == window && this.bits == bits
      ensures Valid() && !pumping && !finished && !aborted && !broke && owned == {} && selected == []
    {
      this.size, this.targets, this.window, this.bits := size, targets, window, bits;
      owned, next, pumping, again, finished, aborted, outcome, lastCompleted := {}, 0, false, false, false, false,
        Pending, -1;
      selected, broke := [], false;
    }

    method Fail()
      requires Valid() && (aborted || broke)
      modifies this`finished, this`outcome
      ensures Valid() && finished && outcome == if old(finished) then old(outcome) else Rejected
    {
      if !finished {
        finished, outcome := true, Rejected;
      }
    }

    /** A call out of the running pump. A piece it verifies re-enters the pump, which
        only takes note; an abort settles the job. */
    method CallOut() returns (threw: bool)
      requires Valid() && pumping
      modifies this`bits, this`again, this`finished, this`aborted, this`broke, this`outcome
      ensures broke == (old(broke) || threw)
      ensures Valid()
        && After(targets, old(bits), bits, old(again), again, old(finished), finished, old(outcome), outcome)
    {
      var steps: int := *;
      for k := 0 to if steps < 0 then 0 else steps
        invariant broke == old(broke)
        invariant Valid()
          && After(targets, old(bits), bits, old(again), again, old(finished), finished, old(outcome), outcome)
      {
        Outside(old(bits), old(again), old(finished), old(outcome));
      }
      threw := *;
      broke := broke || threw;
    }

    // One thing that happens meanwhile; the call out began with `bits0` and the rest.
    method Outside(ghost bits0: set<nat>, ghost again0: bool, ghost finished0: bool, ghost outcome0: Outcome)
      requires Valid() && pumping && After(targets, bits0, bits, again0, again, finished0, finished, outcome0, outcome)
      modifies this`bits, this`again, this`finished, this`aborted, this`outcome
      ensures Valid() && After(targets, bits0, bits, again0, again, finished0, finished, outcome0, outcome)
    {
      var abort: bool := *;
      if abort {
        aborted := true;
        Fail();
      } else {
        var piece: nat := *;
        Fewer(targets, bits, piece);
        Verify(piece);
      }
    }

    // A piece becomes verified while the pump runs.
    method Verify(piece: nat)
      requires Valid() && pumping
      modifies this`bits, this`again
      ensures Valid() && bits == old(bits) + {piece}
      ensures again == (old(again) || (!finished && piece in targets && piece !in old(bits)))
      ensures Missing(targets, bits) == Missing(targets, old(bits)) - {piece}
    {
      var event := piece in targets && piece !in bits;
      bits := bits + {piece};
      if event && !finished {
        again := true;
      }
    }

    // A call out in the middle of the body that began with `bits0` and the rest.
    method CallFrom(
      ghost bits0: set<nat>, ghost again0: bool, ghost finished0: bool, ghost outcome0: Outcome, ghost keys: set<nat>)
      returns (threw: bool)
      requires Valid() && pumping && After(targets, bits0, bits, again0, again, finished0, finished, outcome0, outcome)
      requires again || finished || Released(bits, owned, keys)
      modifies this`bits, this`again, this`finished, this`aborted, this`broke, this`outcome
      ensures broke == (old(broke) || threw)
      ensures Valid() && After(targets, bits0, bits, again0, again, finished0, finished, outcome0, outcome)
      ensures again || finished || Released(bits, owned, keys)
      ensures old(bits) <= bits
      ensures again || finished || Missing(targets, bits) == Missing(targets, old(bits))
    {
      threw := CallOut();
      AfterTrans(targets, bits0, old(bits), bits, again0, old(again), again, finished0, old(finished), finished,
        outcome0, old(outcome), outcome);
      ReleasedAfter(
        targets, old(bits), bits, old(again), again, old(finished), finished, old(outcome), outcome, owned, keys);
    }

    // Releasing the owned pieces that are verified.
    method Release() returns (threw: bool)
      requires Valid() && pumping
      modifies this`bits, this`again, this`finished, this`aborted, this`broke, this`outcome, this`owned
      ensures broke == (old(broke) || threw)
      ensures Valid() && owned <= old(owned)
      ensures After(targets, old(bits), bits, old(again), again, old(finished), finished, old(outcome), outcome)
      ensures threw || again || finished || Released(bits, owned, {})
    {
      threw := false;
      var keys := owned;
      while keys != {}
        invariant Valid() && owned <= old(owned) && !threw && broke == old(broke)
        invariant After(targets, old(bits), bits, old(again), again, old(finished), finished, old(outcome), outcome)
        invariant again || finished || Released(bits, owned, keys)
        decreases |keys|
      {
        var p :| p in keys;
        keys := keys - {p};
        if p in bits {
          Smaller(owned - {p}, owned);
          owned := owned - {p};
          threw := CallFrom(old(bits), old(again), old(finished), old(outcome), keys);
          if threw {
            return;
          }
        }
      }
    }

    // The next target is passed over or becomes owned.
    method Visit() returns (selects: bool)
      requires Valid() && |owned| < window && next < |targets|
      modifies this`owned, this`next, this`selected
      ensures Valid() && next == old(next) + 1 && selects == (targets[old(next)] !in bits)
      ensures owned == (if selects then old(owned) + {targets[old(next)]} else old(owned))
      ensures selected == (if selects then old(selected) + [targets[old(next)]] else old(selected))
    {
      SelectOk(targets, window, bits, owned, next, selected);
      var index := targets[next];
      next := next + 1;
      selects := index !in bits;
      if selects {
        owned := owned + {index};
        selected := selected + [index];
      }
    }

    // Selecting further targets while the window has room.
    method Fill() returns (threw: bool)
      requires Valid() && pumping && (again || finished || Released(bits, owned, {}))
      modifies this`bits, this`again, this`finished, this`aborted, this`broke, this`outcome, this`owned, this`next,
        this`selected
      ensures broke == (old(broke) || threw)
      ensures Valid() && old(selected) <= selected
      ensures After(targets, old(bits), bits, old(again), again, old(finished), finished, old(outcome), outcome)
      ensures threw || again || finished || Released(bits, owned, {})
      ensures threw || |owned| == window || next == |targets|
    {
      threw := false;
      while |owned| < window && next < |targets|
        invariant Valid() && old(selected) <= selected && !threw && broke == old(broke)
        invariant After(targets, old(bits), bits, old(again), again, old(finished), finished, old(outcome), outcome)
        invariant again || finished || Released(bits, owned, {})
        decreases |targets| - next
      {
        threw := Advance(old(bits), old(again), old(finished), old(outcome));
        if threw {
          return;
        }
      }
    }

    method Advance(
      ghost bits0: set<nat>, ghost again0: bool, ghost finished0: bool, ghost outcome0: Outcome) returns (threw: bool)
      requires Valid() && pumping && After(targets, bits0, bits, again0, again, finished0, finished, outcome0, outcome)
      requires (again || finished || Released(bits, owned, {})) && |owned| < window && next < |targets|
      modifies this`bits, this`again, this`finished, this`aborted, this`broke, this`outcome, this`owned, this`next,
        this`selected
      ensures broke == (old(broke) || threw)
      ensures Valid() && After(targets, bits0, bits, again0, again, finished0, finished, outcome0, outcome)
      ensures (again || finished || Released(bits, owned, {})) && next == old(next) + 1 && old(selected) <= selected
    {
      threw := false;
      var selects := Visit();
      if selects {
        threw := CallFrom(bits0, again0, finished0, outcome0, {});
      }
    }

    /** The progress as it was when the report was made. */
    method Report() returns (value: int, threw: bool)
      requires Valid() && pumping && (again || finished || Released(bits, owned, {}))
      modifies this`bits, this`again, this`finished, this`aborted, this`broke, this`outcome, this`lastCompleted
      ensures broke == (old(broke) || threw)
      ensures Valid() && old(bits) <= bits && value == lastCompleted == Completed(size, targets, old(bits))
      ensures After(targets, old(bits), bits, old(again), again, old(finished), finished, old(outcome), outcome)
      ensures again || finished || (Released(bits, owned, {}) && Missing(targets, bits) == Missing(targets, old(bits)))
    {
      value, threw := Completed(size, targets, bits), false;
      if value != lastCompleted {
        lastCompleted := value;
        threw := CallFrom(old(bits), old(again), old(finished), old(outcome), {});
      }
    }

    /** Settling with the last report: everything is verified, so it says nothing new
        and does not call out. */
    method Succeed()
      requires Valid() && Missing(targets, bits) == {} && lastCompleted == ListTotal(size, targets)
      modifies this`finished, this`outcome
      ensures Valid() && finished && (!old(finished) ==> outcome == Resolved(ListTotal(size, targets)))
      ensures old(finished) ==> outcome == old(outcome)
    {
      if !finished {
        NoneMissing(size, targets, bits);
        var value := Completed(size, targets, bits);
        assert value == lastCompleted;
        finished, outcome := true, Resolved(value);
      }
    }

    // The body of the pump, once.
    method Body() returns (threw: bool)
      requires Valid() && pumping && !finished
      modifies this`bits, this`again, this`finished, this`aborted, this`broke, this`outcome, this`owned, this`next,
        this`selected, this`lastCompleted
      ensures broke == (old(broke) || threw)
      ensures Valid() && old(bits) <= bits && old(selected) <= selected
      ensures threw || again || finished || Quiet(targets, window, bits, owned, next)
      ensures again ==> |Missing(targets, bits)| < |Missing(targets, old(bits))|
    {
      again := false;
      if aborted {
        Fail();
        return false;
      }
      threw := Refill();
      if !threw {
        ghost var b := bits;
        threw := Conclude();
        Smaller(Missing(targets, bits), Missing(targets, b));
        Smaller(Missing(targets, b), Missing(targets, old(bits)));
      }
    }

    // Releasing and selecting.
    method Refill() returns (threw: bool)
      requires Valid() && pumping
      modifies this`bits, this`again, this`finished, this`aborted, this`broke, this`outcome, this`owned, this`next,
        this`selected
      ensures broke == (old(broke) || threw) && old(selected) <= selected
      ensures Valid()
        && After(targets, old(bits), bits, old(again), again, old(finished), finished, old(outcome), outcome)
      ensures threw || again || finished || Released(bits, owned, {})
      ensures threw || |owned| == window || next == |targets|
    {
      threw := Release();
      if !threw {
        ghost var b, a, f, o := bits, again, finished, outcome;
        threw := Fill();
        AfterTrans(targets, old(bits), b, bits, old(again), a, again, old(finished), f, finished, old(outcome), o,
          outcome);
      }
    }

    // Reporting, and settling when everything is verified.
    method Conclude() returns (threw: bool)
      requires Valid() && pumping && (again || finished || Released(bits, owned, {}))
        && (|owned| == window || next == |targets|)
      modifies this`bits, this`again, this`finished, this`aborted, this`broke, this`outcome, this`lastCompleted
      ensures broke == (old(broke) || threw) && old(bits) <= bits
        && Missing(targets, bits) <= Missing(targets, old(bits))
      ensures Valid() && (old(finished) ==> finished)
      ensures again && !old(again) ==> |Missing(targets, bits)| < |Missing(targets, old(bits))|
      ensures threw || again || finished || Quiet(targets, window, bits, owned, next)
    {
      var value;
      value, threw := Report();
      NoneMissing(size, targets, old(bits));
      if !threw && value == ListTotal(size, targets) {
        Succeed();
      }
    }

    /** After the pump has run, the job is settled, or the window is as full as it can
        be with unverified pieces and something is missing. Unless the job was aborted
        or something called out to has thrown, it has succeeded exactly when nothing is
        missing. A re-entrant call only asks for another round. */
    method Pump()
      requires Valid()
      modifies this`bits, this`again, this`finished, this`aborted, this`broke, this`outcome, this`owned, this`next,
        this`selected, this`lastCompleted, this`pumping
      ensures Valid() && pumping == old(pumping) && old(bits) <= bits && old(selected) <= selected
      ensures !old(pumping) ==> finished || Quiet(targets, window, bits, owned, next)
      ensures !old(pumping) && !aborted && !broke ==> (outcome.Resolved? <==> Missing(targets, bits) == {})
      ensures old(pumping) ==> bits == old(bits) && owned == old(owned) && again == (old(again) || !finished)
      ensures old(finished) ==> finished && outcome == old(outcome)
    {
      if finished {
        return;
      }
      if pumping {
        again := true;
        return;
      }
      pumping := true;
      var going := true;
      while going
        invariant Valid() && pumping && old(bits) <= bits && old(selected) <= selected
        invariant going ==> !finished
        invariant !going ==> finished || Quiet(targets, window, bits, owned, next)
        decreases going, |Missing(targets, bits)|
      {
        var threw := Body();
        if threw {
          Fail();
        }
        going := again && !finished;
      }
      pumping := false;
    }

    // WebTorrent verifies a piece while the pump is not running.
    method Verified(piece: nat)
      requires Valid() && !pumping && (finished || Quiet(targets, window, bits, owned, next))
      modifies this`bits, this`again, this`finished, this`aborted, this`broke, this`outcome, this`owned, this`next,
        this`selected, this`lastCompleted, this`pumping
      ensures Valid() && !pumping && (finished || Quiet(targets, window, bits, owned, next))
      ensures old(bits) + {piece} <= bits && old(selected) <= selected
        && (old(finished) ==> finished && outcome == old(outcome))
    {
      Fewer(targets, bits, piece);
      bits := bits + {piece};
      if piece in targets && !finished {
        Pump();
      }
    }

    method Cancel()
      requires Valid()
      modifies this`finished, this`aborted, this`outcome
      ensures Valid() && finished && aborted && outcome == if old(finished) then old(outcome) else Rejected
    {
      aborted := true;
      Fail();
    }

    /** From the first pump on and through any events: selections are only added, never
        one target twice, and the job is pending only while a target is missing. Without
        an abort or an exception it resolves exactly when all targets are verified. */
    method Run(events: seq<Event>)
      requires Valid() && !pumping && !finished
      modifies this`bits, this`again, this`finished, this`aborted, this`broke, this`outcome, this`owned, this`next,
        this`selected, this`lastCompleted, this`pumping
      ensures Valid() && old(bits) <= bits && |owned| <= window && Distinct(selected)
      ensures outcome.Pending? ==> Quiet(targets, window, bits, owned, next)
      ensures outcome.Resolved? ==> outcome.completed == ListTotal(size, targets) && Missing(targets, bits) == {}
      ensures outcome.Rejected? ==> aborted || broke
      ensures !aborted && !broke ==> (outcome.Resolved? <==> Missing(targets, bits) == {})
    {
      Pump();
      for i := 0 to |events|
        invariant Valid() && !pumping && old(bits) <= bits && (finished || Quiet(targets, window, bits, owned, next))
      {
        match events[i]
        case Verified(piece) => Verified(piece);
        case Abort => Cancel();
      }
    }

    // Once settled, everything still owned is given up.
    method Close()
      requires Valid() && finished
      modifies this`owned
      ensures owned == {}
    {
      var keys := owned;
      while keys != {}
        invariant owned == keys
        decreases |keys|
      {
        var p :| p in keys;
        keys := keys - {p};
        owned := owned - {p};
      }
    }
  }

  datatype Event = Verified(piece: nat) | Abort

  lemma NoneMissing(size: nat, targets: seq<nat>, bits: set<nat>)
    requires InFile(size, targets)
    ensures Missing(targets, bits) == {} <==> Completed(size, targets, bits) == ListTotal(size, targets)
  {
    CompletedIff(size, targets, bits);
    if Missing(targets, bits) == {} {
      forall i | 0 <= i < |targets|
        ensures targets[i] in bits
      {
        assert targets[i] !in Missing(targets, bits);
      }
    }
  }
}
