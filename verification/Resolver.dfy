/** The bounded name resolver (src/torrent/my98_torrent/resolver.py). Lookups run
    concurrently; a step is what runs between two awaits. */
module Resolver {
  import opened Publications

  datatype Identity = Identity(key: Key, salt: Salt)

  datatype Cached = Cached(expires: int, record: Option<Record>, conflict: bool)

  datatype Entry = Entry(id: Identity, cached: Cached)

  datatype Lookup = Lookup(id: Identity, floor: Option<Record>)

  datatype Limits = Limits(genuine: Signatures, capacity: nat, ttl: nat, negativeTtl: nat)

  // The cache is in order of use, least recent first.
  datatype State = State(cache: seq<Entry>, pending: map<Identity, nat>, running: map<nat, Lookup>, started: nat)

  datatype Answer =
    | Raise(error: Error)
    | Value(record: Option<Record>)
    | Wait(lookup: nat)

  // What the network brings back: a record or none, two records that contradict each
  // other, or a failure.
  datatype Outcome = Got(record: Option<Record>) | Conflicted | Broke

  predicate Belongs(l: Limits, id: Identity, r: Option<Record>) {
    r.Some? ==> Verified(l.genuine, r.value) && r.value.key == id.key && r.value.salt == id.salt
  }

  /** `newest`: the later of two records of one identity. */
  function Newest(
    l: Limits, id: Identity, previous: Option<Record>, record: Option<Record>): (r: Result<Option<Record>>)
    ensures r.Ok? ==>
      (r.value == previous || r.value == record) && FollowsAll(previous, r.value) && FollowsAll(record, r.value)
    ensures r.Ok? ==> Belongs(l, id, r.value)
    ensures r == Err(Conflict) <==>
      && Belongs(l, id, previous) && Belongs(l, id, record) && previous.Some? && record.Some?
      && previous.value.sequence == record.value.sequence && previous.value.value != record.value.value
  {
    if !Belongs(l, id, previous) || !Belongs(l, id, record) then Err(Invalid)
    else if previous.None? then Ok(record)
    else if record.None? then Ok(previous)
    else if previous.value.sequence == record.value.sequence && previous.value.value != record.value.value
    then Err(Conflict)
    else if record.value.sequence > previous.value.sequence then Ok(record)
    else Ok(previous)
  }

  // The ordered cache.

  function Find(cache: seq<Entry>, id: Identity): (r: Option<Cached>)
    ensures r.Some? ==> Entry(id, r.value) in cache
    ensures r.None? ==> forall e :: e in cache ==> e.id != id
  {
    if cache == [] then None
    else if cache[0].id == id then Some(cache[0].cached)
    else Find(cache[1..], id)
  }

  function Without(cache: seq<Entry>, id: Identity): (r: seq<Entry>)
    ensures |r| <= |cache| && forall e :: e in r <==> e in cache && e.id != id
  {
    if cache == [] then []
    else if cache[0].id == id then Without(cache[1..], id)
    else [cache[0]] + Without(cache[1..], id)
  }

  function Trim(cache: seq<Entry>, capacity: nat): (r: seq<Entry>)
    ensures |r| <= capacity && forall e :: e in r ==> e in cache
  {
    if |cache| > capacity then cache[|cache| - capacity..] else cache
  }

  function Remembered(cache: seq<Entry>, capacity: nat, id: Identity, entry: Cached): seq<Entry> {
    Trim(Without(cache, id) + [Entry(id, entry)], capacity)
  }

  ghost predicate Distinct(cache: seq<Entry>) {
    forall i, j :: 0 <= i < j < |cache| ==> cache[i].id != cache[j].id
  }

  lemma {:induction false} WithoutDistinct(cache: seq<Entry>, id: Identity)
    requires Distinct(cache)
    ensures Distinct(Without(cache, id))
  {
    if cache != [] {
      WithoutDistinct(cache[1..], id);
      var rest := Without(cache[1..], id);
      assert forall e :: e in rest ==> e in cache[1..];
    }
  }

  lemma {:induction false} FindMember(cache: seq<Entry>, e: Entry)
    requires Distinct(cache) && e in cache
    ensures Find(cache, e.id) == Some(e.cached)
  {
    if cache[0].id != e.id {
      FindMember(cache[1..], e);
    }
  }

  /** After `remember` the cache is within capacity, its identities are distinct, and
      an identity found in it is the new entry or one that was found before. */
  lemma RememberFinds(cache: seq<Entry>, capacity: nat, id: Identity, entry: Cached, other: Identity)
    requires Distinct(cache)
    ensures var r := Remembered(cache, capacity, id, entry);
      && Distinct(r) && |r| <= capacity
      && (Find(r, id).Some? ==> Find(r, id) == Some(entry)) && (capacity > 0 ==> Find(r, id).Some?)
      && (other != id && Find(r, other).Some? ==> Find(r, other) == Find(cache, other))
  {
    WithoutDistinct(cache, id);
    var rest := Without(cache, id);
    var all := rest + [Entry(id, entry)];
    var r := Remembered(cache, capacity, id, entry);
    TrimDistinct(all, capacity);
    if capacity > 0 {
      assert r[|r| - 1] == Entry(id, entry);
      FindMember(r, Entry(id, entry));
    } else {
      assert r == [];
    }
    if other != id && Find(r, other).Some? {
      assert Entry(other, Find(r, other).value) in all;
      FindMember(cache, Entry(other, Find(r, other).value));
    }
  }

  lemma TrimDistinct(cache: seq<Entry>, capacity: nat)
    requires Distinct(cache)
    ensures Distinct(Trim(cache, capacity))
  {
  }

  // The steps.

  function RecordOf(entry: Option<Cached>): Option<Record> { if entry.Some? then entry.value.record else None }

  function DoRemember(l: Limits, s: State, id: Identity, entry: Cached): State {
    s.(cache := Remembered(s.cache, l.capacity, id, entry))
  }

  /** `start_lookup`: join the lookup under way, refuse when there are too many, or
      start one. */
  function DoStart(l: Limits, s: State, id: Identity, floor: Option<Record>): (State, Result<nat>) {
    if id in s.pending then (s, Ok(s.pending[id]))
    else if |s.pending| >= l.capacity then (s, Err(Busy))
    else
      (s.(pending := s.pending[id := s.started], running := s.running[s.started := Lookup(id, floor)],
        started := s.started + 1),
       Ok(s.started))
  }

  // What `resolve` does once the entry it works from is in the cache.
  function DoAnswer(
      l: Limits, s: State, id: Identity, entry: Option<Cached>, known: bool, refresh: bool, now: int):
      (State, Answer) {
    if entry.Some? && entry.value.conflict && entry.value.expires > now then (s, Raise(Conflict))
    else if !refresh && entry.Some? && !entry.value.conflict && entry.value.expires > now
    then (s, Value(entry.value.record))
    else
      var (t, task) := DoStart(l, s, id, RecordOf(entry));
      if known && !refresh && entry.Some? && !entry.value.conflict then (t, Value(entry.value.record))
      else if task.Err? then (t, Raise(task.error))
      else (t, Wait(task.value))
  }

  function Refreshed(entry: Option<Cached>, record: Option<Record>): Cached {
    if entry.None? then Cached(0, record, false)
    else Cached(if record == entry.value.record then entry.value.expires else 0, record, entry.value.conflict)
  }

  // The entry `resolve` works from, once it has taken in what the caller knows.
  function Entered(l: Limits, id: Identity, entry: Option<Cached>, known: Option<Record>): Result<Option<Cached>> {
    if known.None? then Ok(entry)
    else
      match Newest(l, id, RecordOf(entry), known)
      case Err(e) => Err(e)
      case Ok(record) => Ok(Some(Refreshed(entry, record)))
  }

  // What `resolve` leaves in the cache: the entry, or the mark of a conflict.
  function Recorded(l: Limits, s: State, id: Identity, entered: Result<Option<Cached>>, now: int): State {
    match entered
    case Err(Conflict) => DoRemember(l, s, id, Cached(now + l.negativeTtl, RecordOf(Find(s.cache, id)), true))
    case Err(_) => s
    case Ok(entry) => if entry.Some? then DoRemember(l, s, id, entry.value) else s
  }

  /** The synchronous part of `resolve`. */
  function DoResolve(
      l: Limits, s: State, id: Identity, known: Option<Record>, refresh: bool, now: int): (State, Answer) {
    var entered := Entered(l, id, Find(s.cache, id), known);
    var t := Recorded(l, s, id, entered, now);
    if entered.Err? then (t, Raise(entered.error)) else DoAnswer(l, t, id, entered.value, known.Some?, refresh, now)
  }

  function Ended(s: State, lookup: nat): State
    requires lookup in s.running
  {
    s.(pending := s.pending - {s.running[lookup].id}, running := s.running - {lookup})
  }

  // The outcome of a lookup the network has answered.
  function Judged(
      l: Limits, id: Identity, floor: Option<Record>, latest: Option<Record>,
      outcome: Outcome): Result<Option<Record>>
    requires !outcome.Broke?
  {
    if outcome.Conflicted? then Err(Conflict) else Best(l, id, floor, latest, outcome.record)
  }

  // The best of the floor, the cache and the network.
  function Best(
      l: Limits, id: Identity, floor: Option<Record>, latest: Option<Record>,
      record: Option<Record>): Result<Option<Record>> {
    match Newest(l, id, floor, latest)
    case Err(e) => Err(e)
    case Ok(best) => Newest(l, id, best, record)
  }

  function Learned(
      l: Limits, best: Result<Option<Record>>, floor: Option<Record>, latest: Option<Cached>,
      now: int): Option<Cached> {
    match best
    case Ok(record) => Some(Cached(now + (if record.Some? then l.ttl else l.negativeTtl), record, false))
    case Err(Conflict) => Some(Cached(now + l.negativeTtl, if latest.Some? then latest.value.record else floor, true))
    case Err(_) => None
  }

  /** A lookup comes to its end. */
  function DoComplete(l: Limits, s: State, lookup: nat, outcome: Outcome, now: int): (State, Answer)
    requires lookup in s.running
  {
    var id := s.running[lookup].id;
    var floor := s.running[lookup].floor;
    var latest := Find(s.cache, id);
    var t := Ended(s, lookup);
    if outcome.Broke? then (t, Raise(Failed))
    else
      var best := Judged(l, id, floor, RecordOf(latest), outcome);
      var learned := Learned(l, best, floor, latest, now);
      (if learned.Some? then DoRemember(l, t, id, learned.value) else t,
       if best.Ok? then Value(best.value) else Raise(best.error))
  }

  function NotOf(cache: seq<Entry>, key: Key): (r: seq<Entry>)
    ensures |r| <= |cache| && forall e :: e in r <==> e in cache && e.id.key != key
  {
    if cache == [] then []
    else if cache[0].id.key == key then NotOf(cache[1..], key)
    else [cache[0]] + NotOf(cache[1..], key)
  }

  lemma {:induction false} NotOfDistinct(cache: seq<Entry>, key: Key)
    requires Distinct(cache)
    ensures Distinct(NotOf(cache, key))
  {
    if cache != [] {
      NotOfDistinct(cache[1..], key);
      var rest := NotOf(cache[1..], key);
      assert forall e :: e in rest ==> e in cache[1..];
    }
  }

  datatype Step =
    | Resolve(id: Identity, known: Option<Record>, refresh: bool, now: int)
    | Complete(lookup: nat, outcome: Outcome, now: int)
    | Invalidate(key: Key)

  predicate Can(s: State, step: Step) { step.Complete? ==> step.lookup in s.running }

  function Do(l: Limits, s: State, step: Step): (State, Answer)
    requires Can(s, step)
  {
    match step
    case Resolve(id, known, refresh, now) => DoResolve(l, s, id, known, refresh, now)
    case Complete(lookup, outcome, now) => DoComplete(l, s, lookup, outcome, now)
    case Invalidate(key) => (s.(cache := NotOf(s.cache, key)), Value(None))
  }

  // What holds at all times.

  ghost predicate CacheOk(l: Limits, cache: seq<Entry>) {
    Distinct(cache) && |cache| <= l.capacity && forall e :: e in cache ==> Belongs(l, e.id, e.cached.record)
  }

  /** Every running lookup is the pending one of its identity, so no identity has
      two, and there are never more than the capacity. */
  ghost predicate LookupsOk(l: Limits, s: State) {
    && |s.pending| <= l.capacity
    && (forall id :: id in s.pending ==> s.pending[id] in s.running && s.running[s.pending[id]].id == id)
    && (forall n :: n in s.running ==>
      && n < s.started && s.running[n].id in s.pending && s.pending[s.running[n].id] == n
      && Belongs(l, s.running[n].id, s.running[n].floor))
  }

  ghost predicate Inv(l: Limits, s: State) { CacheOk(l, s.cache) && LookupsOk(l, s) }

  lemma CacheRemember(l: Limits, cache: seq<Entry>, id: Identity, entry: Cached)
    requires CacheOk(l, cache) && Belongs(l, id, entry.record)
    ensures CacheOk(l, Remembered(cache, l.capacity, id, entry))
  {
    RememberFinds(cache, l.capacity, id, entry, id);
  }

  lemma InvStart(l: Limits, s: State, id: Identity, floor: Option<Record>)
    requires Inv(l, s) && Belongs(l, id, floor)
    ensures Inv(l, DoStart(l, s, id, floor).0)
  {
    assert id !in s.pending ==> |s.pending[id := s.started]| == |s.pending| + 1;
  }

  lemma InvAnswer(l: Limits, s: State, id: Identity, entry: Option<Cached>, known: bool, refresh: bool, now: int)
    requires Inv(l, s) && Belongs(l, id, RecordOf(entry))
    ensures Inv(l, DoAnswer(l, s, id, entry, known, refresh, now).0)
  {
    InvStart(l, s, id, RecordOf(entry));
  }

  lemma InvResolve(l: Limits, s: State, id: Identity, known: Option<Record>, refresh: bool, now: int)
    requires Inv(l, s)
    ensures Inv(l, DoResolve(l, s, id, known, refresh, now).0)
  {
    var entered := Entered(l, id, Find(s.cache, id), known);
    EnteredForward(l, id, Find(s.cache, id), known);
    InvRecorded(l, s, id, entered, now);
    if entered.Ok? {
      InvAnswer(l, Recorded(l, s, id, entered, now), id, entered.value, known.Some?, refresh, now);
    }
  }

  lemma InvRecorded(l: Limits, s: State, id: Identity, entered: Result<Option<Cached>>, now: int)
    requires Inv(l, s) && (entered.Ok? ==> Belongs(l, id, RecordOf(entered.value)))
    ensures Inv(l, Recorded(l, s, id, entered, now))
  {
    if entered == Err(Conflict) {
      CacheRemember(l, s.cache, id, Cached(now + l.negativeTtl, RecordOf(Find(s.cache, id)), true));
    } else if entered.Ok? && entered.value.Some? {
      CacheRemember(l, s.cache, id, entered.value.value);
    }
  }

  // Taking in what the caller knows goes forward.
  lemma EnteredForward(l: Limits, id: Identity, entry: Option<Cached>, known: Option<Record>)
    requires Belongs(l, id, RecordOf(entry))
    ensures var r := Entered(l, id, entry, known);
      r.Ok? ==>
        && Belongs(l, id, RecordOf(r.value)) && FollowsAll(RecordOf(entry), RecordOf(r.value))
        && FollowsAll(known, RecordOf(r.value))
        && (entry.Some? || known.Some? ==> r.value.Some?)
  {
  }

  lemma InvEnded(l: Limits, s: State, lookup: nat)
    requires Inv(l, s) && lookup in s.running
    ensures Inv(l, Ended(s, lookup))
  {
    var id := s.running[lookup].id;
    assert s.pending == (s.pending - {id})[id := lookup];
  }

  lemma LearnedForward(
    l: Limits, id: Identity, floor: Option<Record>, latest: Option<Cached>, outcome: Outcome, now: int)
    requires Belongs(l, id, floor) && Belongs(l, id, RecordOf(latest)) && !outcome.Broke?
    ensures
      var best := Judged(l, id, floor, RecordOf(latest), outcome);
      var learned := Learned(l, best, floor, latest, now);
      learned.Some? ==> Belongs(l, id, learned.value.record) && FollowsAll(RecordOf(latest), learned.value.record)
  {
  }

  lemma InvComplete(l: Limits, s: State, lookup: nat, outcome: Outcome, now: int)
    requires Inv(l, s) && lookup in s.running
    ensures Inv(l, DoComplete(l, s, lookup, outcome, now).0)
  {
    InvEnded(l, s, lookup);
    var id := s.running[lookup].id;
    var floor := s.running[lookup].floor;
    var latest := Find(s.cache, id);
    if !outcome.Broke? {
      LearnedForward(l, id, floor, latest, outcome, now);
      var learned := Learned(l, Judged(l, id, floor, RecordOf(latest), outcome), floor, latest, now);
      if learned.Some? {
        CacheRemember(l, s.cache, id, learned.value);
      }
    }
  }

  lemma InvStep(l: Limits, s: State, step: Step)
    requires Inv(l, s) && Can(s, step)
    ensures Inv(l, Do(l, s, step).0)
  {
    match step
    case Resolve(id, known, refresh, now) => InvResolve(l, s, id, known, refresh, now);
    case Complete(lookup, outcome, now) => InvComplete(l, s, lookup, outcome, now);
    case Invalidate(key) => NotOfDistinct(s.cache, key);
  }

  // The cached record of an identity only moves forward.

  ghost predicate Forward(before: seq<Entry>, after: seq<Entry>, id: Identity) {
    Find(before, id).Some? && Find(after, id).Some? ==>
      FollowsAll(Find(before, id).value.record, Find(after, id).value.record)
  }

  lemma ForwardRemember(l: Limits, cache: seq<Entry>, id: Identity, entry: Cached, other: Identity)
    requires Distinct(cache) && FollowsAll(RecordOf(Find(cache, id)), entry.record)
    ensures Forward(cache, Remembered(cache, l.capacity, id, entry), other)
  {
    RememberFinds(cache, l.capacity, id, entry, other);
  }

  lemma AnswerCache(l: Limits, s: State, id: Identity, entry: Option<Cached>, known: bool, refresh: bool, now: int)
    ensures DoAnswer(l, s, id, entry, known, refresh, now).0.cache == s.cache
  {
  }

  lemma ForwardResolve(
    l: Limits, s: State, id: Identity, known: Option<Record>, refresh: bool, now: int, other: Identity)
    requires Inv(l, s)
    ensures Forward(s.cache, DoResolve(l, s, id, known, refresh, now).0.cache, other)
  {
    var entry := Find(s.cache, id);
    var entered := Entered(l, id, entry, known);
    EnteredForward(l, id, entry, known);
    if entered == Err(Conflict) {
      ForwardRemember(l, s.cache, id, Cached(now + l.negativeTtl, RecordOf(entry), true), other);
    } else if entered.Ok? {
      if entered.value.Some? {
        ForwardRemember(l, s.cache, id, entered.value.value, other);
      }
      AnswerCache(l, Recorded(l, s, id, entered, now), id, entered.value, known.Some?, refresh, now);
    }
  }

  lemma ForwardComplete(l: Limits, s: State, lookup: nat, outcome: Outcome, now: int, other: Identity)
    requires Inv(l, s) && lookup in s.running
    ensures Forward(s.cache, DoComplete(l, s, lookup, outcome, now).0.cache, other)
  {
    var id := s.running[lookup].id;
    var floor := s.running[lookup].floor;
    var latest := Find(s.cache, id);
    if !outcome.Broke? {
      LearnedForward(l, id, floor, latest, outcome, now);
      var learned := Learned(l, Judged(l, id, floor, RecordOf(latest), outcome), floor, latest, now);
      if learned.Some? {
        ForwardRemember(l, s.cache, id, learned.value, other);
      }
    }
  }

  lemma {:induction false} NotOfFinds(cache: seq<Entry>, key: Key, id: Identity)
    ensures Find(NotOf(cache, key), id) == if id.key == key then None else Find(cache, id)
  {
    if cache != [] {
      NotOfFinds(cache[1..], key, id);
    }
  }

  /** No step, whatever it resolves, completes or forgets, takes a cached record back
      in sequence or changes its value at one sequence. */
  lemma ForwardStep(l: Limits, s: State, step: Step, id: Identity)
    requires Inv(l, s) && Can(s, step)
    ensures Forward(s.cache, Do(l, s, step).0.cache, id)
  {
    match step
    case Resolve(i, known, refresh, now) => ForwardResolve(l, s, i, known, refresh, now, id);
    case Complete(lookup, outcome, now) => ForwardComplete(l, s, lookup, outcome, now, id);
    case Invalidate(key) => NotOfFinds(s.cache, key, id);
  }

  ghost predicate StepAt(l: Limits, states: seq<State>, steps: seq<Step>, i: nat)
    requires |states| == |steps| + 1 && i < |steps|
  {
    Can(states[i], steps[i]) && states[i + 1] == Do(l, states[i], steps[i]).0
  }

  ghost predicate IsRun(l: Limits, states: seq<State>, steps: seq<Step>) {
    && |states| == |steps| + 1
    && forall i: nat {:trigger StepAt(l, states, steps, i)} :: i < |steps| ==> StepAt(l, states, steps, i)
  }

  const START := State([], map[], map[], 0)

  lemma {:induction false} RunInv(l: Limits, states: seq<State>, steps: seq<Step>, i: nat)
    requires IsRun(l, states, steps) && states[0] == START && i < |states|
    ensures Inv(l, states[i])
  {
    if i > 0 {
      RunInv(l, states, steps, i - 1);
      assert StepAt(l, states, steps, i - 1);
      InvStep(l, states[i - 1], steps[i - 1]);
    }
  }

  lemma OneForward(l: Limits, states: seq<State>, steps: seq<Step>, id: Identity, i: nat)
    requires IsRun(l, states, steps) && states[0] == START && i < |steps|
    ensures Forward(states[i].cache, states[i + 1].cache, id)
  {
    RunInv(l, states, steps, i);
    assert StepAt(l, states, steps, i);
    ForwardStep(l, states[i], steps[i], id);
  }

  /** Between evictions and invalidations, over any run and however its lookups
      overlap, the record cached for an identity never goes back. */
  lemma {:induction false} NeverBack(l: Limits, states: seq<State>, steps: seq<Step>, id: Identity, i: nat, j: nat)
    requires IsRun(l, states, steps) && states[0] == START && i <= j < |states|
    requires forall k :: i <= k <= j ==> Find(states[k].cache, id).Some?
    ensures FollowsAll(Find(states[i].cache, id).value.record, Find(states[j].cache, id).value.record)
    decreases j - i
  {
    if i < j {
      NeverBack(l, states, steps, id, i, j - 1);
      OneForward(l, states, steps, id, j - 1);
      var a, b, c := Find(states[i].cache, id), Find(states[j - 1].cache, id), Find(states[j].cache, id);
      Transitive(a.value.record, b.value.record, c.value.record);
    }
  }

  /** What is answered at once, and what the caller of a finished lookup gets, is never
      older than the cache of that moment; what is answered at once is not older than
      what its caller knew either. For callers that wait, see `WaiterForward`. */
  lemma AnswersForward(l: Limits, s: State, step: Step)
    requires Inv(l, s) && Can(s, step)
    ensures var (t, a) := Do(l, s, step);
      match step
      case Resolve(id, known, _, _) => a.Value? ==>
        FollowsAll(known, a.record) && FollowsAll(RecordOf(Find(s.cache, id)), a.record)
      case Complete(n, _, _) =>
        a.Value? ==>
          FollowsAll(s.running[n].floor, a.record) && FollowsAll(RecordOf(Find(s.cache, s.running[n].id)), a.record)
      case Invalidate(_) => true
  {
  }

  // Callers that wait for a lookup.

  /** The outcome of a lookup is at least what somebody knew if and only if the floor
      the lookup began with, the record cached at its end or what the network brought
      is. Nothing else is consulted. */
  lemma OutcomeIff(l: Limits, s: State, lookup: nat, outcome: Outcome, now: int, known: Option<Record>)
    requires Inv(l, s) && lookup in s.running && outcome.Got? && DoComplete(l, s, lookup, outcome, now).1.Value?
    ensures FollowsAll(known, DoComplete(l, s, lookup, outcome, now).1.record) <==>
      || FollowsAll(known, s.running[lookup].floor)
      || FollowsAll(known, RecordOf(Find(s.cache, s.running[lookup].id)))
      || FollowsAll(known, outcome.record)
  {
    BestIff(l, s.running[lookup].id, s.running[lookup].floor, RecordOf(Find(s.cache, s.running[lookup].id)),
      outcome.record, known);
  }

  lemma BestIff(
    l: Limits, id: Identity, floor: Option<Record>, latest: Option<Record>, record: Option<Record>,
    known: Option<Record>)
    requires Best(l, id, floor, latest, record).Ok?
    ensures FollowsAll(known, Best(l, id, floor, latest, record).value) <==>
      FollowsAll(known, floor) || FollowsAll(known, latest) || FollowsAll(known, record)
  {
    var first := Newest(l, id, floor, latest).value;
    var best := Newest(l, id, first, record).value;
    Transitive(known, floor, first);
    Transitive(known, latest, first);
    Transitive(known, first, best);
    Transitive(known, record, best);
  }

  lemma Transitive(a: Option<Record>, b: Option<Record>, c: Option<Record>)
    ensures FollowsAll(a, b) && FollowsAll(b, c) ==> FollowsAll(a, c)
  {
  }

  // A lookup keeps its number and its floor as long as it runs.

  lemma AnswerLookups(l: Limits, s: State, id: Identity, entry: Option<Cached>, known: bool, refresh: bool, now: int)
    ensures var t := DoAnswer(l, s, id, entry, known, refresh, now).0;
      s.started <= t.started && forall n :: n in t.running && n < s.started ==>
        n in s.running && t.running[n] == s.running[n]
  {
  }

  lemma StepLookups(l: Limits, s: State, step: Step)
    requires Can(s, step)
    ensures var t := Do(l, s, step).0;
      s.started <= t.started && forall n :: n in t.running && n < s.started ==>
        n in s.running && t.running[n] == s.running[n]
  {
    if step.Resolve? {
      var entered := Entered(l, step.id, Find(s.cache, step.id), step.known);
      if entered.Ok? {
        AnswerLookups(
          l, Recorded(l, s, step.id, entered, step.now), step.id, entered.value, step.known.Some?, step.refresh,
          step.now);
      }
    }
  }

  lemma {:induction false} LookupStays(l: Limits, states: seq<State>, steps: seq<Step>, n: nat, i: nat, j: nat)
    requires IsRun(l, states, steps) && i <= j < |states| && n < states[i].started && n in states[j].running
    ensures n in states[i].running && states[i].running[n] == states[j].running[n]
    decreases j - i
  {
    if i < j {
      assert StepAt(l, states, steps, i);
      StepLookups(l, states[i], steps[i]);
      LookupStays(l, states, steps, n, i + 1, j);
    }
  }

  // What a caller that is told to wait leaves behind.
  lemma WaitsFor(l: Limits, s: State, step: Step, n: nat)
    requires Inv(l, s) && step.Resolve? && Do(l, s, step).1 == Wait(n)
    ensures var t := Do(l, s, step).0; var cached := RecordOf(Find(t.cache, step.id));
      && n in t.running && t.running[n].id == step.id && n < t.started
      && (n == s.started ==> t.running[n].floor == cached)
      && FollowsAll(step.known, cached) && FollowsAll(RecordOf(Find(s.cache, step.id)), cached)
  {
    var id := step.id;
    var entered := Entered(l, id, Find(s.cache, id), step.known);
    var u := Recorded(l, s, id, entered, step.now);
    EnteredForward(l, id, Find(s.cache, id), step.known);
    WaitLookup(l, u, id, entered.value, step.known.Some?, step.refresh, step.now, n);
    if entered.value.Some? {
      WaitCached(l, s, id, entered.value.value);
    }
  }

  lemma WaitLookup(
    l: Limits, s: State, id: Identity, entry: Option<Cached>, known: bool, refresh: bool, now: int, n: nat)
    requires LookupsOk(l, s) && DoAnswer(l, s, id, entry, known, refresh, now).1 == Wait(n)
    ensures var t := DoAnswer(l, s, id, entry, known, refresh, now).0;
      && t.cache == s.cache && n in t.running && t.running[n].id == id && n < t.started && l.capacity > 0
      && (n == s.started ==> t.running[n].floor == RecordOf(entry))
  {
    if id in s.pending {
      assert s.pending[id] in s.running;
      assert |s.pending| > 0;
    }
  }

  lemma WaitCached(l: Limits, s: State, id: Identity, entry: Cached)
    requires Distinct(s.cache) && l.capacity > 0
    ensures Find(DoRemember(l, s, id, entry).cache, id) == Some(entry)
  {
    RememberFinds(s.cache, l.capacity, id, entry, id);
  }

  /** A caller that waits gets an answer that is not older than what it knew, nor than
      what was cached when it asked, if its identity stays cached until the lookup
      ends, or if the lookup it joined began from a record that new. */
  lemma WaiterForward(l: Limits, states: seq<State>, steps: seq<Step>, i: nat, j: nat, n: nat)
    requires IsRun(l, states, steps) && states[0] == START && i < j < |steps|
    requires steps[i].Resolve? && Do(l, states[i], steps[i]).1 == Wait(n)
    requires steps[j].Complete? && steps[j].lookup == n && n in states[j].running
    requires Do(l, states[j], steps[j]).1.Value?
    requires var id := steps[i].id; var cached := RecordOf(Find(states[i + 1].cache, id));
      || (forall k :: i < k <= j ==> Find(states[k].cache, id).Some?)
      || (n in states[i + 1].running && FollowsAll(cached, states[i + 1].running[n].floor))
    ensures var answer := Do(l, states[j], steps[j]).1.record;
      FollowsAll(steps[i].known, answer) && FollowsAll(RecordOf(Find(states[i].cache, steps[i].id)), answer)
  {
    var id := steps[i].id;
    var cached := RecordOf(Find(states[i + 1].cache, id));
    var answer := Do(l, states[j], steps[j]).1.record;
    RunInv(l, states, steps, i);
    RunInv(l, states, steps, j);
    assert StepAt(l, states, steps, i);
    WaitsFor(l, states[i], steps[i], n);
    LookupStays(l, states, steps, n, i + 1, j);
    AnswersForward(l, states[j], steps[j]);
    if forall k :: i < k <= j ==> Find(states[k].cache, id).Some? {
      NeverBack(l, states, steps, id, i + 1, j);
      Transitive(cached, RecordOf(Find(states[j].cache, id)), answer);
    } else {
      Transitive(cached, states[j].running[n].floor, answer);
    }
    Transitive(steps[i].known, cached, answer);
    Transitive(RecordOf(Find(states[i].cache, id)), cached, answer);
  }

  /** In particular it does whenever its own call started the lookup. */
  lemma OwnLookup(l: Limits, states: seq<State>, steps: seq<Step>, i: nat, j: nat, n: nat)
    requires IsRun(l, states, steps) && states[0] == START && i < j < |steps|
    requires steps[i].Resolve? && Do(l, states[i], steps[i]).1 == Wait(n) && n == states[i].started
    requires steps[j].Complete? && steps[j].lookup == n && n in states[j].running
    requires Do(l, states[j], steps[j]).1.Value?
    ensures var answer := Do(l, states[j], steps[j]).1.record;
      FollowsAll(steps[i].known, answer) && FollowsAll(RecordOf(Find(states[i].cache, steps[i].id)), answer)
  {
    RunInv(l, states, steps, i);
    assert StepAt(l, states, steps, i);
    WaitsFor(l, states[i], steps[i], n);
    WaiterForward(l, states, steps, i, j, n);
  }

  /** Otherwise it may be older: a caller that knows sequence 10 joins a lookup begun
      before, its entry is forgotten, and the network brings sequence 8. */
  lemma WaiterMayGoBack(l: Limits)
    requires l.capacity >= 1 && forall r :: l.genuine(r)
    ensures var id := Identity(1, ForNames);
      var ten, eight := Record(1, ForNames, 10, 1, 0), Record(1, ForNames, 8, 2, 0);
      var s1 := Do(l, START, Resolve(id, None, false, 0));
      var s2 := Do(l, s1.0, Resolve(id, Some(ten), true, 1));
      var s3 := Do(l, s2.0, Invalidate(1));
      && s1.1 == Wait(0) && s2.1 == Wait(0) && 0 in s3.0.running
      && Do(l, s3.0, Complete(0, Got(Some(eight)), 2)).1 == Value(Some(eight))
  {
    var id := Identity(1, ForNames);
    var ten := Record(1, ForNames, 10, 1, 0);
    var s1 := Do(l, START, Resolve(id, None, false, 0)).0;
    assert s1 == State([], map[id := 0], map[0 := Lookup(id, None)], 1);
    var s2 := Do(l, s1, Resolve(id, Some(ten), true, 1)).0;
    var e := Entry(id, Cached(0, Some(ten), false));
    assert Remembered([], l.capacity, id, e.cached) == [e];
    assert s2 == s1.(cache := [e]);
    assert NotOf([e], 1) == [];
    assert Find([], id) == None;
  }

  /** A lookup that meets a conflict marks the entry but keeps its record. */
  lemma ConflictKeeps(l: Limits, s: State, lookup: nat, outcome: Outcome, now: int, t: State, id: Identity)
    requires Inv(l, s) && lookup in s.running && DoComplete(l, s, lookup, outcome, now) == (t, Raise(Conflict))
    ensures Find(s.cache, id).Some? && Find(t.cache, id).Some? ==>
      Find(t.cache, id).value.record == Find(s.cache, id).value.record
    ensures id == s.running[lookup].id && Find(t.cache, id).Some? ==> Find(t.cache, id).value.conflict
  {
    var i := s.running[lookup].id;
    var floor := s.running[lookup].floor;
    var latest := Find(s.cache, i);
    var learned := Learned(l, Err(Conflict), floor, latest, now);
    assert t.cache == Remembered(s.cache, l.capacity, i, learned.value);
    RememberFinds(s.cache, l.capacity, i, learned.value, id);
  }

  /** The resolver itself. */
  class Resolver {
    const limits: Limits
    var cache: seq<Entry>
    var pending: map<Identity, nat>
    var running: map<nat, Lookup>
    var started: nat

    function Contents(): State
      reads this
    {
      State(cache, pending, running, started)
    }

    ghost predicate Valid()
      reads this
    {
      Inv(limits, Contents())
    }

    constructor (limits: Limits)
      ensures this.limits == limits && Contents() == START && Valid()
    {
      this.limits := limits;
      cache, pending, running, started := [], map[], map[], 0;
    }

    method Remember(id: Identity, entry: Cached)
      modifies this`cache
      ensures cache == Remembered(old(cache), limits.capacity, id, entry)
    {
      cache := Without(cache, id) + [Entry(id, entry)];
      ghost var all := cache;
      while |cache| > limits.capacity
        invariant |cache| <= |all| && cache == all[|all| - |cache|..]
        invariant |cache| >= limits.capacity || cache == all
      {
        cache := cache[1..];
      }
    }

    method StartLookup(id: Identity, floor: Option<Record>) returns (r: Result<nat>)
      modifies this`pending, this`running, this`started
      ensures (Contents(), r) == DoStart(limits, old(Contents()), id, floor)
    {
      if id in pending {
        return Ok(pending[id]);
      }
      if |pending| >= limits.capacity {
        return Err(Busy);
      }
      pending := pending[id := started];
      running := running[started := Lookup(id, floor)];
      r := Ok(started);
      started := started + 1;
    }

    method Resolve(id: Identity, known: Option<Record>, refresh: bool, now: int) returns (a: Answer)
      requires Valid()
      modifies this
      ensures Valid() && (Contents(), a) == DoResolve(limits, old(Contents()), id, known, refresh, now)
    {
      InvResolve(limits, Contents(), id, known, refresh, now);
      var entered := Entered(limits, id, Find(cache, id), known);
      Record(id, entered, now);
      if entered.Err? {
        return Raise(entered.error);
      }
      a := Answer(id, entered.value, known.Some?, refresh, now);
    }

    // The entry goes to the cache; so does the mark of a conflict.
    method Record(id: Identity, entered: Result<Option<Cached>>, now: int)
      modifies this`cache
      ensures Contents() == Recorded(limits, old(Contents()), id, entered, now)
    {
      if entered.Ok? {
        if entered.value.Some? {
          Remember(id, entered.value.value);
        }
      } else if entered.error.Conflict? {
        Remember(id, Cached(now + limits.negativeTtl, RecordOf(Find(cache, id)), true));
      }
    }

    method Answer(id: Identity, entry: Option<Cached>, known: bool, refresh: bool, now: int) returns (a: Answer)
      modifies this`pending, this`running, this`started
      ensures (Contents(), a) == DoAnswer(limits, old(Contents()), id, entry, known, refresh, now)
    {
      if entry.Some? && entry.value.conflict && entry.value.expires > now {
        return Raise(Conflict);
      }
      if !refresh && entry.Some? && !entry.value.conflict && entry.value.expires > now {
        return Value(entry.value.record);
      }
      var task := StartLookup(id, RecordOf(entry));
      if known && !refresh && entry.Some? && !entry.value.conflict {
        return Value(entry.value.record);
      }
      a := if task.Err? then Raise(task.error) else Wait(task.value);
    }

    method Complete(lookup: nat, outcome: Outcome, now: int) returns (a: Answer)
      requires Valid() && lookup in running
      modifies this
      ensures Valid() && (Contents(), a) == DoComplete(limits, old(Contents()), lookup, outcome, now)
    {
      InvComplete(limits, Contents(), lookup, outcome, now);
      var id, floor := running[lookup].id, running[lookup].floor;
      if !outcome.Broke? {
        var latest := Find(cache, id);
        var best := Judged(limits, id, floor, RecordOf(latest), outcome);
        var learned := Learned(limits, best, floor, latest, now);
        if learned.Some? {
          Remember(id, learned.value);
        }
        a := if best.Ok? then Value(best.value) else Raise(best.error);
      } else {
        a := Raise(Failed);
      }
      pending := pending - {id};
      running := running - {lookup};
    }

    method Invalidate(key: Key)
      requires Valid()
      modifies this`cache
      ensures Valid() && Contents() == Do(limits, old(Contents()), Step.Invalidate(key)).0
    {
      InvStep(limits, Contents(), Step.Invalidate(key));
      cache := NotOf(cache, key);
    }
  }
}
