/** The persistent store of signed names (src/torrent/my98_torrent/store.py). A
    method is one transaction: it either commits or leaves every table as it was. */
module Names {
  import opened Publications

  type Metadata = seq<nat>
  type Descriptor = nat

  datatype Candidate = Candidate(rec: Record, metadata: Option<Metadata>)

  datatype Adoption = Adoption(rec: Record, descriptor: Descriptor)

  datatype Tables = Tables(
    observed: map<Key, Record>,
    public: map<Key, Record>,
    adopted: map<Key, Adoption>,
    candidates: map<(Key, nat), Candidate>,
    followed: set<Key>,
    locations: map<Key, Record>)

  function Get<V>(table: map<Key, V>, key: Key): Option<V> { if key in table then Some(table[key]) else None }

  function AdoptedRecord(adopted: map<Key, Adoption>, key: Key): Option<Record> {
    if key in adopted then Some(adopted[key].rec) else None
  }

  // Sequences of the pending candidates of a key.
  function Pending(candidates: map<(Key, nat), Candidate>, key: Key): (r: set<nat>)
    ensures forall s :: s in r <==> (key, s) in candidates
  {
    var r := set c | c in candidates && c.0 == key :: c.1;
    assert forall s :: (key, s) in candidates ==> (key, s).1 in r;
    r
  }

  ghost predicate IsHighest(s: set<nat>, m: nat) { m in s && forall x :: x in s ==> x <= m }

  lemma {:induction false} HighestExists(s: set<nat>) returns (m: nat)
    requires s != {}
    ensures IsHighest(s, m)
  {
    m :| m in s;
    var rest := s - {m};
    if rest != {} {
      var n := HighestExists(rest);
      assert s == rest + {m};
      m := if m < n then n else m;
    } else {
      assert s == {m};
    }
  }

  function Highest(s: set<nat>): (m: nat)
    requires s != {}
    ensures IsHighest(s, m)
  {
    assert exists m :: IsHighest(s, m) by {
      var m := HighestExists(s);
    }
    var m :| m in s && forall x :: x in s ==> x <= m;
    m
  }

  /** `maximum`: the highest sequence the store has heard of for a key. */
  function Maximum(t: Tables, key: Key): nat {
    var pending := Pending(t.candidates, key);
    Max(if key in t.observed then t.observed[key].sequence else 0, if pending == {} then 0 else Highest(pending))
  }

  // The record a candidate is compared with: the observed one wins a tie.
  function Leading(t: Tables, key: Key): Option<Record> {
    var pending := Pending(t.candidates, key);
    if pending == {} then Get(t.observed, key)
    else
      var last := t.candidates[(key, Highest(pending))].rec;
      if key in t.observed && t.observed[key].sequence >= last.sequence then Some(t.observed[key]) else Some(last)
  }

  // Transactions.

  datatype Transaction =
    | Observe(rec: Record)
    | AcceptCandidate(rec: Record, metadata: Option<Metadata>)
    | SetPublic(rec: Record)
    | Adopt(rec: Record, descriptor: Descriptor)
    | Follow(key: Key)
    | SetLocations(rec: Record)

  predicate SizeOk(metadata: Option<Metadata>) { metadata.Some? ==> 1 <= |metadata.value| <= 16384 }

  function DoObserve(g: Signatures, t: Tables, r: Record): (Tables, Result<bool>) {
    match Compare(g, Get(t.observed, r.key), r)
    case Err(e) => (t, Err(e))
    case Ok(news) => (if news then t.(observed := t.observed[r.key := r]) else t, Ok(news))
  }

  function DoAccept(g: Signatures, t: Tables, r: Record, metadata: Option<Metadata>): (Tables, Result<bool>) {
    if !Verified(g, r) || !SizeOk(metadata) || r.key !in t.followed then (t, Err(Invalid))
    else
      match Compare(g, Leading(t, r.key), r)
      case Err(e) => (t, Err(e))
      case Ok(changed) =>
        var row := (r.key, r.sequence);
        if AdoptedRecord(t.adopted, r.key) == Some(r) then (t, Ok(false))
        else if row in t.candidates then (t, Ok(changed && t.candidates[row].metadata == metadata))
        else (t.(candidates := t.candidates[row := Candidate(r, metadata)]), Ok(changed))
  }

  function DoSetPublic(g: Signatures, t: Tables, r: Record): (Tables, Result<bool>) {
    match Compare(g, Get(t.public, r.key), r)
    case Err(e) => (t, Err(e))
    case Ok(_) =>
      var (observed, answer) := DoObserve(g, t, r);
      if answer.Err? then (t, answer) else (observed.(public := t.public[r.key := r]), Ok(true))
  }

  function Above(candidates: map<(Key, nat), Candidate>, r: Record): map<(Key, nat), Candidate> {
    map c | c in candidates && !(c.0 == r.key && c.1 <= r.sequence) :: candidates[c]
  }

  function DoAdopt(g: Signatures, t: Tables, r: Record, d: Descriptor): (Tables, Result<bool>) {
    if !Verified(g, r) || Get(t.public, r.key) != Some(r) then (t, Err(Invalid))
    else
      match Compare(g, AdoptedRecord(t.adopted, r.key), r)
      case Err(e) => (t, Err(e))
      case Ok(_) =>
        (t.(adopted := t.adopted[r.key := Adoption(r, d)], candidates := Above(t.candidates, r)), Ok(true))
  }

  function DoSetLocations(g: Signatures, t: Tables, r: Record): (Tables, Result<bool>) {
    match Compare(g, Get(t.locations, r.key), r)
    case Err(e) => (t, Err(e))
    case Ok(news) => (if news then t.(locations := t.locations[r.key := r]) else t, Ok(true))
  }

  function Commit(g: Signatures, t: Tables, x: Transaction): (Tables, Result<bool>) {
    match x
    case Observe(r) => DoObserve(g, t, r)
    case AcceptCandidate(r, metadata) => DoAccept(g, t, r, metadata)
    case SetPublic(r) => DoSetPublic(g, t, r)
    case Adopt(r, d) => DoAdopt(g, t, r, d)
    case Follow(key) => (t.(followed := t.followed + {key}), Ok(true))
    case SetLocations(r) => DoSetLocations(g, t, r)
  }

  // A transaction is handed records of the kind its table holds.
  predicate Typed(x: Transaction) {
    match x
    case Follow(_) => true
    case SetLocations(r) => r.salt == ForLocations
    case _ => x.rec.salt == ForNames
  }

  // What holds of the tables at all times.

  predicate RowOk(g: Signatures, key: Key, r: Record) { r.key == key && r.salt == ForNames && Verified(g, r) }

  ghost predicate RowsOk(g: Signatures, t: Tables) {
    && (forall k :: k in t.observed ==> RowOk(g, k, t.observed[k]))
    && (forall k :: k in t.public ==> RowOk(g, k, t.public[k]))
    && (forall k :: k in t.adopted ==> RowOk(g, k, t.adopted[k].rec))
    && (forall c :: c in t.candidates ==> RowOk(g, c.0, t.candidates[c].rec) && t.candidates[c].rec.sequence == c.1)
    && forall k :: k in t.locations ==>
      t.locations[k].key == k && t.locations[k].salt == ForLocations && Verified(g, t.locations[k])
  }

  /** adopted <= public <= observed for every key, with equal values at equal
      sequences, and no candidate left below what was adopted. */
  ghost predicate Ordered(t: Tables) {
    && (forall k :: k in t.public ==> FollowsAll(Some(t.public[k]), Get(t.observed, k)))
    && (forall k :: k in t.adopted ==> FollowsAll(Some(t.adopted[k].rec), Get(t.public, k)))
    && (forall c :: c in t.candidates && c.0 in t.adopted ==> t.adopted[c.0].rec.sequence <= c.1)
    && forall c :: c in t.candidates ==> c.0 in t.followed
  }

  ghost predicate Inv(g: Signatures, t: Tables) { RowsOk(g, t) && Ordered(t) }

  lemma InvObserve(g: Signatures, t: Tables, r: Record)
    requires Inv(g, t) && r.salt == ForNames
    ensures Inv(g, DoObserve(g, t, r).0)
  {
    CompareIff(g, Get(t.observed, r.key), r);
  }

  lemma LeadingOk(g: Signatures, t: Tables, key: Key)
    requires Inv(g, t)
    ensures Leading(t, key).Some? ==>
      RowOk(g, key, Leading(t, key).value) && Leading(t, key).value.sequence == Maximum(t, key)
    ensures Leading(t, key).None? ==> Maximum(t, key) == 0 && key !in t.adopted
    ensures key in t.adopted ==> t.adopted[key].rec.sequence <= Maximum(t, key)
  {
    var pending := Pending(t.candidates, key);
    if pending != {} {
      assert (key, Highest(pending)) in t.candidates;
    }
  }

  lemma InvAccept(g: Signatures, t: Tables, r: Record, metadata: Option<Metadata>)
    requires Inv(g, t) && r.salt == ForNames
    ensures Inv(g, DoAccept(g, t, r, metadata).0)
  {
    LeadingOk(g, t, r.key);
  }

  lemma InvSetPublic(g: Signatures, t: Tables, r: Record)
    requires Inv(g, t) && r.salt == ForNames
    ensures Inv(g, DoSetPublic(g, t, r).0)
  {
    InvObserve(g, t, r);
    CompareIff(g, Get(t.public, r.key), r);
    CompareIff(g, Get(t.observed, r.key), r);
    var (u, answer) := DoObserve(g, t, r);
    if Compare(g, Get(t.public, r.key), r).Ok? && answer.Ok? {
      InvName(g, u, r);
    }
  }

  // Publishing what is now observed.
  lemma InvName(g: Signatures, u: Tables, r: Record)
    requires Inv(g, u) && r.salt == ForNames && Verified(g, r) && FollowsAll(Get(u.public, r.key), Some(r))
    requires FollowsAll(Some(r), Get(u.observed, r.key))
    ensures Inv(g, u.(public := u.public[r.key := r]))
  {
    assert forall k :: k in u.adopted ==> FollowsAll(Some(u.adopted[k].rec), Get(u.public, k));
  }

  lemma InvAdopt(g: Signatures, t: Tables, r: Record, d: Descriptor)
    requires Inv(g, t) && r.salt == ForNames
    ensures Inv(g, DoAdopt(g, t, r, d).0)
  {
    CompareIff(g, AdoptedRecord(t.adopted, r.key), r);
  }

  /** Every transaction keeps the order of the tables. */
  lemma InvCommit(g: Signatures, t: Tables, x: Transaction)
    requires Inv(g, t) && Typed(x)
    ensures Inv(g, Commit(g, t, x).0)
  {
    match x
    case Observe(r) => InvObserve(g, t, r);
    case AcceptCandidate(r, metadata) => InvAccept(g, t, r, metadata);
    case SetPublic(r) => InvSetPublic(g, t, r);
    case Adopt(r, d) => InvAdopt(g, t, r, d);
    case Follow(_) =>
    case SetLocations(r) => CompareIff(g, Get(t.locations, r.key), r);
  }

  /** Adoption asks for exactly one thing: that the record is the published one. Its
      own comparison with what is adopted never refuses. */
  lemma AdoptIff(g: Signatures, t: Tables, r: Record, d: Descriptor)
    requires Inv(g, t)
    ensures Commit(g, t, Adopt(r, d)).1.Ok? <==> Get(t.public, r.key) == Some(r)
    ensures Commit(g, t, Adopt(r, d)).1 != Err(Conflict)
  {
    CompareIff(g, AdoptedRecord(t.adopted, r.key), r);
  }

  /** The refusals of a publication: older than, or different at the same sequence
      from, what was already observed. */
  lemma SetPublicIff(g: Signatures, t: Tables, r: Record)
    requires Inv(g, t) && r.salt == ForNames
    ensures Commit(g, t, SetPublic(r)).1.Ok? <==>
      Verified(g, r) && (r.key in t.observed ==> Follows(t.observed[r.key], r))
  {
    CompareIff(g, Get(t.public, r.key), r);
    CompareIff(g, Get(t.observed, r.key), r);
  }

  // Nothing goes back.

  ghost predicate Advances(t: Tables, u: Tables, key: Key) {
    && FollowsAll(Get(t.observed, key), Get(u.observed, key))
    && FollowsAll(Get(t.public, key), Get(u.public, key))
    && FollowsAll(AdoptedRecord(t.adopted, key), AdoptedRecord(u.adopted, key))
    && FollowsAll(Get(t.locations, key), Get(u.locations, key))
    && Maximum(t, key) <= Maximum(u, key)
  }

  lemma MaximumGrows(t: Tables, u: Tables, key: Key)
    requires FollowsAll(Get(t.observed, key), Get(u.observed, key))
    requires forall s :: (key, s) in t.candidates ==>
      (key, s) in u.candidates || (key in u.observed && s <= u.observed[key].sequence)
    ensures Maximum(t, key) <= Maximum(u, key)
  {
    var before := Pending(t.candidates, key);
    if before != {} {
      assert (key, Highest(before)) in t.candidates;
    }
  }

  lemma AdvanceAdopt(g: Signatures, t: Tables, r: Record, d: Descriptor, key: Key)
    requires Inv(g, t) && r.salt == ForNames
    ensures Advances(t, DoAdopt(g, t, r, d).0, key)
  {
    CompareIff(g, AdoptedRecord(t.adopted, r.key), r);
    MaximumGrows(t, DoAdopt(g, t, r, d).0, key);
  }

  lemma AcceptShape(g: Signatures, t: Tables, r: Record, metadata: Option<Metadata>)
    ensures var u := DoAccept(g, t, r, metadata).0; var row := (r.key, r.sequence);
      u == t || (row !in t.candidates && u == t.(candidates := t.candidates[row := Candidate(r, metadata)]))
  {
  }

  lemma AdvanceAccept(g: Signatures, t: Tables, r: Record, metadata: Option<Metadata>, key: Key)
    requires Inv(g, t) && r.salt == ForNames
    ensures Advances(t, DoAccept(g, t, r, metadata).0, key)
  {
    var u := DoAccept(g, t, r, metadata).0;
    AcceptShape(g, t, r, metadata);
    if u.candidates == t.candidates {
      SameMaximum(t, u, key);
    } else {
      MaximumGrows(t, u, key);
    }
  }

  lemma AdvanceObserve(g: Signatures, t: Tables, r: Record, key: Key)
    requires Inv(g, t) && r.salt == ForNames
    ensures Advances(t, DoObserve(g, t, r).0, key)
  {
    CompareIff(g, Get(t.observed, r.key), r);
    MaximumGrows(t, DoObserve(g, t, r).0, key);
  }

  lemma AdvancePublic(g: Signatures, t: Tables, r: Record, key: Key)
    requires Inv(g, t) && r.salt == ForNames
    ensures Advances(t, DoSetPublic(g, t, r).0, key)
  {
    AdvanceObserve(g, t, r, key);
    var u := DoObserve(g, t, r).0;
    CompareIff(g, Get(t.public, r.key), r);
    SameMaximum(u, u.(public := t.public[r.key := r]), key);
  }

  lemma SameMaximum(t: Tables, u: Tables, key: Key)
    requires t.observed == u.observed && t.candidates == u.candidates
    ensures Maximum(t, key) == Maximum(u, key)
  {
  }

  /** No transaction takes a table, or the known maximum, back for any key. */
  lemma AdvanceCommit(g: Signatures, t: Tables, x: Transaction, key: Key)
    requires Inv(g, t) && Typed(x)
    ensures Advances(t, Commit(g, t, x).0, key)
  {
    match x
    case Observe(r) => AdvanceObserve(g, t, r, key);
    case AcceptCandidate(r, metadata) => AdvanceAccept(g, t, r, metadata, key);
    case SetPublic(r) => AdvancePublic(g, t, r, key);
    case Adopt(r, d) => AdvanceAdopt(g, t, r, d, key);
    case Follow(_) =>
    case SetLocations(r) => CompareIff(g, Get(t.locations, r.key), r);
  }

  // Whole runs, from a new store.

  const EMPTY := Tables(map[], map[], map[], map[], {}, map[])

  function After(g: Signatures, t: Tables, run: seq<Transaction>): Tables
    decreases |run|
  {
    if run == [] then t else After(g, Commit(g, t, run[0]).0, run[1..])
  }

  lemma {:induction false} RunKeeps(g: Signatures, t: Tables, run: seq<Transaction>, key: Key)
    requires Inv(g, t) && forall x :: x in run ==> Typed(x)
    ensures Inv(g, After(g, t, run)) && Advances(t, After(g, t, run), key)
    decreases |run|
  {
    if run != [] {
      InvCommit(g, t, run[0]);
      AdvanceCommit(g, t, run[0], key);
      RunKeeps(g, Commit(g, t, run[0]).0, run[1..], key);
    }
  }

  /** In a store that began empty, whatever happens: the published record of a key is
      never older than the adopted one nor newer than the observed one, and over any
      later transactions none of them goes back or changes value at a sequence. */
  lemma Published(g: Signatures, run: seq<Transaction>, more: seq<Transaction>, key: Key)
    requires forall x :: x in run + more ==> Typed(x)
    ensures var t, u := After(g, EMPTY, run), After(g, After(g, EMPTY, run), more);
      && Inv(g, t) && Inv(g, u) && Advances(t, u, key)
      && FollowsAll(AdoptedRecord(u.adopted, key), Get(u.public, key))
      && FollowsAll(Get(u.public, key), Get(u.observed, key))
      && FollowsAll(AdoptedRecord(t.adopted, key), Get(u.observed, key))
  {
    assert forall x :: x in run ==> x in run + more;
    assert forall x :: x in more ==> x in run + more;
    RunKeeps(g, EMPTY, run, key);
    RunKeeps(g, After(g, EMPTY, run), more, key);
  }

  /** A record signed with the next sequence is news to a store that follows its key,
      and becomes its one candidate with the highest sequence. */
  lemma NextIsNews(g: Signatures, t: Tables, r: Record, metadata: Option<Metadata>, now: int)
    requires Inv(g, t) && r.salt == ForNames && Verified(g, r) && SizeOk(metadata) && r.key in t.followed
    requires NextSequence(Maximum(t, r.key), now) == Ok(r.sequence)
    ensures var (u, answer) := Commit(g, t, AcceptCandidate(r, metadata));
      && answer == Ok(true) && (r.key, r.sequence) !in t.candidates
      && u == t.(candidates := t.candidates[(r.key, r.sequence) := Candidate(r, metadata)])
      && Maximum(u, r.key) == r.sequence > Maximum(t, r.key)
  {
    LeadingOk(g, t, r.key);
    var pending := Pending(t.candidates, r.key);
    assert r.sequence !in pending;
    var u := t.(candidates := t.candidates[(r.key, r.sequence) := Candidate(r, metadata)]);
    assert Pending(u.candidates, r.key) == pending + {r.sequence};
  }

  /** There is a next sequence, at a sane time, exactly while the last one is unused. */
  lemma NextExists(g: Signatures, t: Tables, key: Key, now: int)
    requires Inv(g, t) && 0 <= now <= MAX_SEQUENCE
    ensures NextSequence(Maximum(t, key), now).Ok? <==> Maximum(t, key) < MAX_SEQUENCE
    ensures Maximum(t, key) <= MAX_SEQUENCE
  {
    LeadingOk(g, t, key);
  }

  lemma AfterThree(g: Signatures, t: Tables, x: Transaction, y: Transaction, z: Transaction)
    ensures After(g, t, [x, y, z]) == Commit(g, Commit(g, Commit(g, t, x).0, y).0, z).0
  {
    assert [x, y, z][1..] == [y, z] && [y, z][1..] == [z] && [z][1..] == [];
    var t1 := Commit(g, t, x).0;
    var t2 := Commit(g, t1, y).0;
    assert After(g, t1, [y, z]) == After(g, t2, [z]);
  }

  // Pending candidates and what is observed.

  /** No candidate contradicts the observed record of its sequence. */
  ghost predicate PendingAgree(t: Tables) {
    forall c :: c in t.candidates && c.0 in t.observed && t.observed[c.0].sequence == c.1 ==>
      t.candidates[c].rec.value == t.observed[c.0].value
  }

  // The candidate pending at the sequence of a record, if any, is the same publication.
  predicate Undisputed(t: Tables, r: Record) {
    (r.key, r.sequence) in t.candidates ==> t.candidates[(r.key, r.sequence)].rec.value == r.value
  }

  // Can be decided before the call: whether the transaction observes a disputed record.
  predicate Peaceful(g: Signatures, t: Tables, x: Transaction) {
    (x.Observe? || x.SetPublic?) && Verified(g, x.rec) && FollowsAll(Get(t.observed, x.rec.key), Some(x.rec)) ==>
      Undisputed(t, x.rec)
  }

  /** Observing keeps the agreement exactly when no different publication of the
      sequence is pending. */
  lemma ObserveAgrees(g: Signatures, t: Tables, r: Record)
    requires Inv(g, t) && PendingAgree(t) && DoObserve(g, t, r).1.Ok?
    ensures PendingAgree(DoObserve(g, t, r).0) <==> Undisputed(t, r)
  {
    CompareIff(g, Get(t.observed, r.key), r);
    ObservedAgrees(t, r, DoObserve(g, t, r).0);
  }

  // Both ways in which a record becomes the observed one.
  lemma ObservedAgrees(t: Tables, r: Record, u: Tables)
    requires PendingAgree(t) && u.candidates == t.candidates && r.key in u.observed
    requires u.observed[r.key].sequence == r.sequence && u.observed[r.key].value == r.value
    requires forall k :: k != r.key ==> Get(u.observed, k) == Get(t.observed, k)
    ensures PendingAgree(u) <==> Undisputed(t, r)
  {
    if Undisputed(t, r) {
      forall c | c in u.candidates && c.0 in u.observed && u.observed[c.0].sequence == c.1
        ensures u.candidates[c].rec.value == u.observed[c.0].value
      {
        if c.0 != r.key {
          assert Get(u.observed, c.0) == Get(t.observed, c.0);
        }
      }
    }
  }

  lemma SetPublicAgrees(g: Signatures, t: Tables, r: Record)
    requires Inv(g, t) && PendingAgree(t) && DoSetPublic(g, t, r).1.Ok?
    ensures PendingAgree(DoSetPublic(g, t, r).0) <==> Undisputed(t, r)
  {
    ObserveAgrees(g, t, r);
    assert DoSetPublic(g, t, r).0.observed == DoObserve(g, t, r).0.observed;
    assert DoSetPublic(g, t, r).0.candidates == DoObserve(g, t, r).0.candidates;
  }

  /** A candidate that is accepted agrees with what is observed. */
  lemma AcceptAgrees(g: Signatures, t: Tables, r: Record, metadata: Option<Metadata>)
    requires Inv(g, t) && PendingAgree(t) && r.salt == ForNames
    ensures PendingAgree(DoAccept(g, t, r, metadata).0)
  {
    LeadingOk(g, t, r.key);
    AcceptShape(g, t, r, metadata);
  }

  /** One transaction keeps the agreement if and only if it is peaceful; all but
      observations and publications always are. */
  lemma AgreeStep(g: Signatures, t: Tables, x: Transaction)
    requires Inv(g, t) && PendingAgree(t) && Typed(x)
    ensures PendingAgree(Commit(g, t, x).0) <==> Peaceful(g, t, x)
  {
    match x
    case Observe(r) =>
      if DoObserve(g, t, r).1.Ok? {
        ObserveAgrees(g, t, r);
      }
    case SetPublic(r) =>
      if DoSetPublic(g, t, r).1.Ok? {
        SetPublicAgrees(g, t, r);
      }
    case AcceptCandidate(r, metadata) => AcceptAgrees(g, t, r, metadata);
    case Adopt(_, _) =>
    case Follow(_) =>
    case SetLocations(_) =>
  }

  ghost predicate AlwaysAgree(g: Signatures, t: Tables, run: seq<Transaction>)
    decreases |run|
  {
    PendingAgree(t) && (run != [] ==> AlwaysAgree(g, Commit(g, t, run[0]).0, run[1..]))
  }

  ghost predicate AlwaysPeaceful(g: Signatures, t: Tables, run: seq<Transaction>)
    decreases |run|
  {
    run != [] ==> Peaceful(g, t, run[0]) && AlwaysPeaceful(g, Commit(g, t, run[0]).0, run[1..])
  }

  /** Through a whole run, candidates and observed records never contradict each other
      if and only if every transaction of it is peaceful when it commits. */
  lemma {:induction false} AgreeRun(g: Signatures, t: Tables, run: seq<Transaction>)
    requires Inv(g, t) && PendingAgree(t) && forall x :: x in run ==> Typed(x)
    ensures AlwaysAgree(g, t, run) <==> AlwaysPeaceful(g, t, run)
    decreases |run|
  {
    if run != [] {
      var u := Commit(g, t, run[0]).0;
      AgreeStep(g, t, run[0]);
      InvCommit(g, t, run[0]);
      if PendingAgree(u) {
        AgreeRun(g, u, run[1..]);
      }
    }
  }

  /** A candidate is only compared when it arrives: a publication observed later may
      contradict one that is already pending at its sequence. */
  lemma PendingMayContradict(g: Signatures)
    requires forall r :: g(r)
    ensures var a, b := Record(1, ForNames, 5, 1, 0), Record(1, ForNames, 5, 2, 0);
      var t := After(g, EMPTY, [Follow(1), AcceptCandidate(a, None), Observe(b)]);
      t.observed[1 := b] == t.observed && (1, 5) in t.candidates && t.candidates[(1, 5)].rec == a && !PendingAgree(t)
  {
    var a, b := Record(1, ForNames, 5, 1, 0), Record(1, ForNames, 5, 2, 0);
    var t1 := Commit(g, EMPTY, Follow(1)).0;
    var t2 := Commit(g, t1, AcceptCandidate(a, None)).0;
    assert Pending(t1.candidates, 1) == {};
    assert t2 == t1.(candidates := map[(1, 5) := Candidate(a, None)]);
    var t3 := Commit(g, t2, Observe(b)).0;
    var run := [Follow(1), AcceptCandidate(a, None), Observe(b)];
    AfterThree(g, EMPTY, run[0], run[1], run[2]);
    assert run == [run[0], run[1], run[2]];
  }

  /** The store itself. */
  class Store {
    const genuine: Signatures
    var observed: map<Key, Record>
    var public: map<Key, Record>
    var adopted: map<Key, Adoption>
    var candidates: map<(Key, nat), Candidate>
    var followed: set<Key>
    var locations: map<Key, Record>

    function Contents(): Tables
      reads this
    {
      Tables(observed, public, adopted, candidates, followed, locations)
    }

    ghost predicate Valid()
      reads this
    {
      Inv(genuine, Contents())
    }

    constructor (genuine: Signatures)
      ensures this.genuine == genuine && Contents() == EMPTY && Valid()
    {
      this.genuine := genuine;
      observed, public, adopted, candidates, followed, locations := map[], map[], map[], map[], {}, map[];
    }

    method Observe(r: Record) returns (answer: Result<bool>)
      requires Valid() && r.salt == ForNames
      modifies this`observed
      ensures Valid() && (Contents(), answer) == Commit(genuine, old(Contents()), Transaction.Observe(r))
    {
      InvCommit(genuine, Contents(), Transaction.Observe(r));
      answer := Compare(genuine, Get(observed, r.key), r);
      if answer == Ok(true) {
        observed := observed[r.key := r];
      }
    }

    method AcceptCandidate(r: Record, metadata: Option<Metadata>) returns (answer: Result<bool>)
      requires Valid() && r.salt == ForNames
      modifies this`candidates
      ensures Valid()
        && (Contents(), answer) == Commit(genuine, old(Contents()), Transaction.AcceptCandidate(r, metadata))
    {
      InvCommit(genuine, Contents(), Transaction.AcceptCandidate(r, metadata));
      if !Verified(genuine, r) || !SizeOk(metadata) || r.key !in followed {
        return Err(Invalid);
      }
      var highest := Get(observed, r.key);
      var pending := Pending(candidates, r.key);
      if pending != {} {
        var last := candidates[(r.key, Highest(pending))].rec;
        if highest.None? || last.sequence > highest.value.sequence {
          highest := Some(last);
        }
      }
      answer := Compare(genuine, highest, r);
      if answer.Err? {
        return;
      }
      var row := (r.key, r.sequence);
      if AdoptedRecord(adopted, r.key) == Some(r) {
        answer := Ok(false);
      } else if row in candidates {
        if candidates[row].metadata != metadata {
          answer := Ok(false);
        }
      } else {
        candidates := candidates[row := Candidate(r, metadata)];
      }
    }

    method SetPublic(r: Record) returns (answer: Result<bool>)
      requires Valid() && r.salt == ForNames
      modifies this`observed, this`public
      ensures Valid() && (Contents(), answer) == Commit(genuine, old(Contents()), Transaction.SetPublic(r))
    {
      InvCommit(genuine, Contents(), Transaction.SetPublic(r));
      answer := Compare(genuine, Get(public, r.key), r);
      if answer.Ok? {
        answer := Observe(r);
        if answer.Ok? {
          public := public[r.key := r];
          answer := Ok(true);
        }
      }
    }

    method Adopt(r: Record, descriptor: Descriptor) returns (answer: Result<bool>)
      requires Valid() && r.salt == ForNames
      modifies this`adopted, this`candidates
      ensures Valid() && (Contents(), answer) == Commit(genuine, old(Contents()), Transaction.Adopt(r, descriptor))
    {
      InvCommit(genuine, Contents(), Transaction.Adopt(r, descriptor));
      if !Verified(genuine, r) || Get(public, r.key) != Some(r) {
        return Err(Invalid);
      }
      answer := Compare(genuine, AdoptedRecord(adopted, r.key), r);
      if answer.Ok? {
        adopted := adopted[r.key := Adoption(r, descriptor)];
        candidates := Above(candidates, r);
        answer := Ok(true);
      }
    }

    method Follow(key: Key)
      requires Valid()
      modifies this`followed
      ensures Valid() && Contents() == Commit(genuine, old(Contents()), Transaction.Follow(key)).0
    {
      InvCommit(genuine, Contents(), Transaction.Follow(key));
      followed := followed + {key};
    }

    method SetLocations(r: Record) returns (answer: Result<bool>)
      requires Valid() && r.salt == ForLocations
      modifies this`locations
      ensures Valid() && (Contents(), answer) == Commit(genuine, old(Contents()), Transaction.SetLocations(r))
    {
      InvCommit(genuine, Contents(), Transaction.SetLocations(r));
      answer := Compare(genuine, Get(locations, r.key), r);
      if answer == Ok(true) {
        locations := locations[r.key := r];
      } else if answer == Ok(false) {
        answer := Ok(true);
      }
    }

    // The sequence a publisher of this store signs next.
    method Next(key: Key, now: int) returns (answer: Result<nat>)
      requires Valid()
      ensures answer == NextSequence(Maximum(Contents(), key), now)
    {
      answer := NextSequence(Maximum(Contents(), key), now);
    }
  }
}
