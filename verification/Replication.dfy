/** The seedbox node of src/torrent/my98_torrent/service.py as a step system. One
    step is what runs between two awaits: replication jobs and their downloads,
    adoptions and garbage collections interleave in any order, and any of them may
    fail or be cancelled. */
module Replication {

  import opened Publications

  // A signed publication: an identity, a sequence and the descriptor it names.
  datatype Rec = Rec(key: Key, sequence: nat, hash: Hash)

  datatype Job = Job(key: Key, sequence: nat)

  function JobOf(r: Rec): Job { Job(r.key, r.sequence) }

  // An adopted row: the record and the components its descriptor listed.
  datatype Adopted = Adopted(rec: Rec, children: set<Hash>)

  function Named(a: Adopted): set<Hash> { {a.rec.hash} + a.children }

  datatype Stage = FetchingDescriptor | FetchingChildren | Validating

  // A running `replicate`; `done` are the downloads it has awaited successfully.
  datatype Replica = Replica(run: nat, rec: Rec, stage: Stage, done: set<Hash>)

  datatype Phase = Starting | Waiting | Joining | Fetching

  // A running `download`. It outlives its job when a sibling fails.
  datatype Download = Download(run: nat, job: Job, hash: Hash, phase: Phase)

  datatype Collection = Queued | Removing

  // The holder of a per-hash lock.
  datatype Owner = ByDownload(id: nat) | ByCollection

  datatype Node = Node(
    public: map<Key, Rec>,
    candidates: set<Rec>,
    adopted: map<Key, Adopted>,
    meta: set<Hash>,                 // metainfo files
    data: set<Hash>,                 // objects whose every piece is on disk
    handles: set<Hash>,
    seeding: set<Hash>,
    active: map<Job, set<Hash>>,
    jobs: map<Job, Replica>,
    downloads: map<nat, Download>,
    collections: map<Hash, Collection>,
    locks: map<Hash, Owner>,
    verified: map<Job, set<Hash>>,
    runs: nat)

  // Content addressing: what the descriptor with a given hash lists.
  datatype World = World(children: Hash -> set<Hash>)

  ghost predicate Tabled(public: map<Key, Rec>, candidates: set<Rec>, r: Rec) {
    r in candidates || IsPublic(public, r)
  }

  // Some table has a record of this key and sequence, though perhaps another one: a
  // candidate is scheduled even if the store has kept what it had.
  ghost predicate Known(s: Node, r: Rec) {
    exists row :: Tabled(s.public, s.candidates, row) && JobOf(row) == JobOf(r)
  }

  ghost predicate Complete(s: Node, h: Hash) { h in s.meta && h in s.data }

  // A download past the acquisition of its lock.
  predicate Owning(d: Download) { d.phase == Joining || d.phase == Fetching }

  /** `references`: None when some descriptor cannot be read. A descriptor whose
      object is incomplete may be unreadable or read as anything. */
  ghost predicate References(w: World, s: Node, refs: Option<set<Hash>>) {
    match refs
    case None => exists r :: Tabled(s.public, s.candidates, r) && !Complete(s, r.hash)
    case Some(all) =>
      && (forall k :: k in s.adopted ==> Named(s.adopted[k]) <= all)
      && (forall r :: Tabled(s.public, s.candidates, r) ==>
        r.hash in all && (Complete(s, r.hash) ==> w.children(r.hash) <= all))
      && (forall j :: j in s.active ==> s.active[j] <= all)
  }

  ghost predicate Unreferenced(refs: Option<set<Hash>>, h: Hash) { refs.Some? && h !in refs.value }

  // The synchronous part of `collect`: forget stale verdicts, queue removals.
  ghost function Collect(s: Node, refs: Option<set<Hash>>): Node {
    match refs
    case None => s
    case Some(all) =>
      s.(verified := map j | j in s.verified && (j in s.active || Retained(s, j)) :: s.verified[j],
         collections := s.collections + map h | h in s.meta && h !in all && h !in s.collections :: Queued)
  }

  ghost predicate Retained(s: Node, j: Job) {
    || (exists r :: Tabled(s.public, s.candidates, r) && JobOf(r) == j)
    || (j.key in s.adopted && JobOf(s.adopted[j.key].rec) == j)
  }

  // `store.adopt`, which also drops the candidates it supersedes.
  ghost function Adopt(s: Node, r: Rec, children: set<Hash>): Node {
    s.(adopted := s.adopted[r.key := Adopted(r, children)],
       candidates := set c | c in s.candidates && !(c.key == r.key && c.sequence <= r.sequence))
  }

  ghost function Spawn(s: Node, run: nat, job: Job, hashes: set<Hash>, ids: map<Hash, nat>): Node
    requires hashes <= ids.Keys && Fresh(s, hashes, ids)
  {
    var started := map id | id in (set h | h in hashes :: ids[h]) ::
      Download(run, job, HashAt(hashes, ids, id), Starting);
    s.(downloads := s.downloads + started)
  }

  ghost predicate Fresh(s: Node, hashes: set<Hash>, ids: map<Hash, nat>)
    requires hashes <= ids.Keys
  {
    && (forall h :: h in hashes ==> ids[h] !in s.downloads)
    && forall h, g :: h in hashes && g in hashes && ids[h] == ids[g] ==> h == g
  }

  ghost function HashAt(hashes: set<Hash>, ids: map<Hash, nat>, id: nat): (h: Hash)
    requires hashes <= ids.Keys && exists h :: h in hashes && ids[h] == id
    ensures h in hashes && ids[h] == id
  {
    var h :| h in hashes && ids[h] == id;
    h
  }

  datatype Step =
    | SetPublic(rec: Rec)
    | AddCandidate(rec: Rec)
    | Start(rec: Rec, id: nat, supplied: bool)        // schedule creates the job, perhaps with its metainfo
    | FastAdopt(rec: Rec, refs: Option<set<Hash>>)    // schedule adopts at once
    | Announce(id: nat)                               // a download registers its hash
    | Acquire(id: nat)                                // and gets the lock
    | Metadata(id: nat)                               // its metainfo is remembered
    | Seed(hash: Hash)                                // the engine completes an object
    | Finish(id: nat)                                 // the download succeeds
    | Abort(id: nat)                                  // or fails
    | ReadDescriptor(job: Job, ids: map<Hash, nat>)   // replicate starts the children
    | Gathered(job: Job)                              // all children done
    | Judge(job: Job)                                 // validated, not adopted
    | Conclude(job: Job, refs: Option<set<Hash>>)     // validated and adopted
    | GiveUp(job: Job)                                // replicate fails
    | Retire(hash: Hash, refs: Option<set<Hash>>)     // a removal gets the lock
    | Remove(hash: Hash, refs: Option<set<Hash>>)     // and decides again
    | Skip(hash: Hash)                                // or its engine call fails
    | Restart

  // A download ends, and with it the lock it may hold.
  ghost function EndDownload(s: Node, id: nat): Node
    requires id in s.downloads
  {
    var d := s.downloads[id];
    s.(downloads := s.downloads - {id}, locks := if Owning(d) then s.locks - {d.hash} else s.locks)
  }

  ghost function EndCollection(s: Node, h: Hash): Node
    requires h in s.collections
  {
    s.(collections := s.collections - {h}, locks := if s.collections[h] == Removing then s.locks - {h} else s.locks)
  }

  ghost function EndJob(s: Node, j: Job): Node { s.(jobs := s.jobs - {j}, active := s.active - {j}) }

  ghost function Needed(r: Rec, children: set<Hash>): set<Hash> { {r.hash} + children }

  ghost predicate IsPublic(public: map<Key, Rec>, r: Rec) { r.key in public && public[r.key] == r }

  // The verdict of a job, and its adoption when it is the public name. An error
  // after the verdict leaves the verdict without the adoption.
  ghost function Verdict(w: World, s: Node, j: Job): Node
    requires j in s.jobs
  {
    EndJob(s.(verified := s.verified[j := w.children(s.jobs[j].rec.hash)]), j)
  }

  ghost function Adopting(w: World, s: Node, j: Job): Node
    requires j in s.jobs
  {
    Adopt(Verdict(w, s, j), s.jobs[j].rec, w.children(s.jobs[j].rec.hash))
  }

  // A new job with the download of its descriptor.
  ghost function Started(s: Node, r: Rec, id: nat, supplied: bool): Node {
    s.(jobs := s.jobs[JobOf(r) := Replica(s.runs, r, FetchingDescriptor, {})],
       downloads := s.downloads + map[id := Download(s.runs, JobOf(r), r.hash, Starting)],
       meta := if supplied then s.meta + {r.hash} else s.meta,
       runs := s.runs + 1)
  }

  ghost function Announced(s: Node, id: nat): Node
    requires id in s.downloads
  {
    var d := s.downloads[id];
    s.(active := s.active[d.job := Held(s.active, d.job) + {d.hash}],
      downloads := s.downloads[id := d.(phase := Waiting)])
  }

  // The job that awaits a download, if it is still the same run, counts it.
  ghost function Awaited(s: Node, d: Download): Node {
    if d.job in s.jobs && s.jobs[d.job].run == d.run then
      s.(jobs := s.jobs[d.job := s.jobs[d.job].(done := s.jobs[d.job].done + {d.hash})])
    else s
  }

  ghost function Aborted(s: Node, id: nat): Node
    requires id in s.downloads
  {
    var h := s.downloads[id].hash;
    if s.downloads[id].phase == Fetching
      then EndDownload(s, id).(handles := s.handles - {h}, seeding := s.seeding - {h})
    else EndDownload(s, id)
  }

  // Under the lock: join the existing handle, or add one and fetch.
  ghost function Acquired(s: Node, id: nat): Node
    requires id in s.downloads
  {
    var d := s.downloads[id];
    var phase := if d.hash in s.handles then Joining else Fetching;
    s.(handles := s.handles + {d.hash}, downloads := s.downloads[id := d.(phase := phase)],
      locks := s.locks[d.hash := ByDownload(id)])
  }

  ghost predicate Can(w: World, s: Node, step: Step) {
    match step
    case SetPublic(r) => r.key in s.public ==>
      r.sequence >= s.public[r.key].sequence
      && (r.sequence == s.public[r.key].sequence ==> r.hash == s.public[r.key].hash)
    case AddCandidate(r) => r.key in s.public ==> r.sequence >= s.public[r.key].sequence
    case Start(r, id, _) => Known(s, r) && JobOf(r) !in s.jobs && id !in s.downloads
    case FastAdopt(r, refs) =>
      && JobOf(r) in s.verified && IsPublic(s.public, r)
      && Needed(r, s.verified[JobOf(r)]) <= s.handles * s.seeding
      && References(w, Adopt(s, r, s.verified[JobOf(r)]), refs)
    case Announce(id) => id in s.downloads && s.downloads[id].phase == Starting
    case Acquire(id) => id in s.downloads && s.downloads[id].phase == Waiting && s.downloads[id].hash !in s.locks
    case Metadata(id) => id in s.downloads && s.downloads[id].phase == Fetching
    case Seed(h) => h in s.handles
    case Finish(id) =>
      && id in s.downloads
      && Owning(s.downloads[id]) && s.downloads[id].hash in s.seeding
      && (s.downloads[id].phase == Fetching ==> s.downloads[id].hash in s.meta)
    case Abort(id) => id in s.downloads
    case ReadDescriptor(j, ids) =>
      && j in s.jobs && s.jobs[j].stage == FetchingDescriptor && s.jobs[j].rec.hash in s.jobs[j].done
      && w.children(s.jobs[j].rec.hash) <= ids.Keys && Fresh(s, w.children(s.jobs[j].rec.hash), ids)
    case Gathered(j) =>
      j in s.jobs && s.jobs[j].stage == FetchingChildren && w.children(s.jobs[j].rec.hash) <= s.jobs[j].done
    case Judge(j) => j in s.jobs && s.jobs[j].stage == Validating
    case Conclude(j, refs) =>
      && j in s.jobs && s.jobs[j].stage == Validating && IsPublic(s.public, s.jobs[j].rec)
      && References(w, Adopting(w, s, j), refs)
    case GiveUp(j) => j in s.jobs
    case Retire(h, refs) => h in s.collections && s.collections[h] == Queued && h !in s.locks && References(w, s, refs)
    case Remove(h, refs) => h in s.collections && s.collections[h] == Removing && References(w, s, refs)
    case Skip(h) => h in s.collections
    case Restart => true
  }

  // The lock owner's removal of an object, with its handle already gone.
  ghost function Drop(s: Node, h: Hash, refs: Option<set<Hash>>): Node
    requires h in s.collections
  {
    var s1 := EndCollection(s, h);
    if Unreferenced(refs, h) then s1.(data := s.data - {h}, meta := s.meta - {h}) else s1
  }

  // The first decision of `retire`: keep, unhook the handle, or remove at once.
  ghost function Retired(s: Node, h: Hash, refs: Option<set<Hash>>): Node
    requires h in s.collections
  {
    if !Unreferenced(refs, h) then EndCollection(s, h)
    else if h in s.handles then
      s.(handles := s.handles - {h}, seeding := s.seeding - {h}, collections := s.collections[h := Removing],
        locks := s.locks[h := ByCollection])
    else Drop(s, h, refs)
  }

  ghost function Do(w: World, s: Node, step: Step): Node
    requires Can(w, s, step)
  {
    match step
    case SetPublic(r) => s.(public := s.public[r.key := r])
    case AddCandidate(r) => s.(candidates := s.candidates + {r})
    case Start(r, id, supplied) => Started(s, r, id, supplied)
    case FastAdopt(r, refs) => Collect(Adopt(s, r, s.verified[JobOf(r)]), refs)
    case Announce(id) => Announced(s, id)
    case Acquire(id) => Acquired(s, id)
    case Metadata(id) => s.(meta := s.meta + {s.downloads[id].hash})
    case Seed(h) => s.(data := s.data + {h}, seeding := s.seeding + {h})
    case Finish(id) => Awaited(EndDownload(s, id), s.downloads[id])
    case Abort(id) => Aborted(s, id)
    case ReadDescriptor(j, ids) =>
      Spawn(s.(jobs := s.jobs[j := s.jobs[j].(stage := FetchingChildren)]), s.jobs[j].run, j,
        w.children(s.jobs[j].rec.hash), ids)
    case Gathered(j) => s.(jobs := s.jobs[j := s.jobs[j].(stage := Validating)])
    case Judge(j) => Verdict(w, s, j)
    case Conclude(j, refs) => Collect(Adopting(w, s, j), refs)
    case GiveUp(j) => EndJob(s, j)
    case Retire(h, refs) => Retired(s, h, refs)
    case Remove(h, refs) => Drop(s, h, refs)
    case Skip(h) => EndCollection(s, h)
    case Restart =>
      s.(handles := {}, seeding := {}, active := map[], jobs := map[], downloads := map[], collections := map[],
        locks := map[], verified := map[])
  }

  // The invariant is stated over the parts of a node each clause reads, so that a
  // step leaves alone what it does not touch.

  // The engine seeds only complete objects that have a handle.
  ghost predicate SeedsOk(seeding: set<Hash>, data: set<Hash>, handles: set<Hash>) {
    seeding <= data && seeding <= handles
  }

  // A download that owns its lock owns it alone, and has a handle.
  ghost predicate OwnersOk(downloads: map<nat, Download>, locks: map<Hash, Owner>, handles: set<Hash>) {
    && (forall id :: id in downloads && Owning(downloads[id]) ==>
      downloads[id].hash in locks && locks[downloads[id].hash] == ByDownload(id) && downloads[id].hash in handles)
    && forall h :: h in locks && locks[h].ByDownload? ==>
      locks[h].id in downloads && downloads[locks[h].id].hash == h && Owning(downloads[locks[h].id])
  }

  // A removal under way owns its lock, and the handle is gone.
  ghost predicate RemovalsOk(collections: map<Hash, Collection>, locks: map<Hash, Owner>, handles: set<Hash>) {
    && (forall h :: h in collections && collections[h] == Removing ==>
      h in locks && locks[h] == ByCollection && h !in handles)
    && forall h :: h in locks && locks[h] == ByCollection ==> h in collections && collections[h] == Removing
  }

  ghost predicate BeingFetched(downloads: map<nat, Download>, locks: map<Hash, Owner>, h: Hash) {
    h in locks && locks[h].ByDownload? && locks[h].id in downloads && downloads[locks[h].id].phase == Fetching
  }

  // A handle nobody is still fetching has its metainfo.
  ghost predicate HandlesOk(
      handles: set<Hash>, meta: set<Hash>, downloads: map<nat, Download>, locks: map<Hash, Owner>) {
    forall h :: h in handles ==> h in meta || BeingFetched(downloads, locks, h)
  }

  // What a job has downloaded it still holds, and it is there.
  ghost predicate JobsOk(w: World, jobs: map<Job, Replica>, active: map<Job, set<Hash>>, stored: set<Hash>, runs: nat) {
    forall j :: j in jobs ==> JobOk(w, j, jobs[j], active, stored, runs)
  }

  ghost predicate JobOk(w: World, j: Job, r: Replica, active: map<Job, set<Hash>>, stored: set<Hash>, runs: nat) {
    && JobOf(r.rec) == j && r.run < runs
    && r.done <= Held(active, j) && r.done <= stored
    && (!r.stage.FetchingDescriptor? ==> r.rec.hash in r.done)
    && (r.stage.Validating? ==> w.children(r.rec.hash) <= r.done)
  }

  ghost function Held(active: map<Job, set<Hash>>, j: Job): set<Hash> { if j in active then active[j] else {} }

  // A download of the current run of its job holds its hash once announced.
  ghost predicate DownloadsOk(
      downloads: map<nat, Download>, jobs: map<Job, Replica>, active: map<Job, set<Hash>>, runs: nat) {
    forall id :: id in downloads ==> DownloadOk(downloads[id], jobs, active, runs)
  }

  ghost predicate DownloadOk(d: Download, jobs: map<Job, Replica>, active: map<Job, set<Hash>>, runs: nat) {
    d.run < runs && (d.phase != Starting && d.job in jobs && jobs[d.job].run == d.run ==> d.hash in Held(active, d.job))
  }

  /** Everything an adopted publication names is stored. */
  ghost predicate AdoptedOk(adopted: map<Key, Adopted>, data: set<Hash>) {
    forall k :: k in adopted ==> adopted[k].rec.key == k && Named(adopted[k]) <= data
  }

  ghost predicate Inv(w: World, s: Node) {
    && SeedsOk(s.seeding, s.data, s.handles)
    && OwnersOk(s.downloads, s.locks, s.handles)
    && RemovalsOk(s.collections, s.locks, s.handles)
    && HandlesOk(s.handles, s.meta, s.downloads, s.locks)
    && JobsOk(w, s.jobs, s.active, s.data * s.meta, s.runs)
    && DownloadsOk(s.downloads, s.jobs, s.active, s.runs)
    && AdoptedOk(s.adopted, s.data)
  }

  ghost function Initial(public: map<Key, Rec>, candidates: set<Rec>): Node {
    Node(public, candidates, map[], {}, {}, {}, {}, map[], map[], map[], map[], map[], map[], 0)
  }

  lemma InvSetPublic(w: World, s: Node, r: Rec)
    requires Inv(w, s) && Can(w, s, SetPublic(r))
    ensures Inv(w, Do(w, s, SetPublic(r)))
  {
  }

  lemma InvAddCandidate(w: World, s: Node, r: Rec)
    requires Inv(w, s) && Can(w, s, AddCandidate(r))
    ensures Inv(w, Do(w, s, AddCandidate(r)))
  {
  }

  lemma InvStart(w: World, s: Node, r: Rec, id: nat, supplied: bool)
    requires Inv(w, s) && Can(w, s, Start(r, id, supplied))
    ensures Inv(w, Do(w, s, Start(r, id, supplied)))
  {
    InvStarted(w, s, r, id, supplied);
  }

  lemma InvStarted(w: World, s: Node, r: Rec, id: nat, supplied: bool)
    requires Inv(w, s) && JobOf(r) !in s.jobs && id !in s.downloads
    ensures Inv(w, Started(s, r, id, supplied))
  {
    var t := Started(s, r, id, supplied);
    MoreOwners(s.downloads, map[id := Download(s.runs, JobOf(r), r.hash, Starting)], s.locks, s.handles, s.meta);
    StartedJobs(w, s, r, id, supplied);
  }

  lemma StartedJobs(w: World, s: Node, r: Rec, id: nat, supplied: bool)
    requires JobsOk(w, s.jobs, s.active, s.data * s.meta, s.runs) && DownloadsOk(s.downloads, s.jobs, s.active, s.runs)
    requires JobOf(r) !in s.jobs && id !in s.downloads
    ensures var t := Started(s, r, id, supplied);
      JobsOk(w, t.jobs, t.active, t.data * t.meta, t.runs) && DownloadsOk(t.downloads, t.jobs, t.active, t.runs)
  {
    var t := Started(s, r, id, supplied);
    forall j | j in t.jobs
      ensures JobOk(w, j, t.jobs[j], t.active, t.data * t.meta, t.runs)
    {
      assert j in s.jobs ==> JobOk(w, j, s.jobs[j], s.active, s.data * s.meta, s.runs);
    }
    forall k | k in t.downloads
      ensures DownloadOk(t.downloads[k], t.jobs, t.active, t.runs)
    {
      assert k in s.downloads ==> DownloadOk(s.downloads[k], s.jobs, s.active, s.runs);
    }
  }

  // Downloads that own no lock are added.
  lemma MoreOwners(
    downloads: map<nat, Download>, more: map<nat, Download>, locks: map<Hash, Owner>, handles: set<Hash>,
    meta: set<Hash>)
    requires OwnersOk(downloads, locks, handles) && HandlesOk(handles, meta, downloads, locks)
    requires downloads.Keys !! more.Keys && forall id :: id in more ==> !Owning(more[id])
    ensures OwnersOk(downloads + more, locks, handles) && HandlesOk(handles, meta, downloads + more, locks)
  {
    forall h | h in handles
      ensures h in meta || BeingFetched(downloads + more, locks, h)
    {
      assert h in meta || BeingFetched(downloads, locks, h);
    }
  }

  lemma InvFastAdopt(w: World, s: Node, r: Rec, refs: Option<set<Hash>>)
    requires Inv(w, s) && Can(w, s, FastAdopt(r, refs))
    ensures Inv(w, Do(w, s, FastAdopt(r, refs)))
  {
    InvAdopt(w, s, r, s.verified[JobOf(r)]);
    InvCollect(w, Adopt(s, r, s.verified[JobOf(r)]), refs);
  }

  lemma InvAnnounce(w: World, s: Node, id: nat)
    requires Inv(w, s) && Can(w, s, Announce(id))
    ensures Inv(w, Do(w, s, Announce(id)))
  {
    InvAnnounced(w, s, id);
  }

  lemma InvAnnounced(w: World, s: Node, id: nat)
    requires Inv(w, s) && id in s.downloads && s.downloads[id].phase == Starting
    ensures Inv(w, Announced(s, id))
  {
    var t := Announced(s, id);
    Rephased(s.downloads, id, t.downloads[id], s.locks, s.handles, s.meta);
    forall j | j in t.jobs
      ensures JobOk(w, j, t.jobs[j], t.active, t.data * t.meta, t.runs)
    {
      assert JobOk(w, j, s.jobs[j], s.active, s.data * s.meta, s.runs);
    }
    forall k | k in t.downloads
      ensures DownloadOk(t.downloads[k], t.jobs, t.active, t.runs)
    {
      assert DownloadOk(s.downloads[k], s.jobs, s.active, s.runs);
    }
  }

  // A download that owns no lock changes and still owns none.
  lemma Rephased(
    downloads: map<nat, Download>, id: nat, d: Download, locks: map<Hash, Owner>, handles: set<Hash>, meta: set<Hash>)
    requires OwnersOk(downloads, locks, handles) && HandlesOk(handles, meta, downloads, locks)
    requires id in downloads && !Owning(downloads[id]) && !Owning(d)
    ensures OwnersOk(downloads[id := d], locks, handles) && HandlesOk(handles, meta, downloads[id := d], locks)
  {
    forall h | h in handles
      ensures h in meta || BeingFetched(downloads[id := d], locks, h)
    {
      assert h in meta || BeingFetched(downloads, locks, h);
    }
  }

  lemma InvAcquire(w: World, s: Node, id: nat)
    requires Inv(w, s) && Can(w, s, Acquire(id))
    ensures Inv(w, Do(w, s, Acquire(id)))
  {
    InvAcquired(w, s, id);
  }

  lemma InvAcquired(w: World, s: Node, id: nat)
    requires Inv(w, s) && id in s.downloads && s.downloads[id].phase == Waiting && s.downloads[id].hash !in s.locks
    ensures Inv(w, Acquired(s, id))
  {
  }

  lemma InvMetadata(w: World, s: Node, id: nat)
    requires Inv(w, s) && Can(w, s, Metadata(id))
    ensures Inv(w, Do(w, s, Metadata(id)))
  {
  }

  lemma InvSeed(w: World, s: Node, h: Hash)
    requires Inv(w, s) && Can(w, s, Seed(h))
    ensures Inv(w, Do(w, s, Seed(h)))
  {
  }

  lemma InvFinish(w: World, s: Node, id: nat)
    requires Inv(w, s) && Can(w, s, Finish(id))
    ensures Inv(w, Do(w, s, Finish(id)))
  {
    var d := s.downloads[id];
    var s1 := EndDownload(s, id);
    InvEndDownload(w, s, id);
    InvAwaited(w, s1, d);
  }

  // The awaiting job counts the download; nothing else changes.
  lemma InvAwaited(w: World, s: Node, d: Download)
    requires Inv(w, s) && Complete(s, d.hash)
    requires d.job in s.jobs && s.jobs[d.job].run == d.run ==> d.hash in Held(s.active, d.job)
    ensures Inv(w, Awaited(s, d))
  {
    if d.job in s.jobs && s.jobs[d.job].run == d.run {
      var t := Awaited(s, d);
      forall j | j in t.jobs
        ensures JobOk(w, j, t.jobs[j], t.active, t.data * t.meta, t.runs)
      {
        assert JobOk(w, j, s.jobs[j], s.active, s.data * s.meta, s.runs);
      }
      forall k | k in t.downloads
        ensures DownloadOk(t.downloads[k], t.jobs, t.active, t.runs)
      {
        assert DownloadOk(s.downloads[k], s.jobs, s.active, s.runs);
      }
    }
  }

  lemma InvAbort(w: World, s: Node, id: nat)
    requires Inv(w, s) && Can(w, s, Abort(id))
    ensures Inv(w, Do(w, s, Abort(id)))
  {
    InvEndDownload(w, s, id);
  }

  // Without the handle being fetched, an ended download leaves no trace.
  lemma InvEndDownload(w: World, s: Node, id: nat)
    requires Inv(w, s) && id in s.downloads
    ensures var d := s.downloads[id]; var t := EndDownload(s, id);
      && (d.phase == Fetching ==> Inv(w, t.(handles := s.handles - {d.hash}, seeding := s.seeding - {d.hash})))
      && (d.phase != Fetching || d.hash in s.meta ==> Inv(w, t))
  {
    var d, t := s.downloads[id], EndDownload(s, id);
    if d.phase == Fetching {
      EndedFetch(s.downloads, s.locks, s.handles, s.meta, id, s.handles - {d.hash});
      EndedRemovals(s.collections, s.downloads, s.locks, s.handles, id, s.handles - {d.hash});
    }
    if d.phase != Fetching || d.hash in s.meta {
      EndedFetch(s.downloads, s.locks, s.handles, s.meta, id, s.handles);
      EndedRemovals(s.collections, s.downloads, s.locks, s.handles, id, s.handles);
    }
  }

  ghost function EndedLocks(downloads: map<nat, Download>, locks: map<Hash, Owner>, id: nat): map<Hash, Owner>
    requires id in downloads
  {
    if Owning(downloads[id]) then locks - {downloads[id].hash} else locks
  }

  lemma EndedFetch(
    downloads: map<nat, Download>, locks: map<Hash, Owner>, handles: set<Hash>, meta: set<Hash>, id: nat,
    left: set<Hash>)
    requires OwnersOk(downloads, locks, handles) && HandlesOk(handles, meta, downloads, locks) && id in downloads
    requires left <= handles && handles <= left + {downloads[id].hash}
    requires left != handles ==> Owning(downloads[id])
    requires downloads[id].hash in left ==> downloads[id].phase != Fetching || downloads[id].hash in meta
    ensures OwnersOk(downloads - {id}, EndedLocks(downloads, locks, id), left)
    ensures HandlesOk(left, meta, downloads - {id}, EndedLocks(downloads, locks, id))
  {
    forall h | h in left
      ensures h in meta || BeingFetched(downloads - {id}, EndedLocks(downloads, locks, id), h)
    {
      assert h in meta || BeingFetched(downloads, locks, h);
    }
  }

  lemma EndedRemovals(
    collections: map<Hash, Collection>, downloads: map<nat, Download>, locks: map<Hash, Owner>, handles: set<Hash>,
    id: nat,
    left: set<Hash>)
    requires RemovalsOk(collections, locks, handles) && OwnersOk(downloads, locks, handles) && id in downloads
      && left <= handles
    ensures RemovalsOk(collections, EndedLocks(downloads, locks, id), left)
  {
  }

  lemma InvReadDescriptor(w: World, s: Node, j: Job, ids: map<Hash, nat>)
    requires Inv(w, s) && Can(w, s, ReadDescriptor(j, ids))
    ensures Inv(w, Do(w, s, ReadDescriptor(j, ids)))
  {
    var s1 := s.(jobs := s.jobs[j := s.jobs[j].(stage := FetchingChildren)]);
    assert JobOk(w, j, s.jobs[j], s.active, s.data * s.meta, s.runs);
    assert forall id :: id in s.downloads ==> DownloadOk(s.downloads[id], s.jobs, s.active, s.runs);
    assert Inv(w, s1);
    InvSpawn(w, s1, s.jobs[j].run, j, w.children(s.jobs[j].rec.hash), ids);
  }

  lemma InvSpawn(w: World, s: Node, run: nat, job: Job, hashes: set<Hash>, ids: map<Hash, nat>)
    requires Inv(w, s) && hashes <= ids.Keys && Fresh(s, hashes, ids) && run < s.runs
    ensures Inv(w, Spawn(s, run, job, hashes, ids))
  {
    var t := Spawn(s, run, job, hashes, ids);
    var more := SpawnedOnly(s, run, job, hashes, ids);
    MoreOwners(s.downloads, more, s.locks, s.handles, s.meta);
    forall k | k in t.downloads
      ensures DownloadOk(t.downloads[k], t.jobs, t.active, t.runs)
    {
      assert k in s.downloads ==> DownloadOk(s.downloads[k], s.jobs, s.active, s.runs);
    }
  }

  lemma SpawnedOnly(
    s: Node, run: nat, job: Job, hashes: set<Hash>, ids: map<Hash, nat>) returns (more: map<nat, Download>)
    requires hashes <= ids.Keys && Fresh(s, hashes, ids)
    ensures s.downloads.Keys !! more.Keys && Spawn(s, run, job, hashes, ids) == s.(downloads := s.downloads + more)
    ensures forall id :: id in more ==> more[id].phase == Starting && more[id].run == run
  {
    more := map id | id in (set h | h in hashes :: ids[h]) :: Download(run, job, HashAt(hashes, ids, id), Starting);
  }

  lemma InvGathered(w: World, s: Node, j: Job)
    requires Inv(w, s) && Can(w, s, Gathered(j))
    ensures Inv(w, Do(w, s, Gathered(j)))
  {
  }

  lemma InvJudge(w: World, s: Node, j: Job)
    requires Inv(w, s) && Can(w, s, Judge(j))
    ensures Inv(w, Do(w, s, Judge(j)))
  {
    InvGiveUp(w, s.(verified := s.verified[j := w.children(s.jobs[j].rec.hash)]), j);
  }

  lemma InvConclude(w: World, s: Node, j: Job, refs: Option<set<Hash>>)
    requires Inv(w, s) && Can(w, s, Conclude(j, refs))
    ensures Inv(w, Do(w, s, Conclude(j, refs)))
  {
    var r := s.jobs[j].rec;
    assert JobOk(w, j, s.jobs[j], s.active, s.data * s.meta, s.runs);
    InvJudge(w, s, j);
    InvAdopt(w, Verdict(w, s, j), r, w.children(r.hash));
    InvCollect(w, Adopting(w, s, j), refs);
  }

  lemma InvAdopt(w: World, s: Node, r: Rec, children: set<Hash>)
    requires Inv(w, s) && Needed(r, children) <= s.data
    ensures Inv(w, Adopt(s, r, children))
  {
  }

  lemma InvCollect(w: World, s: Node, refs: Option<set<Hash>>)
    requires Inv(w, s)
    ensures Inv(w, Collect(s, refs))
  {
  }

  lemma InvGiveUp(w: World, s: Node, j: Job)
    requires Inv(w, s) && Can(w, s, GiveUp(j))
    ensures Inv(w, Do(w, s, GiveUp(j)))
  {
  }

  lemma InvRetire(w: World, s: Node, h: Hash, refs: Option<set<Hash>>)
    requires Inv(w, s) && Can(w, s, Retire(h, refs))
    ensures Inv(w, Do(w, s, Retire(h, refs)))
  {
    InvRetired(w, s, h, refs);
  }

  lemma InvRetired(w: World, s: Node, h: Hash, refs: Option<set<Hash>>)
    requires Inv(w, s) && h in s.collections && s.collections[h] == Queued && h !in s.locks && References(w, s, refs)
    ensures Inv(w, Retired(s, h, refs))
  {
    if Unreferenced(refs, h) && h !in s.handles {
      InvDrop(w, s, h, refs);
    }
  }

  lemma InvRemove(w: World, s: Node, h: Hash, refs: Option<set<Hash>>)
    requires Inv(w, s) && Can(w, s, Remove(h, refs))
    ensures Inv(w, Do(w, s, Remove(h, refs)))
  {
    InvDrop(w, s, h, refs);
  }

  lemma InvDrop(w: World, s: Node, h: Hash, refs: Option<set<Hash>>)
    requires Inv(w, s) && h in s.collections && h !in s.handles && References(w, s, refs)
    ensures Inv(w, Drop(s, h, refs))
  {
    InvEndCollection(w, s, h);
    if Unreferenced(refs, h) {
      var s1 := EndCollection(s, h);
      forall j | j in s.jobs
        ensures JobOk(w, j, s.jobs[j], s.active, (s.data - {h}) * (s.meta - {h}), s.runs)
      {
        assert JobOk(w, j, s.jobs[j], s.active, s.data * s.meta, s.runs);
        assert h !in Held(s.active, j);
      }
      forall k | k in s.adopted
        ensures Named(s.adopted[k]) <= s.data - {h}
      {
        assert h !in Named(s.adopted[k]);
      }
    }
  }

  lemma InvEndCollection(w: World, s: Node, h: Hash)
    requires Inv(w, s) && h in s.collections
    ensures Inv(w, EndCollection(s, h))
  {
  }

  lemma InvSkip(w: World, s: Node, h: Hash)
    requires Inv(w, s) && Can(w, s, Skip(h))
    ensures Inv(w, Do(w, s, Skip(h)))
  {
  }

  lemma InvRestart(w: World, s: Node)
    requires Inv(w, s) && Can(w, s, Restart)
    ensures Inv(w, Do(w, s, Restart))
  {
  }

  lemma InvDownloadStep(w: World, s: Node, step: Step)
    requires Inv(w, s) && Can(w, s, step) && DownloadStep(step)
    ensures Inv(w, Do(w, s, step))
  {
    match step
    case Announce(id) => InvAnnounce(w, s, id);
    case Acquire(id) => InvAcquire(w, s, id);
    case Metadata(id) => InvMetadata(w, s, id);
    case Seed(h) => InvSeed(w, s, h);
    case Finish(id) => InvFinish(w, s, id);
    case Abort(id) => InvAbort(w, s, id);
  }

  predicate JobStep(step: Step) {
    step.Start? || step.FastAdopt? || step.ReadDescriptor? || step.Gathered? || step.Judge? || step.Conclude?
      || step.GiveUp?
  }

  lemma InvJobStep(w: World, s: Node, step: Step)
    requires Inv(w, s) && Can(w, s, step) && JobStep(step)
    ensures Inv(w, Do(w, s, step))
  {
    match step
    case Start(r, id, supplied) => InvStart(w, s, r, id, supplied);
    case FastAdopt(r, refs) => InvFastAdopt(w, s, r, refs);
    case ReadDescriptor(j, ids) => InvReadDescriptor(w, s, j, ids);
    case Gathered(j) => InvGathered(w, s, j);
    case Judge(j) => InvJudge(w, s, j);
    case Conclude(j, refs) => InvConclude(w, s, j, refs);
    case GiveUp(j) => InvGiveUp(w, s, j);
  }

  lemma InvStep(w: World, s: Node, step: Step)
    requires Inv(w, s) && Can(w, s, step)
    ensures Inv(w, Do(w, s, step))
  {
    if DownloadStep(step) {
      InvDownloadStep(w, s, step);
    } else if JobStep(step) {
      InvJobStep(w, s, step);
    } else {
      InvOtherStep(w, s, step);
    }
  }

  lemma InvOtherStep(w: World, s: Node, step: Step)
    requires Inv(w, s) && Can(w, s, step) && !DownloadStep(step) && !JobStep(step)
    ensures Inv(w, Do(w, s, step))
  {
    match step
    case SetPublic(r) => InvSetPublic(w, s, r);
    case AddCandidate(r) => InvAddCandidate(w, s, r);
    case Retire(h, refs) => InvRetire(w, s, h, refs);
    case Remove(h, refs) => InvRemove(w, s, h, refs);
    case Skip(h) => InvSkip(w, s, h);
    case Restart => InvRestart(w, s);
  }

  lemma DataDrops(w: World, s: Node, step: Step, h: Hash)
    requires Can(w, s, step) && h in s.data && h !in Do(w, s, step).data
    ensures (step.Retire? || step.Remove?) && References(w, s, step.refs) && Unreferenced(step.refs, h)
  {
    if step.SetPublic? || step.AddCandidate? || step.Judge? {
    } else if step.FastAdopt? || step.Conclude? {
    } else if Plain(s, step) {
      PlainTables(w, s, step);
    }
  }

  /** No step removes an object that an adopted publication names, or that a job
      has registered. */
  lemma RemovalSpares(w: World, s: Node, step: Step, h: Hash)
    requires Can(w, s, step) && h in s.data && h !in Do(w, s, step).data
    ensures forall k :: k in s.adopted ==> h !in Named(s.adopted[k])
    ensures forall j :: j in s.active ==> h !in s.active[j]
    ensures forall r :: Tabled(s.public, s.candidates, r) ==>
      h != r.hash && (Complete(s, r.hash) ==> h !in w.children(r.hash))
  {
    DataDrops(w, s, step, h);
  }

  // What follows assumes one descriptor hash per identity and sequence: `hashOf`.

  ghost predicate Agrees(hashOf: Job -> Hash, r: Rec) { r.hash == hashOf(JobOf(r)) }

  function Record(hashOf: Job -> Hash, j: Job): Rec { Rec(j.key, j.sequence, hashOf(j)) }

  ghost predicate StepAgrees(hashOf: Job -> Hash, step: Step) {
    (step.SetPublic? || step.AddCandidate? || step.Start?) ==> Agrees(hashOf, step.rec)
  }

  ghost predicate TablesAgree(
      hashOf: Job -> Hash, public: map<Key, Rec>, candidates: set<Rec>, jobs: map<Job, Replica>) {
    && (forall r :: r in candidates ==> Agrees(hashOf, r))
    && (forall k :: k in public ==> public[k].key == k && Agrees(hashOf, public[k]))
    && (forall j :: j in jobs ==> Agrees(hashOf, jobs[j].rec))
  }

  // A newer public name: this job can no longer be adopted.
  ghost predicate Dead(public: map<Key, Rec>, j: Job) { j.key in public && public[j.key].sequence > j.sequence }

  // A verdict is right, and still backed by the stored objects unless it is dead.
  ghost predicate VerdictOk(
      w: World, hashOf: Job -> Hash, j: Job, children: set<Hash>, public: map<Key, Rec>, candidates: set<Rec>,
      stored: set<Hash>) {
    && children == w.children(hashOf(j))
    && (Dead(public, j)
      || (Tabled(public, candidates, Record(hashOf, j)) && Needed(Record(hashOf, j), children) <= stored))
  }

  ghost predicate VerdictsOk(
      w: World, hashOf: Job -> Hash, verified: map<Job, set<Hash>>, public: map<Key, Rec>, candidates: set<Rec>,
      stored: set<Hash>) {
    forall j :: j in verified ==> VerdictOk(w, hashOf, j, verified[j], public, candidates, stored)
  }

  ghost predicate JobsTabled(jobs: map<Job, Replica>, public: map<Key, Rec>, candidates: set<Rec>) {
    forall j :: j in jobs ==> JobOf(jobs[j].rec) == j && (Dead(public, j) || Tabled(public, candidates, jobs[j].rec))
  }

  /** An adopted row lists what its descriptor lists, is not ahead of the public
      name, and everything it names has its object and its metainfo. */
  ghost predicate AdoptedFaithful(w: World, adopted: map<Key, Adopted>, public: map<Key, Rec>, stored: set<Hash>) {
    forall k :: k in adopted ==> RowFaithful(w, k, adopted[k], public, stored)
  }

  ghost predicate RowFaithful(w: World, k: Key, a: Adopted, public: map<Key, Rec>, stored: set<Hash>) {
    && k in public && a.rec.sequence <= public[k].sequence
    && a.children == w.children(a.rec.hash)
    && Named(a) <= stored
  }

  ghost predicate Trust(w: World, hashOf: Job -> Hash, s: Node) {
    && TablesAgree(hashOf, s.public, s.candidates, s.jobs)
    && VerdictsOk(w, hashOf, s.verified, s.public, s.candidates, s.data * s.meta)
    && JobsTabled(s.jobs, s.public, s.candidates)
    && AdoptedFaithful(w, s.adopted, s.public, s.data * s.meta)
  }

  // Adopting the public record keeps every live record in some table.
  lemma AdoptKeepsTabled(hashOf: Job -> Hash, s: Node, r: Rec, children: set<Hash>, c: Rec)
    requires IsPublic(s.public, r) && Agrees(hashOf, r) && Agrees(hashOf, c) && Tabled(s.public, s.candidates, c)
    ensures Tabled(s.public, Adopt(s, r, children).candidates, c) || Dead(s.public, JobOf(c))
  {
  }

  lemma TrustAdopt(w: World, hashOf: Job -> Hash, s: Node, r: Rec)
    requires Trust(w, hashOf, s) && IsPublic(s.public, r) && Needed(r, w.children(r.hash)) <= s.data * s.meta
    ensures Trust(w, hashOf, Adopt(s, r, w.children(r.hash)))
  {
    var t := Adopt(s, r, w.children(r.hash));
    forall c | Tabled(s.public, s.candidates, c)
      ensures Tabled(t.public, t.candidates, c) || Dead(t.public, JobOf(c))
    {
      AdoptKeepsTabled(hashOf, s, r, w.children(r.hash), c);
    }
    assert forall j :: j in s.verified ==> JobOf(Record(hashOf, j)) == j;
    assert forall j :: j in s.jobs && Tabled(s.public, s.candidates, s.jobs[j].rec) ==>
      Tabled(t.public, t.candidates, s.jobs[j].rec) || Dead(t.public, JobOf(s.jobs[j].rec));
  }

  lemma TrustCollect(w: World, hashOf: Job -> Hash, s: Node, refs: Option<set<Hash>>)
    requires Trust(w, hashOf, s)
    ensures Trust(w, hashOf, Collect(s, refs))
  {
    var t := Collect(s, refs);
    assert forall r :: Tabled(t.public, t.candidates, r) <==> Tabled(s.public, s.candidates, r);
  }

  // Dropping an unreferenced object hurts no live verdict.
  lemma TrustDrop(w: World, hashOf: Job -> Hash, s: Node, h: Hash, refs: Option<set<Hash>>)
    requires Trust(w, hashOf, s) && References(w, s, refs) && h in s.collections
    ensures Trust(w, hashOf, Drop(s, h, refs))
  {
    var t := Drop(s, h, refs);
    forall j | j in s.verified
      ensures VerdictOk(w, hashOf, j, s.verified[j], s.public, s.candidates, t.data * t.meta)
    {
      assert VerdictOk(w, hashOf, j, s.verified[j], s.public, s.candidates, s.data * s.meta);
      if !Dead(s.public, j) {
        DropSpares(w, s, h, refs, Record(hashOf, j));
      }
    }
    forall k | k in s.adopted
      ensures RowFaithful(w, k, s.adopted[k], s.public, t.data * t.meta)
    {
      assert RowFaithful(w, k, s.adopted[k], s.public, s.data * s.meta);
      assert Unreferenced(refs, h) ==> h !in Named(s.adopted[k]);
    }
  }

  lemma DropSpares(w: World, s: Node, h: Hash, refs: Option<set<Hash>>, r: Rec)
    requires References(w, s, refs) && h in s.collections && Tabled(s.public, s.candidates, r)
    requires Needed(r, w.children(r.hash)) <= s.data * s.meta
    ensures Needed(r, w.children(r.hash)) <= Drop(s, h, refs).data * Drop(s, h, refs).meta
  {
    assert Complete(s, r.hash);
  }

  lemma TrustVerdict(w: World, hashOf: Job -> Hash, s: Node, j: Job)
    requires Inv(w, s) && Trust(w, hashOf, s) && j in s.jobs && s.jobs[j].stage == Validating
    ensures Trust(w, hashOf, Verdict(w, s, j))
    ensures Needed(s.jobs[j].rec, w.children(s.jobs[j].rec.hash)) <= s.data * s.meta
  {
    var t := Verdict(w, s, j);
    assert JobOk(w, j, s.jobs[j], s.active, s.data * s.meta, s.runs);
    assert s.jobs[j].rec == Record(hashOf, j);
    assert forall r :: Tabled(t.public, t.candidates, r) <==> Tabled(s.public, s.candidates, r);
  }

  ghost predicate TablesKept(s: Node, t: Node) {
    && t.public == s.public && t.candidates == s.candidates && t.adopted == s.adopted
    && s.meta <= t.meta && s.data <= t.data
    && t.verified.Keys <= s.verified.Keys && forall j :: j in t.verified ==> t.verified[j] == s.verified[j]
  }

  ghost predicate JobsKept(s: Node, t: Node) {
    forall j :: j in t.jobs ==>
      (j in s.jobs && t.jobs[j].rec == s.jobs[j].rec)
        || (Tabled(s.public, s.candidates, t.jobs[j].rec) && JobOf(t.jobs[j].rec) == j)
  }

  ghost predicate Plain(s: Node, step: Step) {
    && !step.SetPublic? && !step.AddCandidate? && !step.Start? && !step.FastAdopt? && !step.Judge? && !step.Conclude?
    && !step.Remove?
    && (step.Retire? ==> !(Unreferenced(step.refs, step.hash) && step.hash !in s.handles))
  }

  predicate DownloadStep(step: Step) {
    step.Announce? || step.Acquire? || step.Metadata? || step.Seed? || step.Finish? || step.Abort?
  }

  lemma DownloadTables(w: World, s: Node, step: Step)
    requires Can(w, s, step) && DownloadStep(step)
    ensures TablesKept(s, Do(w, s, step)) && JobsKept(s, Do(w, s, step))
  {
    match step
    case Announce(id) => AnnounceTables(s, id);
    case Acquire(id) => AcquireTables(s, id);
    case Metadata(_) =>
    case Seed(_) =>
    case Finish(id) => FinishTables(s, id);
    case Abort(id) => AbortTables(s, id);
  }

  lemma AnnounceTables(s: Node, id: nat)
    requires id in s.downloads
    ensures TablesKept(s, Announced(s, id)) && JobsKept(s, Announced(s, id))
  {
  }

  lemma AcquireTables(s: Node, id: nat)
    requires id in s.downloads
    ensures TablesKept(s, Acquired(s, id)) && JobsKept(s, Acquired(s, id))
  {
  }

  lemma FinishTables(s: Node, id: nat)
    requires id in s.downloads
    ensures var t := Awaited(EndDownload(s, id), s.downloads[id]); TablesKept(s, t) && JobsKept(s, t)
  {
  }

  lemma AbortTables(s: Node, id: nat)
    requires id in s.downloads
    ensures TablesKept(s, Aborted(s, id)) && JobsKept(s, Aborted(s, id))
  {
    var t := EndDownload(s, id);
    var u := Aborted(s, id);
    assert u == t || u == t.(handles := u.handles, seeding := u.seeding);
  }

  lemma PlainTables(w: World, s: Node, step: Step)
    requires Can(w, s, step) && Plain(s, step)
    ensures TablesKept(s, Do(w, s, step)) && JobsKept(s, Do(w, s, step))
  {
    if DownloadStep(step) {
      DownloadTables(w, s, step);
    } else if step.Retire? {
      RetireTables(s, step.hash, step.refs);
    } else if step.ReadDescriptor? {
      ReadTables(w, s, step.job, step.ids);
    } else {
      OtherTables(w, s, step);
    }
  }

  lemma OtherTables(w: World, s: Node, step: Step)
    requires Can(w, s, step) && (step.Gathered? || step.GiveUp? || step.Skip? || step.Restart?)
    ensures TablesKept(s, Do(w, s, step)) && JobsKept(s, Do(w, s, step))
  {
  }

  lemma StartTables(s: Node, r: Rec, id: nat, supplied: bool)
    requires Tabled(s.public, s.candidates, r)
    ensures TablesKept(s, Started(s, r, id, supplied)) && JobsKept(s, Started(s, r, id, supplied))
  {
  }

  lemma RetireTables(s: Node, h: Hash, refs: Option<set<Hash>>)
    requires h in s.collections && !(Unreferenced(refs, h) && h !in s.handles)
    ensures TablesKept(s, Retired(s, h, refs)) && JobsKept(s, Retired(s, h, refs))
  {
  }

  lemma ReadTables(w: World, s: Node, j: Job, ids: map<Hash, nat>)
    requires Can(w, s, ReadDescriptor(j, ids))
    ensures TablesKept(s, Do(w, s, ReadDescriptor(j, ids))) && JobsKept(s, Do(w, s, ReadDescriptor(j, ids)))
  {
  }

  // With one hash for each key and sequence the row that is known is the record itself.
  lemma KnownTabled(hashOf: Job -> Hash, s: Node, r: Rec)
    requires TablesAgree(hashOf, s.public, s.candidates, s.jobs) && Known(s, r) && Agrees(hashOf, r)
    ensures Tabled(s.public, s.candidates, r)
  {
    var row :| Tabled(s.public, s.candidates, row) && JobOf(row) == JobOf(r);
    assert row == r;
  }

  // Steps that leave the tables, the verdicts and the jobs' records alone.
  lemma TrustSame(w: World, hashOf: Job -> Hash, s: Node, t: Node)
    requires Trust(w, hashOf, s) && TablesKept(s, t) && JobsKept(s, t)
    ensures Trust(w, hashOf, t)
  {
    assert forall r :: Tabled(t.public, t.candidates, r) <==> Tabled(s.public, s.candidates, r);
  }

  lemma TrustTables(w: World, hashOf: Job -> Hash, s: Node, step: Step)
    requires Trust(w, hashOf, s) && Can(w, s, step) && StepAgrees(hashOf, step)
      && (step.SetPublic? || step.AddCandidate?)
    ensures Trust(w, hashOf, Do(w, s, step))
  {
    var t := Do(w, s, step);
    forall r | Tabled(s.public, s.candidates, r) && Agrees(hashOf, r)
      ensures Tabled(t.public, t.candidates, r) || Dead(t.public, JobOf(r))
    {
    }
    forall r | Tabled(t.public, t.candidates, r)
      ensures Agrees(hashOf, r)
    {
    }
    TrustMore(w, hashOf, s, t);
  }

  // The tables of records grow, or a record is replaced by a newer one of its key.
  lemma TrustMore(w: World, hashOf: Job -> Hash, s: Node, t: Node)
    requires Trust(w, hashOf, s) && t == s.(public := t.public, candidates := t.candidates)
    requires TablesAgree(hashOf, t.public, t.candidates, s.jobs)
    requires forall r :: Tabled(s.public, s.candidates, r) && Agrees(hashOf, r) ==>
      Tabled(t.public, t.candidates, r) || Dead(t.public, JobOf(r))
    requires forall k :: k in s.public ==> k in t.public && s.public[k].sequence <= t.public[k].sequence
    ensures Trust(w, hashOf, t)
  {
    forall j | j in s.verified
      ensures VerdictOk(w, hashOf, j, s.verified[j], t.public, t.candidates, s.data * s.meta)
    {
      assert VerdictOk(w, hashOf, j, s.verified[j], s.public, s.candidates, s.data * s.meta);
      assert JobOf(Record(hashOf, j)) == j;
    }
    forall k | k in s.adopted
      ensures RowFaithful(w, k, s.adopted[k], t.public, s.data * s.meta)
    {
      assert RowFaithful(w, k, s.adopted[k], s.public, s.data * s.meta);
    }
  }

  lemma TrustStep(w: World, hashOf: Job -> Hash, s: Node, step: Step)
    requires Inv(w, s) && Trust(w, hashOf, s) && Can(w, s, step) && StepAgrees(hashOf, step)
    ensures Trust(w, hashOf, Do(w, s, step))
  {
    if step.SetPublic? || step.AddCandidate? {
      TrustTables(w, hashOf, s, step);
    } else if step.Start? {
      KnownTabled(hashOf, s, step.rec);
      StartTables(s, step.rec, step.id, step.supplied);
      TrustSame(w, hashOf, s, Do(w, s, step));
    } else if step.FastAdopt? {
      var r := step.rec;
      assert Record(hashOf, JobOf(r)) == r && !Dead(s.public, JobOf(r));
      TrustAdopt(w, hashOf, s, r);
      TrustCollect(w, hashOf, Adopt(s, r, w.children(r.hash)), step.refs);
    } else if step.Judge? || step.Conclude? {
      TrustVerdict(w, hashOf, s, step.job);
      if step.Conclude? {
        TrustAdopt(w, hashOf, Verdict(w, s, step.job), s.jobs[step.job].rec);
        TrustCollect(w, hashOf, Adopting(w, s, step.job), step.refs);
      }
    } else if step.Remove? || (step.Retire? && Unreferenced(step.refs, step.hash) && step.hash !in s.handles) {
      TrustDrop(w, hashOf, s, step.hash, step.refs);
    } else {
      PlainTables(w, s, step);
      TrustSame(w, hashOf, s, Do(w, s, step));
    }
  }

  // A run of the node from an empty catalog.
  ghost predicate IsRun(w: World, states: seq<Node>, steps: seq<Step>) {
    && |states| == |steps| + 1
    && states[0] == Initial(states[0].public, states[0].candidates)
    && forall i :: 0 <= i < |steps| ==> Can(w, states[i], steps[i]) && states[i + 1] == Do(w, states[i], steps[i])
  }

  /** In every state of every run, every object an adopted publication names is
      stored; no hypothesis on the records is needed. */
  lemma {:induction false} AdoptedStored(w: World, states: seq<Node>, steps: seq<Step>)
    requires IsRun(w, states, steps)
    ensures Inv(w, states[|steps|])
    ensures forall k :: k in states[|steps|].adopted ==> Named(states[|steps|].adopted[k]) <= states[|steps|].data
    decreases |steps|
  {
    if |steps| > 0 {
      var n := |steps| - 1;
      AdoptedStored(w, states[..|states| - 1], steps[..n]);
      InvStep(w, states[n], steps[n]);
    }
  }

  /** With one hash per identity and sequence, an adopted row also lists exactly
      what its descriptor lists, and everything it names has its metainfo. */
  lemma {:induction false} AdoptedIsFaithful(w: World, hashOf: Job -> Hash, states: seq<Node>, steps: seq<Step>)
    requires IsRun(w, states, steps)
    requires forall i :: 0 <= i < |steps| ==> StepAgrees(hashOf, steps[i])
    requires TablesAgree(hashOf, states[0].public, states[0].candidates, map[])
    ensures Trust(w, hashOf, states[|steps|])
    decreases |steps|
  {
    if |steps| > 0 {
      var n := |steps| - 1;
      AdoptedStored(w, states[..|states| - 1], steps[..n]);
      AdoptedIsFaithful(w, hashOf, states[..|states| - 1], steps[..n]);
      TrustStep(w, hashOf, states[n], steps[n]);
    }
  }
}
