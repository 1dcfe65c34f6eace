/** The disk as its users see it: one flat byte array, what a discard returns to, the
    work in progress on it and a candidate restoration. This is the specification the
    disk worker is proved against, and what follows from it for whole runs. */
module FlatDisk {
  import opened Octets
  import opened Envelope
  import opened DiskHeader
  import opened DiskView
  import opened DiskEngine
  import SectorCodec
  import SF = StateFormat
  import StateStream

  datatype Command =
    | Read(offset: nat, len: nat)
    | Write(at: nat, bytes: seq<Byte>)
    | BeginSave
    | Next
    | Accept
    | AcceptUnchanged
    | Discard
    | Cancel
    | ClearCache
    | VerifyStart
    | VerifyStep
    | SaveState(fields: seq<Byte>, state: seq<Byte>)
    | PrepareState(chunks: seq<seq<Octet>>, declared: Option<nat>, prefetch: bool)
    | CandidateRead(token: nat, from: nat, count: nat)
    | CommitState(token: nat)
    | DiscardState(token: nat)

  /** What the outside world does to a command: a calm one is not cancelled or refused
      beforehand and nothing it asks for fails; `late` is the failure, after a commit or
      a discard, of the transport that has to be told of it. */
  datatype Fate = Fate(calm: bool, late: bool)

  datatype Reply =
    | Failed(error: Error)
    | Done
    | Data(data: seq<Byte>)
    | Saved(file: seq<Octet>)
    | Verified(digest: Digest)
    | StateFile(file: seq<Octet>)
    | Prepared(token: nat, meta: SF.Meta, state: seq<Byte>)

  // A restoration that may be committed: its array, the count of changes at which it
  // was prepared, the token its owner was given, whether a prefetch runs for it, and
  // whether the file it was prepared over is still the open one.
  datatype Held = Held(view: View, changes: nat, token: nat, prefetch: bool, here: bool)

  // The file behind the array: its key and the bytes of its header.
  datatype Ident = Ident(disk: Disk, base: seq<Byte>)

  /** One flat array, the one a discard returns to, a count of the changes so far, the
      file, the publication if the file is a remote one, the work in progress, the tokens
      given out and the candidate. */
  datatype FlatDisk = FlatDisk(
    view: View, saved: View, changes: nat, ident: Ident, remote: Option<seq<Byte>>, work: Work, tokens: nat,
    candidate: Option<Held>)

  // Two facts below are stated for every vault that equals the disk's: the quantifier
  // keeps the container out of proofs that do not look at it.

  // A state file is decoded to `d` over the file `ident`.
  ghost predicate Decodes(c: SF.Codec, ident: Ident, chunks: seq<seq<Octet>>, declared: Option<nat>, d: SF.Decoded) {
    forall v {:trigger SF.DecodeFile(c, v, ident.base, StateStream.Flatten(chunks), declared)} ::
      v == SF.VaultOf(ident.disk) ==>
      SF.DecodeFile(c, v, ident.base, StateStream.Flatten(chunks), declared) == Some(d)
  }

  /** A file of the machine state and the whole difference of the array from its file. */
  ghost predicate StateSaved(c: SF.Codec, before: FlatDisk, fields: seq<Byte>, state: seq<Byte>, file: seq<Octet>) {
    exists overlay, dirty, nonce, salts :: Encoded(c, before, fields, state, file, overlay, dirty, nonce, salts)
  }

  ghost predicate Encoded(
    c: SF.Codec, before: FlatDisk, fields: seq<Byte>, state: seq<Byte>, file: seq<Octet>,
    overlay: seq<Byte>, dirty: Sectors, nonce: seq<Byte>, salts: seq<seq<Octet>>)
  {
    && Differs(before, overlay, dirty) && |before.ident.base| == 198 && |nonce| == 16 && SF.SaltsFor(salts, SF.LIMIT)
    && var info := InfoOf(before, fields);
       forall v {:trigger SF.EncodeFile(c, v, before.ident.base, nonce, salts, info, state, overlay)} ::
         v == SF.VaultOf(before.ident.disk) ==>
           SF.EncodeFile(c, v, before.ident.base, nonce, salts, info, state, overlay) == Ok(file)
  }

  // A state remembers the publication it was saved over.
  function InfoOf(disk: FlatDisk, fields: seq<Byte>): SF.Info { SF.Info(fields, disk.remote) }

  // The difference from the file makes the state too large, or the state is empty.
  ghost predicate Unsavable(c: SF.Codec, before: FlatDisk, fields: seq<Byte>, state: seq<Byte>) {
    exists overlay, dirty ::
      Differs(before, overlay, dirty) && !SF.Encodable(c, InfoOf(before, fields), state, overlay)
  }

  // The array is its file with the sectors of `dirty`, of which `overlay` is the text.
  ghost predicate Differs(disk: FlatDisk, overlay: seq<Byte>, dirty: Sectors) {
    && |disk.saved| <= MAX_SIZE && WellFormed(dirty, |disk.saved|)
    && SectorCodec.Serialises(overlay, dirty, |disk.saved|)
    && Flat(disk.saved, dirty) == disk.view
  }

  // A state of one publication is refused over another one.
  predicate Belongs(disk: FlatDisk, meta: SF.Meta) {
    meta.info.reference.Some? && disk.remote.Some? ==> meta.info.reference == disk.remote
  }

  // The candidate is the file with the sectors that the decoded state spells.
  ghost predicate Restores(
    c: SF.Codec, before: FlatDisk, chunks: seq<seq<Octet>>, declared: Option<nat>, prefetch: bool,
    meta: SF.Meta, state: seq<Byte>, after: FlatDisk)
  {
    exists overlay, dirty ::
      && Decodes(c, before.ident, chunks, declared, SF.Decoded(meta, state, overlay)) && Belongs(before, meta)
      && SectorCodec.Serialises(overlay, dirty, |before.saved|) && Restored(before, dirty, after, prefetch)
  }

  ghost predicate Restored(before: FlatDisk, d: Sectors, after: FlatDisk, prefetch: bool) {
    && WellFormed(d, |before.saved|) && (prefetch ==> before.remote.Some?) && before.work.save.None?
    && after == before.(
         tokens := before.tokens + 1,
         candidate := Some(Held(Flat(before.saved, d), before.changes, before.tokens + 1, prefetch, true)))
  }

  // The stream decodes to a state of this file, and no save is in the way.
  ghost predicate Preparable(
    c: SF.Codec, before: FlatDisk, chunks: seq<seq<Octet>>, declared: Option<nat>, prefetch: bool)
  {
    && before.work.save.None? && (prefetch ==> before.remote.Some?)
    && exists d, dirty :: Fits(c, before, chunks, declared, d, dirty)
  }

  ghost predicate Fits(
    c: SF.Codec, before: FlatDisk, chunks: seq<seq<Octet>>, declared: Option<nat>, d: SF.Decoded, dirty: Sectors)
  {
    && Decodes(c, before.ident, chunks, declared, d) && Belongs(before, d.meta)
    && SectorCodec.Serialises(d.overlay, dirty, |before.saved|)
  }

  // The candidate can be committed: it is the one meant and nothing has changed since.
  ghost predicate Committable(before: FlatDisk, token: nat) {
    && Means(before, token) && before.candidate.value.changes == before.changes && before.candidate.value.here
  }

  ghost predicate Means(disk: FlatDisk, token: nat) {
    disk.candidate.Some? && disk.candidate.value.token == token
  }

  ghost function Committed(before: FlatDisk): FlatDisk
    requires before.candidate.Some?
  {
    before.(view := before.candidate.value.view, changes := before.changes + 1, work := IDLE, candidate := None)
  }

  ghost function Discarded(before: FlatDisk): FlatDisk {
    before.(view := before.saved, changes := before.changes + 1, work := IDLE)
  }

  function Dropped(before: FlatDisk): FlatDisk { before.(candidate := None) }

  // A save leaves a candidate over the file before it behind.
  function Away(held: Option<Held>): Option<Held> { if held.None? then None else Some(held.value.(here := false)) }

  /** The guard of each command: what a calm one needs to succeed. */
  ghost predicate Allowed(c: SF.Codec, before: FlatDisk, command: Command) {
    match command
    case Read(offset, len) => Told(before.view, offset, len)
    case Write(at, bytes) => at + |bytes| <= |before.view| && Edges(before.view, at, |bytes|)
    case BeginSave => before.work.save.None? && !Hides(before.saved, before.view)
    case Next => GoesOn(before.work.save, before.changes, before.view)
    case Accept => Fresh(before.work.save, before.changes) && before.work.save.value.done == Chunks(|before.view|)
    case AcceptUnchanged => before.work.clean == Some(before.changes)
    case VerifyStep => GoesOn(before.work.verify, before.changes, before.view)
    case PrepareState(chunks, declared, prefetch) => Preparable(c, before, chunks, declared, prefetch)
    case CandidateRead(token, from, count) => Means(before, token) && Told(before.candidate.value.view, from, count)
    case CommitState(token) => Committable(before, token)
    case _ => true
  }

  // The transport is told of this command, and fails.
  ghost predicate FailsLate(before: FlatDisk, command: Command, fate: Fate) {
    fate.late && (LateDiscard(before, command) || (command.CommitState? && LateCommit(before, command.token)))
  }

  ghost predicate LateDiscard(before: FlatDisk, command: Command) { command.Discard? && before.remote.Some? }

  // A prefetch that was started with the restoration leaves nothing to wait for.
  ghost predicate LateCommit(before: FlatDisk, token: nat) {
    before.remote.Some? && Committable(before, token) && !before.candidate.value.prefetch
  }

  /** What a command that reports an error has done: as a rule nothing. A restoration and
      a discard of a remote disk go on, once they have happened, to tell the transport; if
      that fails, so does the command. */
  ghost predicate FailureOk(c: SF.Codec, before: FlatDisk, command: Command, fate: Fate, after: FlatDisk) {
    match command
    case CommitState(token) =>
      || (FailsLate(before, command, fate) && after == Committed(before))
      || (after == before && (fate.calm ==> !Committable(before, token)))
    case Discard => (FailsLate(before, command, fate) && after == Discarded(before)) || (after == before && !fate.calm)
    case PrepareState(_, _, _) =>
      if fate.calm then after == Dropped(before) && !Allowed(c, before, command)
      else after == before || after == Dropped(before)
    case VerifyStep =>
      if fate.calm then after == before && !Allowed(c, before, command)
      else after == before || (Fresh(before.work.verify, before.changes) && after == Interrupted(before))
    case SaveState(fields, state) => after == before && (fate.calm ==> Unsavable(c, before, fields, state))
    case CandidateRead(_, _, _) =>
      after == before && (fate.calm && Reachable(before) ==> !Allowed(c, before, command))
    case _ => after == before && (fate.calm ==> !Allowed(c, before, command))
  }

  // A verification that has read its last chunk may still be interrupted.
  function Interrupted(before: FlatDisk): FlatDisk
    requires before.work.verify.Some?
  {
    before.(work := Fed(before.work, before.work.verify.value))
  }

  // The file under the candidate can be read. Otherwise some of it may be cached.
  predicate Reachable(disk: FlatDisk) { disk.candidate.Some? ==> disk.candidate.value.here }

  ghost predicate SuccessOk(
    owner: Identity, c: SF.Codec, before: FlatDisk, command: Command, reply: Reply, after: FlatDisk)
    requires Allowed(c, before, command)
  {
    match command
    case Read(offset, len) =>
      reply.Data? && |reply.data| == len && Shows(reply.data, before.view, offset) && after == before
    case Write(at, bytes) =>
      after == before.(
        view := Splice(before.view, at, bytes), changes := before.changes + if bytes == [] then 0 else 1)
    case BeginSave => after == before.(work := Compared(before.work, before.view != before.saved, before.changes))
    case Next =>
      after == before.(
        work := before.work.(save := Some(Advanced(before.work.save.value, |before.view|))))
    case Accept =>
      reply.Saved? && Opens(owner, reply.file, before.view) &&
      after == before.(
        saved := before.view, changes := before.changes + 1, ident := after.ident, remote := None,
        work := Work(before.work.clean, None, None), candidate := Away(before.candidate))
    case AcceptUnchanged => before.view == before.saved && after == before.(work := before.work.(clean := None))
    case Discard => after == Discarded(before)
    case Cancel => after == before.(work := IDLE)
    case VerifyStart => after == before.(work := before.work.(verify := Some(Progress(before.changes, 0))))
    case VerifyStep => VerifyOk(before, reply, after)
    case SaveState(fields, state) =>
      reply.StateFile? && StateSaved(c, before, fields, state, reply.file) && after == before
    case PrepareState(chunks, declared, prefetch) =>
      && reply.Prepared? && reply.token == before.tokens + 1
      && Restores(c, before, chunks, declared, prefetch, reply.meta, reply.state, after)
    case CandidateRead(_, from, count) =>
      && after == before
      && reply.Data? && |reply.data| == count && Shows(reply.data, before.candidate.value.view, from)
    case CommitState(token) => after == Committed(before)
    case DiscardState(token) => after == if Means(before, token) then Dropped(before) else before
    case _ => after == before
  }

  // The last step of a verification gives the digest of the whole array.
  ghost predicate VerifyOk(before: FlatDisk, reply: Reply, after: FlatDisk)
    requires before.work.verify.Some?
  {
    && after == before.(work := DiskEngine.Verified(before.work, before.work.verify.value, |before.view|))
    && (after.work.verify.None? ==>
      reply.Verified? && |reply.digest.content| == |before.view| && Shows(reply.digest.content, before.view, 0))
  }

  /** What one command may do to the flat array, and what its reply must be. */
  ghost predicate StepOk(
      owner: Identity, c: SF.Codec, before: FlatDisk, command: Command, fate: Fate, reply: Reply, after: FlatDisk) {
    if reply.Failed? then FailureOk(c, before, command, fate, after)
    else
      && Allowed(c, before, command) && !FailsLate(before, command, fate)
      && SuccessOk(owner, c, before, command, reply, after)
  }

  /** A run: the states before, between and after its commands. */
  datatype History = History(
    owner: Identity, codec: SF.Codec, states: seq<FlatDisk>, commands: seq<Command>, fates: seq<Fate>,
    replies: seq<Reply>)

  ghost predicate StepAt(h: History, i: nat) {
    && i < |h.commands| && i < |h.fates| && i < |h.replies| && i + 1 < |h.states|
    && StepOk(h.owner, h.codec, h.states[i], h.commands[i], h.fates[i], h.replies[i], h.states[i + 1])
  }

  ghost predicate Trace(h: History) {
    && |h.replies| == |h.fates| == |h.commands| && |h.states| == |h.commands| + 1
    && forall i: nat {:trigger StepAt(h, i)} :: i < |h.commands| ==> StepAt(h, i)
  }

  function Extended(h: History, command: Command, fate: Fate, reply: Reply, after: FlatDisk): History {
    h.(states := h.states + [after], commands := h.commands + [command], fates := h.fates + [fate],
       replies := h.replies + [reply])
  }

  lemma TraceAppend(h: History, command: Command, fate: Fate, reply: Reply, after: FlatDisk)
    requires Trace(h) && StepOk(h.owner, h.codec, h.states[|h.commands|], command, fate, reply, after)
    ensures Trace(Extended(h, command, fate, reply, after))
  {
    var g := Extended(h, command, fate, reply, after);
    forall i: nat | i < |g.commands|
      ensures StepAt(g, i)
    {
      if i < |h.commands| {
        assert StepAt(h, i);
      }
    }
  }

  // What a reply says.

  /** A calm command succeeds exactly when its guard holds and the transport, if it is
      told, does not fail. */
  lemma CalmIff(
    owner: Identity, c: SF.Codec, before: FlatDisk, command: Command, fate: Fate, reply: Reply, after: FlatDisk)
    requires StepOk(owner, c, before, command, fate, reply, after) && fate.calm
    requires !command.SaveState? && (command.CandidateRead? ==> Reachable(before))
    ensures !reply.Failed? <==> Allowed(c, before, command) && !FailsLate(before, command, fate)
  {
  }

  ghost predicate Unchanged(before: FlatDisk, after: FlatDisk) { after.(work := before.work) == before }

  // Nothing to lose: no discard of a remote disk, no commit that would be accepted of a
  // candidate of a remote disk without a prefetch, and no preparation in the place of a
  // candidate. All of it can be known before the command.
  ghost predicate Silent(before: FlatDisk, command: Command) {
    && (command.Discard? ==> before.remote.None?)
    && (command.CommitState? ==> !LateCommit(before, command.token))
    && (command.PrepareState? ==> before.candidate.None?)
  }

  /** An error is sure to mean that nothing has changed exactly for these commands. */
  lemma FailureIsSilent(owner: Identity, c: SF.Codec, before: FlatDisk, command: Command, error: Error)
    ensures Silent(before, command) <==>
      forall fate, after :: StepOk(owner, c, before, command, fate, Failed(error), after) ==> Unchanged(before, after)
  {
    var late := Fate(false, true);
    if command.Discard? && before.remote.Some? {
      assert StepOk(owner, c, before, command, late, Failed(error), Discarded(before));
    }
    if command.CommitState? && LateCommit(before, command.token) {
      assert StepOk(owner, c, before, command, late, Failed(error), Committed(before));
    }
    if command.PrepareState? && before.candidate.Some? {
      assert StepOk(owner, c, before, command, late, Failed(error), Dropped(before));
    }
  }

  /** When the transport fails to be told, the command reports an error and has happened. */
  lemma LateFailure(
    owner: Identity, c: SF.Codec, before: FlatDisk, command: Command, fate: Fate, reply: Reply, after: FlatDisk)
    requires StepOk(owner, c, before, command, fate, reply, after) && fate.calm && FailsLate(before, command, fate)
    ensures reply.Failed? && !Unchanged(before, after)
    ensures after == if command.Discard? then Discarded(before) else Committed(before)
  {
  }

  // Tokens.

  /** A candidate carries a token that was given out, and no token is given twice. */
  ghost predicate TokensOk(d: FlatDisk) { d.candidate.Some? ==> d.candidate.value.token <= d.tokens }

  // The candidate is the one there was before, wherever its file has gone.
  ghost predicate SameHeld(a: Option<Held>, b: Option<Held>) { a == b || a == Away(b) }

  lemma TokenStep(
    owner: Identity, c: SF.Codec, before: FlatDisk, command: Command, fate: Fate, reply: Reply, after: FlatDisk)
    requires StepOk(owner, c, before, command, fate, reply, after) && TokensOk(before)
    ensures TokensOk(after) && before.tokens <= after.tokens
    ensures after.candidate.None? || SameHeld(after.candidate, before.candidate)
      || after.candidate.value.token == after.tokens > before.tokens
    ensures command.PrepareState? && !reply.Failed? ==>
      reply.Prepared? && after.candidate.Some? && after.candidate.value.token == reply.token == after.tokens
  {
  }

  /** Along a run from a state in which nothing was prepared yet, the tokens are always
      in order. */
  lemma {:induction false} TokensAlways(h: History, j: nat)
    requires Trace(h) && TokensOk(h.states[0]) && j < |h.states|
    ensures TokensOk(h.states[j])
  {
    if j > 0 {
      TokensAlways(h, j - 1);
      assert StepAt(h, j - 1);
      TokenStep(h.owner, h.codec, h.states[j - 1], h.commands[j - 1], h.fates[j - 1], h.replies[j - 1], h.states[j]);
    }
  }

  lemma {:induction false} TokenNames(h: History, i: nat, j: nat)
    requires Trace(h) && i < j < |h.states| && TokensOk(h.states[i])
    requires h.commands[i].PrepareState? && h.replies[i].Prepared?
    ensures TokensOk(h.states[j]) && h.replies[i].token <= h.states[j].tokens
    ensures Means(h.states[j], h.replies[i].token) ==> SameHeld(h.states[j].candidate, h.states[i + 1].candidate)
    decreases j
  {
    assert StepAt(h, j - 1);
    if j > i + 1 {
      TokenNames(h, i, j - 1);
    }
    TokenStep(h.owner, h.codec, h.states[j - 1], h.commands[j - 1], h.fates[j - 1], h.replies[j - 1], h.states[j]);
  }

  /** A read with a token shows the candidate that was prepared under it, and a commit
      with it makes that candidate the disk, whatever has happened in between. */
  lemma TokenReads(h: History, i: nat, j: nat)
    requires Trace(h) && i < j < |h.commands| && TokensOk(h.states[i])
    requires h.commands[i].PrepareState? && h.replies[i].Prepared? && !h.replies[j].Failed?
    ensures h.states[i + 1].candidate.Some?
    ensures h.commands[j].CandidateRead? && h.commands[j].token == h.replies[i].token ==>
      h.replies[j].Data? && Shows(h.replies[j].data, h.states[i + 1].candidate.value.view, h.commands[j].from)
    ensures h.commands[j].CommitState? && h.commands[j].token == h.replies[i].token ==>
      h.states[j + 1].view == h.states[i + 1].candidate.value.view
  {
    assert StepAt(h, i);
    assert StepAt(h, j);
    TokenStep(h.owner, h.codec, h.states[i], h.commands[i], h.fates[i], h.replies[i], h.states[i + 1]);
    TokenNames(h, i, j);
  }

  // Saving.

  // A save of the array: begin, one record for each chunk, accept; nothing goes wrong.
  ghost predicate CalmSave(h: History) {
    && Trace(h) && |h.commands| == Chunks(|h.states[0].view|) + 2
    && h.commands[0] == BeginSave && h.commands[|h.commands| - 1] == Accept
    && (forall i :: 0 < i < |h.commands| - 1 ==> h.commands[i] == Next)
    && forall i :: 0 <= i < |h.fates| ==> h.fates[i].calm
  }

  // The save may begin: there is something to save, all of it is there, and no other is
  // in preparation.
  ghost predicate Savable(disk: FlatDisk) {
    && disk.view != disk.saved && disk.work.save.None?
    && !Hides(disk.saved, disk.view) && Told(disk.view, 0, |disk.view|)
  }

  lemma {:induction false} SaveGoesOn(h: History, i: nat)
    requires CalmSave(h) && Savable(h.states[0]) && 0 < i < |h.commands|
    ensures var disk := h.states[0];
      h.states[i] == disk.(work := disk.work.(save := Some(Progress(disk.changes, i - 1))))
    ensures !h.replies[i - 1].Failed?
    decreases i
  {
    if i > 1 {
      SaveGoesOn(h, i - 1);
    }
    assert StepAt(h, i - 1);
    CalmIff(h.owner, h.codec, h.states[i - 1], h.commands[i - 1], h.fates[i - 1], h.replies[i - 1], h.states[i]);
  }

  /** A save in which nothing goes wrong succeeds at every step and leaves a file that
      opens, for its owner, to the array as it was; discarding then changes nothing. */
  lemma SaveCompletes(h: History)
    requires CalmSave(h) && Savable(h.states[0])
    ensures forall i :: 0 <= i < |h.replies| ==> !h.replies[i].Failed?
    ensures var n := |h.replies| - 1; h.replies[n].Saved? && Opens(h.owner, h.replies[n].file, h.states[0].view)
    ensures h.states[|h.commands|].view == h.states[|h.commands|].saved == h.states[0].view
  {
    var n := |h.commands| - 1;
    forall i | 0 <= i < n
      ensures !h.replies[i].Failed?
    {
      SaveGoesOn(h, i + 1);
    }
    SaveGoesOn(h, n);
    assert StepAt(h, n);
    CalmIff(h.owner, h.codec, h.states[n], h.commands[n], h.fates[n], h.replies[n], h.states[n + 1]);
  }

  // Saved states.

  /** A state saved of a disk and prepared again over the same file gives the array as
      it was at the save, with the machine state and metadata that went in. */
  lemma SaveRestores(
    owner: Identity, c: SF.Codec, atSave: FlatDisk, fields: seq<Byte>, state: seq<Byte>, file: seq<Octet>,
    before: FlatDisk, command: Command, fate: Fate, reply: Reply, after: FlatDisk)
    requires SF.Faithful(c) && StateSaved(c, atSave, fields, state, file)
    requires SameDisk(before, atSave)
    requires command.PrepareState? && StateStream.Flatten(command.chunks) == file
    requires StepOk(owner, c, before, command, fate, reply, after) && !reply.Failed?
    ensures after.candidate.Some? && after.candidate.value.view == atSave.view
    ensures reply.Prepared? && reply.state == state && reply.meta.info.fields == fields
  {
    RestoredAsSaved(
      c, atSave, fields, state, file, before, command.chunks, command.declared, command.prefetch, reply.meta,
      reply.state, after);
  }

  lemma RestoredAsSaved(
    c: SF.Codec, atSave: FlatDisk, fields: seq<Byte>, state: seq<Byte>, file: seq<Octet>, before: FlatDisk,
    chunks: seq<seq<Octet>>, declared: Option<nat>, prefetch: bool, meta: SF.Meta, found: seq<Byte>, after: FlatDisk)
    requires SF.Faithful(c) && StateSaved(c, atSave, fields, state, file) && SameDisk(before, atSave)
    requires StateStream.Flatten(chunks) == file && Restores(c, before, chunks, declared, prefetch, meta, found, after)
    ensures after.candidate.Some? && after.candidate.value.view == atSave.view
    ensures found == state && meta.info.fields == fields
  {
    var overlay, dirty, nonce, salts :| Encoded(c, atSave, fields, state, file, overlay, dirty, nonce, salts);
    var spelt, d := RestoredFrom(c, before, chunks, declared, prefetch, meta, found, after);
    SavedDecodes(c, atSave, fields, state, file, declared, overlay, dirty, nonce, salts);
    SectorCodec.OneMap(overlay, dirty, d, |before.saved|);
  }

  lemma RestoredFrom(
    c: SF.Codec, before: FlatDisk, chunks: seq<seq<Octet>>, declared: Option<nat>, prefetch: bool, meta: SF.Meta,
    state: seq<Byte>, after: FlatDisk)
    returns (overlay: seq<Byte>, dirty: Sectors)
    requires Restores(c, before, chunks, declared, prefetch, meta, state, after)
    ensures SF.DecodeFile(c, SF.VaultOf(before.ident.disk), before.ident.base, StateStream.Flatten(chunks), declared) ==
      Some(SF.Decoded(meta, state, overlay))
    ensures SectorCodec.Serialises(overlay, dirty, |before.saved|) && Restored(before, dirty, after, prefetch)
  {
    overlay, dirty :|
      && Decodes(c, before.ident, chunks, declared, SF.Decoded(meta, state, overlay))
      && SectorCodec.Serialises(overlay, dirty, |before.saved|) && Restored(before, dirty, after, prefetch);
  }

  // The same file behind the array.
  ghost predicate SameDisk(a: FlatDisk, b: FlatDisk) {
    a.saved == b.saved && a.ident == b.ident && a.remote == b.remote
  }

  lemma SavedDecodes(
    c: SF.Codec, disk: FlatDisk, fields: seq<Byte>, state: seq<Byte>, file: seq<Octet>, declared: Option<nat>,
    overlay: seq<Byte>, dirty: Sectors, nonce: seq<Byte>, salts: seq<seq<Octet>>)
    requires SF.Faithful(c) && Encoded(c, disk, fields, state, file, overlay, dirty, nonce, salts)
    ensures var d := SF.DecodeFile(c, SF.VaultOf(disk.ident.disk), disk.ident.base, file, declared);
      var whole := SF.Decoded(SF.Meta(InfoOf(disk, fields), |state|, |overlay|), state, overlay);
      (d.Some? ==> d.value == whole) && (declared.None? || declared.value == |file| ==> d == Some(whole))
  {
    var v := SF.VaultOf(disk.ident.disk);
    SF.VaultIdeal(disk.ident.disk);
    SF.RoundTrip(c, v, disk.ident.base, nonce, salts, InfoOf(disk, fields), state, overlay);
    SF.DeclaredOnlyRefuses(c, v, disk.ident.base, file, declared);
  }

  /** Such a state can be prepared whenever no save is in the way. */
  lemma SavedFits(
    c: SF.Codec, atSave: FlatDisk, fields: seq<Byte>, state: seq<Byte>, file: seq<Octet>, before: FlatDisk,
    chunks: seq<seq<Octet>>, declared: Option<nat>, prefetch: bool)
    requires SF.Faithful(c) && StateSaved(c, atSave, fields, state, file) && SameDisk(before, atSave)
    requires StateStream.Flatten(chunks) == file && (declared.None? || declared.value == |file|)
    requires before.work.save.None? && (prefetch ==> before.remote.Some?)
    ensures Preparable(c, before, chunks, declared, prefetch)
  {
    var overlay, dirty, nonce, salts :| Encoded(c, atSave, fields, state, file, overlay, dirty, nonce, salts);
    SavedDecodes(c, atSave, fields, state, file, declared, overlay, dirty, nonce, salts);
    var d := SF.Decoded(SF.Meta(InfoOf(atSave, fields), |state|, |overlay|), state, overlay);
    assert Decodes(c, before.ident, chunks, declared, d);
    assert Fits(c, before, chunks, declared, d, dirty);
  }

  lemma {:induction false} SameFile(h: History, i: nat, j: nat)
    requires Trace(h) && i <= j < |h.states|
    requires forall k :: i <= k < j ==> !h.commands[k].Accept? || h.replies[k].Failed?
    ensures SameDisk(h.states[j], h.states[i])
    decreases j
  {
    if i < j {
      SameFile(h, i, j - 1);
      assert StepAt(h, j - 1);
    }
  }

  // A state is saved at `i`, its file prepared at `j` and the token committed at `k`,
  // with no save of the disk to a new file between `i` and `j`.
  ghost predicate RoundTrip(h: History, i: nat, j: nat, k: nat) {
    && Trace(h) && i < j < k < |h.commands| && TokensOk(h.states[0])
    && h.commands[i].SaveState? && h.replies[i].StateFile?
    && h.commands[j].PrepareState? && StateStream.Flatten(h.commands[j].chunks) == h.replies[i].file
    && h.commands[k].CommitState?
    && forall n :: i <= n < j ==> !h.commands[n].Accept? || h.replies[n].Failed?
  }

  /** Through any run a state that is saved, prepared and committed brings the array
      back to what it was. */
  lemma StateComesBack(h: History, i: nat, j: nat, k: nat)
    requires RoundTrip(h, i, j, k) && SF.Faithful(h.codec)
    requires h.replies[j].Prepared? && h.commands[k].token == h.replies[j].token && !h.replies[k].Failed?
    ensures h.states[k + 1].view == h.states[i].view
    ensures h.replies[j].state == h.commands[i].state && h.replies[j].meta.info.fields == h.commands[i].fields
  {
    PreparedAsSaved(h, i, j, k);
    TokenReads(h, j, k);
  }

  lemma PreparedAsSaved(h: History, i: nat, j: nat, k: nat)
    requires RoundTrip(h, i, j, k) && SF.Faithful(h.codec) && h.replies[j].Prepared?
    ensures TokensOk(h.states[j])
    ensures h.states[j + 1].candidate.Some? && h.states[j + 1].candidate.value.view == h.states[i].view
    ensures h.replies[j].state == h.commands[i].state && h.replies[j].meta.info.fields == h.commands[i].fields
  {
    assert StepAt(h, i);
    assert StepAt(h, j);
    SameFile(h, i, j);
    TokensAlways(h, j);
    SaveRestores(
      h.owner, h.codec, h.states[i], h.commands[i].fields, h.commands[i].state, h.replies[i].file, h.states[j],
      h.commands[j], h.fates[j], h.replies[j], h.states[j + 1]);
  }

  // At `j` and `k` nothing goes wrong, no save is in the way of the preparation and
  // nothing has made the candidate stale before the commit.
  ghost predicate CalmRestoration(h: History, i: nat, j: nat, k: nat)
    requires RoundTrip(h, i, j, k)
  {
    && h.fates[j].calm && h.fates[k].calm
    && (h.commands[j].declared.None? || h.commands[j].declared.value == |h.replies[i].file|)
    && h.states[j].work.save.None? && (h.commands[j].prefetch ==> h.states[j].remote.Some?)
    && h.commands[k].token == h.states[j].tokens + 1 && Committable(h.states[k], h.commands[k].token)
  }

  /** And if nothing goes wrong it is sure to do so: the preparation succeeds, and the
      array is back, even if the transport then fails to be told. */
  lemma RestorationCompletes(h: History, i: nat, j: nat, k: nat)
    requires RoundTrip(h, i, j, k) && CalmRestoration(h, i, j, k) && SF.Faithful(h.codec)
    ensures h.replies[j].Prepared? && h.replies[j].token == h.commands[k].token
    ensures h.states[k + 1].view == h.states[i].view
    ensures h.replies[k].Failed? <==> FailsLate(h.states[k], h.commands[k], h.fates[k])
  {
    PreparationCompletes(h, i, j, k);
    PreparedAsSaved(h, i, j, k);
    TokenNames(h, j, k);
    CommitCompletes(h, k);
  }

  lemma PreparationCompletes(h: History, i: nat, j: nat, k: nat)
    requires RoundTrip(h, i, j, k) && CalmRestoration(h, i, j, k) && SF.Faithful(h.codec)
    ensures h.replies[j].Prepared? && h.replies[j].token == h.commands[k].token
  {
    assert StepAt(h, i);
    assert StepAt(h, j);
    SameFile(h, i, j);
    var command := h.commands[j];
    SavedFits(
      h.codec, h.states[i], h.commands[i].fields, h.commands[i].state, h.replies[i].file, h.states[j],
      command.chunks, command.declared, command.prefetch);
    CalmIff(h.owner, h.codec, h.states[j], command, h.fates[j], h.replies[j], h.states[j + 1]);
  }

  lemma CommitCompletes(h: History, k: nat)
    requires Trace(h) && k < |h.commands| && h.commands[k].CommitState? && h.fates[k].calm
    requires Committable(h.states[k], h.commands[k].token)
    ensures h.states[k + 1].view == h.states[k].candidate.value.view
    ensures h.replies[k].Failed? <==> FailsLate(h.states[k], h.commands[k], h.fates[k])
  {
    assert StepAt(h, k);
    CalmIff(h.owner, h.codec, h.states[k], h.commands[k], h.fates[k], h.replies[k], h.states[k + 1]);
  }
}
