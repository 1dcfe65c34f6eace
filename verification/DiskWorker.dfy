/** The disk worker of src/disk/web/worker.js over the engine: it keeps the source
    table, collects the parts of a save and commits the assembled file, saves and
    restores machine states. Runs are arbitrary sequences of commands, each of which
    may fail or be cancelled. */
module DiskWorker {
  import opened Octets
  import opened Envelope
  import opened DiskHeader
  import opened DiskView
  import opened DiskImage
  import opened DiskEngine
  import opened FlatDisk
  import SectorCodec
  import SF = StateFormat
  import StateStream

  // What is left of the outside world: the text codecs, and the value that each
  // symbol of a stored file has as a byte.
  datatype World = World(codec: SF.Codec, wire: Octet -> Byte)

  function Wire(wire: Octet -> Byte, content: seq<Octet>): (r: seq<Byte>)
    ensures |r| == |content|
  {
    seq(|content|, i requires 0 <= i < |content| => wire(content[i]))
  }

  // `state_base`: the header of the file behind the disk.
  function BaseOf(wire: Octet -> Byte, content: seq<Octet>): seq<Byte> {
    Wire(wire, if |content| < DISK_HEADER then content else content[..DISK_HEADER])
  }

  // A vault command on the disk is the same command beside any candidate.
  predicate VaultCommand(command: Command) {
    !command.PrepareState? && !command.CandidateRead? && !command.CommitState? && !command.DiscardState?
  }

  // The same array with another candidate beside it.
  function With(disk: FlatDisk, held: Option<Held>, tokens: nat): FlatDisk {
    disk.(candidate := held, tokens := tokens)
  }

  lemma StepKeepsCandidate(
    owner: Identity, c: SF.Codec, before: FlatDisk, command: Command, fate: Fate, reply: Reply, after: FlatDisk,
    held: Option<Held>, tokens: nat)
    requires VaultCommand(command) && before == With(before, None, 0) && after == With(after, None, 0)
    requires StepOk(owner, c, before, command, fate, reply, after)
    ensures var still := if command.Accept? && !reply.Failed? then Away(held) else held;
      StepOk(owner, c, With(before, held, tokens), command, fate, reply, With(after, still, tokens))
  {
    if reply.Failed? {
      FailureKeepsCandidate(c, before, command, fate, after, held, tokens);
    } else if command.SaveState? {
      SavedBeside(c, before, With(before, held, tokens), command.fields, command.state, reply.file);
    } else {
      SuccessKeepsCandidate(owner, c, before, command, reply, after, held, tokens);
    }
  }

  lemma FailureKeepsCandidate(
    c: SF.Codec, before: FlatDisk, command: Command, fate: Fate, after: FlatDisk, held: Option<Held>, tokens: nat)
    requires VaultCommand(command) && before == With(before, None, 0) && after == With(after, None, 0)
    requires FailureOk(c, before, command, fate, after)
    ensures FailureOk(c, With(before, held, tokens), command, fate, With(after, held, tokens))
  {
    if command.SaveState? && fate.calm {
      UnsavableBeside(c, before, With(before, held, tokens), command.fields, command.state);
    }
  }

  lemma SuccessKeepsCandidate(
    owner: Identity, c: SF.Codec, before: FlatDisk, command: Command, reply: Reply, after: FlatDisk,
    held: Option<Held>, tokens: nat)
    requires VaultCommand(command) && !command.SaveState?
    requires before == With(before, None, 0) && after == With(after, None, 0)
    requires Allowed(c, before, command) && SuccessOk(owner, c, before, command, reply, after)
    ensures Allowed(c, With(before, held, tokens), command)
    ensures var still := if command.Accept? then Away(held) else held;
      SuccessOk(owner, c, With(before, held, tokens), command, reply, With(after, still, tokens))
  {
  }

  lemma SavedBeside(
    c: SF.Codec, before: FlatDisk, beside: FlatDisk, fields: seq<Byte>, state: seq<Byte>, file: seq<Octet>)
    requires StateSaved(c, before, fields, state, file) && SameDisk(beside, before) && beside.view == before.view
    ensures StateSaved(c, beside, fields, state, file)
  {
    var overlay, dirty, nonce, salts :| Encoded(c, before, fields, state, file, overlay, dirty, nonce, salts);
    assert InfoOf(beside, fields) == InfoOf(before, fields);
    assert Encoded(c, beside, fields, state, file, overlay, dirty, nonce, salts);
  }

  lemma UnsavableBeside(c: SF.Codec, before: FlatDisk, beside: FlatDisk, fields: seq<Byte>, state: seq<Byte>)
    requires Unsavable(c, before, fields, state) && SameDisk(beside, before) && beside.view == before.view
    ensures Unsavable(c, beside, fields, state)
  {
    var overlay, dirty :|
      Differs(before, overlay, dirty) && !SF.Encodable(c, InfoOf(before, fields), state, overlay);
    assert Differs(beside, overlay, dirty);
  }

  // A command that is not calm may fail before it does anything.
  lemma Refused(owner: Identity, c: SF.Codec, before: FlatDisk, command: Command, fate: Fate, error: Error)
    requires !fate.calm
    ensures StepOk(owner, c, before, command, fate, Failed(error), before)
  {
  }

  lemma AcceptOk(owner: Identity, c: SF.Codec, before: FlatDisk, fate: Fate, file: seq<Octet>, after: FlatDisk)
    requires Allowed(c, before, Accept) && Opens(owner, file, before.view) && before.candidate.None?
    requires after == before.(
      saved := before.view, changes := before.changes + 1, ident := after.ident, remote := None,
      work := Work(before.work.clean, None, None))
    ensures StepOk(owner, c, before, Accept, fate, Saved(file), after)
  {
  }

  lemma CommitRefused(owner: Identity, c: SF.Codec, before: FlatDisk, t: nat, fate: Fate)
    requires fate.calm ==> !Committable(before, t)
    ensures StepOk(owner, c, before, CommitState(t), fate, Failed(Operation), before)
  {
  }

  lemma CommitOk(owner: Identity, c: SF.Codec, before: FlatDisk, t: nat, fate: Fate, reply: Reply)
    requires Committable(before, t) && (reply.Failed? <==> fate.late && LateCommit(before, t))
    ensures StepOk(owner, c, before, CommitState(t), fate, reply, Committed(before))
  {
  }

  // Dropping the candidate first makes no difference to preparing a new one.
  lemma DropFirst(
    c: SF.Codec, before: FlatDisk, chunks: seq<seq<Octet>>, declared: Option<nat>, prefetch: bool, meta: SF.Meta,
    state: seq<Byte>, after: FlatDisk)
    requires Restores(c, Dropped(before), chunks, declared, prefetch, meta, state, after)
    ensures Restores(c, before, chunks, declared, prefetch, meta, state, after)
  {
    var overlay, d :|
      && Decodes(c, before.ident, chunks, declared, SF.Decoded(meta, state, overlay)) && Belongs(Dropped(before), meta)
      && SectorCodec.Serialises(overlay, d, |before.saved|) && Restored(Dropped(before), d, after, prefetch);
    assert Restored(before, d, after, prefetch);
    assert Belongs(before, meta);
  }

  lemma DroppedToo(
    c: SF.Codec, before: FlatDisk, chunks: seq<seq<Octet>>, declared: Option<nat>, prefetch: bool)
    ensures Preparable(c, before, chunks, declared, prefetch) ==>
      Preparable(c, Dropped(before), chunks, declared, prefetch)
  {
    if Preparable(c, before, chunks, declared, prefetch) {
      var d, dirty :| Fits(c, before, chunks, declared, d, dirty);
      assert Fits(c, Dropped(before), chunks, declared, d, dirty);
    }
  }

  lemma PreparableBefore(
    c: SF.Codec, before: FlatDisk, chunks: seq<seq<Octet>>, declared: Option<nat>, prefetch: bool)
    requires Preparable(c, Dropped(before), chunks, declared, prefetch)
    ensures Preparable(c, before, chunks, declared, prefetch)
  {
    var d, dirty :| Fits(c, Dropped(before), chunks, declared, d, dirty);
    assert Fits(c, before, chunks, declared, d, dirty);
  }

  lemma PrepareOk(
    owner: Identity, c: SF.Codec, before: FlatDisk, chunks: seq<seq<Octet>>, declared: Option<nat>, prefetch: bool,
    fate: Fate, reply: Reply, after: FlatDisk)
    requires reply.Failed? ==> after == Dropped(before)
    requires reply.Failed? && fate.calm ==> !Preparable(c, Dropped(before), chunks, declared, prefetch)
    requires !reply.Failed? ==> reply.Prepared? && reply.token == before.tokens + 1
    requires !reply.Failed? ==> Preparable(c, Dropped(before), chunks, declared, prefetch)
    requires !reply.Failed? ==>
      Restores(c, Dropped(before), chunks, declared, prefetch, reply.meta, reply.state, after)
    ensures StepOk(owner, c, before, PrepareState(chunks, declared, prefetch), fate, reply, after)
  {
    DroppedToo(c, before, chunks, declared, prefetch);
    if !reply.Failed? {
      DropFirst(c, before, chunks, declared, prefetch, reply.meta, reply.state, after);
      PreparableBefore(c, before, chunks, declared, prefetch);
    }
  }

  lemma PreparableOnly(
    c: SF.Codec, before: FlatDisk, chunks: seq<seq<Octet>>, declared: Option<nat>, prefetch: bool)
    ensures Preparable(c, before, chunks, declared, prefetch) ==>
      var d := SF.DecodeFile(
        c, SF.VaultOf(before.ident.disk), before.ident.base, StateStream.Flatten(chunks), declared);
      && d.Some? && Belongs(before, d.value.meta)
      && exists dirty :: SectorCodec.Serialises(d.value.overlay, dirty, |before.saved|)
  {
    if Preparable(c, before, chunks, declared, prefetch) {
      var d, dirty :| Fits(c, before, chunks, declared, d, dirty);
    }
  }

  lemma RestoresFrom(
    c: SF.Codec, before: FlatDisk, chunks: seq<seq<Octet>>, declared: Option<nat>, prefetch: bool, d: SF.Decoded,
    dirty: Sectors, after: FlatDisk)
    requires Decodes(c, before.ident, chunks, declared, d) && Belongs(before, d.meta)
    requires SectorCodec.Serialises(d.overlay, dirty, |before.saved|) && Restored(before, dirty, after, prefetch)
    ensures Restores(c, before, chunks, declared, prefetch, d.meta, d.state, after)
    ensures Preparable(c, before, chunks, declared, prefetch)
  {
    assert Fits(c, before, chunks, declared, d, dirty);
  }

  class Worker {
    const owner: Identity
    const world: World
    var vault: Engine
    var remote: Option<seq<Byte>>   // the publication that the open source is, which is told of changes
    var tokens: nat
    var candidate: Engine?
    var stamp: nat
    var token: nat
    var prefetch: bool
    var files: map<Source, seq<Octet>>
    var serial: nat
    var parts: seq<Octet>

    ghost function CandidateRepr(): set<object?>
      reads this`candidate, candidate, if candidate == null then {} else {candidate.image}
    {
      if candidate == null then {} else candidate.Repr()
    }

    ghost function Repr(): set<object?>
      reads this`vault, this`candidate, vault, vault.image, candidate,
        if candidate == null then {} else {candidate.image}
    {
      {this} + vault.Repr() + CandidateRepr()
    }

    // An engine of this owner that reads its file through the source table.
    ghost predicate Served(e: Engine)
      reads this`files, this`serial, e, e.image, e.Parts()
    {
      && e.Valid() && e.identity == Some(owner)
      && e.image != null && e.image.source <= serial
      && (e.image.source in files ==> files[e.image.source] == e.image.content)
    }

    ghost predicate Open()
      reads this`vault, this`files, this`serial, vault, vault.image, vault.Parts()
    {
      Served(vault) && vault.image.source in files && DISK_HEADER <= |vault.image.content|
    }

    ghost predicate VaultOk()
      reads this`vault, this`files, this`serial, this`parts, vault, vault.image, vault.Parts()
    {
      Open() && (vault.build.Some? ==> parts == vault.Assembled())
    }

    // Sources are named once, so the same name is the same file.
    ghost predicate SameFile(e: Engine)
      reads this`vault, vault, vault.image, e, e.image
    {
      e.image != null && vault.image != null &&
      (e.image.source == vault.image.source ==>
        e.image.base == vault.image.base && e.image.content == vault.image.content && e.image.disk == vault.image.disk)
    }

    ghost predicate CandidateOk()
      reads this`vault, this`candidate, this`stamp, this`files, this`serial, vault, vault.image, candidate
      reads if candidate == null then {} else {candidate.image}, CandidateRepr()
    {
      candidate != null ==> Apart(candidate) && candidate.revision == stamp + 1 && candidate.Doing() == IDLE
    }

    // An engine that shares nothing that changes with the open disk.
    ghost predicate Apart(e: Engine)
      reads this`vault, this`files, this`serial, vault, vault.image, e, e.image, e.Parts()
    {
      Served(e) && e.build.None? && SameFile(e) && vault.Repr() !! e.Repr()
    }

    ghost predicate Valid()
      reads this`vault, this`candidate, this`stamp, this`files, this`serial, this`parts, vault, vault.image,
        vault.Parts(), candidate
      reads if candidate == null then {} else {candidate.image}, CandidateRepr()
    {
      VaultOk() && CandidateOk()
    }

    // What an operation on the open disk leaves alone: the candidate, the bytes behind
    // every source named so far and, unless it moved to a new one, the open source.
    twostate predicate Kept(moved: bool)
      reads this, vault, vault.image
    {
      && vault == old(vault) && candidate == old(candidate) && stamp == old(stamp)
      && token == old(token) && prefetch == old(prefetch) && tokens == old(tokens)
      && fresh(vault.Repr() - old(vault.Repr()))
      && old(serial) <= serial
      && (forall s :: s in files && s <= old(serial) ==> s in old(files) && files[s] == old(files)[s])
      && vault.image != null && old(vault.image) != null
      && (moved ==> vault.image.source > old(serial))
      && (!moved ==>
        vault.image.source == old(vault.image.source) && vault.image.base == old(vault.image.base)
        && vault.image.content == old(vault.image.content) && vault.image.disk == old(vault.image.disk))
    }

    ghost function State(): FlatDisk
      requires Valid()
      reads this, vault, vault.image, vault.Parts(), candidate
      reads if candidate == null then {} else {candidate.image}, CandidateRepr()
    {
      Main().(tokens := tokens, candidate :=
        if candidate == null then None
        else Some(Held(candidate.View(), stamp, token, prefetch, vault.image.source == candidate.image.source)))
    }

    // The state but for the candidate.
    ghost function Main(): FlatDisk
      requires Open()
      reads this`vault, this`files, this`serial, this`remote, vault, vault.image, vault.Parts()
    {
      FlatDisk(
        vault.View(), vault.image.base, vault.revision, Identified(vault.image), remote, vault.Doing(), 0, None)
    }

    ghost function Identified(image: Image): Ident { Ident(image.disk, BaseOf(world.wire, image.content)) }

    // The worker of an identity that has a disk open.
    constructor (
      vault: Engine, world: World, files: map<Source, seq<Octet>>, serial: nat, remote: Option<seq<Byte>>)
      requires vault.Valid() && vault.identity.Some? && vault.image != null && vault.build.None?
      requires vault.image.source <= serial
      requires vault.image.source in files && files[vault.image.source] == vault.image.content
      requires DISK_HEADER <= |vault.image.content|
      ensures Valid() && this.vault == vault && candidate == null && this.world == world && TokensOk(State())
    {
      owner, this.world := vault.identity.value, world;
      this.vault, this.files, this.serial, this.remote, parts := vault, files, serial, remote, [];
      candidate, stamp, token, tokens, prefetch := null, 0, 0, 0, false;
    }

    /** One command. It may be cancelled while it waits for its turn, or be refused. */
    method Execute(command: Command, fate: Fate) returns (reply: Reply)
      requires Valid()
      modifies Repr()
      ensures Valid() && fresh(Repr() - old(Repr()))
      ensures StepOk(owner, world.codec, old(State()), command, fate, reply, State())
    {
      var refused: bool := *;
      if refused && !fate.calm {
        reply := Failed(Cancelled);
        Refused(owner, world.codec, State(), command, fate, Cancelled);
      } else {
        reply := Perform(command, fate);
      }
    }

    method Perform(command: Command, fate: Fate) returns (reply: Reply)
      requires Valid()
      modifies Repr()
      ensures Valid() && fresh(Repr() - old(Repr()))
      ensures StepOk(owner, world.codec, old(State()), command, fate, reply, State())
    {
      if VaultCommand(command) {
        reply := OnVault(command, fate);
      } else {
        reply := OnCandidate(command, fate);
      }
    }

    method OnCandidate(command: Command, fate: Fate) returns (reply: Reply)
      requires Valid() && !VaultCommand(command)
      modifies this, CandidateRepr()
      ensures Valid() && fresh(Repr() - old(Repr()))
      ensures StepOk(owner, world.codec, old(State()), command, fate, reply, State())
    {
      if command.PrepareState? {
        reply := Prepare(command.chunks, command.declared, command.prefetch, fate);
      } else if command.CandidateRead? {
        reply := ReadCandidate(command.token, command.from, command.count, fate);
      } else if command.CommitState? {
        reply := Restore(command.token, fate);
      } else {
        reply := DropCandidate(command.token, fate);
      }
    }

    // The candidate and the open disk have nothing in common that changes.
    twostate lemma Beside(moved: bool)
      requires old(Valid()) && VaultOk() && Kept(moved)
      requires old(candidate) != null ==> unchanged(old(CandidateRepr()))
      ensures CandidateOk() && CandidateRepr() == old(CandidateRepr())
      ensures State().candidate == if moved then Away(old(State()).candidate) else old(State()).candidate
    {
    }

    // A command on the open disk does not disturb the candidate.
    method OnVault(command: Command, fate: Fate) returns (reply: Reply)
      requires Valid() && VaultCommand(command)
      modifies this, vault.Repr()
      ensures Valid() && fresh(Repr() - old(Repr()))
      ensures StepOk(owner, world.codec, old(State()), command, fate, reply, State())
    {
      reply := Dispatch(command, fate);
      Beside(command.Accept? && !reply.Failed?);
      StepKeepsCandidate(
        owner, world.codec, old(Main()), command, fate, reply, Main(), old(State()).candidate, old(tokens));
    }

    method Dispatch(command: Command, fate: Fate) returns (reply: Reply)
      requires VaultOk() && VaultCommand(command)
      modifies this, vault.Repr()
      ensures VaultOk() && Kept(command.Accept? && !reply.Failed?)
      ensures StepOk(owner, world.codec, old(Main()), command, fate, reply, Main())
    {
      if command.Read? {
        reply := ReadView(command.offset, command.len, fate);
      } else if command.Write? {
        reply := WriteView(command.at, command.bytes, fate);
      } else if command.BeginSave? {
        reply := Begin(fate);
      } else if command.Next? {
        reply := Collect(fate);
      } else if command.Accept? {
        reply := Commit(fate);
      } else if command.AcceptUnchanged? {
        reply := DropUnchanged(fate);
      } else if command.Discard? {
        reply := Revert(fate);
      } else if command.VerifyStep? {
        reply := Verify(fate);
      } else if command.SaveState? {
        reply := Save(command.fields, command.state, fate);
      } else {
        reply := Trivial(command, fate);
      }
    }

    function Acknowledge(r: Result<()>): Reply { if r.Ok? then Done else Failed(r.error) }

    function Outside(fate: Fate): Io
      reads this`files
    {
      Io(files, map[], fate.calm)
    }

    method ReadView(offset: nat, len: nat, fate: Fate) returns (reply: Reply)
      requires VaultOk()
      modifies vault.Repr()
      ensures VaultOk() && Kept(false)
      ensures StepOk(owner, world.codec, old(Main()), Read(offset, len), fate, reply, Main())
    {
      var r := vault.Read(Outside(fate), offset, len);
      if r.Ok? {
        ShowsTold(r.value, vault.View(), offset);
      }
      reply := if r.Ok? then Data(r.value) else Failed(r.error);
    }

    method WriteView(at: nat, bytes: seq<Byte>, fate: Fate) returns (reply: Reply)
      requires VaultOk()
      modifies vault.Repr()
      ensures VaultOk() && Kept(false)
      ensures StepOk(owner, world.codec, old(Main()), Write(at, bytes), fate, reply, Main())
    {
      var r := vault.Write(Outside(fate), at, bytes);
      reply := Acknowledge(r);
    }

    method DropUnchanged(fate: Fate) returns (reply: Reply)
      requires VaultOk()
      modifies vault.Repr()
      ensures VaultOk() && Kept(false)
      ensures StepOk(owner, world.codec, old(Main()), AcceptUnchanged, fate, reply, Main())
    {
      var r := vault.AcceptUnchanged(fate.calm);
      reply := Acknowledge(r);
    }

    /** `discard`; a publication is told afterwards. */
    method Revert(fate: Fate) returns (reply: Reply)
      requires VaultOk()
      modifies vault.Repr()
      ensures VaultOk() && Kept(false)
      ensures Main() == Discarded(old(Main())) && (reply.Failed? <==> fate.late && remote.Some?)
      ensures StepOk(owner, world.codec, old(Main()), Discard, fate, reply, Main())
    {
      var _ := vault.Discard();
      reply := Acknowledge(Tell(fate.late));
    }

    // The open source, if it is a publication, is told that prefetching should stop;
    // the transport may fail, whatever has happened already.
    function Tell(fails: bool): (r: Result<()>)
      reads this`remote
      ensures r.Err? <==> remote.Some? && fails
    {
      if remote.Some? && fails then Err(IoError) else Ok(())
    }

    method Trivial(command: Command, fate: Fate) returns (reply: Reply)
      requires VaultOk() && (command.Cancel? || command.ClearCache? || command.VerifyStart?)
      modifies vault.Repr()
      ensures VaultOk() && Kept(false)
      ensures StepOk(owner, world.codec, old(Main()), command, fate, reply, Main())
    {
      reply := Done;
      if command.Cancel? {
        Stop(fate);
      } else if command.ClearCache? {
        Forget(fate);
      } else {
        StartVerify(fate);
      }
    }

    method Stop(fate: Fate)
      requires VaultOk()
      modifies vault.Repr()
      ensures VaultOk() && Kept(false)
      ensures StepOk(owner, world.codec, old(Main()), Cancel, fate, Done, Main())
    {
      vault.Cancel();
    }

    method Forget(fate: Fate)
      requires VaultOk()
      modifies vault.Repr()
      ensures VaultOk() && Kept(false)
      ensures StepOk(owner, world.codec, old(Main()), ClearCache, fate, Done, Main())
    {
      vault.ClearCache();
    }

    method StartVerify(fate: Fate)
      requires VaultOk()
      modifies vault.Repr()
      ensures VaultOk() && Kept(false)
      ensures StepOk(owner, world.codec, old(Main()), VerifyStart, fate, Done, Main())
    {
      var _ := vault.VerifyStart();
    }

    method Verify(fate: Fate) returns (reply: Reply)
      requires VaultOk()
      modifies vault.Repr()
      ensures VaultOk() && Kept(false)
      ensures StepOk(owner, world.codec, old(Main()), VerifyStep, fate, reply, Main())
    {
      var r := vault.VerifyStep(Outside(fate));
      reply := if r.Err? then Failed(r.error) else if r.value.Some? then Verified(r.value.value) else Done;
    }

    // `begin_save`, and the header as the first part when there is something to save.
    method Begin(fate: Fate) returns (reply: Reply)
      requires VaultOk()
      modifies this`parts, vault.Repr()
      ensures VaultOk() && Kept(false)
      ensures StepOk(owner, world.codec, old(Main()), BeginSave, fate, reply, Main())
    {
      var changed;
      reply, changed := Compare(fate);
      if changed {
        FirstPart();
      }
    }

    method Compare(fate: Fate) returns (reply: Reply, changed: bool)
      requires VaultOk()
      modifies vault.Repr()
      ensures Open() && Kept(false) && if changed then vault.build.Some? && vault.emitted == [] else VaultOk()
      ensures StepOk(owner, world.codec, old(Main()), BeginSave, fate, reply, Main())
    {
      var r := vault.BeginSave(Outside(fate));
      reply, changed := if r.Ok? then Done else Failed(r.error), r == Ok(true);
    }

    method FirstPart()
      requires Open() && vault.build.Some? && vault.emitted == []
      modifies this`parts
      ensures VaultOk() && Main() == old(Main())
    {
      var header := vault.Header();
      parts := header.value;
      assert parts == vault.Assembled();
    }

    // One record of the save, collected after the parts already there.
    method Collect(fate: Fate) returns (reply: Reply)
      requires VaultOk()
      modifies this`parts, vault.Repr()
      ensures VaultOk() && Kept(false)
      ensures StepOk(owner, world.codec, old(Main()), Next, fate, reply, Main())
    {
      var record;
      reply, record := Pull(fate);
      Append(record);
    }

    method Pull(fate: Fate) returns (reply: Reply, record: seq<Octet>)
      requires VaultOk()
      modifies vault.Repr()
      ensures Open() && Kept(false) && (vault.build.Some? ==> parts + record == vault.Assembled())
      ensures StepOk(owner, world.codec, old(Main()), Next, fate, reply, Main())
    {
      var r := vault.NextPart(Outside(fate));
      reply, record := if r.Ok? then Done else Failed(r.error), if r.Ok? then r.value else [];
    }

    method Append(record: seq<Octet>)
      requires Open() && (vault.build.Some? ==> parts + record == vault.Assembled())
      modifies this`parts
      ensures VaultOk() && Main() == old(Main())
    {
      parts := parts + record;
    }

    /** The end of `build`: the assembled parts become a source under a new name,
        which the engine commits or the worker drops. */
    method Commit(fate: Fate) returns (reply: Reply)
      requires VaultOk()
      modifies this`serial, this`files, this`remote, vault.Repr()
      ensures VaultOk() && Kept(!reply.Failed?)
      ensures StepOk(owner, world.codec, old(Main()), Accept, fate, reply, Main())
    {
      ghost var before := Main();
      var r := Replace(fate);
      reply := if r.Ok? then Saved(r.value) else Failed(r.error);
      if r.Ok? {
        AcceptOk(owner, world.codec, before, fate, r.value, Main());
      }
    }

    // The parts take the place of the file before the save, or are given up.
    method Replace(fate: Fate) returns (r: Result<seq<Octet>>)
      requires VaultOk()
      modifies this`serial, this`files, this`remote, vault.Repr()
      ensures VaultOk() && Kept(r.Ok?)
      ensures r.Ok? ==> Allowed(world.codec, old(Main()), Accept) && Opens(owner, r.value, old(Main()).view)
      ensures r.Ok? ==> Main() == old(Main()).(
        saved := old(Main()).view, changes := old(Main()).changes + 1, ident := Main().ident, remote := None,
        work := Work(old(Main()).work.clean, None, None))
      ensures r.Err? ==> Main() == old(Main())
      ensures r.Err? && fate.calm ==> !Allowed(world.codec, old(Main()), Accept)
    {
      var previous := vault.image.source;
      var file := parts;
      var accepted := Assemble(file, fate);
      Settle(accepted.Ok?, previous);
      r := if accepted.Ok? then Ok(file) else Err(accepted.error);
    }

    // The file before the save is given up, and the new one is local; or the new one is.
    method Settle(accepted: bool, previous: Source)
      requires VaultOk() && vault.image.source == if accepted then serial else previous
      requires previous < serial
      modifies this`files, this`remote
      ensures VaultOk() && files == old(files) - {if accepted then previous else serial}
      ensures Main() == if accepted then old(Main()).(remote := None) else old(Main())
    {
      files := files - {if accepted then previous else serial};
      remote := if accepted then None else remote;
    }

    method Assemble(file: seq<Octet>, fate: Fate) returns (r: Result<()>)
      requires VaultOk() && file == parts
      modifies this`serial, this`files, vault.Repr()
      ensures VaultOk() && Kept(r.Ok?) && serial == old(serial) + 1
      ensures files == old(files)[serial := file]
      ensures r.Ok? ==> vault.image.source == serial && Opens(owner, file, old(Main()).view)
      ensures r.Ok? ==> Allowed(world.codec, old(Main()), Accept)
      ensures r.Ok? ==> Main() == old(Main()).(
        saved := old(Main()).view, changes := old(Main()).changes + 1, ident := Main().ident,
        work := Work(old(Main()).work.clean, None, None))
      ensures r.Err? ==> Main() == old(Main()) && vault.image.source == old(vault.image.source)
      ensures r.Err? && fate.calm ==> !Allowed(world.codec, old(Main()), Accept)
    {
      Register(file);
      r := Adopt(file, fate);
    }

    method Adopt(file: seq<Octet>, fate: Fate) returns (r: Result<()>)
      requires VaultOk() && file == parts && vault.image.source < serial && serial in files && files[serial] == file
      modifies vault.Repr()
      ensures VaultOk() && fresh(vault.Repr() - old(vault.Repr())) && vault.image != null
      ensures r.Ok? ==> vault.image.source == serial && Opens(owner, file, old(Main()).view)
      ensures r.Ok? ==> Allowed(world.codec, old(Main()), Accept)
      ensures r.Ok? ==> Main() == old(Main()).(
        saved := old(Main()).view, changes := old(Main()).changes + 1, ident := Main().ident,
        work := Work(old(Main()).work.clean, None, None))
      ensures r.Err? ==> Main() == old(Main()) && vault.image == old(vault.image) && unchanged(vault.image)
      ensures r.Err? && fate.calm ==> !Allowed(world.codec, old(Main()), Accept)
    {
      r := vault.Accept(Outside(fate), serial, |file|);
    }

    method Register(file: seq<Octet>)
      requires VaultOk()
      modifies this`serial, this`files
      ensures VaultOk() && Main() == old(Main()) && serial == old(serial) + 1 && files == old(files)[serial := file]
    {
      serial := serial + 1;
      files := files[serial := file];
    }

    // `state_base`.
    method StateBase(fate: Fate) returns (r: Result<seq<Byte>>)
      requires VaultOk()
      ensures fate.calm ==> r.Ok?
      ensures r.Ok? ==> r.value == Main().ident.base && |r.value| == 198
    {
      var header := Exact(files, fate.calm, vault.image.source, 0, DISK_HEADER);
      if header.Err? {
        return Err(header.error);
      }
      r := Ok(Wire(world.wire, header.value));
    }

    method RandomSalts(fate: Fate) returns (r: Result<seq<seq<Octet>>>)
      ensures fate.calm ==> r.Ok?
      ensures r.Ok? ==> SF.SaltsFor(r.value, SF.LIMIT)
    {
      var salts: seq<seq<Octet>> := [];
      while |salts| < 1024
        invariant |salts| <= 1024 && forall i :: 0 <= i < |salts| ==> |salts[i]| == 32
      {
        var salt := Random(32, fate.calm);
        if salt.Err? {
          return Err(salt.error);
        }
        salts := salts + [Lift(salt.value)];
      }
      r := Ok(salts);
    }

    /** `saveState`: a file of the machine state and of the difference of the disk from
        its file. */
    method Save(fields: seq<Byte>, state: seq<Byte>, fate: Fate) returns (reply: Reply)
      requires VaultOk()
      ensures StepOk(owner, world.codec, Main(), SaveState(fields, state), fate, reply, Main())
    {
      var r := Ingredients(fate);
      if r.Err? {
        return Failed(r.error);
      }
      var (base, nonce, salts, overlay) := r.value;
      reply := Encode(base, nonce, salts, fields, state, overlay, fate);
    }

    method Ingredients(fate: Fate) returns (r: Result<(seq<Byte>, seq<Byte>, seq<seq<Octet>>, seq<Byte>)>)
      requires VaultOk()
      ensures r.Ok? ==> r.value.0 == Main().ident.base && |r.value.0| == 198 && |r.value.1| == 16
      ensures r.Ok? ==> SF.SaltsFor(r.value.2, SF.LIMIT) && Differs(Main(), r.value.3, vault.image.dirty)
      ensures fate.calm ==> r.Ok?
    {
      var base :- StateBase(fate);
      var salts :- RandomSalts(fate);
      var nonce :- Random(16, fate.calm);
      var overlay := vault.StateOverlay();
      r := Ok((base, nonce, salts, overlay.value));
    }

    method Encode(
      base: seq<Byte>, nonce: seq<Byte>, salts: seq<seq<Octet>>, fields: seq<Byte>, state: seq<Byte>,
      overlay: seq<Byte>, fate: Fate)
      returns (reply: Reply)
      requires VaultOk() && base == Main().ident.base && |base| == 198 && |nonce| == 16 && SF.SaltsFor(salts, SF.LIMIT)
      requires Differs(Main(), overlay, vault.image.dirty)
      ensures reply.Failed? || (reply.StateFile? && StateSaved(world.codec, Main(), fields, state, reply.file))
      ensures reply.Failed? && fate.calm ==> Unsavable(world.codec, Main(), fields, state)
    {
      var sizes: seq<nat> := *;
      var r := StateStream.EncodeState(
        world.codec, SF.VaultOf(vault.image.disk), base, nonce, salts, SF.Info(fields, remote), state, overlay, sizes,
        fate.calm);
      if r.Err? {
        assert fate.calm ==> !SF.Encodable(world.codec, InfoOf(Main(), fields), state, overlay);
        return Failed(r.error);
      }
      assert Encoded(world.codec, Main(), fields, state, r.value, overlay, vault.image.dirty, nonce, salts);
      reply := StateFile(r.value);
    }

    /** `prepareState`: the old candidate is dropped whatever happens next. */
    method Prepare(chunks: seq<seq<Octet>>, declared: Option<nat>, startPrefetch: bool, fate: Fate)
      returns (reply: Reply)
      requires Valid()
      modifies this`candidate, this`stamp, this`token, this`tokens, this`prefetch
      ensures Valid() && fresh(Repr() - old(Repr()))
      ensures StepOk(
        owner, world.codec, old(State()), PrepareState(chunks, declared, startPrefetch), fate, reply, State())
    {
      ghost var before := State();
      Drop();
      ghost var after;
      reply, after := PrepareNew(chunks, declared, startPrefetch, fate);
      PrepareOk(owner, world.codec, before, chunks, declared, startPrefetch, fate, reply, after);
    }

    method Drop()
      requires Valid()
      modifies this`candidate
      ensures Valid() && candidate == null && State() == Dropped(old(State()))
    {
      candidate := null;
    }

    method PrepareNew(chunks: seq<seq<Octet>>, declared: Option<nat>, startPrefetch: bool, fate: Fate)
      returns (reply: Reply, ghost after: FlatDisk)
      requires Valid() && candidate == null
      modifies this`candidate, this`stamp, this`token, this`tokens, this`prefetch
      ensures Valid() && (candidate != null ==> fresh(candidate.Repr())) && after == State()
      ensures reply.Failed? ==> after == old(State())
      ensures reply.Failed? && fate.calm ==>
        !Preparable(world.codec, old(State()), chunks, declared, startPrefetch)
      ensures !reply.Failed? ==> reply.Prepared? && reply.token == old(tokens) + 1
      ensures !reply.Failed? ==>
        && Preparable(world.codec, old(State()), chunks, declared, startPrefetch)
        && Restores(world.codec, old(State()), chunks, declared, startPrefetch, reply.meta, reply.state, after)
    {
      ghost var before := State();
      after := before;
      var d := Decode(chunks, declared, fate);
      reply := Failed(Operation);
      ghost var dirty: Sectors := map[];
      if d.Ok? && (startPrefetch ==> remote.Some?) {
        var held;
        held, dirty, after := TakeOver(d.value.overlay, startPrefetch);
        if held {
          reply := Prepared(token, d.value.meta, d.value.state);
          RestoresFrom(world.codec, before, chunks, declared, startPrefetch, d.value, dirty, after);
        }
      }
      PreparableOnly(world.codec, before, chunks, declared, startPrefetch);
    }

    // `fork_state`, and the fork becomes the candidate.
    method TakeOver(
      overlay: seq<Byte>, startPrefetch: bool) returns (held: bool, ghost dirty: Sectors, ghost after: FlatDisk)
      requires Valid() && candidate == null && (startPrefetch ==> remote.Some?)
      modifies this`candidate, this`stamp, this`token, this`tokens, this`prefetch
      ensures Valid() && (candidate != null ==> fresh(candidate.Repr())) && after == State()
      ensures !held ==> after == old(State())
      ensures !held ==>
        old(State()).work.save.Some? || forall d :: !SectorCodec.Serialises(overlay, d, |old(State()).saved|)
      ensures held ==> token == old(tokens) + 1 && SectorCodec.Serialises(overlay, dirty, |old(State()).saved|)
      ensures held ==> Restored(old(State()), dirty, after, startPrefetch)
    {
      after := State();
      var r;
      r, dirty := Fork(overlay);
      held := r.Ok?;
      if held {
        after := Hold(r.value, startPrefetch, dirty);
      }
    }

    // `decodeState` for the open disk, and the state must not name another publication.
    method Decode(chunks: seq<seq<Octet>>, declared: Option<nat>, fate: Fate) returns (r: Result<SF.Decoded>)
      requires VaultOk()
      ensures r.Ok? ==> Decodes(world.codec, Main().ident, chunks, declared, r.value) && Belongs(Main(), r.value.meta)
      ensures r.Err? && fate.calm ==>
        match SF.DecodeFile(
          world.codec, SF.VaultOf(vault.image.disk), Main().ident.base, StateStream.Flatten(chunks), declared)
        case None => true
        case Some(d) => !Belongs(Main(), d.meta)
    {
      var base :- StateBase(fate);
      var sizes: seq<nat> := *;
      var d, _ := StateStream.DecodeState(
        world.codec, SF.VaultOf(vault.image.disk), base, chunks, declared, sizes, fate.calm);
      r := if d.Ok? && d.value.meta.info.reference.Some? && remote.Some? && d.value.meta.info.reference != remote
        then Err(Corruption) else d;
    }

    method Fork(overlay: seq<Byte>) returns (r: Result<Engine>, ghost dirty: Sectors)
      requires VaultOk()
      ensures r.Ok? ==> fresh(r.value.Repr()) && Forked(r.value, dirty) && vault.build.None?
      ensures r.Err? ==>
        vault.build.Some? || forall d :: !SectorCodec.Serialises(overlay, d, |vault.image.base|)
      ensures r.Ok? ==> SectorCodec.Serialises(overlay, dirty, |vault.image.base|)
    {
      r := vault.ForkState(overlay);
      dirty := if r.Ok? then r.value.image.dirty else map[];
    }

    // Such an engine over the same file with other dirty sectors.
    ghost predicate Forked(e: Engine, dirty: Sectors)
      reads this`vault, this`files, this`serial, vault, vault.image, e, e.image, e.Parts()
    {
      && vault.image != null && Apart(e) && e.revision == vault.revision + 1 && e.Doing() == IDLE
      && e.image.source == vault.image.source
      && WellFormed(dirty, |vault.image.base|) && e.View() == Flat(vault.image.base, dirty)
    }

    method Hold(e: Engine, startPrefetch: bool, ghost dirty: Sectors) returns (ghost after: FlatDisk)
      requires Valid() && candidate == null && Forked(e, dirty) && (startPrefetch ==> remote.Some?)
      requires vault.build.None?
      modifies this`candidate, this`stamp, this`token, this`tokens, this`prefetch
      ensures Valid() && candidate == e && token == tokens == old(tokens) + 1
      ensures after == State() && Restored(old(State()), dirty, after, startPrefetch)
    {
      ghost var before := State();
      Keep(e, startPrefetch);
      after := State();
      HeldState(before, e, dirty);
    }

    method Keep(e: Engine, startPrefetch: bool)
      requires VaultOk() && Apart(e) && e.revision == vault.revision + 1 && e.Doing() == IDLE
      modifies this`candidate, this`stamp, this`token, this`tokens, this`prefetch
      ensures VaultOk() && CandidateOk() && candidate == e && token == tokens == old(tokens) + 1
      ensures stamp == vault.revision && prefetch == startPrefetch
    {
      Note(startPrefetch);
      candidate := e;
    }

    method Note(startPrefetch: bool)
      requires VaultOk()
      modifies this`stamp, this`token, this`tokens, this`prefetch
      ensures VaultOk() && token == tokens == old(tokens) + 1 && stamp == vault.revision && prefetch == startPrefetch
    {
      tokens := tokens + 1;
      stamp, token, prefetch := vault.revision, tokens, startPrefetch;
    }

    lemma HeldState(before: FlatDisk, e: Engine, dirty: Sectors)
      requires Valid() && candidate == e && Forked(e, dirty) && token == tokens == before.tokens + 1
      requires stamp == vault.revision && (prefetch ==> remote.Some?) && vault.build.None?
      requires before == Main().(tokens := before.tokens)
      ensures Restored(before, dirty, State(), prefetch)
    {
    }

    /** `candidateRead`: only with the token of the candidate. */
    method ReadCandidate(t: nat, from: nat, count: nat, fate: Fate) returns (reply: Reply)
      requires Valid()
      modifies CandidateRepr()
      ensures Valid() && fresh(Repr() - old(Repr()))
      ensures StepOk(owner, world.codec, old(State()), CandidateRead(t, from, count), fate, reply, State())
    {
      if candidate == null || t != token {
        return Failed(Operation);
      }
      reply := ReadHeld(from, count, fate);
    }

    method ReadHeld(from: nat, count: nat, fate: Fate) returns (reply: Reply)
      requires Valid() && candidate != null
      modifies CandidateRepr()
      ensures Valid() && fresh(Repr() - old(Repr())) && candidate == old(candidate) && State() == old(State())
      ensures reply.Failed? && fate.calm && Reachable(State()) ==> !Told(candidate.View(), from, count)
      ensures !reply.Failed? ==>
        && Told(candidate.View(), from, count) && reply.Data? && |reply.data| == count
        && Shows(reply.data, candidate.View(), from)
    {
      var r := candidate.Read(Outside(fate), from, count);
      if r.Ok? {
        ShowsTold(r.value, candidate.View(), from);
      }
      reply := if r.Ok? then Data(r.value) else Failed(r.error);
    }

    // `discardState`: with another token nothing happens.
    method DropCandidate(t: nat, fate: Fate) returns (reply: Reply)
      requires Valid()
      modifies this`candidate
      ensures Valid() && fresh(Repr() - old(Repr()))
      ensures StepOk(owner, world.codec, old(State()), DiscardState(t), fate, reply, State())
    {
      if t == token {
        Drop();
      }
      reply := Done;
    }

    /** `commitState`: refused once the disk or its source has changed. A remote source
        without a prefetch of its own is told afterwards, and that may fail. */
    method Restore(t: nat, fate: Fate) returns (reply: Reply)
      requires Valid()
      modifies this`vault, this`candidate
      ensures Valid() && fresh(Repr() - old(Repr()))
      ensures StepOk(owner, world.codec, old(State()), CommitState(t), fate, reply, State())
    {
      var admitted := Admits(t, fate);
      if admitted {
        reply := Proceed(t, fate);
      } else {
        reply := Failed(Operation);
        CommitRefused(owner, world.codec, State(), t, fate);
      }
    }

    method Admits(t: nat, fate: Fate) returns (admitted: bool)
      requires Valid()
      ensures admitted ==> Committable(State(), t)
      ensures !admitted && fate.calm ==> !Committable(State(), t)
    {
      if candidate == null || t != token || stamp != vault.revision || candidate.image.source != vault.image.source {
        return false;
      }
      var going := Check(fate.calm);
      admitted := going.Ok?;
    }

    // From here on the restoration happens, whatever is reported.
    method Proceed(t: nat, fate: Fate) returns (reply: Reply)
      requires Valid() && Committable(State(), t)
      modifies this`vault, this`candidate
      ensures Valid() && Repr() <= old(Repr())
      ensures State() == Committed(old(State())) && (reply.Failed? <==> fate.late && LateCommit(old(State()), t))
      ensures StepOk(owner, world.codec, old(State()), CommitState(t), fate, reply, State())
    {
      ghost var before := State();
      var running := prefetch;
      Swap(t);
      reply := if running then Done else Acknowledge(Tell(fate.late));
      CommitOk(owner, world.codec, before, t, fate, reply);
    }

    method Swap(t: nat)
      requires Valid() && Committable(State(), t)
      modifies this`vault, this`candidate
      ensures Valid() && vault == old(candidate) && candidate == null && Repr() <= old(Repr())
      ensures State() == Committed(old(State()))
    {
      vault, candidate := candidate, null;
    }

    /** A commit or a discard that has happened and reports an error: so it goes
        whenever the transport of a remote disk fails to be told. */
    method ReportLate(command: Command) returns (reply: Reply)
      requires Valid() && FailsLate(State(), command, Fate(true, true))
      modifies Repr()
      ensures Valid() && reply.Failed? && !Unchanged(old(State()), State())
      ensures State() == if command.Discard? then Discarded(old(State())) else Committed(old(State()))
    {
      ghost var before := State();
      reply := Execute(command, Fate(true, true));
      LateFailure(owner, world.codec, before, command, Fate(true, true), reply, State());
    }

    // One command of a run, keeping track of the objects used.
    method Step(command: Command, fate: Fate, ghost used: set<object?>)
      returns (reply: Reply, ghost using: set<object?>)
      requires Valid() && Repr() <= used
      modifies used
      ensures Valid() && Repr() <= using && used <= using && fresh(using - used)
      ensures StepOk(owner, world.codec, old(State()), command, fate, reply, State())
    {
      reply := Execute(command, fate);
      using := used + Repr();
    }

    // What has been run so far and what came of it.
    ghost predicate Follows(
        h: History, commands: seq<Command>, fates: seq<Fate>, replies: seq<Reply>)
    {
      && Trace(h) && h.commands == commands && h.fates == fates && h.replies == replies
      && h.owner == owner && h.codec == world.codec
    }

    /** Every run, whatever fails, refines the flat array step by step. */
    method Run(commands: seq<Command>, fates: seq<Fate>, ghost used: set<object?>)
      returns (replies: seq<Reply>, ghost h: History, ghost using: set<object?>)
      requires Valid() && Repr() <= used && |fates| == |commands|
      modifies used
      ensures Valid() && Repr() <= using && used <= using && fresh(using - used)
      ensures Follows(h, commands, fates, replies)
      ensures h.states[0] == old(State()) && h.states[|commands|] == State()
    {
      if |commands| == 0 {
        h := Nothing(State());
        return [], h, used;
      }
      var n := |commands| - 1;
      replies, h, using := Run(commands[..n], fates[..n], used);
      replies, h, using := Extend(h, commands, fates, replies, using);
    }

    lemma Nothing(disk: FlatDisk) returns (h: History)
      ensures Follows(h, [], [], []) && h.states == [disk]
    {
      h := History(owner, world.codec, [disk], [], [], []);
    }

    static lemma Last<T>(s: seq<T>, n: nat)
      requires |s| == n + 1
      ensures s == s[..n] + [s[n]]
    {
    }

    // The last command of a run.
    method Extend(
      ghost before: History, commands: seq<Command>, fates: seq<Fate>, said: seq<Reply>, ghost used: set<object?>)
      returns (replies: seq<Reply>, ghost h: History, ghost using: set<object?>)
      requires Valid() && Repr() <= used && |commands| == |fates| > 0
      requires Follows(before, commands[..|commands| - 1], fates[..|commands| - 1], said)
      requires before.states[|commands| - 1] == State()
      modifies used
      ensures Valid() && Repr() <= using && used <= using && fresh(using - used)
      ensures Follows(h, commands, fates, replies)
      ensures h.states[0] == before.states[0] && h.states[|commands|] == State()
    {
      var n := |commands| - 1;
      var reply;
      reply, using := Step(commands[n], fates[n], used);
      h := Extended(before, commands[n], fates[n], reply, State());
      TraceAppend(before, commands[n], fates[n], reply, State());
      Last(commands, n);
      Last(fates, n);
      replies := said + [reply];
    }
  }
}
