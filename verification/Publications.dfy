/** Signed publications and the order on them (src/torrent/my98_torrent/protocol.py). */
module Publications {

  const MAX_SEQUENCE := 0x1F_FFFF_FFFF_FFFF

  type Key = nat
  type Hash = nat

  datatype Option<+T> = None | Some(value: T)

  datatype Error = Invalid | Conflict | Busy | Failed

  datatype Result<+T> = Ok(value: T) | Err(error: Error)

  // What a key signs: the published name, or the seedbox locations.
  datatype Salt = ForNames | ForLocations

  datatype Record = Record(key: Key, salt: Salt, sequence: nat, value: Hash, signature: nat)

  type Signatures = Record -> bool

  /** `verify`: the sequence is in range and the signature is genuine. */
  predicate Verified(genuine: Signatures, r: Record) {
    1 <= r.sequence <= MAX_SEQUENCE && genuine(r)
  }

  /** `compare`: whether a record is news, an old acquaintance, or must be refused. */
  function Compare(genuine: Signatures, previous: Option<Record>, candidate: Record): Result<bool> {
    if !Verified(genuine, candidate) then Err(Invalid)
    else if previous.None? then Ok(true)
    else
      var p := previous.value;
      if !Verified(genuine, p) then Err(Invalid)
      else if p.key != candidate.key || p.salt != candidate.salt then Err(Invalid)
      else if candidate.sequence < p.sequence then Err(Conflict)
      else if candidate.sequence == p.sequence then if candidate.value != p.value then Err(Conflict) else Ok(false)
      else Ok(true)
  }

  /** `b` may stand where `a` stood: newer, or the same publication. */
  predicate Follows(a: Record, b: Record) {
    && a.key == b.key && a.salt == b.salt
    && a.sequence <= b.sequence && (a.sequence == b.sequence ==> a.value == b.value)
  }

  predicate FollowsAll(a: Option<Record>, b: Option<Record>) {
    a.Some? ==> b.Some? && Follows(a.value, b.value)
  }

  /** Comparing succeeds exactly when the candidate may replace what is there, and
      reports news exactly when its sequence is higher. */
  lemma CompareIff(genuine: Signatures, previous: Option<Record>, candidate: Record)
    requires previous.Some? ==> Verified(genuine, previous.value)
    ensures Compare(genuine, previous, candidate).Ok? <==>
      Verified(genuine, candidate) && (previous.Some? ==> Follows(previous.value, candidate))
    ensures Compare(genuine, previous, candidate) == Ok(true) ==>
      previous.None? || previous.value.sequence < candidate.sequence
    ensures Compare(genuine, previous, candidate) == Ok(false) ==>
      previous.Some? && previous.value.sequence == candidate.sequence
  {
  }

  function Max(a: nat, b: nat): nat { if a < b then b else a }

  /** The sequence a new record is signed with, at a given time. */
  function NextSequence(maximum: nat, now: int): Result<nat> {
    if maximum > MAX_SEQUENCE || now < 0 || now > MAX_SEQUENCE then Err(Invalid)
    else
      var next := Max(now, maximum + 1);
      if next > MAX_SEQUENCE then Err(Invalid) else Ok(next)
  }
}
