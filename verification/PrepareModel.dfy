/** The one-shot PREPARE transition: a durable store written in two steps, recovery that
    trusts only the committed one, and attempts that may be cut off anywhere. */
module PrepareModel {
  import opened Results

  datatype Phase = EmptyPhase | ProfileWritten | PreparedCommitted

  datatype CandidateState = EmptySlot | Prepared

  datatype ProfileState = ProfileState(
    activeGeneration: int, candidateGeneration: int, candidateState: CandidateState,
    activeDigest: string, candidateDigest: string, writes: nat,
    activeSession: bool, candidateSession: bool, prepareAuthorizationConsumed: bool,
    activateAuthorizationPresent: bool, cleanupAuthorizationPresent: bool)

  datatype Action = PrepareCandidate | OtherAction(name: string)

  datatype Authorization = Authorization(
    action: Action, activeGeneration: int, candidateGeneration: int, candidateDigest: string,
    oneShot: bool, replayPermitted: bool, authorizationId: string)

  /** What the store holds across a crash. */
  datatype Durable = Durable(
    phase: Phase, candidateGeneration: int, candidateDigest: string, authorizationId: string, writeCount: nat)

  datatype PrepareError =
    | KeyNotLoaded | ActionInvalid | NotOneShot | AuthorizationIdMissing | ActiveGenerationMismatch
    | SlotNotEmpty | GenerationNotNext | DigestLengthInvalid | DigestNotHex | SessionPresent
    | LaterAuthorizationPresent | AuthorizationConsumed
    | InjectedAfterAuthorization | InjectedAfterProfileWrite | InjectedAfterCommit
    | CommitBeforeWrite | PostCheckFailed

  datatype FailPoint = Nowhere | AfterAuthorization | AfterProfileWrite | AfterCommit

  /** Reading a string as a base-16 integer, left to the interpreter. */
  type HexReads = string -> bool

  function Recover(d: Durable, base: ProfileState): ProfileState {
    if d.phase == PreparedCommitted then
      base.(candidateGeneration := d.candidateGeneration, candidateState := Prepared,
            candidateDigest := d.candidateDigest, writes := d.writeCount, prepareAuthorizationConsumed := true)
    else
      base.(candidateGeneration := 0, candidateState := EmptySlot, candidateDigest := "",
            writes := d.writeCount, prepareAuthorizationConsumed := false)
  }

  function ValidateAuthorization(state: ProfileState, a: Authorization, keyLoaded: bool, hexReads: HexReads)
    : Option<PrepareError>
  {
    if !keyLoaded then Some(KeyNotLoaded)
    else if a.action != PrepareCandidate then Some(ActionInvalid)
    else if !a.oneShot || a.replayPermitted then Some(NotOneShot)
    else if a.authorizationId == "" then Some(AuthorizationIdMissing)
    else if state.activeGeneration != a.activeGeneration then Some(ActiveGenerationMismatch)
    else if state.candidateGeneration != 0 || state.candidateState != EmptySlot then Some(SlotNotEmpty)
    else if a.candidateGeneration != state.activeGeneration + 1 then Some(GenerationNotNext)
    else if |a.candidateDigest| != 64 then Some(DigestLengthInvalid)
    else if !hexReads(a.candidateDigest) then Some(DigestNotHex)
    else if state.activeSession || state.candidateSession then Some(SessionPresent)
    else if state.activateAuthorizationPresent || state.cleanupAuthorizationPresent then Some(LaterAuthorizationPresent)
    else if state.prepareAuthorizationConsumed then Some(AuthorizationConsumed)
    else None
  }

  class DurableStore {
    var phase: Phase
    var candidateGeneration: int
    var candidateDigest: string
    var authorizationId: string
    var writeCount: nat
    ghost var profileWrites: nat
    ghost var commits: nat

    function Contents(): Durable
      reads this
    {
      Durable(phase, candidateGeneration, candidateDigest, authorizationId, writeCount)
    }

    /** Every write is a profile write or a commit. */
    ghost predicate Valid()
      reads this
    {
      writeCount == profileWrites + commits
    }

    constructor ()
      ensures Valid() && Contents() == Durable(EmptyPhase, 0, "", "", 0)
    {
      phase, candidateGeneration, candidateDigest, authorizationId := EmptyPhase, 0, "", "";
      writeCount, profileWrites, commits := 0, 0, 0;
    }

    method WriteProfile(a: Authorization)
      requires Valid()
      modifies this
      ensures Valid() && profileWrites == old(profileWrites) + 1 && commits == old(commits)
      ensures Contents() == Durable(ProfileWritten, a.candidateGeneration, a.candidateDigest, a.authorizationId,
                old(writeCount) + 1)
    {
      phase := ProfileWritten;
      candidateGeneration := a.candidateGeneration;
      candidateDigest := a.candidateDigest;
      authorizationId := a.authorizationId;
      writeCount := writeCount + 1;
      profileWrites := profileWrites + 1;
    }

    method CommitPrepared() returns (error: Option<PrepareError>)
      requires Valid()
      modifies this
      ensures Valid() && profileWrites == old(profileWrites)
      ensures old(phase) != ProfileWritten ==> error == Some(CommitBeforeWrite) && Contents() == old(Contents())
      ensures old(phase) == ProfileWritten ==>
                && error == None && commits == old(commits) + 1
                && Contents() == old(Contents()).(phase := PreparedCommitted, writeCount := old(writeCount) + 1)
    {
      if phase != ProfileWritten {
        return Some(CommitBeforeWrite);
      }
      phase := PreparedCommitted;
      writeCount := writeCount + 1;
      commits := commits + 1;
      return None;
    }

    /** One attempt, started as every attempt is: from the recovered state. */
    method PrepareCandidate(base: ProfileState, a: Authorization, keyLoaded: bool, failAfter: FailPoint,
                            hexReads: HexReads)
      returns (r: Result<ProfileState, PrepareError>)
      requires Valid()
      modifies this
      ensures Valid()
      ensures (Contents(), r) == Attempt(old(Contents()), base, a, keyLoaded, failAfter, hexReads)
      ensures writeCount - old(writeCount) == (profileWrites - old(profileWrites)) + (commits - old(commits))
    {
      var state := Recover(Contents(), base);
      var refused := ValidateAuthorization(state, a, keyLoaded, hexReads);
      if refused.Some? {
        return Failure(refused.value);
      }
      if failAfter == AfterAuthorization {
        return Failure(InjectedAfterAuthorization);
      }
      WriteProfile(a);
      if failAfter == AfterProfileWrite {
        return Failure(InjectedAfterProfileWrite);
      }
      var error := CommitPrepared();
      if error.Some? {
        return Failure(CommitBeforeWrite);
      }
      if failAfter == AfterCommit {
        return Failure(InjectedAfterCommit);
      }
      var recovered := Recover(Contents(), state);
      if || recovered.activeGeneration != state.activeGeneration || recovered.activeDigest != state.activeDigest
         || recovered.candidateState != Prepared || recovered.candidateGeneration != a.candidateGeneration
         || recovered.candidateDigest != a.candidateDigest || recovered.activeSession || recovered.candidateSession
      {
        return Failure(PostCheckFailed);
      }
      return Success(recovered);
    }
  }

  // ----- What an attempt does to the store

  predicate Admitted(d: Durable, base: ProfileState, a: Authorization, keyLoaded: bool, hexReads: HexReads) {
    ValidateAuthorization(Recover(d, base), a, keyLoaded, hexReads).None?
  }

  /** The writes of an admitted attempt that reach the store. */
  function WritesOf(failAfter: FailPoint): nat {
    match failAfter
    case AfterAuthorization => 0
    case AfterProfileWrite => 1
    case _ => 2
  }

  function Written(d: Durable, a: Authorization, writes: nat): Durable {
    if writes == 0 then d
    else Durable(if writes == 1 then ProfileWritten else PreparedCommitted,
                 a.candidateGeneration, a.candidateDigest, a.authorizationId, d.writeCount + writes)
  }

  /** The store after an attempt and what the attempt reports.  The checks after the commit
      do not appear: none of them can fail. */
  function Attempt(d: Durable, base: ProfileState, a: Authorization, keyLoaded: bool, failAfter: FailPoint,
                   hexReads: HexReads)
    : (Durable, Result<ProfileState, PrepareError>)
  {
    var refused := ValidateAuthorization(Recover(d, base), a, keyLoaded, hexReads);
    if refused.Some? then (d, Failure(refused.value))
    else
      var d' := Written(d, a, WritesOf(failAfter));
      (d', match failAfter
           case Nowhere => Success(Recover(d', base))
           case AfterAuthorization => Failure(InjectedAfterAuthorization)
           case AfterProfileWrite => Failure(InjectedAfterProfileWrite)
           case AfterCommit => Failure(InjectedAfterCommit))
  }

  // ----- Runs

  datatype Try = Try(authorization: Authorization, keyLoaded: bool, failAfter: FailPoint)

  function After(d: Durable, base: ProfileState, run: seq<Try>, hexReads: HexReads): Durable {
    if run == [] then d
    else
      var t := run[|run| - 1];
      Attempt(After(d, base, run[..|run| - 1], hexReads), base, t.authorization, t.keyLoaded, t.failAfter, hexReads).0
  }

  const FRESH := Durable(EmptyPhase, 0, "", "", 0)

  lemma RecoverTwice(d: Durable, base: ProfileState)
    ensures Recover(d, Recover(d, base)) == Recover(d, base)
  {
  }

  /** Recovery never touches the active profile, the sessions or the later authorizations. */
  lemma ActiveUntouched(d: Durable, base: ProfileState)
    ensures Recover(d, base) ==
              base.(candidateGeneration := Recover(d, base).candidateGeneration,
                    candidateState := Recover(d, base).candidateState,
                    candidateDigest := Recover(d, base).candidateDigest,
                    writes := d.writeCount,
                    prepareAuthorizationConsumed := Recover(d, base).prepareAuthorizationConsumed)
  {
  }

  /** A committed store refuses every later attempt, before any write. */
  lemma CommittedRefuses(d: Durable, base: ProfileState, t: Try, hexReads: HexReads)
    requires d.phase == PreparedCommitted
    ensures Attempt(d, base, t.authorization, t.keyLoaded, t.failAfter, hexReads).0 == d
    ensures Attempt(d, base, t.authorization, t.keyLoaded, t.failAfter, hexReads).1.Failure?
  {
  }

  /** The index of the attempt that committed, if any: the first admitted one that got as
      far as the commit. */
  predicate Commits(base: ProfileState, run: seq<Try>, i: nat, hexReads: HexReads)
    requires i < |run|
  {
    var d := After(FRESH, base, run[..i], hexReads);
    && d.phase != PreparedCommitted
    && Admitted(d, base, run[i].authorization, run[i].keyLoaded, hexReads)
    && WritesOf(run[i].failAfter) == 2
  }

  lemma {:induction false} CommittedStays(base: ProfileState, run: seq<Try>, i: nat, hexReads: HexReads)
    requires i <= |run| && After(FRESH, base, run[..i], hexReads).phase == PreparedCommitted
    ensures After(FRESH, base, run, hexReads) == After(FRESH, base, run[..i], hexReads)
    decreases |run|
  {
    if i == |run| {
      assert run[..i] == run;
    } else {
      var front := run[..|run| - 1];
      assert front[..i] == run[..i];
      CommittedStays(base, front, i, hexReads);
      CommittedRefuses(After(FRESH, base, front, hexReads), base, run[|run| - 1], hexReads);
    }
  }

  lemma CommitLeaves(base: ProfileState, run: seq<Try>, i: nat, hexReads: HexReads)
    requires i < |run| && Commits(base, run, i, hexReads)
    ensures var d := After(FRESH, base, run, hexReads); var a := run[i].authorization;
            && d.phase == PreparedCommitted && d.candidateGeneration == a.candidateGeneration
            && d.candidateDigest == a.candidateDigest && d.authorizationId == a.authorizationId
  {
    assert run[..i + 1][..|run[..i + 1]| - 1] == run[..i];
    assert run[..i + 1][i] == run[i];
    CommittedStays(base, run, i + 1, hexReads);
  }

  lemma {:induction false} CommittedHasCommit(base: ProfileState, run: seq<Try>, hexReads: HexReads) returns (i: nat)
    requires After(FRESH, base, run, hexReads).phase == PreparedCommitted
    ensures i < |run| && Commits(base, run, i, hexReads)
  {
    var front := run[..|run| - 1];
    if After(FRESH, base, front, hexReads).phase == PreparedCommitted {
      i := CommittedHasCommit(base, front, hexReads);
      assert front[..i] == run[..i];
    } else {
      i := |run| - 1;
    }
  }

  /** After any run of attempts, cut off anywhere, recovery shows either the empty slot, and
      then no attempt committed, or PREPARED with the generation and digest of the one
      attempt that did. */
  lemma RunRecovers(base: ProfileState, run: seq<Try>, hexReads: HexReads)
    ensures var r := Recover(After(FRESH, base, run, hexReads), base);
            || (r.candidateState == EmptySlot && r.candidateGeneration == 0 && r.candidateDigest == ""
                && forall i: nat | i < |run| :: !Commits(base, run, i, hexReads))
            || (r.candidateState == Prepared
                && exists i: nat | i < |run| ::
                     && Commits(base, run, i, hexReads)
                     && r.candidateGeneration == run[i].authorization.candidateGeneration
                     && r.candidateDigest == run[i].authorization.candidateDigest
                     && r.candidateGeneration == base.activeGeneration + 1)
  {
    var d := After(FRESH, base, run, hexReads);
    if d.phase == PreparedCommitted {
      var i := CommittedHasCommit(base, run, hexReads);
      CommitLeaves(base, run, i, hexReads);
    } else {
      forall i: nat | i < |run|
        ensures !Commits(base, run, i, hexReads)
      {
        if Commits(base, run, i, hexReads) {
          CommitLeaves(base, run, i, hexReads);
        }
      }
    }
  }

  /** At most one attempt of a run commits. */
  lemma OneCommit(base: ProfileState, run: seq<Try>, i: nat, j: nat, hexReads: HexReads)
    requires i < |run| && j < |run| && Commits(base, run, i, hexReads) && Commits(base, run, j, hexReads)
    ensures i == j
  {
    if i < j {
      assert run[..j][..i] == run[..i];
      CommitLeaves(base, run[..j], i, hexReads);
    } else if j < i {
      assert run[..i][..j] == run[..j];
      CommitLeaves(base, run[..i], j, hexReads);
    }
  }

  /** Profile writes of a run: one for each admitted attempt that got past authorization. */
  function ProfileWrites(base: ProfileState, run: seq<Try>, hexReads: HexReads): nat {
    if run == [] then 0
    else
      var t, front := run[|run| - 1], run[..|run| - 1];
      ProfileWrites(base, front, hexReads)
      + (if Admitted(After(FRESH, base, front, hexReads), base, t.authorization, t.keyLoaded, hexReads)
            && t.failAfter != AfterAuthorization then 1 else 0)
  }

  /** The write count is the number of profile writes, plus one once committed. */
  lemma {:induction false} WritesCounted(base: ProfileState, run: seq<Try>, hexReads: HexReads)
    ensures var d := After(FRESH, base, run, hexReads);
            d.writeCount == ProfileWrites(base, run, hexReads) + if d.phase == PreparedCommitted then 1 else 0
  {
    if run != [] {
      WritesCounted(base, run[..|run| - 1], hexReads);
      var d := After(FRESH, base, run[..|run| - 1], hexReads);
      if d.phase == PreparedCommitted {
        CommittedRefuses(d, base, run[|run| - 1], hexReads);
      }
    }
  }
}
