/** The certificate auto-renewal transaction: replace, restart, probe, and roll back when
    any step fails.  Every step may fail; what the failing step and the outside world do
    is given by a schedule that nothing below constrains. */
module CertificateRenewal {
  import opened Results
  import opened CertificateTime

  type Fingerprint = nat

  /** What reading a certificate file yields. */
  datatype CertificateInfo = CertificateInfo(
    notBefore: int, notAfter: int, fingerprint: Fingerprint,
    isCa: bool, sanMatches: bool, serverAuth: bool, chainVerifies: bool, keyMatches: bool)

  /** File contents: the bytes, by identity, and what they read as. */
  datatype Pem = Pem(bytes: nat, info: CertificateInfo)

  type Mode = bv12

  datatype File = File(content: Pem, mode: Mode, uid: nat, gid: nat)

  datatype Workspace = Workspace(candidate: bool, rollbackCopy: Option<Pem>)

  datatype Observation = Observation(verified: bool, fingerprint: Fingerprint)

  // ----- The schedule

  datatype Step =
    | Inspect | KeyChecks | PrechangeEndpoint
    | GenerateCandidate | ReadCandidate | WriteRollbackCopy | PrepareCandidate
    | ReplaceActive | SyncReplaced | RestartNew | ReadActive
    | CreateTemporary | WriteTemporary | OwnTemporary | ReplaceBack | SyncRestored | RestartOld

  datatype Code =
    | SubprocessFailed | TlsProbeFailed | UnitNotActive | InternalFailure | OtherCode(n: nat)
    | CandidateIsCa | CandidateSanMismatch | CandidateServerAuthMissing | CandidateUnverified
    | CandidateKeyMismatch | CandidateNotYetValid | CandidateValidityExceedsPolicy
    | FingerprintMismatch | ActiveCertificateMismatch

  /** What the outside world does: which steps fail and how, what openssl issues, and what
      each TLS probe sees, if it succeeds. */
  datatype World = World(
    fails: Step -> Option<Code>, issued: Pem,
    newProbe: Option<Fingerprint>, oldProbe: Option<Fingerprint>, oldVerifiedProbe: Option<Fingerprint>,
    cleanupWorks: bool)

  // ----- Results

  datatype Result =
    | Ok | MonitoringWarning | CaRolloverRequired | PrivateKeyMissing | RenewedResult
    | FailedResult(code: Code) | RolledBack | RolledBackExpired | RollbackUnproven

  datatype Status = Status(result: Result, renewalAttempted: bool, rollbackAttempted: bool)

  /** The tool's verdict: a status document with an exit code, or an error raised before
      the transaction starts, which the caller reports with exit code 2. */
  datatype Verdict = Returned(status: Status, rc: nat) | Raised(code: Code)

  /** The candidate checks, in order. */
  function CandidateError(c: Config, now: int, info: CertificateInfo): Option<Code> {
    if info.isCa then Some(CandidateIsCa)
    else if !info.sanMatches then Some(CandidateSanMismatch)
    else if !info.serverAuth then Some(CandidateServerAuthMissing)
    else if !info.chainVerifies then Some(CandidateUnverified)
    else if !info.keyMatches then Some(CandidateKeyMismatch)
    else if info.notBefore > now + 10 * MINUTE then Some(CandidateNotYetValid)
    else if info.notAfter - info.notBefore > c.serverValidity * DAY + 10 * MINUTE
    then Some(CandidateValidityExceedsPolicy)
    else None
  }

  predicate Validated(c: Config, now: int, info: CertificateInfo) {
    && !info.isCa && info.sanMatches && info.serverAuth && info.chainVerifies && info.keyMatches
    && ValidityAccepted(c, now, info.notBefore, info.notAfter)
  }

  lemma ValidatedExactly(c: Config, now: int, info: CertificateInfo)
    ensures CandidateError(c, now, info).None? <==> Validated(c, now, info)
  {
  }

  /** The schedule lets the run get as far as exchanging the active file. */
  predicate Replaces(c: Config, now: int, world: World) {
    && world.fails(GenerateCandidate).None? && world.fails(ReadCandidate).None?
    && Validated(c, now, world.issued.info)
    && world.fails(WriteRollbackCopy).None? && world.fails(PrepareCandidate).None? && world.fails(ReplaceActive).None?
  }

  /** After the exchange nothing fails and the endpoint shows the new certificate. */
  predicate Confirms(world: World) {
    && world.fails(SyncReplaced).None? && world.fails(RestartNew).None? && world.fails(ReadActive).None?
    && world.newProbe == Some(world.issued.info.fingerprint)
  }

  predicate Restores(world: World) {
    && world.fails(CreateTemporary).None? && world.fails(WriteTemporary).None? && world.fails(OwnTemporary).None?
    && world.fails(ReplaceBack).None? && world.fails(SyncRestored).None?
  }

  /** The way back succeeds and the endpoint shows the old certificate, verified unless it
      has expired. */
  predicate RollsBack(now: int, server: CertificateInfo, world: World) {
    && Restores(world)
    && world.fails(RestartOld).None? && world.oldProbe == Some(server.fingerprint)
    && (server.notAfter > now ==> world.oldVerifiedProbe == Some(server.fingerprint))
  }

  /** A file created anew with the bytes, owner and mode of another: the kernel takes the
      umask's bits out of the mode. */
  function Reduced(f: File, umask: Mode): File {
    f.(mode := f.mode & !umask)
  }

  /** The machine: the active certificate file, the workspace and the rollback temporary
      beside it, the process umask, and the probes' sightings so far.  The keys and the
      CA file are fields so that the frames say that nothing writes them. */
  class Machine {
    var active: File
    var workspace: Option<Workspace>
    var rollbackTemporary: Option<Pem>
    var sightings: seq<Observation>
    var serverKey: nat
    var caKey: nat
    var caCertificate: nat
    const umask: Mode

    constructor (active: File, umask: Mode)
      ensures this.active == active && this.umask == umask && workspace == None && rollbackTemporary == None
    {
      this.active, this.umask := active, umask;
      workspace, rollbackTemporary, sightings := None, None, [];
      serverKey, caKey, caCertificate := 0, 0, 0;
    }

    /** Bytes back in place through a temporary created with the original mode, which the
        kernel reduces by the umask. */
    method RestoreBytes(original: File, world: World) returns (error: Option<Code>)
      modifies this`active, this`rollbackTemporary
      ensures error.None? <==> Restores(world)
      ensures error.None? ==> active == Reduced(original, umask) && rollbackTemporary == None
      ensures error.Some? ==> active == old(active) || active == Reduced(original, umask)
      ensures error.Some? && world.fails(CreateTemporary).None? ==> rollbackTemporary == None
    {
      error := world.fails(CreateTemporary);
      if error.Some? {
        return;
      }
      rollbackTemporary := Some(original.content);
      error := world.fails(WriteTemporary);
      if error.Some? {
        rollbackTemporary := None;
        return;
      }
      error := world.fails(OwnTemporary);
      if error.Some? {
        rollbackTemporary := None;
        return;
      }
      error := world.fails(ReplaceBack);
      if error.Some? {
        rollbackTemporary := None;
        return;
      }
      active := Reduced(original, umask);
      rollbackTemporary := None;
      error := world.fails(SyncRestored);
    }

    /** Restart the broker, then look at what it serves. */
    method ProbeAfterRestart(restart: Step, verified: bool, sees: Option<Fingerprint>, world: World)
      returns (r: (Option<Code>, Fingerprint))
      modifies this`sightings
      ensures r.0.None? ==> sees == Some(r.1) && sightings == old(sightings) + [Observation(verified, r.1)]
      ensures r.0.Some? ==> sightings == old(sightings)
      ensures r.0.None? <==> world.fails(restart).None? && sees.Some?
    {
      if world.fails(restart).Some? {
        return (world.fails(restart), 0);
      }
      if sees.None? {
        return (Some(TlsProbeFailed), 0);
      }
      sightings := sightings + [Observation(verified, sees.value)];
      return (None, sees.value);
    }

    method Cleanup(world: World)
      modifies this`workspace
      ensures workspace == if world.cleanupWorks then None else old(workspace)
    {
      if world.cleanupWorks {
        workspace := None;
      }
    }

    /** The forward part.  `replaced` tells whether the active file was exchanged. */
    method Exchange(c: Config, now: int, original: File, world: World) returns (error: Option<Code>, replaced: bool)
      requires active == original && workspace == Some(Workspace(false, None))
      modifies this`active, this`workspace, this`sightings
      ensures replaced <==> Replaces(c, now, world)
      ensures error.None? <==> Replaces(c, now, world) && Confirms(world)
      ensures !replaced ==> active == original && sightings == old(sightings)
      ensures |sightings| >= |old(sightings)|
      ensures replaced ==>
                && active == original.(content := world.issued)
                && workspace == Some(Workspace(false, Some(original.content)))
                && Validated(c, now, world.issued.info)
      ensures error.None? ==>
                && replaced
                && sightings == old(sightings) + [Observation(true, world.issued.info.fingerprint)]
    {
      replaced := false;
      error := world.fails(GenerateCandidate);
      if error.Some? {
        return;
      }
      workspace := Some(Workspace(true, None));
      error := world.fails(ReadCandidate);
      if error.Some? {
        return;
      }
      error := CandidateError(c, now, world.issued.info);
      if error.Some? {
        return;
      }
      ValidatedExactly(c, now, world.issued.info);
      error := world.fails(WriteRollbackCopy);
      if error.Some? {
        return;
      }
      workspace := Some(Workspace(true, Some(original.content)));
      error := world.fails(PrepareCandidate);
      if error.Some? {
        return;
      }
      error := world.fails(ReplaceActive);
      if error.Some? {
        return;
      }
      active := File(world.issued, original.mode, original.uid, original.gid);
      workspace := Some(Workspace(false, Some(original.content)));
      replaced := true;
      error := world.fails(SyncReplaced);
      if error.Some? {
        return;
      }
      var seen := ProbeAfterRestart(RestartNew, true, world.newProbe, world);
      if seen.0.Some? {
        return seen.0, replaced;
      }
      if seen.1 != world.issued.info.fingerprint {
        return Some(FingerprintMismatch), replaced;
      }
      error := world.fails(ReadActive);
      if error.Some? {
        return;
      }
      var info := active.content.info;
      if info.fingerprint != world.issued.info.fingerprint || info.notAfter != world.issued.info.notAfter {
        error := Some(ActiveCertificateMismatch);
      }
    }

    /** The way back: restore, restart, and see the original certificate served again. */
    method RollBack(now: int, original: File, server: CertificateInfo, world: World) returns (result: Result)
      modifies this`active, this`rollbackTemporary, this`sightings
      ensures result == RolledBack || result == RolledBackExpired || result == RollbackUnproven
      ensures result != RollbackUnproven <==> RollsBack(now, server, world)
      ensures result != RollbackUnproven ==>
                && active == Reduced(original, umask)
                && |sightings| > |old(sightings)|
                && sightings[|sightings| - 1].fingerprint == server.fingerprint
                && (result == RolledBack <==> server.notAfter > now)
                && (server.notAfter > now ==> sightings[|sightings| - 1].verified)
      ensures active == old(active) || active == Reduced(original, umask)
    {
      var error := RestoreBytes(original, world);
      if error.Some? {
        return RollbackUnproven;
      }
      var seen := ProbeAfterRestart(RestartOld, false, world.oldProbe, world);
      if seen.0.Some? || seen.1 != server.fingerprint {
        return RollbackUnproven;
      }
      if server.notAfter > now {
        if world.oldVerifiedProbe.None? {
          return RollbackUnproven;
        }
        sightings := sightings + [Observation(true, world.oldVerifiedProbe.value)];
        if world.oldVerifiedProbe.value != server.fingerprint {
          return RollbackUnproven;
        }
        return RolledBack;
      }
      return RolledBackExpired;
    }

    /** The guarded part of a run: everything from the workspace on. */
    method Transaction(c: Config, now: int, world: World) returns (status: Status, rc: nat)
      requires workspace.None? && rollbackTemporary.None?
      modifies this`active, this`workspace, this`rollbackTemporary, this`sightings
      ensures status.renewalAttempted
      // the schedule decides the exit code
      ensures rc == if !Replaces(c, now, world) then 2
                    else if Confirms(world) then 0
                    else if RollsBack(now, old(active).content.info, world) then 2 else 3
      // exit code 0: the file and the verified endpoint both carry the validated candidate
      ensures rc == 0 ==>
                && status.result == RenewedResult && !status.rollbackAttempted
                && active == old(active).(content := world.issued)
                && Validated(c, now, world.issued.info)
                && sightings == old(sightings) + [Observation(true, world.issued.info.fingerprint)]
      // exit code 2: the original bytes and owner; the mode too, unless a rollback ran under
      // a umask that masks some of its bits; and then the endpoint was seen serving the original
      ensures rc == 2 && !status.rollbackAttempted ==> status.result.FailedResult? && active == old(active)
      ensures rc == 2 && status.rollbackAttempted ==>
                && (status.result == RolledBack || status.result == RolledBackExpired)
                && active == Reduced(old(active), umask)
                && |sightings| > |old(sightings)|
                && sightings[|sightings| - 1].fingerprint == old(active).content.info.fingerprint
                && (old(active).content.info.notAfter > now ==> sightings[|sightings| - 1].verified)
      // exit code 3: it keeps the workspace, with the original bytes in it
      ensures rc == 3 ==>
                && status.result == RollbackUnproven && status.rollbackAttempted
                && workspace == Some(Workspace(false, Some(old(active).content)))
                && (active == old(active).(content := world.issued)
                    || active == Reduced(old(active), umask))
      ensures rc != 3 && world.cleanupWorks ==> workspace == None
    {
      var original := active;
      workspace := Some(Workspace(false, None));
      var error, replaced := Exchange(c, now, original, world);
      if error.None? {
        Cleanup(world);
        return Status(RenewedResult, true, false), 0;
      }
      if !replaced {
        Cleanup(world);
        return Status(FailedResult(error.value), true, false), 2;
      }
      var result := RollBack(now, original, original.content.info, world);
      if result == RollbackUnproven {
        return Status(result, true, true), 3;
      }
      Cleanup(world);
      return Status(result, true, true), 2;
    }

    /** One run.  `signingKeys` says whether both private key paths are configured;
        `caNotAfter` and `systemCaNotAfter` are what inspection read from the CA files. */
    method AutoRenew(c: Config, now: int, caNotAfter: int, systemCaNotAfter: Option<int>, signingKeys: bool,
                     world: World)
      returns (verdict: Verdict)
      requires workspace.None? && rollbackTemporary.None?
      modifies this`active, this`workspace, this`rollbackTemporary, this`sightings
      // what the run comes to
      ensures verdict.Raised? <==>
                || world.fails(Inspect).Some?
                || (Due(c, now, old(active)) && CaLasts(c, now, caNotAfter) && signingKeys
                    && (world.fails(KeyChecks).Some? || world.fails(PrechangeEndpoint).Some?))
      ensures verdict.Returned? && !Due(c, now, old(active)) ==>
                && !verdict.status.renewalAttempted && verdict.rc == 0
                && (verdict.status.result == Ok || verdict.status.result == MonitoringWarning)
                && (verdict.status.result == Ok <==>
                      && ServerState(old(active).content.info.notAfter, now, c) == Healthy
                      && CaState(caNotAfter, now, c) == Healthy
                      && (systemCaNotAfter.Some? ==> CaState(systemCaNotAfter.value, now, c) == Healthy))
      ensures verdict.Returned? && Due(c, now, old(active)) && !CaLasts(c, now, caNotAfter) ==>
                verdict == Returned(Status(CaRolloverRequired, false, false), 2)
      ensures verdict.Returned? && Due(c, now, old(active)) && CaLasts(c, now, caNotAfter) && !signingKeys ==>
                verdict == Returned(Status(PrivateKeyMissing, false, false), 2)
      ensures verdict.Returned? && Due(c, now, old(active)) && CaLasts(c, now, caNotAfter) && signingKeys ==>
                && verdict.status.renewalAttempted
                && verdict.rc == if !Replaces(c, now, world) then 2
                                 else if Confirms(world) then 0
                                 else if RollsBack(now, old(active).content.info, world) then 2 else 3
      // an error raised before the transaction, and a run that attempts no renewal, change nothing
      ensures verdict.Raised? || !verdict.status.renewalAttempted ==>
                active == old(active) && workspace == None && rollbackTemporary == None && sightings == old(sightings)
      ensures verdict.Returned? && verdict.rc == 0 && verdict.status.renewalAttempted ==>
                && verdict.status.result == RenewedResult
                && active.content == world.issued && Validated(c, now, world.issued.info)
      // the new certificate expires before the CA does, by the safety margin
      ensures verdict.Returned? && verdict.rc == 0 && verdict.status.renewalAttempted && MinimumCaSeconds(c) > 0 ==>
                active.content.info.notAfter <= caNotAfter - c.caSigningMargin * DAY + 20 * MINUTE
      ensures verdict.Returned? && verdict.rc == 2 ==>
                active == old(active) || active == Reduced(old(active), umask)
      ensures verdict.Returned? && verdict.rc == 3 ==> verdict.status.result == RollbackUnproven
      // a due run that raises before the transaction is a failed step of a series of runs
      ensures verdict.Raised? && world.fails(Inspect).None? ==>
                RunStep(c, caNotAfter, now, old(active).content.info.notAfter, Failed, active.content.info.notAfter)
      // a run that ends with a proven state is one step of a series of runs
      ensures verdict.Returned? && verdict.rc != 3 ==>
                RunStep(c, caNotAfter, now, old(active).content.info.notAfter,
                        OutcomeOf(verdict.status.result, world.issued.info), active.content.info.notAfter)
    {
      var server := active.content.info;
      if world.fails(Inspect).Some? {
        return Raised(world.fails(Inspect).value);
      }
      var state := ServerState(server.notAfter, now, c);
      if !RenewalRequired(state) {
        var worried := state != Healthy || CaState(caNotAfter, now, c) != Healthy
                       || (systemCaNotAfter.Some? && CaState(systemCaNotAfter.value, now, c) != Healthy);
        return Returned(Status(if worried then MonitoringWarning else Ok, false, false), 0);
      }
      if RemainingSeconds(caNotAfter, now) < MinimumCaSeconds(c) {
        return Returned(Status(CaRolloverRequired, false, false), 2);
      }
      if !signingKeys {
        return Returned(Status(PrivateKeyMissing, false, false), 2);
      }
      if world.fails(KeyChecks).Some? {
        return Raised(world.fails(KeyChecks).value);
      }
      if world.fails(PrechangeEndpoint).Some? {
        return Raised(world.fails(PrechangeEndpoint).value);
      }
      var status, rc := Transaction(c, now, world);
      if rc == 0 && MinimumCaSeconds(c) > 0 {
        RenewedWithinCa(c, caNotAfter, now, active.content.info.notBefore, active.content.info.notAfter);
      }
      return Returned(status, rc);
    }
  }

  predicate Due(c: Config, now: int, active: File) {
    RenewalRequired(ServerState(active.content.info.notAfter, now, c))
  }

  predicate CaLasts(c: Config, now: int, caNotAfter: int) {
    RemainingSeconds(caNotAfter, now) >= MinimumCaSeconds(c)
  }

  function OutcomeOf(result: Result, issued: CertificateInfo): Outcome {
    match result
    case Ok => NotDue
    case MonitoringWarning => NotDue
    case CaRolloverRequired => RolloverRequired
    case RenewedResult => Renewed(issued.notBefore)
    case _ => Failed
  }

  /** A proven rollback brings the original file back, mode included, exactly when the
      process umask masks none of its mode bits. */
  lemma RollbackExact(original: File, umask: Mode)
    ensures Reduced(original, umask) == original <==> original.mode & umask == 0
  {
    assert original.mode & !umask == original.mode <==> original.mode & umask == 0;
  }

  /** A certificate with mode 0644 restored under umask 077 comes back with mode 0600,
      although the rollback reports success. */
  lemma RollbackLosesMode(original: File)
    requires original.mode == 0x1A4
    ensures Reduced(original, 0x03F).mode == 0x180 && Reduced(original, 0x03F) != original
  {
  }
}
