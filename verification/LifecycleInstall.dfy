/** Installing the certificate lifecycle: four files and a status directory, each file
    written through a temporary, and everything taken back when a step fails. */
module LifecycleInstall {
  import opened Results

  datatype Target = LifecycleTool | ServiceFile | TimerFile | EnvironmentFile

  datatype WriteStep = ReadSource | OpenTemporary | FillTemporary | SetMode | SetOwner | Replace | SyncDirectory

  datatype OtherStep =
    | EnvironmentParent | MakeStatusDir | OwnStatusDir | ModeStatusDir | EnvironmentText | DaemonReload
    | PostChecks

  /** Which steps fail, those of the handlers and of the rollback included. */
  datatype World = World(
    writeFails: (Target, WriteStep) -> bool, otherFails: OtherStep -> bool,
    temporaryUnlinkFails: Target -> bool, targetUnlinkFails: Target -> bool,
    rollbackUnlinkFails: Target -> bool, rollbackRmdirFails: bool, rollbackReloadFails: bool)

  // ----- What the schedule decides

  /** The write gets as far as having its temporary on disk. */
  predicate Opens(world: World, target: Target) {
    !world.writeFails(target, ReadSource) && !world.writeFails(target, OpenTemporary)
  }

  /** It gets as far as renaming the temporary to the target. */
  predicate Renames(world: World, target: Target) {
    && Opens(world, target)
    && !world.writeFails(target, FillTemporary) && !world.writeFails(target, SetMode)
    && !world.writeFails(target, SetOwner) && !world.writeFails(target, Replace)
  }

  predicate Writes(world: World, target: Target) {
    Renames(world, target) && !world.writeFails(target, SyncDirectory)
  }

  /** If the write fails, its error handler takes back whatever it had put on disk. */
  predicate CleansUp(world: World, target: Target) {
    && (Opens(world, target) ==> !world.temporaryUnlinkFails(target))
    && (Renames(world, target) ==> !world.targetUnlinkFails(target))
  }

  const ORDER: seq<Target> := [LifecycleTool, ServiceFile, TimerFile, EnvironmentFile]

  /** The i-th file is written; the environment's text comes first for the last one. */
  predicate FileWorks(world: World, i: nat)
    requires i < 4
  {
    Writes(world, ORDER[i]) && (i == 3 ==> !world.otherFails(EnvironmentText))
  }

  /** The first file that is not written, from the i-th on. */
  function FirstUnwritten(world: World, i: nat): (n: nat)
    requires i <= 4
    ensures i <= n <= 4
    ensures forall k | i <= k < n :: FileWorks(world, k)
    ensures n < 4 ==> !FileWorks(world, n)
    decreases 4 - i
  {
    if i == 4 || !FileWorks(world, i) then i else FirstUnwritten(world, i + 1)
  }

  predicate Makes(world: World) {
    !world.otherFails(EnvironmentParent) && !world.otherFails(MakeStatusDir)
  }

  /** The status directory is ready and the files are begun. */
  predicate Begins(world: World) {
    Makes(world) && !world.otherFails(OwnStatusDir) && !world.otherFails(ModeStatusDir)
  }

  function Created(world: World): seq<Target> {
    if Begins(world) then ORDER[..FirstUnwritten(world, 0)] else []
  }

  /** The file whose write raised. */
  function Failing(world: World): Option<Target> {
    var n := FirstUnwritten(world, 0);
    if !Begins(world) || n == 4 || (n == 3 && world.otherFails(EnvironmentText)) then None else Some(ORDER[n])
  }

  predicate HandlerCleans(world: World) {
    Failing(world).Some? ==> CleansUp(world, Failing(world).value)
  }

  /** No step of the way forward fails. */
  predicate Proceeds(world: World) {
    && Begins(world) && FirstUnwritten(world, 0) == 4
    && !world.otherFails(DaemonReload) && !world.otherFails(PostChecks)
  }

  predicate RollbackStepFails(world: World) {
    || (exists t | t in Created(world) :: world.rollbackUnlinkFails(t))
    || (Makes(world) && world.rollbackRmdirFails) || world.rollbackReloadFails
  }

  function Exit(world: World): nat {
    if Proceeds(world) then 0 else if RollbackStepFails(world) then 3 else 2
  }

  /** A failing write leaves its target when the rename had been made and the handler did
      not get to, or did not manage, its removal. */
  predicate TargetStays(world: World, target: Target) {
    Renames(world, target)
    && (Writes(world, target) || world.temporaryUnlinkFails(target) || world.targetUnlinkFails(target))
  }

  predicate TemporaryStays(world: World, target: Target) {
    Opens(world, target) && !Renames(world, target) && world.temporaryUnlinkFails(target)
  }

  /** What the failing write's handler left behind. */
  function LeftTarget(world: World): set<Target> {
    if Failing(world).Some? && TargetStays(world, Failing(world).value) then {Failing(world).value} else {}
  }

  function LeftTemporary(world: World): set<Target> {
    if Failing(world).Some? && TemporaryStays(world, Failing(world).value) then {Failing(world).value} else {}
  }

  /** The files in place at the end. */
  function FinalTargets(world: World): set<Target> {
    if Proceeds(world) then set t | t in ORDER
    else (set t | t in Created(world) && world.rollbackUnlinkFails(t)) + LeftTarget(world)
  }

  predicate FinalDir(world: World) {
    Makes(world) && (Proceeds(world) || world.rollbackRmdirFails)
  }

  predicate NothingLeft(world: World) {
    FinalTargets(world) == {} && LeftTemporary(world) == {} && !FinalDir(world)
  }

  lemma StaysIff(world: World, target: Target)
    requires !Writes(world, target)
    ensures !TargetStays(world, target) && !TemporaryStays(world, target) <==> CleansUp(world, target)
  {
  }

  lemma FailingDoesNotWrite(world: World)
    requires Failing(world).Some?
    ensures !Writes(world, Failing(world).value)
  {
    var n := FirstUnwritten(world, 0);
    assert !FileWorks(world, n);
  }

  /** All or nothing: a failed installation that reports a proven rollback has left nothing
      behind exactly when the failing write's own handler could clean up. */
  lemma ExitTwoCleanIff(world: World)
    requires Exit(world) == 2
    ensures NothingLeft(world) <==> HandlerCleans(world)
  {
    assert forall t | t in Created(world) :: !world.rollbackUnlinkFails(t);
    assert (set t | t in Created(world) && world.rollbackUnlinkFails(t)) == {};
    if Failing(world).Some? {
      FailingDoesNotWrite(world);
      StaysIff(world, Failing(world).value);
    }
  }

  /** Any of the four files can be left behind with exit code 2. */
  lemma FileLeftBehind(target: Target)
    ensures exists world: World :: Exit(world) == 2 && FinalTargets(world) == {target}
  {
    var world := World((t, step) => t == target && step == SyncDirectory, step => false,
                       t => false, t => t == target, t => false, false, false);
    var n := if target == LifecycleTool then 0 else if target == ServiceFile then 1
             else if target == TimerFile then 2 else 3;
    assert ORDER[n] == target;
    FirstUnwrittenIs(world, n);
    assert Failing(world) == Some(target);
    assert TargetStays(world, target);
    assert (set t | t in Created(world) && world.rollbackUnlinkFails(t)) == {};
    assert !RollbackStepFails(world);
    assert FinalTargets(world) == {} + {target};
    assert Exit(world) == 2 && FinalTargets(world) == {target};
  }

  /** What the schedule has to be for a failed installation to leave its k-th file: all
      earlier files were written, and either this one was too and the rollback could not
      remove it, or its own write failed and its handler left the target. */
  predicate Kept(world: World, k: nat)
    requires k < 4
  {
    && Begins(world) && (forall j | 0 <= j < k :: FileWorks(world, j))
    && (k == 3 ==> !world.otherFails(EnvironmentText))
    && (if Writes(world, ORDER[k]) then world.rollbackUnlinkFails(ORDER[k]) else TargetStays(world, ORDER[k]))
  }

  lemma OrderDistinct(j: nat, k: nat)
    requires j < 4 && k < 4 && ORDER[j] == ORDER[k]
    ensures j == k
  {
  }

  lemma InCreated(world: World, k: nat)
    requires k < 4
    ensures ORDER[k] in Created(world) <==> Begins(world) && k < FirstUnwritten(world, 0)
  {
    var n := FirstUnwritten(world, 0);
    if ORDER[k] in ORDER[..n] {
      var j :| 0 <= j < n && ORDER[..n][j] == ORDER[k];
      OrderDistinct(j, k);
    }
    if k < n {
      assert ORDER[..n][k] == ORDER[k];
    }
  }

  lemma IsFailing(world: World, k: nat)
    requires k < 4
    ensures Failing(world) == Some(ORDER[k]) <==>
              Begins(world) && k == FirstUnwritten(world, 0) && (k == 3 ==> !world.otherFails(EnvironmentText))
  {
    var n := FirstUnwritten(world, 0);
    if n < 4 && ORDER[n] == ORDER[k] {
      OrderDistinct(n, k);
    }
  }

  /** Exactly which files a failed installation leaves. */
  lemma KeptIff(world: World, k: nat)
    requires k < 4 && !Proceeds(world)
    ensures ORDER[k] in FinalTargets(world) <==> Kept(world, k)
  {
    var n := FirstUnwritten(world, 0);
    InCreated(world, k);
    IsFailing(world, k);
    if n < 4 {
      assert !FileWorks(world, n);
    }
  }

  lemma FirstUnwrittenIs(world: World, n: nat)
    requires n <= 4 && (forall k | 0 <= k < n :: FileWorks(world, k)) && (n < 4 ==> !FileWorks(world, n))
    ensures FirstUnwritten(world, 0) == n
  {
  }

  /** The part of the file system an installation may touch. */
  class Installation {
    var targets: set<Target>
    var temporaries: set<Target>
    var statusDir: bool

    constructor ()
      ensures Untouched()
    {
      targets, temporaries, statusDir := {}, {}, false;
    }

    /** Nothing of the installation is on disk. */
    predicate Untouched()
      reads this
    {
      targets == {} && temporaries == {} && !statusDir
    }

    /** The error handler of an atomic write. */
    method Discard(target: Target, renamed: bool, world: World)
      requires renamed <==> target in targets
      modifies this`targets, this`temporaries
      ensures targets == if world.temporaryUnlinkFails(target) || world.targetUnlinkFails(target)
                         then old(targets) else old(targets) - {target}
      ensures temporaries == if world.temporaryUnlinkFails(target) then old(temporaries)
                             else old(temporaries) - {target}
    {
      if world.temporaryUnlinkFails(target) {
        return;
      }
      temporaries := temporaries - {target};
      if renamed {
        if world.targetUnlinkFails(target) {
          return;
        }
        targets := targets - {target};
      }
    }

    /** Write one file atomically; a failed write leaves what its handler could not remove. */
    method WriteAtomic(target: Target, world: World) returns (ok: bool)
      requires target !in targets && target !in temporaries
      modifies this`targets, this`temporaries
      ensures ok <==> Writes(world, target)
      ensures targets == old(targets) + (if TargetStays(world, target) then {target} else {})
      ensures temporaries == old(temporaries) + (if TemporaryStays(world, target) then {target} else {})
    {
      if world.writeFails(target, ReadSource) || world.writeFails(target, OpenTemporary) {
        return false;
      }
      temporaries := temporaries + {target};
      if || world.writeFails(target, FillTemporary) || world.writeFails(target, SetMode)
         || world.writeFails(target, SetOwner) || world.writeFails(target, Replace) {
        Discard(target, false, world);
        return false;
      }
      temporaries, targets := temporaries - {target}, targets + {target};
      if world.writeFails(target, SyncDirectory) {
        Discard(target, true, world);
        return false;
      }
      return true;
    }

    /** Take back the created files, newest first, then the directory. */
    method Rollback(created: seq<Target>, statusCreated: bool, world: World) returns (ok: bool)
      modifies this`targets, this`statusDir
      ensures targets == old(targets) - (set t | t in created && !world.rollbackUnlinkFails(t))
      ensures statusDir == (old(statusDir) && !(statusCreated && !world.rollbackRmdirFails))
      ensures ok <==>
                && (forall t | t in created :: !world.rollbackUnlinkFails(t))
                && !(statusCreated && world.rollbackRmdirFails) && !world.rollbackReloadFails
    {
      ok := true;
      var i := |created|;
      while i > 0
        invariant 0 <= i <= |created|
        invariant ok <==> forall j | i <= j < |created| :: !world.rollbackUnlinkFails(created[j])
        invariant targets == old(targets) - (set t | t in created[i..] && !world.rollbackUnlinkFails(t))
        invariant statusDir == old(statusDir)
      {
        i := i - 1;
        assert created[i..] == [created[i]] + created[i + 1..];
        if world.rollbackUnlinkFails(created[i]) {
          ok := false;
        } else {
          targets := targets - {created[i]};
        }
      }
      assert created[0..] == created;
      if statusCreated {
        if world.rollbackRmdirFails {
          ok := false;
        } else {
          statusDir := false;
        }
      }
      if world.rollbackReloadFails {
        ok := false;
      }
    }

    /** Write the files in order, remembering those that are in place. */
    method WriteFiles(world: World) returns (ok: bool, created: seq<Target>)
      requires targets == {} && temporaries == {} && Begins(world)
      modifies this`targets, this`temporaries
      ensures ok <==> FirstUnwritten(world, 0) == 4
      ensures created == Created(world)
      ensures targets == (set t | t in created) + LeftTarget(world) && temporaries == LeftTemporary(world)
    {
      created := [];
      for i := 0 to 4
        invariant created == ORDER[..i]
        invariant forall k | 0 <= k < i :: FileWorks(world, k)
        invariant targets == (set t | t in created) && temporaries == {}
      {
        assert ORDER[i] !in ORDER[..i];
        if ORDER[i] == EnvironmentFile && world.otherFails(EnvironmentText) {
          FirstUnwrittenIs(world, i);
          return false, created;
        }
        ok := WriteAtomic(ORDER[i], world);
        if !ok {
          FirstUnwrittenIs(world, i);
          assert Failing(world) == Some(ORDER[i]);
          return;
        }
        created := created + [ORDER[i]];
        assert ORDER[..i + 1] == ORDER[..i] + [ORDER[i]];
      }
      FirstUnwrittenIs(world, 4);
      return true, created;
    }

    /** The mutating part of an installation, from the first step that may change anything. */
    method Install(world: World) returns (rc: nat)
      requires Untouched()
      modifies this
      ensures rc == Exit(world)
      ensures targets == FinalTargets(world) && temporaries == LeftTemporary(world) && statusDir == FinalDir(world)
    {
      var ok, created, statusCreated := PutInPlace(world);
      if ok {
        return 0;
      }
      var undone := Rollback(created, statusCreated, world);
      Undone(world);
      rc := if undone then 2 else 3;
    }

    /** The steps up to and including the final checks, without the rollback. */
    method PutInPlace(world: World) returns (ok: bool, created: seq<Target>, statusCreated: bool)
      requires Untouched()
      modifies this
      ensures ok <==> Proceeds(world)
      ensures created == Created(world) && statusCreated == Makes(world) && statusDir == statusCreated
      ensures targets == (set t | t in created) + LeftTarget(world) && temporaries == LeftTemporary(world)
    {
      ok, created, statusCreated := false, [], false;
      if world.otherFails(EnvironmentParent) || world.otherFails(MakeStatusDir) {
        return;
      }
      statusDir, statusCreated := true, true;
      if world.otherFails(OwnStatusDir) || world.otherFails(ModeStatusDir) {
        return;
      }
      ok, created := WriteFiles(world);
      if ok && (world.otherFails(DaemonReload) || world.otherFails(PostChecks)) {
        ok := false;
      }
    }
  }

  lemma Undone(world: World)
    ensures var created := Created(world);
            (set t | t in created) + LeftTarget(world) - (set t | t in created && !world.rollbackUnlinkFails(t)) ==
            (set t | t in created && world.rollbackUnlinkFails(t)) + LeftTarget(world)
  {
    if Failing(world).Some? {
      var n := FirstUnwritten(world, 0);
      assert ORDER[n] !in ORDER[..n];
    }
  }
}
