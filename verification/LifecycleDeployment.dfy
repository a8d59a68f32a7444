/** Staged deployment of the certificate lifecycle: install, first audit, timer enable,
    timer activate.  The tools are run separately; what one leaves behind is all the next
    one has to go by.  Every systemctl call may raise the tool's own error, which ends the
    run with exit code 2 wherever nothing catches it. */
module LifecycleDeployment {
  import opened Results
  import opened EnvironmentFile
  import I = LifecycleInstall

  // ----- What the tools look at

  datatype ActiveState = Active | Activating | Inactive | FailedState | OtherActiveState

  datatype UnitFileState = Enabled | Disabled | OtherUnitFileState

  /** The tool, the service unit and the timer unit. */
  datatype Files = NotInstalled | Exact | Drifted

  /** The status document: whether it carries the fourteen expected values, whether it
      contains private paths or key material, and its digest. */
  datatype Document = Document(expected: bool, showsPaths: bool, showsKeys: bool, digest: nat)

  datatype StatusDir =
    | NoDirectory
    | Directory(private: bool, filesPrivate: bool, status: Option<Document>, lock: bool, strangers: bool)

  /** A broker container with the sources of its three TLS mounts, fixed for its lifetime. */
  datatype Container = Container(id: nat, serverCert: string, serverKey: string, ca: string)

  /** The contents of the three TLS files, and whether their certificates have the expected
      fingerprints. */
  datatype TlsFiles = TlsFiles(contents: nat, expected: bool)

  /** The running broker, the system CA and the certificate that is served. */
  datatype Runtime = Runtime(
    container: Container, started: nat, tls: TlsFiles, systemCaExpected: bool, servesExpected: bool)

  /** `environment` is the text of the environment file, if there is one. */
  datatype State = State(
    files: Files, environment: Option<string>, dir: StatusDir,
    timerActive: ActiveState, timerFile: UnitFileState, service: ActiveState, runtime: Runtime)

  predicate Sound(r: Runtime) {
    r.tls.expected && r.systemCaExpected && r.servesExpected
  }

  /** Same container since the same time, with the same TLS files. */
  predicate SameRuntime(a: Runtime, b: Runtime) {
    a.container == b.container && a.started == b.started && a.tls == b.tls
  }

  // ----- The environment against the running broker

  const SERVER_NAME: string := "armbian"
  const STATUS_FILE: string := "/var/lib/n3wfc4-certificate-lifecycle/status.json"

  /** White space as the interpreter strips it. */
  predicate IsWhitespace(c: char) {
    var n := c as int;
    || 9 <= n <= 13 || 28 <= n <= 32 || n == 0x85 || n == 0xA0 || n == 0x1680
    || 0x2000 <= n <= 0x200A || n == 0x2028 || n == 0x2029 || n == 0x202F || n == 0x205F || n == 0x3000
  }

  predicate Says(values: Values, k: nat, value: string)
    requires k < 9
  {
    EnvNames()[k] in values && values[EnvNames()[k]] == value
  }

  /** The name, the status path and the three mounted files are the ones in use. */
  predicate Names(values: Values, c: Container) {
    && Says(values, 0, c.serverCert) && Says(values, 1, c.serverKey) && Says(values, 2, c.ca)
    && Says(values, 5, SERVER_NAME) && Says(values, 6, STATUS_FILE)
  }

  predicate EnvironmentFits(reader: Reader, text: Option<string>, c: Container) {
    text.Some? &&
    match ReadText(reader, EnvKeys(), IsWhitespace, text.value)
    case Failure(_) => false
    case Success(values) => Names(values, c)
  }

  // ----- Prestates

  predicate FreshDirectory(d: StatusDir) {
    d.Directory? && d.private && d.status.None? && !d.lock && !d.strangers
  }

  predicate InstallPrestate(s: State) {
    && s.files == NotInstalled && s.environment == None && s.dir == NoDirectory
    && s.timerActive != Active && s.timerFile != Enabled
    && Sound(s.runtime)
  }

  predicate AuditPrestate(s: State) {
    && EnvironmentFits(Shlex, s.environment, s.runtime.container)
    && s.files == Exact && FreshDirectory(s.dir)
    && s.service != Active && s.timerActive != Active && s.timerFile != Enabled
    && Sound(s.runtime)
  }

  /** The status check shared by enabling and activation. */
  predicate StatusAccepted(d: StatusDir) {
    && d.Directory? && d.private && d.filesPrivate && d.status.Some? && d.lock && !d.strangers
    && d.status.value.expected && !d.status.value.showsKeys
  }

  predicate EnablePrestate(s: State) {
    && s.files == Exact
    && s.timerActive != Active && s.timerFile == Disabled && s.service != Active
    && EnvironmentFits(TwoPass, s.environment, s.runtime.container)
    && StatusAccepted(s.dir) && Sound(s.runtime)
  }

  predicate Running(a: ActiveState) {
    a == Active || a == Activating
  }

  predicate ActivatePrestate(s: State) {
    && s.files == Exact
    && s.timerFile == Enabled && !Running(s.timerActive) && !Running(s.service)
    && EnvironmentFits(Shlex, s.environment, s.runtime.container)
    && StatusAccepted(s.dir) && Sound(s.runtime)
  }

  // ----- What the outside world does during one tool run

  /** A systemctl command: it returns with an exit status, or it raises, for instance on a
      timeout; either way it leaves the unit in some state. */
  datatype Command<S> = Ran(succeeds: bool, leaves: S) | Raises(leaves: S)

  /** What running the audit subcommand leaves and prints; nothing is printed when it
      raises. */
  datatype AuditRun = AuditRun(dir: StatusDir, printed: Option<Document>, succeeds: bool)

  /** `prestateAnswers`, `checksAnswer`, `rollbackAnswers` and `reportAnswers` tell whether
      every query and probe before the change, after it, in the rollback and in the final
      report returns; one that does not raises the tool's error. */
  datatype World = World(
    prestateAnswers: bool, checksAnswer: bool, rollbackAnswers: bool, reportAnswers: bool,
    runtimeAfter: Runtime, serviceAfter: ActiveState, dirAfter: StatusDir,
    audit: AuditRun,
    enable: Command<UnitFileState>, disable: Command<UnitFileState>,
    start: Command<ActiveState>, stop: Command<ActiveState>,
    servicePolls: seq<ActiveState>, timerTriggered: bool, nextElapseShown: bool)

  /** An installation: which steps fail, the values found for the environment, and what the
      final checks see. */
  datatype InstallWorld = InstallWorld(
    prestateAnswers: bool, checksAnswer: bool, steps: I.World,
    caKey: string, systemCa: string, fc4Root: string, systemRoot: string,
    runtimeAfter: Runtime, timerFileAfter: UnitFileState, serviceAfter: ActiveState)

  // ----- The states the tools check, and leave

  function AuditRan(s: State, w: World): State {
    s.(dir := w.audit.dir, runtime := w.runtimeAfter, service := w.serviceAfter)
  }

  function EnableRan(s: State, w: World): State {
    s.(timerFile := w.enable.leaves, dir := w.dirAfter, runtime := w.runtimeAfter, service := w.serviceAfter)
  }

  function ActivateRan(s: State, w: World): State {
    s.(timerActive := w.start.leaves, dir := w.dirAfter, runtime := w.runtimeAfter, service := w.serviceAfter)
  }

  predicate AuditPassed(before: State, after: State) {
    && AuditPrestate(before)
    && after == before.(dir := after.dir, runtime := after.runtime, service := after.service)
    && after.dir.Directory? && StatusAccepted(after.dir.(private := true)) && !after.dir.status.value.showsPaths
    && after.service != Active
    && SameRuntime(before.runtime, after.runtime) && after.runtime.servesExpected
  }

  predicate EnablePassed(before: State, after: State) {
    && EnablePrestate(before)
    && after == before.(timerFile := Enabled, dir := after.dir, runtime := after.runtime, service := after.service)
    && StatusAccepted(after.dir) && after.service != Active
    && after.dir.status.value.digest == before.dir.status.value.digest
    && SameRuntime(before.runtime, after.runtime) && Sound(after.runtime)
  }

  predicate ActivatePassed(before: State, after: State) {
    && ActivatePrestate(before)
    && after == before.(timerActive := Active, dir := after.dir, runtime := after.runtime, service := after.service)
    && StatusAccepted(after.dir)
    && SameRuntime(before.runtime, after.runtime) && Sound(after.runtime)
  }

  /** The first state that is not on its way, or the last one seen. */
  function Settled(polls: seq<ActiveState>, last: ActiveState): ActiveState {
    if polls == [] then last else if !Running(polls[0]) then polls[0] else Settled(polls[1..], last)
  }

  /** The audit printed what it left, and every check afterwards could be made and passed. */
  predicate AuditConfirmed(s: State, w: World) {
    && AuditPassed(s, AuditRan(s, w)) && w.checksAnswer && w.audit.succeeds
    && w.audit.printed == w.audit.dir.status
  }

  predicate EnableConfirmed(s: State, w: World) {
    w.enable == Ran(true, Enabled) && w.checksAnswer && EnablePassed(s, EnableRan(s, w))
  }

  /** Besides the state: the timer shows its next run, the service settled as inactive, and
      the status file is the old one unless the timer has fired. */
  predicate ActivateConfirmed(s: State, w: World) {
    && w.start == Ran(true, Active) && w.checksAnswer && ActivatePassed(s, ActivateRan(s, w))
    && w.nextElapseShown && Settled(w.servicePolls, w.serviceAfter) == Inactive
    && (w.dirAfter.status.value.digest == s.dir.status.value.digest || w.timerTriggered)
  }

  /** A rollback that ran to its end without an error of its own. */
  predicate DisableReturns(w: World) {
    w.disable.Ran? && w.rollbackAnswers
  }

  predicate StopReturns(w: World) {
    w.stop.Ran? && DisableReturns(w)
  }

  predicate DisableProven(s: State, w: World) {
    w.disable == Ran(true, Disabled) && s.timerActive != Active && w.serviceAfter != Active
  }

  predicate StopProven(w: World) {
    w.stop.Ran? && w.stop.succeeds && !Running(w.stop.leaves) && w.disable == Ran(true, Disabled)
    && !Running(w.serviceAfter)
  }

  function AuditExit(s: State, w: World): nat {
    if w.prestateAnswers && AuditConfirmed(s, w) then 0 else 2
  }

  function AuditLeft(s: State, w: World): State {
    if w.prestateAnswers && AuditPrestate(s) then AuditRan(s, w) else s
  }

  predicate EnableBegins(s: State, w: World) {
    w.prestateAnswers && EnablePrestate(s)
  }

  function EnableExit(s: State, w: World): nat {
    if !EnableBegins(s, w) || w.enable.Raises? then 2
    else if EnableConfirmed(s, w) then if w.reportAnswers then 0 else 2
    else if !DisableReturns(w) || DisableProven(s, w) then 2 else 3
  }

  function EnableLeft(s: State, w: World): State {
    if !EnableBegins(s, w) then s
    else if w.enable.Raises? || EnableConfirmed(s, w) then EnableRan(s, w)
    else EnableRan(s, w).(timerFile := w.disable.leaves)
  }

  predicate ActivateBegins(s: State, w: World) {
    w.prestateAnswers && ActivatePrestate(s)
  }

  function ActivateExit(s: State, w: World): nat {
    if !ActivateBegins(s, w) || w.start.Raises? then 2
    else if ActivateConfirmed(s, w) then 0
    else if !StopReturns(w) || StopProven(w) then 2 else 3
  }

  function ActivateLeft(s: State, w: World): State {
    if !ActivateBegins(s, w) then s
    else if w.start.Raises? || ActivateConfirmed(s, w) then ActivateRan(s, w)
    else if w.stop.Raises? then ActivateRan(s, w).(timerActive := w.stop.leaves)
    else ActivateRan(s, w).(timerActive := w.stop.leaves, timerFile := w.disable.leaves)
  }

  // ----- Installing

  /** The nine values the installer writes. */
  function EnvironmentValues(c: Container, w: InstallWorld): (values: seq<string>)
    ensures |values| == 9
  {
    [c.serverCert, c.serverKey, c.ca, w.caKey, w.systemCa, SERVER_NAME, STATUS_FILE, w.fc4Root, w.systemRoot]
  }

  function EnvironmentText(s: State, w: InstallWorld): Option<string> {
    WriteText(LifecycleSettings(EnvironmentValues(s.runtime.container, w)))
  }

  predicate InstallChecks(s: State, w: InstallWorld) {
    && w.checksAnswer
    && s.timerActive != Active && w.timerFileAfter != Enabled && w.serviceAfter != Active
    && SameRuntime(s.runtime, w.runtimeAfter) && w.runtimeAfter.servesExpected
  }

  /** The installation's schedule, with the environment's text and the final checks failing
      when the values and what the checks see make them fail. */
  function Steps(s: State, w: InstallWorld): I.World {
    w.steps.(otherFails := step =>
      || w.steps.otherFails(step)
      || (step == I.EnvironmentText && EnvironmentText(s, w).None?)
      || (step == I.PostChecks && !InstallChecks(s, w)))
  }

  predicate InstallBegins(s: State, w: InstallWorld) {
    w.prestateAnswers && InstallPrestate(s)
  }

  function InstallExit(s: State, w: InstallWorld): nat {
    if !InstallBegins(s, w) then 2 else I.Exit(Steps(s, w))
  }

  function UnitFiles(targets: set<I.Target>): Files {
    if I.LifecycleTool in targets && I.ServiceFile in targets && I.TimerFile in targets then Exact
    else if I.LifecycleTool !in targets && I.ServiceFile !in targets && I.TimerFile !in targets then NotInstalled
    else Drifted
  }

  /** The state with these files in place; a timer unit that is there is reported as the
      world says, one that is not is reported as before. */
  function WithFiles(s: State, w: InstallWorld, targets: set<I.Target>, dir: bool): State {
    s.(files := UnitFiles(targets),
       environment := if I.EnvironmentFile in targets then EnvironmentText(s, w) else None,
       dir := if dir then
                Directory(!w.steps.otherFails(I.OwnStatusDir) && !w.steps.otherFails(I.ModeStatusDir),
                          true, None, false, false)
              else NoDirectory,
       timerFile := if I.TimerFile in targets then w.timerFileAfter else s.timerFile,
       service := w.serviceAfter, runtime := w.runtimeAfter)
  }

  function InstallLeft(s: State, w: InstallWorld): State {
    if !InstallBegins(s, w) then s
    else WithFiles(s, w, I.FinalTargets(Steps(s, w)), I.FinalDir(Steps(s, w)))
  }

  class Deployment {
    var s: State

    constructor (s: State)
      ensures this.s == s
    {
      this.s := s;
    }

    method Install(w: InstallWorld) returns (rc: nat)
      modifies this
      ensures rc == InstallExit(old(s), w) && s == InstallLeft(old(s), w)
    {
      if !w.prestateAnswers || !InstallPrestate(s) {
        return 2;
      }
      var installation := new I.Installation();
      rc := installation.Install(Steps(s, w));
      s := WithFiles(s, w, installation.targets, installation.statusDir);
    }

    /** One mutating call between two sets of checks; there is no rollback. */
    method FirstAudit(w: World) returns (rc: nat)
      modifies this
      ensures rc == AuditExit(old(s), w) && s == AuditLeft(old(s), w)
    {
      if !w.prestateAnswers || !AuditPrestate(s) {
        return 2;
      }
      var before := s.runtime;
      s := AuditRan(s, w);
      var printed := w.audit.printed;
      if printed.None? || !w.audit.succeeds || !printed.value.expected {
        return 2;
      }
      var dir := s.dir;
      if !dir.Directory? || dir.status.None? || !dir.lock || !dir.filesPrivate || dir.strangers {
        return 2;
      }
      if dir.status != printed || dir.status.value.showsPaths || dir.status.value.showsKeys {
        return 2;
      }
      if s.service == Active || s.timerActive == Active || s.timerFile == Enabled {
        return 2;
      }
      if !SameRuntime(before, s.runtime) || !s.runtime.servesExpected || !w.checksAnswer {
        return 2;
      }
      return 0;
    }

    /** Nothing when one of its calls raises. */
    method RollbackEnablement(w: World) returns (proven: Option<bool>)
      modifies this
      ensures s == old(s).(timerFile := w.disable.leaves)
      ensures proven.Some? <==> DisableReturns(w)
      ensures proven.Some? ==> (proven.value <==>
                w.disable == Ran(true, Disabled) && old(s).timerActive != Active && old(s).service != Active)
    {
      s := s.(timerFile := w.disable.leaves);
      if w.disable.Raises? || !w.rollbackAnswers {
        return None;
      }
      return Some(w.disable.succeeds && s.timerFile == Disabled && s.timerActive != Active && s.service != Active);
    }

    method EnableTimer(w: World) returns (rc: nat)
      modifies this
      ensures rc == EnableExit(old(s), w) && s == EnableLeft(old(s), w)
    {
      if !w.prestateAnswers || !EnablePrestate(s) {
        return 2;
      }
      var before := s;
      s := EnableRan(s, w);
      if w.enable.Raises? {
        return 2;
      }
      if || !w.enable.succeeds || s.timerFile != Enabled || s.service == Active || !w.checksAnswer
         || !StatusAccepted(s.dir) || s.dir.status.value.digest != before.dir.status.value.digest
         || !Sound(s.runtime) || !SameRuntime(before.runtime, s.runtime)
      {
        var proven := RollbackEnablement(w);
        return if proven.None? || proven.value then 2 else 3;
      }
      return if w.reportAnswers then 0 else 2;
    }

    /** Poll until the service has settled or the polls run out; the last state counts. */
    method WaitServiceQuiescent(polls: seq<ActiveState>, last: ActiveState) returns (state: ActiveState)
      ensures state == Settled(polls, last)
      ensures Running(state) ==> state == last && forall i | 0 <= i < |polls| :: Running(polls[i])
      ensures !Running(state) ==>
                || state == last
                || exists i | 0 <= i < |polls| :: polls[i] == state && forall j | 0 <= j < i :: Running(polls[j])
    {
      for i := 0 to |polls|
        invariant forall j | 0 <= j < i :: Running(polls[j])
        invariant Settled(polls, last) == Settled(polls[i..], last)
      {
        if !Running(polls[i]) {
          return polls[i];
        }
      }
      return last;
    }

    /** Nothing when one of its calls raises; a stop that raises keeps it from disabling. */
    method RollbackActivation(w: World) returns (proven: Option<bool>)
      modifies this
      ensures s == if w.stop.Raises? then old(s).(timerActive := w.stop.leaves)
                   else old(s).(timerActive := w.stop.leaves, timerFile := w.disable.leaves)
      ensures proven.Some? <==> StopReturns(w)
      ensures proven.Some? ==> (proven.value <==>
                && w.stop.succeeds && w.disable == Ran(true, Disabled)
                && !Running(w.stop.leaves) && !Running(old(s).service))
    {
      s := s.(timerActive := w.stop.leaves);
      if w.stop.Raises? {
        return None;
      }
      s := s.(timerFile := w.disable.leaves);
      if w.disable.Raises? || !w.rollbackAnswers {
        return None;
      }
      return Some(w.stop.succeeds && w.disable.succeeds && s.timerFile == Disabled
                  && !Running(s.timerActive) && !Running(s.service));
    }

    method ActivateTimer(w: World) returns (rc: nat)
      modifies this
      ensures rc == ActivateExit(old(s), w) && s == ActivateLeft(old(s), w)
    {
      if !w.prestateAnswers || !ActivatePrestate(s) {
        return 2;
      }
      var before := s;
      s := ActivateRan(s, w);
      if w.start.Raises? {
        return 2;
      }
      var settled := WaitServiceQuiescent(w.servicePolls, s.service);
      if || !w.start.succeeds || s.timerActive != Active || !w.nextElapseShown || settled != Inactive
         || !w.checksAnswer || !StatusAccepted(s.dir)
         || (s.dir.status.value.digest != before.dir.status.value.digest && !w.timerTriggered)
         || !Sound(s.runtime) || !SameRuntime(before.runtime, s.runtime)
      {
        var proven := RollbackActivation(w);
        return if proven.None? || proven.value then 2 else 3;
      }
      return 0;
    }
  }

  // ----- When exit code 2 means that the change was taken back

  /** What a rollback of the enablement is to establish. */
  predicate BackDisabled(s: State) {
    s.timerFile == Disabled && s.timerActive != Active && s.service != Active
  }

  predicate BackStopped(s: State) {
    s.timerFile == Disabled && !Running(s.timerActive) && !Running(s.service)
  }

  /** After exit code 2 the timer is disabled again exactly when the command that changed
      its unit file last left it so: the enabling one if it raised, the disabling one
      otherwise, and neither if only the final report could not be made. */
  lemma EnableTwoIff(s: State, w: World)
    requires EnableBegins(s, w) && EnableExit(s, w) == 2
    ensures BackDisabled(EnableLeft(s, w)) <==>
              && w.serviceAfter != Active
              && (if w.enable.Raises? then w.enable.leaves == Disabled
                  else !EnableConfirmed(s, w) && w.disable.leaves == Disabled)
  {
  }

  /** Without an error outside the checks, exit code 2 is a proven rollback. */
  lemma EnableTwoProven(s: State, w: World)
    requires EnableBegins(s, w) && EnableExit(s, w) == 2
    requires w.enable.Ran? && !EnableConfirmed(s, w) && DisableReturns(w)
    ensures BackDisabled(EnableLeft(s, w))
  {
  }

  /** After exit code 2 the timer is stopped and disabled exactly when both rollback
      commands were reached and left it so; a start or a stop that raises keeps the unit
      enabled. */
  lemma ActivateTwoIff(s: State, w: World)
    requires ActivateBegins(s, w) && ActivateExit(s, w) == 2
    ensures BackStopped(ActivateLeft(s, w)) <==>
              && w.start.Ran? && w.stop.Ran?
              && !Running(w.stop.leaves) && w.disable.leaves == Disabled && !Running(w.serviceAfter)
  {
  }

  lemma ActivateTwoProven(s: State, w: World)
    requires ActivateBegins(s, w) && ActivateExit(s, w) == 2
    requires w.start.Ran? && StopReturns(w)
    ensures BackStopped(ActivateLeft(s, w))
  {
  }

  /** A world in which every command works and nothing else changes. */
  function Calm(s: State): World {
    World(true, true, true, true, s.runtime, Inactive, s.dir, AuditRun(s.dir, None, false),
          Ran(true, Enabled), Ran(true, Disabled), Ran(true, Active), Ran(true, Inactive), [], false, true)
  }

  /** An enabling command that takes effect and then times out ends with exit code 2 and
      the timer enabled. */
  lemma TimedOutEnable(s: State)
    requires EnablePrestate(s)
    ensures exists w: World :: w.enable.Raises? && EnableExit(s, w) == 2 && EnableLeft(s, w).timerFile == Enabled
  {
    var w := Calm(s).(enable := Raises(Enabled));
    assert EnableExit(s, w) == 2 && EnableLeft(s, w).timerFile == Enabled;
  }

  /** So does an enablement that passed every check and could only not be reported. */
  lemma UnreportedEnable(s: State)
    requires EnablePrestate(s)
    ensures exists w :: EnableConfirmed(s, w) && EnableExit(s, w) == 2 && EnableLeft(s, w).timerFile == Enabled
  {
    var w := Calm(s).(reportAnswers := false);
    assert EnableConfirmed(s, w);
  }

  /** A starting command that takes effect and then times out ends with exit code 2 and the
      timer active. */
  lemma TimedOutStart(s: State)
    requires ActivatePrestate(s)
    ensures exists w: World :: w.start.Raises? && ActivateExit(s, w) == 2 && ActivateLeft(s, w).timerActive == Active
  {
    var w := Calm(s).(start := Raises(Active));
    assert ActivateExit(s, w) == 2 && ActivateLeft(s, w).timerActive == Active;
  }

  /** A rollback in which the stop fails, the disabling works and a query then times out
      ends with exit code 2, the timer active and its unit disabled. */
  lemma RollbackCutOff(s: State)
    requires ActivatePrestate(s)
    ensures exists w :: ActivateExit(s, w) == 2 && ActivateLeft(s, w).timerActive == Active
                        && ActivateLeft(s, w).timerFile == Disabled
  {
    var w := Calm(s).(checksAnswer := false, stop := Ran(false, Active), rollbackAnswers := false);
    assert ActivateExit(s, w) == 2 && ActivateLeft(s, w).timerActive == Active;
    assert ActivateLeft(s, w).timerFile == Disabled;
  }

  // ----- The environment file along the chain

  lemma WrittenFits(values: seq<string>, reader: Reader, c: Container)
    requires |values| == 9 && WriteText(LifecycleSettings(values)).Some?
    requires forall k | 0 <= k < 9 :: Readable(values[k])
    ensures EnvironmentFits(reader, WriteText(LifecycleSettings(values)), c) <==>
              && values[0] == c.serverCert && values[1] == c.serverKey && values[2] == c.ca
              && values[5] == SERVER_NAME && values[6] == STATUS_FILE
  {
    LifecycleReads(IsWhitespace, values);
    LifecycleValue(values, 0);
    LifecycleValue(values, 1);
    LifecycleValue(values, 2);
    LifecycleValue(values, 5);
    LifecycleValue(values, 6);
  }

  predicate AllNineReadable(values: seq<string>)
    requires |values| == 9
  {
    forall k | 0 <= k < 9 :: Readable(values[k])
  }

  lemma WrittenReadable(values: seq<string>, c: Container)
    requires |values| == 9 && WriteText(LifecycleSettings(values)).Some?
    requires EnvironmentFits(Shlex, WriteText(LifecycleSettings(values)), c)
    ensures AllNineReadable(values)
  {
    LifecycleReads(IsWhitespace, values);
  }

  /** The file an installation writes fits the running broker for the lexing tools exactly
      when every value is readable, and then for the enabling tool as well. */
  lemma InstalledFits(s: State, w: InstallWorld, values: seq<string>)
    requires EnvironmentText(s, w).Some? && values == EnvironmentValues(s.runtime.container, w)
    ensures EnvironmentFits(Shlex, EnvironmentText(s, w), s.runtime.container) <==> AllNineReadable(values)
    ensures AllNineReadable(values) ==> EnvironmentFits(TwoPass, EnvironmentText(s, w), s.runtime.container)
  {
    hide EnvironmentFits, AllNineReadable, LifecycleSettings, WriteText;
    WrittenFitsIff(values, s.runtime.container);
  }

  lemma WrittenFitsIff(values: seq<string>, c: Container)
    requires |values| == 9 && WriteText(LifecycleSettings(values)).Some?
    requires values[0] == c.serverCert && values[1] == c.serverKey && values[2] == c.ca
    requires values[5] == SERVER_NAME && values[6] == STATUS_FILE
    ensures EnvironmentFits(Shlex, WriteText(LifecycleSettings(values)), c) <==> AllNineReadable(values)
    ensures AllNineReadable(values) ==> EnvironmentFits(TwoPass, WriteText(LifecycleSettings(values)), c)
  {
    if AllNineReadable(values) {
      WrittenFits(values, Shlex, c);
      WrittenFits(values, TwoPass, c);
    } else if EnvironmentFits(Shlex, WriteText(LifecycleSettings(values)), c) {
      WrittenReadable(values, c);
    }
  }

  // ----- How the tools chain

  /** What an installation with exit code 0 leaves. */
  lemma Installed(s: State, w: InstallWorld)
    requires InstallExit(s, w) == 0
    ensures InstallPrestate(s) && InstallChecks(s, w) && EnvironmentText(s, w).Some?
    ensures var t := InstallLeft(s, w);
            && t.files == Exact && t.environment == EnvironmentText(s, w) && FreshDirectory(t.dir)
            && t.timerActive == s.timerActive && t.timerFile == w.timerFileAfter && t.service == w.serviceAfter
            && t.runtime == w.runtimeAfter
  {
    var steps := Steps(s, w);
    assert I.Proceeds(steps);
    assert I.FileWorks(steps, 3);
    assert !steps.otherFails(I.EnvironmentText) && !steps.otherFails(I.PostChecks);
    assert forall t: I.Target :: t in I.ORDER by {
      assert I.ORDER[0] == I.LifecycleTool && I.ORDER[1] == I.ServiceFile;
      assert I.ORDER[2] == I.TimerFile && I.ORDER[3] == I.EnvironmentFile;
      forall t: I.Target
        ensures t in I.ORDER
      {
        match t
        case LifecycleTool =>
        case ServiceFile =>
        case TimerFile =>
        case EnvironmentFile =>
      }
    }
  }

  /** A passed installation leads to the first audit's prestate exactly when every value it
      wrote is readable and the system CA, which it does not look at again, is still the
      expected one. */
  lemma InstallThenAudit(s: State, w: InstallWorld)
    requires InstallExit(s, w) == 0
    ensures AuditPrestate(InstallLeft(s, w)) <==>
              AllNineReadable(EnvironmentValues(s.runtime.container, w)) && w.runtimeAfter.systemCaExpected
  {
    Installed(s, w);
    InstalledFits(s, w, EnvironmentValues(s.runtime.container, w));
  }

  /** A passed first audit leads to the enable prestate exactly when the timer's unit file
      is reported as disabled (the audit only asks for it not to be enabled), the directory
      and the system CA, which the audit does not check a second time, are still good, and
      the other reader makes the same of the environment file. */
  lemma AuditThenEnable(s: State, w: World)
    requires AuditExit(s, w) == 0
    ensures var t := AuditLeft(s, w);
            EnablePrestate(t) <==>
              && t.timerFile == Disabled && t.dir.private && t.runtime.systemCaExpected
              && EnvironmentFits(TwoPass, t.environment, t.runtime.container)
  {
  }

  /** A passed enablement leads to the activation prestate exactly when neither unit is on
      its way up (enabling only asks for them not to be active, and a one-shot service is
      activating for as long as it runs) and the lexing reader takes the environment. */
  lemma EnableThenActivate(s: State, w: World)
    requires EnableExit(s, w) == 0
    ensures var t := EnableLeft(s, w);
            ActivatePrestate(t) <==>
              && t.timerActive != Activating && t.service != Activating
              && EnvironmentFits(Shlex, t.environment, t.runtime.container)
  {
  }

  /** An activation rollback that was reached and proven leads back to the enable prestate,
      and never to the activation prestate, exactly when what made the activation fail was
      neither the status document nor the runtime. */
  lemma RollbackThenEnable(s: State, w: World)
    requires ActivateBegins(s, w) && ActivateExit(s, w) == 2 && w.start.Ran? && StopReturns(w)
    ensures var t := ActivateLeft(s, w);
            && !ActivatePrestate(t)
            && (EnablePrestate(t) <==>
                  && StatusAccepted(t.dir) && Sound(t.runtime)
                  && EnvironmentFits(TwoPass, t.environment, t.runtime.container))
  {
  }

  // ----- Runs

  /** A tool run with what the world does in it; `Fire` is the active timer starting the
      service, which may rewrite the status file, and `Elapse` is time in which the broker
      and the service change by themselves. */
  datatype Event =
    | Install(install: InstallWorld)
    | Audit(world: World)
    | Enable(world: World)
    | Activate(world: World)
    | Fire(dir: StatusDir, runtime: Runtime, service: ActiveState)
    | Elapse(runtime: Runtime, service: ActiveState)

  function Apply(s: State, e: Event): State {
    match e
    case Install(w) => InstallLeft(s, w)
    case Audit(w) => AuditLeft(s, w)
    case Enable(w) => EnableLeft(s, w)
    case Activate(w) => ActivateLeft(s, w)
    case Fire(dir, runtime, service) =>
      if s.timerActive == Active then s.(dir := dir, runtime := runtime, service := service) else s
    case Elapse(runtime, service) => s.(runtime := runtime, service := service)
  }

  function After(s: State, run: seq<Event>): State
    decreases |run|
  {
    if run == [] then s else After(Apply(s, run[0]), run[1..])
  }

  predicate Ordered(s: State) {
    && (s.timerActive == Active ==> s.timerFile == Enabled)
    && (s.timerFile == Enabled ==> s.files == Exact)
  }

  /** An activation whose rollback was reached and disabled the unit of a timer that its
      stop had not stopped. */
  predicate StopsShort(s: State, e: Event) {
    && e.Activate? && ActivateBegins(s, e.world) && e.world.start.Ran? && !ActivateConfirmed(s, e.world)
    && e.world.stop.Ran? && e.world.stop.leaves == Active && e.world.disable.leaves != Enabled
  }

  /** The world reports the unit of this installation as enabled, so that its final checks
      fail, and its schedule of failures lets the timer's unit file stay. */
  predicate LeavesEnabled(s: State, e: Event) {
    e.Install? && InstallBegins(s, e.install) && e.install.timerFileAfter == Enabled && I.Kept(e.install.steps, 2)
  }

  /** And not both of the two files before it. */
  predicate StrayUnit(s: State, e: Event) {
    && LeavesEnabled(s, e)
    && !(e.install.steps.rollbackUnlinkFails(I.LifecycleTool) && e.install.steps.rollbackUnlinkFails(I.ServiceFile))
  }

  lemma FailsWhenEnabled(s: State, w: InstallWorld)
    requires w.timerFileAfter == Enabled
    ensures !I.Proceeds(Steps(s, w))
  {
    assert !InstallChecks(s, w);
    assert Steps(s, w).otherFails(I.PostChecks);
  }

  /** The first three files and their handlers do not depend on the values and the checks. */
  lemma KeptBySteps(s: State, w: InstallWorld, k: nat)
    requires k < 3
    ensures I.Kept(Steps(s, w), k) <==> I.Kept(w.steps, k)
  {
    forall j: nat | j < 3
      ensures I.FileWorks(Steps(s, w), j) <==> I.FileWorks(w.steps, j)
    {
    }
  }

  lemma UnitFilesKept(s: State, w: InstallWorld)
    requires !I.Proceeds(Steps(s, w))
    ensures var targets := I.FinalTargets(Steps(s, w));
            && (I.TimerFile in targets <==> I.Kept(w.steps, 2))
            && (I.Kept(w.steps, 2) ==>
                  && (I.LifecycleTool in targets <==> w.steps.rollbackUnlinkFails(I.LifecycleTool))
                  && (I.ServiceFile in targets <==> w.steps.rollbackUnlinkFails(I.ServiceFile)))
  {
    var steps := Steps(s, w);
    assert I.ORDER[0] == I.LifecycleTool && I.ORDER[1] == I.ServiceFile && I.ORDER[2] == I.TimerFile;
    I.KeptIff(steps, 0);
    I.KeptIff(steps, 1);
    I.KeptIff(steps, 2);
    KeptBySteps(s, w, 0);
    KeptBySteps(s, w, 1);
    KeptBySteps(s, w, 2);
    if I.Kept(w.steps, 2) {
      assert I.FileWorks(w.steps, 0) && I.FileWorks(w.steps, 1);
    }
  }

  /** What an installation does to the timer's unit. */
  lemma InstallUnit(s: State, w: InstallWorld)
    requires InstallBegins(s, w)
    ensures InstallLeft(s, w).timerFile == Enabled <==> LeavesEnabled(s, Install(w))
    ensures LeavesEnabled(s, Install(w)) ==> (InstallLeft(s, w).files == Exact <==> !StrayUnit(s, Install(w)))
  {
    if w.timerFileAfter == Enabled {
      FailsWhenEnabled(s, w);
      UnitFilesKept(s, w);
    }
  }

  /** With exit code 2 the stray unit is the one whose own write failed and whose handler left
      the target. */
  lemma StrayWithExitTwo(s: State, w: InstallWorld)
    requires InstallBegins(s, w) && InstallExit(s, w) == 2
    ensures StrayUnit(s, Install(w)) <==>
              && w.timerFileAfter == Enabled
              && I.Failing(Steps(s, w)) == Some(I.TimerFile) && I.TargetStays(Steps(s, w), I.TimerFile)
    ensures I.HandlerCleans(Steps(s, w)) ==> !LeavesEnabled(s, Install(w))
  {
    var steps := Steps(s, w);
    assert I.ORDER[2] == I.TimerFile;
    I.IsFailing(steps, 2);
    if w.timerFileAfter == Enabled {
      FailsWhenEnabled(s, w);
      UnitFilesKept(s, w);
      I.InCreated(steps, 0);
      I.InCreated(steps, 1);
      I.InCreated(steps, 2);
      KeptBySteps(s, w, 2);
      if I.Kept(steps, 2) {
        TwoKeepsNothing(steps);
      }
    }
  }

  lemma TwoKeepsNothing(steps: I.World)
    requires I.Exit(steps) == 2 && I.Kept(steps, 2)
    ensures I.Failing(steps) == Some(I.TimerFile) && I.TargetStays(steps, I.TimerFile)
    ensures !steps.rollbackUnlinkFails(I.LifecycleTool) && !I.CleansUp(steps, I.TimerFile)
  {
    assert I.ORDER[0] == I.LifecycleTool && I.ORDER[2] == I.TimerFile;
    assert forall t | t in I.Created(steps) :: !steps.rollbackUnlinkFails(t);
    var n := I.FirstUnwritten(steps, 0);
    if n < 4 {
      assert !I.FileWorks(steps, n);
    }
    assert n >= 2;
    I.InCreated(steps, 0);
    I.InCreated(steps, 2);
    I.IsFailing(steps, 2);
    assert n == 2;
    assert !I.FileWorks(steps, 2);
    I.StaysIff(steps, I.TimerFile);
  }

  /** From every state in which an installation can begin there is one that exits 2 and leaves
      an enabled timer unit without the rest: its unit's write fails after the rename, the
      handler cannot remove it, and a link left from earlier makes it read as enabled. */
  lemma StrayTimer(s: State) returns (w: InstallWorld)
    requires InstallPrestate(s)
    ensures InstallExit(s, w) == 2 && StrayUnit(s, Install(w))
    ensures InstallLeft(s, w).timerFile == Enabled && InstallLeft(s, w).files == Drifted
  {
    var steps := I.World((t, step) => t == I.TimerFile && step == I.SyncDirectory, step => false,
                         t => false, t => t == I.TimerFile, t => false, false, false);
    w := InstallWorld(true, true, steps, "k", "c", "f", "r", s.runtime, Enabled, Inactive);
    I.FirstUnwrittenIs(Steps(s, w), 2);
    assert I.Kept(steps, 2);
    FailsWhenEnabled(s, w);
    UnitFilesKept(s, w);
    InstallUnit(s, w);
    assert !I.RollbackStepFails(Steps(s, w));
  }

  /** Exactly which tool runs lose the order: active implies enabled implies installed. */
  lemma StepOrderIff(s: State, e: Event)
    requires Ordered(s)
    ensures Ordered(Apply(s, e)) <==> !StopsShort(s, e) && !StrayUnit(s, e)
  {
    if e.Install? && InstallBegins(s, e.install) {
      InstallUnit(s, e.install);
    }
  }

  predicate KeepsOrder(s: State, run: seq<Event>)
    decreases |run|
  {
    run == [] ||
    (!StopsShort(s, run[0]) && !StrayUnit(s, run[0]) && KeepsOrder(Apply(s, run[0]), run[1..]))
  }

  /** What survives along every run, with any failures and exit codes: without such a step,
      an active timer is enabled, and an enabled timer has exactly the installed files
      behind it. */
  lemma {:induction false} RunOrdered(s: State, run: seq<Event>)
    requires Ordered(s) && KeepsOrder(s, run)
    ensures Ordered(After(s, run))
    decreases |run|
  {
    if run != [] {
      StepOrderIff(s, run[0]);
      RunOrdered(Apply(s, run[0]), run[1..]);
    }
  }

  predicate Backed(s: State) {
    s.timerActive == Active || s.timerFile == Enabled ==> s.files == Exact
  }

  predicate NoStray(s: State, run: seq<Event>)
    decreases |run|
  {
    run == [] || (!StrayUnit(s, run[0]) && NoStray(Apply(s, run[0]), run[1..]))
  }

  /** A rollback that stops short still leaves an active timer with its files: along every
      run without a stray unit, a timer that is active or enabled has exactly the installed
      files behind it. */
  lemma {:induction false} RunBacked(s: State, run: seq<Event>)
    requires Backed(s) && NoStray(s, run)
    ensures Backed(After(s, run))
    decreases |run|
  {
    if run != [] {
      StepBacked(s, run[0]);
      RunBacked(Apply(s, run[0]), run[1..]);
    }
  }

  lemma StepBacked(s: State, e: Event)
    requires Backed(s)
    ensures Backed(Apply(s, e)) <==> !StrayUnit(s, e)
  {
    if e.Install? && InstallBegins(s, e.install) {
      InstallUnit(s, e.install);
    }
  }

  // ----- Is an enabled timer audited

  predicate PassedAudit(s: State, e: Event) {
    e.Audit? && AuditExit(s, e.world) == 0
  }

  /** A first audit that begins and whose subcommand leaves a status file that enabling
      accepts. */
  predicate LeavesStatus(s: State, e: Event) {
    e.Audit? && e.world.prestateAnswers && AuditPrestate(s) && StatusAccepted(e.world.audit.dir)
  }

  /** Such an audit that stops all the same. */
  predicate Leaks(s: State, e: Event) {
    LeavesStatus(s, e) && !AuditConfirmed(s, e.world)
  }

  predicate HasPassedAudit(s: State, run: seq<Event>)
    decreases |run|
  {
    run != [] && (PassedAudit(s, run[0]) || HasPassedAudit(Apply(s, run[0]), run[1..]))
  }

  predicate NoLeak(s: State, run: seq<Event>)
    decreases |run|
  {
    run == [] ||
    (!Leaks(s, run[0]) && !LeavesEnabled(s, run[0]) && NoLeak(Apply(s, run[0]), run[1..]))
  }

  /** Before any audit: nothing enabling would accept, and the timer neither enabled nor
      active. */
  predicate Unaudited(s: State) {
    !StatusAccepted(s.dir) && s.timerFile != Enabled && s.timerActive != Active
  }

  /** Exactly which events end that. */
  lemma StepUnauditedIff(s: State, e: Event)
    requires Unaudited(s)
    ensures Unaudited(Apply(s, e)) <==> !LeavesStatus(s, e) && !LeavesEnabled(s, e)
    ensures LeavesStatus(s, e) ==> (Leaks(s, e) <==> !PassedAudit(s, e))
  {
    if e.Install? && InstallBegins(s, e.install) {
      InstallUnit(s, e.install);
    }
  }

  /** Without a passed first audit nothing is ever enabled or active, whatever fails and
      whatever the exit codes, provided no stopped audit left a status file that enabling
      accepts, and no failed installation a unit that is already enabled. */
  lemma {:induction false} EnabledMeansAudited(s: State, run: seq<Event>)
    requires Unaudited(s) && NoLeak(s, run)
    ensures After(s, run).timerFile == Enabled || After(s, run).timerActive == Active ==> HasPassedAudit(s, run)
    ensures !HasPassedAudit(s, run) ==> Unaudited(After(s, run))
    decreases |run|
  {
    if run != [] && !PassedAudit(s, run[0]) {
      StepUnauditedIff(s, run[0]);
      EnabledMeansAudited(Apply(s, run[0]), run[1..]);
    }
  }

  /** A good audit whose checks then cannot be made, for instance because the TLS probe or
      a systemctl query times out. */
  function StoppedAudit(s: State): World {
    var good := Document(true, false, false, 0);
    Calm(s).(checksAnswer := false, audit := AuditRun(Directory(true, true, Some(good), true, false), Some(good), true))
  }

  lemma StoppedAuditLeaves(s: State)
    requires AuditPrestate(s)
    ensures AuditExit(s, StoppedAudit(s)) == 2
    ensures var t := AuditLeft(s, StoppedAudit(s));
            StatusAccepted(t.dir) && t == s.(dir := t.dir, service := Inactive)
  {
  }

  /** The proviso is needed: wherever the first audit can run and the timer's unit is
      disabled, an audit that stops after the audit subcommand leaves a file that enabling
      accepts, so that the timer can be enabled and activated with exit code 0 although no
      first audit passed. */
  lemma StoppedAuditSlipsThrough(s: State) returns (audit: World, enable: World, activate: World)
    requires AuditPrestate(s) && EnvironmentFits(TwoPass, s.environment, s.runtime.container)
    requires s.timerFile == Disabled && !Running(s.timerActive)
    ensures AuditExit(s, audit) == 2
    ensures var t := AuditLeft(s, audit); EnableExit(t, enable) == 0
    ensures var u := EnableLeft(AuditLeft(s, audit), enable);
            ActivateExit(u, activate) == 0 && ActivateLeft(u, activate).timerActive == Active
  {
    audit := StoppedAudit(s);
    StoppedAuditLeaves(s);
    var t := AuditLeft(s, audit);
    EnableAndActivate(t);
    enable, activate := Calm(t), Calm(EnableLeft(t, Calm(t)));
  }

  /** Exactly when a stopped audit opens that way: when what it leaves passes the enable
      prestate. */
  lemma StoppedAuditEnablesIff(s: State, w: World)
    requires w.prestateAnswers && AuditPrestate(s) && AuditExit(s, w) == 2
    ensures (exists next: World :: EnableExit(AuditLeft(s, w), next) == 0) <==>
              && StatusAccepted(w.audit.dir) && s.timerFile == Disabled
              && w.serviceAfter != Active && Sound(w.runtimeAfter)
              && EnvironmentFits(TwoPass, s.environment, w.runtimeAfter.container)
  {
    var t := AuditLeft(s, w);
    if EnablePrestate(t) {
      assert EnableExit(t, Calm(t)) == 0;
    }
  }

  function PassingAudit(s: State): World {
    StoppedAudit(s).(checksAnswer := true)
  }

  lemma PassingAuditLeaves(s: State)
    requires AuditPrestate(s)
    ensures AuditExit(s, PassingAudit(s)) == 0
    ensures var t := AuditLeft(s, PassingAudit(s));
            StatusAccepted(t.dir) && t == s.(dir := t.dir, service := Inactive)
  {
  }

  lemma EnableAndActivate(t: State)
    requires EnablePrestate(t) && t.timerActive != Activating && t.service == Inactive
    requires EnvironmentFits(Shlex, t.environment, t.runtime.container)
    ensures EnableExit(t, Calm(t)) == 0
    ensures var u := EnableLeft(t, Calm(t));
            ActivateExit(u, Calm(u)) == 0 && ActivateLeft(u, Calm(u)).timerActive == Active
  {
    assert EnableLeft(t, Calm(t)) == t.(timerFile := Enabled);
  }

  /** The whole chain can be gone through: after every passed installation that leaves the
      audit's prestate and a unit that is reported as disabled, there are an audit, an
      enablement and an activation that pass and leave the timer active. */
  lemma ChainPasses(s: State, w: InstallWorld) returns (audit: World, enable: World, activate: World)
    requires InstallExit(s, w) == 0 && w.timerFileAfter == Disabled && s.timerActive != Activating
    requires AllNineReadable(EnvironmentValues(s.runtime.container, w)) && w.runtimeAfter.systemCaExpected
    ensures AuditExit(InstallLeft(s, w), audit) == 0
    ensures var u := AuditLeft(InstallLeft(s, w), audit);
            var v := EnableLeft(u, enable);
            && EnableExit(u, enable) == 0 && ActivateExit(v, activate) == 0
            && ActivateLeft(v, activate).timerActive == Active
  {
    var t := InstallLeft(s, w);
    Installed(s, w);
    InstalledFits(s, w, EnvironmentValues(s.runtime.container, w));
    InstallThenAudit(s, w);
    audit := PassingAudit(t);
    PassingAuditLeaves(t);
    var u := AuditLeft(t, audit);
    EnableAndActivate(u);
    enable, activate := Calm(u), Calm(EnableLeft(u, Calm(u)));
  }
}
