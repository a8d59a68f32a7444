# Verified models of the gateway's host tools

This project models the parts of the gateway's host tooling whose correctness depends on long
sequences of steps, on early exits, or on separately written functions agreeing with each other,
and proves what they promise. One module models one tool or one concern:

| file | what it models |
|---|---|
| `Netfilter.dfy` | rules, packets, the kernel's walk of a rule list, and the guards' reading of a printed rule |
| `IngressKernel.dfy` | the filter table as the commands see it (save, atomic restore, insert), and the scans both guards run over a saved table |
| `NetworkDecision.dfy` | which subnet is trusted, from the interface's addresses |
| `BrokerGuard.dfy`, `BrokerPolicy.dfy` | the broker ingress guard: its checks, its apply, and what the table it leaves does to packets |
| `RegistrationGuard.dfy` | the registration ingress guard behind it, with its three ordered anchors |
| `IngressRuns.dfy` | runs of both guards, interrupted anywhere, and both policies together |
| `CertificateTime.dfy` | expiry arithmetic, and series of renewal runs |
| `CertificateRenewal.dfy` | the renewal transaction: replace, restart, probe, roll back |
| `EnvironmentFile.dfy` | the environment file's one writer and its two different readers |
| `LifecycleInstall.dfy` | installing the lifecycle, all or nothing |
| `LifecycleDeployment.dfy` | the four deployment tools with every call that may raise, how they chain, and runs of them |
| `PrepareModel.dfy`, `PrepareCommand.dfy` | the crash-safe one-shot PREPARE and its command line |
| `NvsSnapshot.dfy` | reassembling a blob from a raw flash image |
| `TreeComparison.dfy` | flattening and comparing two observation documents |
| `MqttFraming.dfy` | MQTT Version 5.0 framing (sections 1.5.4 to 1.5.6 and 3.1) |
| `KeyFileSearch.dfy` | the depth-bounded worklist search for key files |
| `SerialCapture.dfy` | persisting a serial capture on every way out |
| `Results.dfy` | outcomes that may be absent or fail |

Code that changes things step by step is a class or a method with loops, proved against a
specification function or a predicate; the properties are then proved of that specification.
Commands, clocks, sockets, hashes, certificates and subprocesses enter as parameters: a schedule
(`World`) says which step fails and what the outside world answers, and nothing constrains it. For
the firewall, every command may fail (a budget of commands that still succeed) and has an exact
effect on the table when it does not.

## Promises that hold only under a condition

The model follows the code where the code and what it is meant to do differ. Each of these is
stated in a lemma, with the exact condition where it is an equivalence.

- The broker guard looks for foreign references to its chain behind `-j` and `--jump` only. A rule
  that reaches the chain by `-g` is not seen (`BrokerPolicy.GotoEscapes` is an accepted table), and
  then an apply leaves a packet alone, where no anchor selects it, if and only if the owned chain
  gave the new verdict already or no walk of the packet reaches such a goto
  (`BrokerPolicy.InterferenceIff`, `ReachedGoto`).
- A registration apply that is cut off after one or two of its three anchors leaves a table that no
  run of the two guards gets the registration guard to accept again; it needs repair by hand
  (`RegistrationGuard.StageAcceptedIff` for the affected interruptions, `IngressRuns.CutOffForGood`
  for the runs).
- A proven certificate rollback restores the mode of the file exactly when the process umask masks
  none of its bits (`CertificateRenewal.RollbackExact`): the temporary is created with the original
  mode, which the umask reduces, and no later step sets it.
- `renewal required` means `remaining time within the renewal window` exactly when the critical
  threshold does not exceed the renewal threshold and the latter is not negative
  (`CertificateTime.RenewalRequiredIff`).
- The environment writer rejects NUL, line feed and carriage return, while the readers split at
  every line boundary the interpreter knows. The file reads back exactly when every value is
  non-empty and free of all of these boundaries (`EnvironmentFile.FileRoundTripIff`). Any other
  file is refused by the lexing reader (`ShlexReadsIff`), but not always by the reader with the two
  replacements: it accepts a value whose first line ends in a quotation mark and whose further
  lines are blank or comments, and then reads another value (`TwoPassReadsIff` for exactly when,
  `QuoteSlipsThrough` for a value).
- An installation that ends with exit code 2 has left nothing behind exactly when the handler of
  the failed write could remove its own file (`LifecycleInstall.ExitTwoCleanIff`,
  `FileLeftBehind`). If the file left is the timer's unit, and a link from earlier makes it read as
  enabled, the timer is enabled without the files it needs: `LifecycleDeployment.StepOrderIff` and
  `RunBacked` hold for the installations whose failures do not leave that unit,
  `StrayWithExitTwo` says exactly which of them exit with 2, and `StrayTimer` is one from every
  state in which an installation can begin.
- Exit code 2 of the enabling and activating tools does not always mean that the change was taken
  back. A command or query that times out raises the tool's own error, and nothing catches it
  around the enabling and starting commands, inside the rollbacks and in the enabling tool's final
  report. `LifecycleDeployment.EnableTwoIff` and `ActivateTwoIff` say exactly when the timer is
  back; `TimedOutEnable`, `UnreportedEnable`, `TimedOutStart` and `RollbackCutOff` are inputs at
  which it is not. An active timer is therefore enabled except after the tool runs that
  `StepOrderIff` names, while `RunBacked` allows them.
- The deployment tools do not chain unconditionally: `LifecycleDeployment.InstallThenAudit`,
  `AuditThenEnable`, `EnableThenActivate` and `RollbackThenEnable` give the exact conditions, and
  `ChainPasses` shows that they can be met. A first audit whose subcommand succeeds and whose
  checks then cannot be made, for instance because the TLS probe times out, stops but leaves a
  status file that enabling accepts (`StoppedAuditSlipsThrough`); so an active timer implies a
  passed first audit only if no stopped audit left such a file (`EnabledMeansAudited`).
- The varint decoder accepts padded spellings; `MqttFraming.CanonicalIff` says which byte strings
  are the encoder's.
- The file search with a negative file limit still succeeds when there is nothing to find
  (`KeyFileSearch.WalkFiles`).
- A tree differs from itself exactly when one of its leaves is not a number
  (`TreeComparison.SelfDiffIff`), and keys that contain dots can make different trees look the same
  (`DottedKeysCollide`).
- The flash reader ignores the size each chunk records, so padding after a chunk that is not the
  last would stay in the result. It returns the stored blob if and only if the chunks' slots, in a
  row, begin with it (`NvsSnapshot.ExtractsBlobIff`); `SecondByteLost` is an image whose second
  byte is lost.

## Model

| member | source | states |
|---|---|---|
| `Netfilter.ParseRuleSemantics` | tools/n3w_broker_ingress_guard.py:268-315 | the two-at-a-time reading loop computes `ReadTokens`: aliases mapped, sources normalised to their network, nothing read when any argument is not understood |
| `Netfilter.ReadRule` | tools/n3w_broker_ingress_guard.py:268-315 | a rule that reads successfully consists of known clauses only, and its reading is exactly the bag of their pairs plus its jump |
| `Netfilter.RuleMatchesParts` | tools/n3w_broker_ingress_guard.py:318-325 | equal readings mean equal clause pairs and the same jump target |
| `Netfilter.RuleMatchesSound` | tools/n3w_broker_ingress_guard.py:318-325 | a textual ownership match decides packet behaviour: the matching rule selects the same packets, in every environment, and passes control to the same place |
| `Netfilter.ReadingIgnoresOrder` | tools/n3w_broker_ingress_guard.py:268-315 | rules with the same clauses in any printed order read alike |
| `IngressKernel.FilterTable.Save` | tools/n3w_broker_ingress_guard.py:466-467 | a snapshot is the whole table, or the command failed |
| `IngressKernel.FilterTable.RestoreChain` | tools/n3w_broker_ingress_guard.py:526-536 | the restore replaces one chain's body in one atomic step and keeps every other chain, or changes nothing |
| `IngressKernel.FilterTable.Insert` | tools/n3w_broker_ingress_guard.py:217-237 | the insert puts one rule at its one-based position, or changes nothing |
| `IngressKernel.ReadAnchors` | tools/n3w_broker_ingress_guard.py:400-463 | the loop collects the positions of exact anchors and the ambiguous carriers of the owner's comment |
| `IngressKernel.FindReference` | tools/n3w_broker_ingress_guard.py:441-449 | the scan over all chains says exactly whether some rule is a foreign reference; each guard passes its own test (jumps only, or jumps and gotos) |
| `IngressKernel.ScanExact` | tools/n3w_broker_ingress_guard.py:400-463 | the collected positions are the consecutive expected ones, with nothing ambiguous, exactly when the chain holds the anchors there and no other rule carries the comment |
| `IngressKernel.ControlIsSeen` | tools/n3w_registration_ingress_guard.py:240-262 | the scan that includes gotos sees every rule that really passes control to the chain |
| `IngressKernel.AllowSourceFound` | tools/n3w_broker_ingress_guard.py:336-352 | whatever its argument order, a rule that reads like an allow rule has the allowed network as its only source |
| `IngressKernel.AllowReadsNormalised` | tools/n3w_broker_ingress_guard.py:268-315 | a source with host bits set reads like the network it lies in |
| `IngressKernel.PlainRuleRefers` | tools/n3w_broker_ingress_guard.py:441-449 | a plainly written rule refers to a chain exactly when the chain is its target |
| `NetworkDecision.CollectNetworks` | tools/n3w_broker_ingress_guard.py:104-118 | the networks of the addresses up to the first unusable one, and whether there is one |
| `NetworkDecision.DecideTrustedSubnet` | tools/n3w_broker_ingress_guard.py:93-129 | a subnet is trusted exactly when the interface is connected, has an address and all addresses are usable and lie on that one subnet; each other reason has its exact condition, and the count is always that of the networks seen |
| `NetworkDecision.AllOnSingle` | tools/n3w_broker_ingress_guard.py:118-129 | one common subnet means one collected network, and conversely |
| `BrokerGuard.ParseFirewallInventory` | tools/n3w_broker_ingress_guard.py:400-463 | the inventory loop computes chain presence, the owned chain's rules, both anchor scans and the foreign-reference flag of the table |
| `BrokerGuard.OwnedR4Iff` | tools/n3w_broker_ingress_guard.py:355-368 | ownership by the old layout means reading like it, for some subnet or none |
| `BrokerGuard.OwnedR5Iff` | tools/n3w_broker_ingress_guard.py:371-397 | ownership by the current layout means reading like it, for some subnet or none, in any clause order |
| `BrokerGuard.AcceptsIff` | tools/n3w_broker_ingress_guard.py:470-488 | what an accepted table looks like: both built-in chains present, the chain absent or owned, each anchor first and unique or absent, no foreign reference |
| `BrokerGuard.StageAccepted` | tools/n3w_broker_ingress_guard.py:619-647 | every intermediate table of an apply is accepted again, with the new chain and the anchors set so far |
| `BrokerGuard.Converges` | tools/n3w_broker_ingress_guard.py:491-523 | from any accepted table the finished apply passes the applied-state check for the new subnet |
| `BrokerGuard.Idempotent` | tools/n3w_broker_ingress_guard.py:619-647 | a second apply with the same decision leaves the table unchanged at each of its steps |
| `BrokerGuard.RerunConverges` | tools/n3w_broker_ingress_guard.py:619-647 | wherever an apply stopped, a later complete one gives the table it would have given without the interrupted one |
| `BrokerGuard.StageLookup` | tools/n3w_broker_ingress_guard.py:526-566 | each step's table, chain by chain: only the owned chain and the two anchor positions change |
| `BrokerGuard.EnsureSingleFirstAnchor` | tools/n3w_broker_ingress_guard.py:539-566 | on an accepted table it inserts the missing anchor in front, keeps an existing one, and can only fail because a command failed |
| `BrokerGuard.ApplyGuard` | tools/n3w_broker_ingress_guard.py:619-647 | a rejected table is untouched; an accepted one ends in a step of the apply; no error other than a failed command is reachable; success is the last step |
| `BrokerPolicy.ChainVerdict` | tools/n3w_broker_ingress_guard.py:186-206 | the owned chain returns loopback and trusted-subnet packets to its caller and drops the rest |
| `BrokerPolicy.PolicyEnforced` | tools/n3w_broker_ingress_guard.py:209-265 | after an apply, INPUT and DOCKER-USER drop exactly the selected packets that are neither loopback nor from the subnet on eth0, and pass every other packet to the rules behind the anchor |
| `BrokerPolicy.FailClosed` | tools/n3w_broker_ingress_guard.py:186-206 | with no trusted subnet only loopback traffic to the broker passes |
| `BrokerPolicy.OutsideVerdict` | tools/n3w_broker_ingress_guard.py:470-488 | in an accepted table without gotos, a packet gets from every chain of a closed scope in which no anchor selects it the verdict of the table without the guard |
| `BrokerPolicy.TrustedVerdict` | tools/n3w_broker_ingress_guard.py:491-523 | so do trusted packets, up to one extra call |
| `BrokerPolicy.StagesKeepOthers` | tools/n3w_broker_ingress_guard.py:526-566 | without the guard's own rules every step of an apply is the table that was there before |
| `BrokerPolicy.NonInterference` | tools/n3w_broker_ingress_guard.py:619-647 | at every step of an apply a packet gets from a chain exactly the verdict it got before, if walking the chain stays where no anchor selects it |
| `BrokerPolicy.OutsideUndisturbed` | tools/n3w_broker_ingress_guard.py:619-647 | so a packet that misses both selectors keeps its verdict from every chain |
| `BrokerPolicy.ForwardUndisturbed` | tools/n3w_broker_ingress_guard.py:619-647 | and one that misses the DOCKER-USER selector keeps it from every chain but INPUT, whatever its destination port |
| `BrokerPolicy.InterferenceIff` | tools/n3w_broker_ingress_guard.py:441-449 | with gotos allowed: in a scope where no anchor selects it an apply leaves a packet alone if and only if the owned chain already gave the new verdict or no walk reaches a goto into it |
| `BrokerPolicy.ReachedGoto` | tools/n3w_broker_ingress_guard.py:441-449 | for every accepted table a goto that is reached decides: afterwards the verdict is the new chain's, and it has changed exactly when the old chain gave another |
| `BrokerPolicy.TrustedUndisturbed` | tools/n3w_broker_ingress_guard.py:619-647 | a completed apply gives trusted packets the verdict of everybody else's earlier rules |
| `BrokerPolicy.NoOpenWindow` | tools/n3w_broker_ingress_guard.py:526-536 | while a guarded table is refreshed, every step is fully applied for the old or for the new subnet |
| `BrokerPolicy.BareAvoids` | tools/n3w_broker_ingress_guard.py:441-449 | in an accepted table without gotos only the anchors lead into the owned chain |
| `BrokerPolicy.GotoEscapes` | tools/n3w_broker_ingress_guard.py:441-449 | a table with such a goto is accepted, and an apply changes what happens in it to a packet that neither anchor selects |
| `RegistrationGuard.ParseFirewallInventory` | tools/n3w_registration_ingress_guard.py:197-269 | the inventory loop computes the broker anchor's position, the owned rules, the three-anchor scan and the foreign-reference flag |
| `RegistrationGuard.OwnedIff` | tools/n3w_registration_ingress_guard.py:184-194 | ownership means reading like the layout for some subnet or none |
| `RegistrationGuard.AcceptsIff` | tools/n3w_registration_ingress_guard.py:272-309 | an accepted table has the broker anchor as INPUT rule 1 and only there, an owned chain or none, and the three anchors at 2, 3, 4 in order or nowhere |
| `RegistrationGuard.AppliedIff` | tools/n3w_registration_ingress_guard.py:312-338 | the applied-state check means accepted, anchored, and the chain reading like the layout for that subnet |
| `RegistrationGuard.StageAcceptedIff` | tools/n3w_registration_ingress_guard.py:345-374 | an interrupted apply can be run again exactly when it was anchored before, or stopped before the first or after the last insert |
| `RegistrationGuard.CutOffRejected` | tools/n3w_registration_ingress_guard.py:272-309 | a run cut off between the inserts leaves a table the next run rejects before changing anything |
| `RegistrationGuard.Refreshed` | tools/n3w_registration_ingress_guard.py:345-374 | on an anchored table the restore alone finishes the apply |
| `RegistrationGuard.Converges` | tools/n3w_registration_ingress_guard.py:345-374 | the finished apply passes the applied-state check |
| `RegistrationGuard.Idempotent` | tools/n3w_registration_ingress_guard.py:345-374 | a second apply with the same decision changes nothing |
| `RegistrationGuard.InsertAnchors` | tools/n3w_registration_ingress_guard.py:128-146 | the loop inserts the anchors at 2, 3 and 4 and stops at the first failed command with exactly those inserted so far |
| `RegistrationGuard.ApplyGuard` | tools/n3w_registration_ingress_guard.py:345-374 | a rejected table is untouched; otherwise the table ends in a step of the apply, the last one on success |
| `IngressRuns.RegistrationNeedsBroker` | tools/n3w_registration_ingress_guard.py:272-309 | the registration guard changes nothing unless the broker anchor is INPUT rule 1 |
| `IngressRuns.CutOffForGood` | tools/n3w_registration_ingress_guard.py:272-309 | after an apply cut off between its inserts no run of the two guards, however long, gets the registration guard to accept the table again |
| `IngressRuns.RegistrationKeepsBroker` | tools/n3w_registration_ingress_guard.py:345-374 | whatever the registration guard does and wherever it is cut off, the broker's applied state stays |
| `IngressRuns.BrokerKeepsRegistration` | tools/n3w_broker_ingress_guard.py:554-566 | and conversely |
| `IngressRuns.BrokerPersists` | tools/n3w_broker_ingress_guard.py:491-523 | once applied, the broker's applied state for its latest subnet holds after any run of both guards, interrupted applies included |
| `IngressRuns.RegistrationPersists` | tools/n3w_registration_ingress_guard.py:312-338 | the same for the registration guard |
| `IngressRuns.InputOrderKept` | tools/n3w_registration_ingress_guard.py:312-338 | once both have succeeded INPUT starts with the broker anchor and the three registration anchors after any run |
| `IngressRuns.FirstApplies` | tools/n3w_registration_ingress_guard.py:345-374 | from any table the broker guard accepts and the registration guard has not touched, both applies succeed and leave both policies in force |
| `IngressRuns.EmptyTableWelcome` | tools/n3w_broker_ingress_guard.py:470-488 | a table whose INPUT and DOCKER-USER are empty is such a table |
| `IngressRuns.BothPoliciesEnforced` | tools/n3w_registration_ingress_guard.py:108-162 | with both applied, INPUT drops broker and registration packets from outside their subnets and hands every other packet to the rules behind the four anchors |
| `CertificateTime.StatesMoveForward` | tools/n3w_broker_certificate_lifecycle.py:313-334 | server and CA states only move toward expiry as time passes, whatever the thresholds |
| `CertificateTime.WholeSecondIssueIsFull` | tools/n3w_broker_certificate_lifecycle.py:585-667 | a certificate with whole-second times, valid for the configured days from the second of its issue, meets the hypothesis that certificates are issued in full |
| `CertificateTime.RenewalRequiredIff` | tools/n3w_broker_certificate_lifecycle.py:769-770 | renewal is required exactly when the truncated remaining time is within the window, for the thresholds for which that is true at all |
| `CertificateTime.RenewedWithinCa` | tools/n3w_broker_certificate_lifecycle.py:693-697 | an accepted candidate expires no later than the CA minus the margin, plus twenty minutes |
| `CertificateTime.SlackCarries` | tools/n3w_broker_certificate_lifecycle.py:795-825 | along a series each run leaves enough time for the failures that may still follow |
| `CertificateTime.NeverExpires` | tools/n3w_broker_certificate_lifecycle.py:769-770 | with gaps at most g, at most k failures in a row and (k+1)g within the window, no certificate expires between runs while the CA can sign |
| `CertificateTime.RolloverFromThenOn` | tools/n3w_broker_certificate_lifecycle.py:819-825 | once the CA has less than validity plus margin left, every due run asks for a rollover and the certificate stays |
| `CertificateTime.DefaultsTolerate` | infra/n3w-t1/systemd/n3wfc4-broker-certificate-lifecycle.timer:4-8 | the default thresholds and the daily timer with its random delay tolerate 56 failed renewals in a row |
| `CertificateRenewal.ValidatedExactly` | tools/n3w_broker_certificate_lifecycle.py:670-698 | the ordered candidate checks find no fault exactly when the candidate is what was asked for |
| `CertificateRenewal.RollbackExact` | tools/n3w_broker_certificate_lifecycle.py:736-762 | a rollback brings the file back, mode included, exactly when the umask masks none of its bits |
| `CertificateRenewal.RollbackLosesMode` | tools/n3w_broker_certificate_lifecycle.py:742-746 | mode 0644 under umask 077 comes back as 0600 |
| `CertificateRenewal.Machine.RestoreBytes` | tools/n3w_broker_certificate_lifecycle.py:736-762 | it succeeds exactly when no step fails, then the file holds the original bytes and owner; a failed write leaves no temporary |
| `CertificateRenewal.Machine.Exchange` | tools/n3w_broker_certificate_lifecycle.py:852-888 | the file is replaced exactly when every step up to the replacement works and the candidate is valid; success also needs the verified endpoint to show it |
| `CertificateRenewal.Machine.RollBack` | tools/n3w_broker_certificate_lifecycle.py:915-943 | a rollback counts as proven exactly when the restore and restart work and the endpoint shows the original, verified unless it has expired |
| `CertificateRenewal.Machine.Transaction` | tools/n3w_broker_certificate_lifecycle.py:847-943 | for every schedule of failures the exit code is determined; 0 means file and endpoint carry the validated candidate, 2 the original file (and a proven rollback), 3 keeps the workspace with the original bytes |
| `CertificateRenewal.Machine.AutoRenew` | tools/n3w_broker_certificate_lifecycle.py:795-943 | which runs attempt nothing or raise and why, that they change nothing, and that every run without exit code 3 that got past the inspection is one step of a series; a renewed certificate expires before the CA by the margin less twenty minutes |
| `EnvironmentFile.EscapeIsCharwise` | tools/n3w_broker_certificate_lifecycle_install.py:116-119 | the two whole-text replacements escape character by character |
| `EnvironmentFile.FirstUnescape` | tools/n3w_broker_certificate_lifecycle_timer_enable.py:127-151 | after the first replacement exactly the doubled backslashes are left |
| `EnvironmentFile.SecondUnescape` | tools/n3w_broker_certificate_lifecycle_timer_enable.py:127-151 | and the second replacement gives the value back |
| `EnvironmentFile.LexEscaped` | tools/n3w_broker_certificate_lifecycle_timer_activate.py:155-184 | the shell lexer's double-quote state reads an escaped value back |
| `EnvironmentFile.ValueRoundTrip` | tools/n3w_broker_certificate_lifecycle_install.py:116-119 | what the writer accepts both readers read back, except the empty value, which both refuse |
| `EnvironmentFile.ParseEnvironment` | tools/n3w_broker_certificate_lifecycle_first_audit.py:128-159 | the line loop computes the values of the text, with its errors for malformed, unknown, repeated and missing keys |
| `EnvironmentFile.FileRoundTripIff` | tools/n3w_broker_certificate_lifecycle_install.py:311-327 | a written file reads back exactly when no value is empty or contains a line boundary |
| `EnvironmentFile.ShlexReadsIff` | tools/n3w_broker_certificate_lifecycle_first_audit.py:128-159 | the lexing reader takes a written file exactly when every value is readable, and then with the written values: an unreadable one leaves a quotation open |
| `EnvironmentFile.LifecycleFileReadsBack` | tools/n3w_broker_certificate_lifecycle_install.py:311-327 | the installed nine-key file parses to the same map in all three tools, under exactly that condition |
| `EnvironmentFile.LifecycleReads` | tools/n3w_broker_certificate_lifecycle_install.py:311-327 | the lexing tools take the installed file exactly when all nine values are readable; the enabling tool then reads the same |
| `EnvironmentFile.TwoPassReadsIff` | tools/n3w_broker_certificate_lifecycle_timer_enable.py:127-151 | the reader with two replacements takes a written file exactly when every value is readable or has a first line that ends in a quotation mark and only blank or comment lines after it; what it then reads is the written values only if all are readable |
| `EnvironmentFile.QuoteSlipsThrough` | tools/n3w_broker_certificate_lifecycle_timer_enable.py:127-151 | a value with a quotation mark, a vertical tab and a hash sign is read as another value there, and refused by the lexing reader |
| `EnvironmentFile.FormFeedIsLost` | tools/n3w_broker_certificate_lifecycle_install.py:116-119 | a form feed passes the writer and is refused by both readers |
| `LifecycleInstall.Installation.WriteAtomic` | tools/n3w_broker_certificate_lifecycle_install.py:122-145 | a file is written exactly when no step fails; otherwise exactly what its handler could not remove is left, target or temporary |
| `LifecycleInstall.Installation.Rollback` | tools/n3w_broker_certificate_lifecycle_install.py:209-225 | the reverse loop leaves exactly the files whose removal failed, and reports success exactly when no step failed |
| `LifecycleInstall.Installation.WriteFiles` | tools/n3w_broker_certificate_lifecycle_install.py:311-345 | the files before the first that cannot be written are created, in order, and nothing else is on disk but what the failing write left |
| `LifecycleInstall.Installation.Install` | tools/n3w_broker_certificate_lifecycle_install.py:289-418 | exit code and everything left on disk, for every schedule of failures of the steps, the handlers and the rollback |
| `LifecycleInstall.ExitTwoCleanIff` | tools/n3w_broker_certificate_lifecycle_install.py:122-145 | with exit code 2 nothing is left exactly when the failing write's handler could remove its own file |
| `LifecycleInstall.KeptIff` | tools/n3w_broker_certificate_lifecycle_install.py:311-418 | a failed installation leaves its k-th file exactly when the earlier ones were written and either this one was too and the rollback could not remove it, or its own write failed and the handler left it |
| `LifecycleInstall.FileLeftBehind` | tools/n3w_broker_certificate_lifecycle_install.py:122-145 | each of the four files can be left behind with exit code 2 |
| `LifecycleDeployment.Deployment.Install` | tools/n3w_broker_certificate_lifecycle_install.py:228-418 | the installation run on the deployment's state: exit code and state left are those of the install model, with the environment text and the final checks failing when the values and the runtime make them fail |
| `LifecycleDeployment.Deployment.FirstAudit` | tools/n3w_broker_certificate_lifecycle_first_audit.py:431-490 | a failed or unanswered prestate touches nothing; exit code 0 exactly when what the audit left and printed passes every check |
| `LifecycleDeployment.Deployment.EnableTimer` | tools/n3w_broker_certificate_lifecycle_timer_enable.py:403-484 | exit code and state left for every schedule, errors raised by the enabling command, inside the rollback and in the final report included |
| `LifecycleDeployment.Deployment.RollbackEnablement` | tools/n3w_broker_certificate_lifecycle_timer_enable.py:361-373 | returns exactly when none of its calls raises, and is then proven exactly when disabling worked and neither unit is active |
| `LifecycleDeployment.Deployment.WaitServiceQuiescent` | tools/n3w_broker_certificate_lifecycle_timer_activate.py:387-394 | the first settled state polled, or the last state |
| `LifecycleDeployment.Deployment.RollbackActivation` | tools/n3w_broker_certificate_lifecycle_timer_activate.py:397-411 | returns exactly when none of its calls raises, and is then proven exactly when stop and disable worked and neither unit is running; a stop that raises leaves the unit enabled |
| `LifecycleDeployment.Deployment.ActivateTimer` | tools/n3w_broker_certificate_lifecycle_timer_activate.py:465-545 | exit code and state left for every schedule, errors raised by the starting command and inside the rollback included |
| `LifecycleDeployment.EnableTwoIff` | tools/n3w_broker_certificate_lifecycle_timer_enable.py:403-484 | exactly when exit code 2 of enabling means that the timer is disabled again |
| `LifecycleDeployment.EnableTwoProven` | tools/n3w_broker_certificate_lifecycle_timer_enable.py:361-373 | it does whenever no call outside the checks raises |
| `LifecycleDeployment.ActivateTwoIff` | tools/n3w_broker_certificate_lifecycle_timer_activate.py:465-545 | exactly when exit code 2 of activation means that the timer is stopped and disabled |
| `LifecycleDeployment.ActivateTwoProven` | tools/n3w_broker_certificate_lifecycle_timer_activate.py:397-411 | it does whenever the start returns and the rollback runs to its end |
| `LifecycleDeployment.TimedOutEnable` | tools/n3w_broker_certificate_lifecycle_timer_enable.py:403-410 | from every enable prestate, an enabling command that takes effect and times out exits 2 with the timer enabled |
| `LifecycleDeployment.UnreportedEnable` | tools/n3w_broker_certificate_lifecycle_timer_enable.py:439-461 | so does an enablement that passed every check and could not be reported |
| `LifecycleDeployment.TimedOutStart` | tools/n3w_broker_certificate_lifecycle_timer_activate.py:465-474 | from every activation prestate, a start that takes effect and times out exits 2 with the timer active |
| `LifecycleDeployment.RollbackCutOff` | tools/n3w_broker_certificate_lifecycle_timer_activate.py:397-411 | a rollback with a failed stop, a working disable and a query that times out exits 2 with the timer active and its unit disabled |
| `LifecycleDeployment.InstalledFits` | tools/n3w_broker_certificate_lifecycle_install.py:311-327 | the file an installation writes fits the running broker for the lexing tools exactly when its values are readable, and then for the enabling tool too |
| `LifecycleDeployment.InstallThenAudit` | tools/n3w_broker_certificate_lifecycle_first_audit.py:245-313 | an installation with exit code 0 leaves the first audit's prestate exactly when its nine values are readable and the system CA is still the expected one |
| `LifecycleDeployment.AuditThenEnable` | tools/n3w_broker_certificate_lifecycle_timer_enable.py:333-358 | when a first audit with exit code 0 leaves the enable prestate, exactly |
| `LifecycleDeployment.EnableThenActivate` | tools/n3w_broker_certificate_lifecycle_timer_activate.py:369-384 | when an enablement with exit code 0 leaves the activation prestate, exactly |
| `LifecycleDeployment.RollbackThenEnable` | tools/n3w_broker_certificate_lifecycle_timer_activate.py:397-411 | a proven activation rollback leads back to the enable prestate exactly when status and runtime are still fine, and never to the activation prestate |
| `LifecycleDeployment.ChainPasses` | tools/n3w_broker_certificate_lifecycle_timer_activate.py:465-525 | after every such installation there are an audit, an enablement and an activation that pass and leave the timer active |
| `LifecycleDeployment.InstallUnit` | tools/n3w_broker_certificate_lifecycle_install.py:367-418 | an installation leaves an enabled timer unit exactly when the unit reads as enabled and the schedule keeps the file in place, and then without the rest unless the rollback failed to remove both other files |
| `LifecycleDeployment.StrayWithExitTwo` | tools/n3w_broker_certificate_lifecycle_install.py:122-145 | with exit code 2 that is exactly a unit whose own write failed after the rename and whose handler left it; never if the handlers clean up |
| `LifecycleDeployment.StrayTimer` | tools/n3w_broker_certificate_lifecycle_install.py:122-145 | from every state in which an installation can begin, one that exits 2 and leaves an enabled timer without its other files |
| `LifecycleDeployment.StepOrderIff` | tools/n3w_broker_certificate_lifecycle_timer_activate.py:397-411 | exactly which tool runs lose the order "active implies enabled implies installed": rollbacks that disable a timer they could not stop, and installations whose failures keep an enabled unit without the rest |
| `LifecycleDeployment.RunOrdered` | tools/n3w_broker_certificate_lifecycle_timer_activate.py:465-545 | along every run of the four tools without such a step, with any failures and exit codes, the order holds |
| `LifecycleDeployment.RunBacked` | tools/n3w_broker_certificate_lifecycle_timer_activate.py:465-545 | along every run without such an installation a timer that is active or enabled has exactly the installed files behind it, cut-off rollbacks included |
| `LifecycleDeployment.StepUnauditedIff` | tools/n3w_broker_certificate_lifecycle_timer_enable.py:237-289 | exactly which events end an unaudited deployment: an audit whose subcommand leaves an acceptable status file, and an installation whose failures keep a unit that reads as enabled; of those audits exactly the ones that stop are not passed ones |
| `LifecycleDeployment.EnabledMeansAudited` | tools/n3w_broker_certificate_lifecycle_first_audit.py:431-490 | along every run without such stopped audits and such installations, enabled or active implies a passed first audit |
| `LifecycleDeployment.StoppedAuditSlipsThrough` | tools/n3w_broker_certificate_lifecycle_timer_enable.py:237-289 | wherever the first audit can run and the unit is disabled, a good audit whose checks then cannot be made exits 2, and enabling and activation then exit 0 |
| `LifecycleDeployment.StoppedAuditEnablesIff` | tools/n3w_broker_certificate_lifecycle_timer_enable.py:237-289 | exactly which stopped audits make that possible |
| `PrepareModel.DurableStore.WriteProfile` | tools/h3_n2_stage2d9_prepare_model_20260722_v1.py:60-65 | the uncommitted phase, with the authorization's fields and one more write |
| `PrepareModel.DurableStore.CommitPrepared` | tools/h3_n2_stage2d9_prepare_model_20260722_v1.py:67-71 | commits only what was written; otherwise the store is untouched |
| `PrepareModel.DurableStore.PrepareCandidate` | tools/h3_n2_stage2d9_prepare_model_20260722_v1.py:129-169 | an attempt, cut off anywhere, is the specified transition; the checks after the commit never fire |
| `PrepareModel.RecoverTwice` | tools/h3_n2_stage2d9_prepare_model_20260722_v1.py:73-90 | recovery is idempotent |
| `PrepareModel.ActiveUntouched` | tools/h3_n2_stage2d9_prepare_model_20260722_v1.py:73-90 | recovery never changes the active profile, the sessions or the later authorizations |
| `PrepareModel.CommittedRefuses` | tools/h3_n2_stage2d9_prepare_model_20260722_v1.py:98-126 | a committed store refuses every later attempt before any write |
| `PrepareModel.CommittedStays` | tools/h3_n2_stage2d9_prepare_model_20260722_v1.py:129-169 | so it stays as it is for the rest of any run |
| `PrepareModel.RunRecovers` | tools/h3_n2_stage2d9_prepare_model_20260722_v1.py:73-90 | after any run recovery shows the empty slot and no commit, or exactly the generation and digest of the attempt that committed |
| `PrepareModel.OneCommit` | tools/h3_n2_stage2d9_prepare_model_20260722_v1.py:129-169 | at most one attempt of a run commits |
| `PrepareModel.WritesCounted` | tools/h3_n2_stage2d9_prepare_model_20260722_v1.py:60-71 | the write count is profile writes plus commits |
| `PrepareCommand.MaterialInjective` | tools/h3_n2_stage2d9_prepare_command_protocol_20260722_v1.py:32-70 | the candidate material determines suffix and authorization digest |
| `PrepareCommand.SplitJoin` | tools/h3_n2_stage2d9_prepare_command_protocol_20260722_v1.py:77-100 | splitting joined words gives the words back |
| `PrepareCommand.JoinSplit` | tools/h3_n2_stage2d9_prepare_command_protocol_20260722_v1.py:77-100 | joining what was split gives the line back |
| `PrepareCommand.RenderThenParse` | tools/h3_n2_stage2d9_prepare_command_protocol_20260722_v1.py:77-143 | a rendered command has at most 301 characters and parses back to its fields, any line ending that fits included |
| `PrepareCommand.ParseThenRender` | tools/h3_n2_stage2d9_prepare_command_protocol_20260722_v1.py:77-143 | every accepted line is, without its line ending, the rendering of its fields |
| `MqttFraming.Varint` | tools/n3w_t1_broker_authenticated_readiness.py:24-35 | the loop writes the encoding of a value in range and refuses every other |
| `MqttFraming.DecodeInvertsEncode` | tools/n3w_t1_broker_authenticated_readiness.py:24-35 | decoding inverts encoding, whatever follows |
| `MqttFraming.EncodingIsMinimal` | tools/n3w_t1_broker_authenticated_readiness.py:24-35 | no shorter byte string decodes to the same value |
| `MqttFraming.CanonicalIff` | tools/n3w_t1_broker_authenticated_readiness.py:72-81 | the accepted spellings that are encodings are exactly those without a final zero |
| `MqttFraming.VarintRoundTrip` | tools/n3w_t1_broker_authenticated_readiness.py:72-81 | every value in range is read back from at most four bytes, consuming exactly its own |
| `MqttFraming.Socket.RecvExact` | tools/n3w_t1_broker_authenticated_readiness.py:62-69 | the bytes asked for, however the stream splits them, or an error once the peer has closed |
| `MqttFraming.Socket.RecvVarint` | tools/n3w_t1_broker_authenticated_readiness.py:72-81 | the value on the wire, independent of how the stream splits, with the exact bytes consumed |
| `MqttFraming.ConnectPacket` | tools/n3w_t1_broker_authenticated_readiness.py:51-59 | the packet is the fixed header, the length and the body, or the error of the first field that is too long |
| `MqttFraming.BodyFits` | tools/n3w_t1_broker_authenticated_readiness.py:51-59 | every body that can be built fits the length encoding |
| `MqttFraming.ConnectReadsBack` | tools/n3w_t1_broker_authenticated_readiness.py:51-59 | a reader that follows section 3.1 of MQTT Version 5.0 recovers client id, user name and password |
| `KeyFileSearch.ScanDirectory` | tools/n3w_broker_ca_private_key_authority_probe.py:304-330 | one directory's files are listed, its large ones counted and its directories pushed |
| `KeyFileSearch.WalkStack` | tools/n3w_broker_ca_private_key_authority_probe.py:296-330 | emptying the stack lists what lies below everything on it |
| `KeyFileSearch.WalkFiles` | tools/n3w_broker_ca_private_key_authority_probe.py:291-330 | the result is the listing of all roots as a multiset, with the large files counted; it fails exactly when there are more files than the limit |
| `KeyFileSearch.ListedExactly` | tools/n3w_broker_ca_private_key_authority_probe.py:291-330 | the listing holds each regular file that is not too large, reached through listable directories within the depth, once, and nothing else |
| `KeyFileSearch.RootsListedExactly` | tools/n3w_broker_ca_private_key_authority_probe.py:291-330 | the same over all roots, with each file's root index |
| `NvsSnapshot.ReadChildren` | tools/n3w_read_diag_snapshot.py:247-250 | the child slots in a row, cut off at the page's end |
| `NvsSnapshot.File` | tools/n3w_read_diag_snapshot.py:230-251 | one entry is filed under its kind, or the key is not ASCII |
| `NvsSnapshot.Reassemble` | tools/n3w_read_diag_snapshot.py:254-270 | the last matching index and its chunks, or the exact error |
| `NvsSnapshot.Extract` | tools/n3w_read_diag_snapshot.py:212-270 | the nested scanning loop ends on every image and computes the specified extraction |
| `NvsSnapshot.ExtractsSlots` | tools/n3w_read_diag_snapshot.py:212-270 | for every written image, in whatever pages, slots and company, extraction yields the chunks' slots in a row, cut to the recorded size |
| `NvsSnapshot.ExtractsBlobIff` | tools/n3w_read_diag_snapshot.py:212-270 | the stored blob is returned if and only if it is what the chunks' slots begin with |
| `NvsSnapshot.BlobReadsBack` | tools/n3w_read_diag_snapshot.py:212-270 | which it is when every chunk but the last fills its slots |
| `NvsSnapshot.PageReadsBack` | tools/n3w_read_diag_snapshot.py:212-270 | a namespace, an index and any chunks that fit on one page are such an image: what comes back is their slots in a row, cut to the recorded size |
| `NvsSnapshot.PaddingInTheMiddle` | tools/n3w_read_diag_snapshot.py:260-270 | and is not when padding after an earlier chunk differs from the byte due there |
| `NvsSnapshot.SecondByteLost` | tools/n3w_read_diag_snapshot.py:260-270 | two padded one-byte chunks on one page: the second byte comes back as padding |
| `TreeComparison.FlattenSound` | tools/n3w_t1_clean_reference_compare.py:44-53 | every flat path spells the key sequence of a leaf and carries it |
| `TreeComparison.FlattenComplete` | tools/n3w_t1_clean_reference_compare.py:44-53 | with dot-free keys every leaf appears at its path: none overwrites another |
| `TreeComparison.SuffixInjective` | tools/n3w_t1_clean_reference_compare.py:48-48 | a dotted path determines the dot-free keys it was made of |
| `TreeComparison.DiffersIff` | tools/n3w_t1_clean_reference_compare.py:56-71 | the stand-in for a missing path never equals a leaf |
| `TreeComparison.Diff` | tools/n3w_t1_clean_reference_compare.py:56-71 | each path whose sides differ, once, with what both sides have there |
| `TreeComparison.DiffEmptyIff` | tools/n3w_t1_clean_reference_compare.py:56-71 | the difference is empty exactly when the trees are the same once empty objects are pruned |
| `TreeComparison.SelfDiffIff` | tools/n3w_t1_clean_reference_compare.py:63-63 | a tree differs from itself exactly when one of its leaves is not a number |
| `TreeComparison.DottedKeysCollide` | tools/n3w_t1_clean_reference_compare.py:48-48 | keys with dots give different trees one flat form |
| `TreeComparison.CompareServices` | tools/n3w_t1_clean_reference_compare.py:107-121 | the services whose start time or restart count changed, or the first service that is not recorded |
| `TreeComparison.Business` | tools/n3w_t1_clean_reference_compare.py:123-127 | the changes whose path has a business prefix, and no others |
| `TreeComparison.Compare` | tools/n3w_t1_clean_reference_compare.py:74-161 | the error of the first missing section, or a report with every difference and a reason to stop for each finding |
| `TreeComparison.PassIff` | tools/n3w_t1_clean_reference_compare.py:129-161 | a pass is equal stable contracts up to empty objects, an unchanged boot, no restarted service and, when asked for, business drift, and nothing less |
| `SerialCapture.LineKeepsMarkers` | tools/h3_n2_stage2d9_v69_serial_capture_model_20260723_v1.py:61-70 | normalising the line end neither hides a marker nor makes one |
| `SerialCapture.CaptureState.Observe` | tools/h3_n2_stage2d9_v69_serial_capture_model_20260723_v1.py:63-72 | the flags after one line; a pass marker goes before a fail marker |
| `SerialCapture.TakeEvents` | tools/h3_n2_stage2d9_v69_serial_capture_model_20260723_v1.py:57-77 | the loop takes the events up to the first stop and leaves the state that this calls for |
| `SerialCapture.CaptureEventStream` | tools/h3_n2_stage2d9_v69_serial_capture_model_20260723_v1.py:48-88 | log, its size in UTF-8 bytes, flags and reason on every way out |
| `SerialCapture.ByteLengthJoins` | tools/h3_n2_stage2d9_v69_serial_capture_model_20260723_v1.py:61-82 | encoding line by line or at once gives the same size |
| `SerialCapture.PassIff` | tools/h3_n2_stage2d9_v69_serial_capture_model_20260723_v1.py:63-88 | the call returns exactly when the first event to stop the capture carries a pass marker; success implies acceptance |
| `SerialCapture.FaultIff` | tools/h3_n2_stage2d9_v69_serial_capture_model_20260723_v1.py:59-60 | the host failure is the reason exactly when no earlier event was terminal |
| `SerialCapture.LogIsPrefix` | tools/h3_n2_stage2d9_v69_serial_capture_model_20260723_v1.py:61-82 | the log is what the whole stream would have written, cut after the events taken |
| `SerialCapture.NothingAfterTheEnd` | tools/h3_n2_stage2d9_v69_serial_capture_model_20260723_v1.py:57-75 | unless the capture timed out, later events could not have changed anything |

## Left out

Firewall guards:
- the text of a saved table and its shell-style tokenising: rules enter as lists of arguments, and chains as a map, so their order in the file is not modelled
- address parsing: an interface address enters as a number and a prefix length
- rules that carry extra arguments are modelled only as far as the guards' reading of them goes; packets do not carry what such arguments could test
- reading the kernel table while another program changes it, and the lock against that; each guard's apply runs alone, and only its own commands change the table
- BrokerPolicy.NonInterference: assumes that no other rule goes to the chain by `-g`, which the guard does not check; `BrokerPolicy.InterferenceIff` says what holds without that
- BrokerPolicy.TrustedUndisturbed: assumes that no other rule goes to the chain by `-g`
- BrokerPolicy.TrustedVerdict: assumes that no other rule goes to the chain by `-g`
- BrokerPolicy.OutsideVerdict: assumes that no other rule goes to the chain by `-g`
- BrokerPolicy.OutsideUndisturbed: assumes that no other rule goes to the chain by `-g`; `BrokerPolicy.InterferenceIff` says what holds without that
- BrokerPolicy.ForwardUndisturbed: assumes that no other rule goes to the chain by `-g`; `BrokerPolicy.InterferenceIff` says what holds without that

Certificate renewal:
- openssl, the service manager and the TLS probes: what they answer is given by the schedule; the restart is assumed not to write the certificate file
- CertificateRenewal.Machine.RestoreBytes: does not model that changing the owner may clear set-id bits
- writing the status document, which happens after the transaction and cannot change its outcome
- the ownership of the files by name: a file is its bytes, mode and owner

Environment file:
- encoding: files are text, not bytes
- EnvironmentFile.ParseEnvironment: the characters that stripping removes are a parameter, so the results hold for every such choice that keeps the names' first letter

Installation and deployment:
- exceptions that are not of the tool's own class, which would leave without a rollback
- the preflight's search for the CA key: its result enters as values of the installation
- LifecycleDeployment.RunOrdered: leaves out the runs with a step that `LifecycleDeployment.StepOrderIff` shows to lose the order
- LifecycleDeployment.RunBacked: leaves out the runs with an installation whose failures keep an enabled timer unit without the rest
- LifecycleDeployment.EnabledMeansAudited: leaves out the runs with a stopped audit that left an acceptable status file or an installation whose failures keep an enabled timer unit
- a restart of the machine, which activates an enabled timer without the activating tool
- the status document's fields: a document enters as whether it has the expected values, shows paths and shows keys
- owner and mode of the installed files after the installation, and how long the poll waits

PREPARE:
- hashing: digests are given functions, and a digest function is only assumed to return 64 hexadecimal digits
- reading a digest as a base-16 number: left to the interpreter, as a parameter

Flash image:
- the decoding of the snapshot's fields from the blob, and reading the partition from a device
- NvsSnapshot.PaddingInTheMiddle: covers padding whose first byte differs from the byte due there; `NvsSnapshot.ExtractsBlobIff` is the exact condition
- entry checksums, which the reader ignores and the written images therefore leave arbitrary

Tree comparison:
- the order of the reported differences: the source sorts them by path
- loading and the schema checks of a document
- numbers are reals and infinities, so two numbers that the interpreter would round together are told apart

MQTT and the file search:
- UTF-8: strings enter as their bytes
- the probe's exchange after CONNECT, timeouts and retries
- links that lead out of a root, and a tree that changes while it is searched

Serial capture:
- the hash of the log, and failures of the atomic write itself
- text that cannot be encoded: a string here holds no lone surrogates

Argument parsing, progress output, JSON printing and the tools' command-line entry points are left
out everywhere, as are the gates that compare constants and token lists: they would only add easy
members.
