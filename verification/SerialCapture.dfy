/** Persisting what a device wrote on its serial line: the log is written on every way out,
    and host write attempt, device acceptance and success are kept apart. */
module SerialCapture {
  import opened Results

  const ACCEPTED: string := "stage2d9_v69_command_accepted=true"
  const PREPARE_PASS: string := "stage2d9_v69_prepare=pass"
  const VERIFY_PASS: string := "stage2d9_v69_verify=pass"
  const EXECUTOR_FAIL: string := "stage2d9_v69_executor=fail"

  datatype Reason = NoReason | Pass | DeviceFail | Timeout | HostException

  // ----- Lines and markers

  predicate LineEnd(c: char) {
    c == '\r' || c == '\n'
  }

  function Stripped(event: string): string {
    if event != "" && LineEnd(event[|event| - 1]) then Stripped(event[..|event| - 1]) else event
  }

  function Line(event: string): string {
    Stripped(event) + "\n"
  }

  predicate OccursAt(text: string, part: string, i: nat) {
    i + |part| <= |text| && text[i..i + |part|] == part
  }

  predicate Contains(text: string, part: string) {
    exists i: nat | i <= |text| :: OccursAt(text, part, i)
  }

  predicate IsMarker(marker: string) {
    marker != "" && forall c | c in marker :: !LineEnd(c)
  }

  lemma {:induction false} StrippedTail(event: string) returns (tail: string)
    ensures event == Stripped(event) + tail && forall c | c in tail :: LineEnd(c)
  {
    if event != "" && LineEnd(event[|event| - 1]) {
      var rest := StrippedTail(event[..|event| - 1]);
      tail := rest + [event[|event| - 1]];
      assert event == event[..|event| - 1] + [event[|event| - 1]];
    } else {
      tail := "";
    }
  }

  lemma OccursBefore(body: string, tail: string, marker: string, i: nat)
    requires IsMarker(marker) && forall c | c in tail :: LineEnd(c)
    ensures OccursAt(body + tail, marker, i) <==> OccursAt(body, marker, i)
  {
    var text, last := body + tail, |marker| - 1;
    if OccursAt(text, marker, i) {
      assert text[i + last] == text[i..i + |marker|][last] == marker[last] && marker[last] in marker;
      assert body[i..i + |marker|] == text[i..i + |marker|];
    }
    if OccursAt(body, marker, i) {
      assert text[i..i + |marker|] == body[i..i + |marker|];
    }
  }

  lemma ContainsBefore(body: string, tail: string, marker: string)
    requires IsMarker(marker) && forall c | c in tail :: LineEnd(c)
    ensures Contains(body + tail, marker) <==> Contains(body, marker)
  {
    if Contains(body + tail, marker) {
      var i: nat :| i <= |body + tail| && OccursAt(body + tail, marker, i);
      OccursBefore(body, tail, marker, i);
    }
    if Contains(body, marker) {
      var i: nat :| i <= |body| && OccursAt(body, marker, i);
      OccursBefore(body, tail, marker, i);
    }
  }

  /** Normalising the line end neither hides a marker nor makes one. */
  lemma MarkerInLine(event: string, marker: string)
    requires IsMarker(marker)
    ensures Contains(Line(event), marker) <==> Contains(event, marker)
  {
    var tail := StrippedTail(event);
    ContainsBefore(Stripped(event), tail, marker);
    ContainsBefore(Stripped(event), "\n", marker);
  }

  predicate HasPass(line: string) {
    Contains(line, PREPARE_PASS) || Contains(line, VERIFY_PASS)
  }

  predicate Terminal(line: string) {
    HasPass(line) || Contains(line, EXECUTOR_FAIL)
  }

  lemma MarkersHaveNoLineEnd()
    ensures IsMarker(ACCEPTED) && IsMarker(PREPARE_PASS) && IsMarker(VERIFY_PASS) && IsMarker(EXECUTOR_FAIL)
  {
  }

  /** What a line says is what the event said. */
  lemma LineKeepsMarkers(event: string)
    ensures Contains(Line(event), ACCEPTED) <==> Contains(event, ACCEPTED)
    ensures HasPass(Line(event)) <==> HasPass(event)
    ensures Terminal(Line(event)) <==> Terminal(event)
  {
    MarkersHaveNoLineEnd();
    MarkerInLine(event, ACCEPTED);
    MarkerInLine(event, PREPARE_PASS);
    MarkerInLine(event, VERIFY_PASS);
    MarkerInLine(event, EXECUTOR_FAIL);
  }

  // ----- The outcome, by the event that ends the capture

  /** Capture stops at this event: the host fails before taking it, or it is terminal. */
  predicate Stops(events: seq<string>, fault: Option<int>, k: nat)
    requires k < |events|
  {
    fault == Some(k) || Terminal(Line(events[k]))
  }

  /** The first stop from k on, or the end of the stream. */
  function Stop(events: seq<string>, fault: Option<int>, k: nat): (end: nat)
    requires k <= |events|
    ensures k <= end <= |events|
    ensures end < |events| ==> Stops(events, fault, end)
    ensures forall i | k <= i < end :: !Stops(events, fault, i)
    decreases |events| - k
  {
    if k == |events| || Stops(events, fault, k) then k else Stop(events, fault, k + 1)
  }

  function Log(events: seq<string>): string {
    if events == [] then "" else Log(events[..|events| - 1]) + Line(events[|events| - 1])
  }

  function ReasonAt(events: seq<string>, fault: Option<int>, end: nat): Reason
    requires end <= |events|
  {
    if end == |events| then Timeout
    else if fault == Some(end) then HostException
    else if HasPass(Line(events[end])) then Pass
    else DeviceFail
  }

  /** How many events were taken: a terminal one still is, the one the host failed at is not. */
  function Taken(events: seq<string>, fault: Option<int>): (n: nat)
    ensures n <= |events|
  {
    var end := Stop(events, fault, 0);
    if end < |events| && fault != Some(end) then end + 1 else end
  }

  predicate AnyAccepted(events: seq<string>) {
    exists k | 0 <= k < |events| :: Contains(Line(events[k]), ACCEPTED)
  }

  /** The number of bytes a character takes in UTF-8. */
  function Width(c: char): nat {
    var n := c as int;
    if n < 0x80 then 1 else if n < 0x800 then 2 else if n < 0x1_0000 then 3 else 4
  }

  function ByteLength(text: string): nat {
    if text == "" then 0 else ByteLength(text[..|text| - 1]) + Width(text[|text| - 1])
  }

  /** Encoding line by line or at once takes the same number of bytes. */
  lemma {:induction false} ByteLengthJoins(x: string, y: string)
    ensures ByteLength(x + y) == ByteLength(x) + ByteLength(y)
  {
    if y == "" {
      assert x + y == x;
    } else {
      var last := |y| - 1;
      assert (x + y)[..|x + y| - 1] == x + y[..last];
      ByteLengthJoins(x, y[..last]);
    }
  }

  datatype Outcome = Outcome(accepted: bool, succeeded: bool, reason: Reason, log: string)

  function Captured(events: seq<string>, fault: Option<int>): Outcome {
    var reason := ReasonAt(events, fault, Stop(events, fault, 0));
    var taken := events[..Taken(events, fault)];
    Outcome(reason == Pass || AnyAccepted(taken), reason == Pass, reason, Log(taken))
  }

  // ----- The loop

  class CaptureState {
    var hostWriteAttempted: bool
    var deviceCommandAccepted: bool
    var transactionSucceeded: bool
    var terminalReason: Reason
    var logSize: nat

    constructor ()
      ensures hostWriteAttempted && !deviceCommandAccepted && !transactionSucceeded
      ensures terminalReason == NoReason && logSize == 0
    {
      hostWriteAttempted, deviceCommandAccepted, transactionSucceeded := true, false, false;
      terminalReason, logSize := NoReason, 0;
    }

    /** Follows the markers in one line; a pass marker goes before a fail marker. */
    method Observe(line: string) returns (terminal: bool)
      modifies this
      ensures hostWriteAttempted == old(hostWriteAttempted) && logSize == old(logSize)
      ensures deviceCommandAccepted == (old(deviceCommandAccepted) || Contains(line, ACCEPTED) || HasPass(line))
      ensures transactionSucceeded == (old(transactionSucceeded) || HasPass(line))
      ensures terminal == Terminal(line)
      ensures terminalReason ==
              if HasPass(line) then Pass else if Contains(line, EXECUTOR_FAIL) then DeviceFail else old(terminalReason)
    {
      if Contains(line, ACCEPTED) {
        deviceCommandAccepted := true;
      }
      if Contains(line, PREPARE_PASS) || Contains(line, VERIFY_PASS) {
        deviceCommandAccepted := true;
        transactionSucceeded := true;
        terminalReason := Pass;
        return true;
      }
      if Contains(line, EXECUTOR_FAIL) {
        terminalReason := DeviceFail;
        return true;
      }
      return false;
    }
  }

  class LogFile {
    var content: string
  }

  lemma AnyAcceptedMore(events: seq<string>, k: nat)
    requires k < |events|
    ensures AnyAccepted(events[..k + 1]) <==> AnyAccepted(events[..k]) || Contains(Line(events[k]), ACCEPTED)
  {
    var before, after := events[..k], events[..k + 1];
    if AnyAccepted(before) {
      var i :| 0 <= i < |before| && Contains(Line(before[i]), ACCEPTED);
      assert after[i] == before[i];
    }
    if AnyAccepted(after) {
      var i :| 0 <= i < |after| && Contains(Line(after[i]), ACCEPTED);
      assert i < k ==> before[i] == after[i];
    }
    assert after[k] == events[k];
  }

  lemma LogMore(events: seq<string>, k: nat)
    requires k < |events|
    ensures Log(events[..k + 1]) == Log(events[..k]) + Line(events[k])
  {
    assert events[..k + 1][..k] == events[..k];
  }

  lemma {:induction false} StopIs(events: seq<string>, fault: Option<int>, k: nat, end: nat)
    requires k <= end <= |events| && (end < |events| ==> Stops(events, fault, end))
    requires forall i | k <= i < end :: !Stops(events, fault, i)
    ensures Stop(events, fault, k) == end
    decreases end - k
  {
    if k < end {
      StopIs(events, fault, k + 1, end);
    }
  }

  lemma CapturedAt(events: seq<string>, fault: Option<int>, end: nat)
    requires end <= |events| && (end < |events| ==> Stops(events, fault, end))
    requires forall i | 0 <= i < end :: !Stops(events, fault, i)
    ensures Captured(events, fault).reason == ReasonAt(events, fault, end)
    ensures end == |events| || fault == Some(end) ==>
              Captured(events, fault).accepted == AnyAccepted(events[..end])
                  && Captured(events, fault).log == Log(events[..end])
    ensures end < |events| && fault != Some(end) ==>
              && Captured(events, fault).accepted == (HasPass(Line(events[end])) || AnyAccepted(events[..end + 1]))
              && Captured(events, fault).log == Log(events[..end + 1])
    ensures Captured(events, fault).succeeded == (Captured(events, fault).reason == Pass)
  {
    StopIs(events, fault, 0, end);
  }

  /** Takes event after event until one ends the capture; the log is written either way.
      `normal` says that the call returns, rather than raising with the state. */
  method CaptureEventStream(events: seq<string>, file: LogFile, fault: Option<int>)
    returns (state: CaptureState, normal: bool)
    modifies file
    ensures fresh(state) && state.hostWriteAttempted
    ensures var outcome := Captured(events, fault);
            && state.deviceCommandAccepted == outcome.accepted
            && state.transactionSucceeded == outcome.succeeded
            && state.terminalReason == outcome.reason
            && file.content == outcome.log
            && state.logSize == ByteLength(outcome.log)
            && normal == (outcome.reason == Pass)
  {
    state := new CaptureState();
    var capture, failed;
    capture, failed := TakeEvents(events, fault, state);
    file.content := capture;
    state.logSize := ByteLength(capture);
    if failed && state.terminalReason == NoReason {
      state.terminalReason := HostException;
    }
    normal := !failed;
  }

  /** The capturing loop: the bytes to persist, and whether an exception is pending. */
  method TakeEvents(events: seq<string>, fault: Option<int>, state: CaptureState)
    returns (capture: string, failed: bool)
    requires !state.deviceCommandAccepted && !state.transactionSucceeded && state.terminalReason == NoReason
    modifies state
    ensures state.hostWriteAttempted == old(state.hostWriteAttempted)
    ensures var outcome := Captured(events, fault);
            && state.deviceCommandAccepted == outcome.accepted
            && state.transactionSucceeded == outcome.succeeded
            && capture == outcome.log
            && failed == (outcome.reason != Pass)
            && state.terminalReason == if outcome.reason == HostException then NoReason else outcome.reason
  {
    capture := "";
    var index := 0;
    while index < |events|
      invariant index <= |events| && state.hostWriteAttempted == old(state.hostWriteAttempted)
      invariant state.terminalReason == NoReason && !state.transactionSucceeded
      invariant forall i | 0 <= i < index :: !Stops(events, fault, i)
      invariant capture == Log(events[..index])
      invariant state.deviceCommandAccepted == AnyAccepted(events[..index])
    {
      if fault == Some(index) {
        CapturedAt(events, fault, index);
        return capture, true;
      }
      var line := Line(events[index]);
      LogMore(events, index);
      AnyAcceptedMore(events, index);
      capture := capture + line;
      var terminal := state.Observe(line);
      if terminal {
        CapturedAt(events, fault, index);
        return capture, state.terminalReason == DeviceFail;
      }
      index := index + 1;
    }
    CapturedAt(events, fault, |events|);
    state.terminalReason := Timeout;
    return capture, true;
  }

  // ----- What a caller may rely on

  /** The call returns exactly when the first event to stop the capture carries a pass marker
      and the host does not fail at it; success, the reason and the return always agree. */
  lemma PassIff(events: seq<string>, fault: Option<int>)
    ensures var outcome := Captured(events, fault);
            && (outcome.reason == Pass <==>
                exists k | 0 <= k < |events| :: FirstPass(events, fault, k))
            && (outcome.succeeded <==> outcome.reason == Pass)
            && (outcome.succeeded ==> outcome.accepted)
            && outcome.reason != NoReason
  {
    var end := Stop(events, fault, 0);
    if k :| 0 <= k < |events| && FirstPass(events, fault, k) {
      StopIs(events, fault, 0, k);
    }
    if Captured(events, fault).reason == Pass {
      assert FirstPass(events, fault, end);
    }
  }

  predicate FirstPass(events: seq<string>, fault: Option<int>, k: nat)
    requires k < |events|
  {
    fault != Some(k) && HasPass(Line(events[k])) && forall i | 0 <= i < k :: !Stops(events, fault, i)
  }

  /** A timeout is the only way to take every event without a terminal one, and the only
      outcome that later events could change. */
  lemma NothingAfterTheEnd(events: seq<string>, more: seq<string>, fault: Option<int>)
    requires Captured(events, fault).reason != Timeout
    ensures Captured(events + more, fault) == Captured(events, fault)
  {
    var end, all := Stop(events, fault, 0), events + more;
    assert all[end] == events[end];
    forall i | 0 <= i < end
      ensures !Stops(all, fault, i)
    {
      assert all[i] == events[i] && !Stops(events, fault, i);
    }
    assert Stops(events, fault, end);
    StopIs(all, fault, 0, end);
    assert all[..Taken(events, fault)] == events[..Taken(events, fault)];
  }

  lemma {:induction false} LogJoins(x: seq<string>, y: seq<string>)
    ensures Log(x + y) == Log(x) + Log(y)
  {
    if y == [] {
      assert x + y == x;
    } else {
      var last := |y| - 1;
      assert (x + y)[..|x + y| - 1] == x + y[..last];
      LogJoins(x, y[..last]);
    }
  }

  /** The log is what the whole stream would have written, cut after the events taken. */
  lemma LogIsPrefix(events: seq<string>, fault: Option<int>)
    ensures Captured(events, fault).log + Log(events[Taken(events, fault)..]) == Log(events)
  {
    var n := Taken(events, fault);
    LogJoins(events[..n], events[n..]);
    assert events[..n] + events[n..] == events;
  }

  /** The host failure wins over everything at its event and loses to anything before it. */
  lemma FaultIff(events: seq<string>, k: nat)
    ensures Captured(events, Some(k)).reason == HostException <==>
            k < |events| && forall i | 0 <= i < k :: !Terminal(Line(events[i]))
  {
    var fault: Option<int> := Some(k);
    var end := Stop(events, fault, 0);
    if k < |events| && forall i | 0 <= i < k :: !Terminal(Line(events[i])) {
      StopIs(events, fault, 0, k);
    }
    if Captured(events, fault).reason == HostException {
      forall i | 0 <= i < k
        ensures !Terminal(Line(events[i]))
      {
        assert !Stops(events, fault, i);
      }
    }
  }
}
