/** The script's top level: `ser = connect()` followed by the endless polling loop. */
module Loop {
  import opened Wrappers
  import opened PyStr
  import opened Readings
  import opened Gpu
  import opened Telemetry
  import opened Display
  import opened Link
  import opened Cycle

  /** One pass as seen from outside: the handle it ran with and what it did. */
  datatype Event = Event(handle: Handle, outcome: Outcome)

  /** What one pass does to a handle, given that pass's input. */
  type Stepper = (Handle, CycleInput) -> StepResult

  /**
    The passes of the loop starting with handle `h`, one per input, until a
    reconnection does not return within its retry passes: no pass runs
    while `connect()` is still retrying. The pass itself is `step`; the
    script's is `Cycle.Step`.
  */
  function Run(step: Stepper, h: Handle, inputs: seq<CycleInput>): (t: seq<Event>)
    ensures |t| <= |inputs|
    ensures |inputs| > 0 ==> |t| > 0 && t[0].handle == h
    ensures forall k :: 0 <= k < |t| ==> t[k].outcome == step(t[k].handle, inputs[k]).outcome
    ensures forall k :: 0 <= k < |t| - 1 ==> step(t[k].handle, inputs[k]).next == Open(t[k + 1].handle)
    ensures 0 < |t| < |inputs| ==> step(t[|t| - 1].handle, inputs[|t| - 1]).next == Blocked
    decreases |inputs|
  {
    if inputs == [] then
      []
    else
      var r := step(h, inputs[0]);
      match r.next
      case Blocked => [Event(h, r.outcome)]
      case Open(h') =>
        var rest := Run(step, h', inputs[1..]);
        var t := [Event(h, r.outcome)] + rest;
        assert forall k :: 1 <= k < |t| ==> t[k] == rest[k - 1] && inputs[k] == inputs[1..][k - 1];
        t
  }

  /** `ser = connect()` against the start-up retry passes, then the loop. */
  function Session(startup: seq<Attempt>, inputs: seq<CycleInput>): seq<Event> {
    match Connect(startup)
    case None => []
    case Some(h) => Run(Step, h, inputs)
  }

  /** A pass changes the handle only by losing the link, and then to what `connect()` returned. */
  lemma StepLink(h: Handle, input: CycleInput, h': Handle)
    requires Step(h, input).next == Open(h')
    ensures !Step(h, input).outcome.LinkLost? ==> h' == h
    ensures Step(h, input).outcome.LinkLost? ==> Connect(input.reconnect) == Some(h')
  {
  }

  /**
    Between passes the handle changes only through a failed write: a
    skipped or successful pass keeps it, and after `LinkLost` the next pass
    runs with exactly the handle `connect()` returned.
  */
  lemma HandleContinuity(h: Handle, inputs: seq<CycleInput>, k: nat)
    requires k + 1 < |Run(Step, h, inputs)|
    ensures var t := Run(Step, h, inputs);
      && (!t[k].outcome.LinkLost? ==> t[k + 1].handle == t[k].handle)
      && (t[k].outcome.LinkLost? ==> Connect(inputs[k].reconnect) == Some(t[k + 1].handle))
  {
    var t := Run(Step, h, inputs);
    StepLink(t[k].handle, inputs[k], t[k + 1].handle);
  }

  /** A trace that stops before its inputs do stops on a lost link whose reconnection never returned. */
  lemma EarlyStop(h: Handle, inputs: seq<CycleInput>)
    requires |Run(Step, h, inputs)| < |inputs|
    ensures var t := Run(Step, h, inputs);
      |t| > 0 && t[|t| - 1].outcome.LinkLost? && Connect(inputs[|t| - 1].reconnect) == None
  {
    var t := Run(Step, h, inputs);
    var r := Step(t[|t| - 1].handle, inputs[|t| - 1]);
    assert r.next == Blocked;
  }

  /** A pass that keeps the link open keeps it on a display handle. */
  ghost predicate KeepsTarget(step: Stepper) {
    forall h, input :: TargetHandle(h) && step(h, input).next.Open? ==> TargetHandle(step(h, input).next.handle)
  }

  lemma StepKeepsTarget()
    ensures KeepsTarget(Step)
  {
    forall h, input | TargetHandle(h) && Step(h, input).next.Open?
      ensures TargetHandle(Step(h, input).next.handle)
    {
      StepLink(h, input, Step(h, input).next.handle);
    }
  }

  /** Every pass of a loop started on a display handle writes, if at all, to a display handle. */
  lemma {:induction false} RunStaysOnTarget(step: Stepper, h: Handle, inputs: seq<CycleInput>)
    requires KeepsTarget(step) && TargetHandle(h)
    ensures forall k :: 0 <= k < |Run(step, h, inputs)| ==> TargetHandle(Run(step, h, inputs)[k].handle)
    decreases |inputs|
  {
    if inputs != [] {
      var r := step(h, inputs[0]);
      if r.next.Open? {
        RunStaysOnTarget(step, r.next.handle, inputs[1..]);
        var t := Run(step, h, inputs);
        assert forall k :: 1 <= k < |t| ==> t[k] == Run(step, r.next.handle, inputs[1..])[k - 1];
      }
    }
  }

  /**
    The whole program: every pass runs on a handle `connect()` opened on a
    "Leonardo" device at 9600 baud, and every write sends exactly the
    snapshot measured from that pass's own response, followed by one line break.
  */
  lemma SessionSafety(startup: seq<Attempt>, inputs: seq<CycleInput>)
    ensures var t := Session(startup, inputs);
      && (forall k :: 0 <= k < |t| ==> TargetHandle(t[k].handle))
      && (forall k, s :: 0 <= k < |t| && t[k].outcome.Sent? && Measured(inputs[k], s) ==> t[k].outcome.bytes == Payload(s) && Carries(t[k].outcome.bytes, s))
  {
    match Connect(startup)
    case None =>
    case Some(h) =>
      ConnectOnTarget(startup);
      StepKeepsTarget();
      RunStaysOnTarget(Step, h, inputs);
  }

  /**
    A body that is empty or only whitespace is rejected before any parsing:
    that pass writes nothing and keeps the handle.
  */
  lemma BlankBodyNoWrite(h: Handle, input: CycleInput)
    requires input.response.Body? && AllSpace(input.response.text)
    ensures Step(h, input) == StepResult(Skipped(FetchFailed(InvalidResponse)), Open(h))
  {
    BlankBodyRejected(input.response.text);
  }

  /** Readings without any class mention no GPU. */
  lemma NoGpuMentioned(data: seq<Reading>)
    requires forall i :: 0 <= i < |data| ==> data[i].cls == ""
    ensures !Mentions(data, Gpu0) && !Mentions(data, Gpu1)
  {
    assert !Contains("", Gpu0) && !Contains("", Gpu1);
  }

  /**
    A response holding only a CPU usage reading of 42.7, and no GPU readings,
    sends nothing at all: no class names a GPU, so `get_gpu_value` is called
    with no label on a non-empty list and raises.
  */
  lemma CpuOnlyResponseSendsNothing(h: Handle, mem: Memory, writeOk: bool, reconnect: seq<Attempt>)
    ensures var data := [Reading(Some(CpuUsageName), "", Some(42.7))];
      var text := "[" + "{\"SensorName\": \"Total CPU Usage\", \"SensorValue\": \"42.7\"}" + "]";
      Step(h, CycleInput(Body(text, Some(data)), mem, writeOk, reconnect))
        == StepResult(Skipped(NoGpuLabel), Open(h))
  {
    var data := [Reading(Some(CpuUsageName), "", Some(42.7))];
    var inner := "{\"SensorName\": \"Total CPU Usage\", \"SensorValue\": \"42.7\"}";
    BracketedAccepted(inner);
    UnlabelledSkips(h, CycleInput(Body("[" + inner + "]", Some(data)), mem, writeOk, reconnect), data);
  }

  /** An accepted body whose readings carry no class at all skips the pass. */
  lemma UnlabelledSkips(h: Handle, input: CycleInput, data: seq<Reading>)
    requires input.response.Body? && AcceptsBody(input.response.text) && input.response.json == Some(data)
    requires |data| > 0 && forall i :: 0 <= i < |data| ==> data[i].cls == ""
    ensures Step(h, input) == StepResult(Skipped(NoGpuLabel), Open(h))
  {
    assert Fetch(input.response) == Success(data);
    NoGpuMentioned(data);
  }
}
