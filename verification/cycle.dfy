/**
  One pass of the polling loop (fetch, measure, format, write), taking the
  open link handle to an outcome and the next link state.
*/
module Cycle {
  import opened Wrappers
  import opened PyStr
  import opened Readings
  import opened Gpu
  import opened Telemetry
  import opened Display
  import opened Link

  const CpuUsageName: string := "Total CPU Usage"
  const CpuTempName: string := "CPU Package"
  const GpuTempName: string := "GPU Temperature"
  const GpuUsageName: string := "GPU Utilization"
  const UpRateName: string := "Current UP rate"
  const DownRateName: string := "Current DL rate"

  const GiB: nat := 1073741824  // 1024 ** 3

  /** `int(b / (1024 ** 3))`: true division then truncation, which for a byte count is whole gibibytes. */
  function RamGiB(b: nat): (g: int)
    ensures g == b / GiB
  {
    var q := b / GiB;
    var x := b as real / GiB as real;
    assert b == q * GiB + b % GiB;
    assert x == q as real + (b % GiB) as real / GiB as real;
    Trunc(x)
  }

  /** `psutil.virtual_memory()`: the two byte counts the script reads. */
  datatype Memory = Memory(used: nat, available: nat)

  /**
    The assignments of the loop body from `cpu_usage` to `rx`: every value
    truncated toward zero. The GPU lookups fail, and with them the whole
    snapshot, exactly when the readings are non-empty and no class mentions
    either GPU.
  */
  function Measure(data: seq<Reading>, mem: Memory): (r: Result<Snapshot, GpuError>)
    ensures r.Failure? <==> |data| > 0 && !Mentions(data, Gpu0) && !Mentions(data, Gpu1)
    ensures r.Success? ==> r.value.ramUsed == mem.used / GiB && r.value.ramAvail == mem.available / GiB
    ensures r.Success? ==>
      && r.value.cpuUsage == Trunc(SensorValue(data, CpuUsageName))
      && r.value.cpuTemp == Trunc(SensorValue(data, CpuTempName))
      && r.value.tx == Trunc(SensorValue(data, UpRateName))
      && r.value.rx == Trunc(SensorValue(data, DownRateName))
    ensures r.Success? ==>
      (forall i :: FirstNamed(data, CpuUsageName, i) ==> r.value.cpuUsage == Trunc(FieldValue(data[i])))
    ensures r.Success? && DetectGpuPriority(data).Some? ==>
      var l := DetectGpuPriority(data).value;
      && r.value.gpuTemp == Trunc(GpuLookup(data, GpuTempName, l))
      && r.value.gpuUsage == Trunc(GpuLookup(data, GpuUsageName, l))
    ensures r.Success? && DetectGpuPriority(data).None? ==> r.value.gpuTemp == 0 && r.value.gpuUsage == 0
    ensures Mentions(data, Gpu1) ==>
      (&& r.Success?
       && (forall i :: FirstGpuMatch(data, GpuTempName, Gpu1, i) ==> r.value.gpuTemp == Trunc(FieldValue(data[i])))
       && (forall i :: FirstGpuMatch(data, GpuUsageName, Gpu1, i) ==> r.value.gpuUsage == Trunc(FieldValue(data[i]))))
    ensures Mentions(data, Gpu1) && (forall i :: 0 <= i < |data| ==> !GpuMatch(data[i], GpuUsageName, Gpu1)) ==>
      r.Success? && r.value.gpuUsage == 0
    ensures !Mentions(data, Gpu1) && Mentions(data, Gpu0) ==>
      (&& r.Success?
       && (forall i :: FirstGpuMatch(data, GpuTempName, Gpu0, i) ==> r.value.gpuTemp == Trunc(FieldValue(data[i])))
       && (forall i :: FirstGpuMatch(data, GpuUsageName, Gpu0, i) ==> r.value.gpuUsage == Trunc(FieldValue(data[i]))))
  {
    var cpuUsage := Trunc(SensorValue(data, CpuUsageName));
    var cpuTemp := Trunc(SensorValue(data, CpuTempName));
    var gpuLabel := DetectGpuPriority(data);
    var gpuTemp := GpuValue(data, GpuTempName, gpuLabel);
    var gpuUsage := GpuValue(data, GpuUsageName, gpuLabel);
    var ramUsed := RamGiB(mem.used);
    var ramAvail := RamGiB(mem.available);
    var tx := Trunc(SensorValue(data, UpRateName));
    var rx := Trunc(SensorValue(data, DownRateName));
    if gpuTemp.Failure? || gpuUsage.Failure? then
      Failure(GpuLabelIsNone)
    else
      Success(Snapshot(cpuUsage, cpuTemp, Trunc(gpuUsage.value), Trunc(gpuTemp.value), ramUsed, ramAvail, tx, rx))
  }

  /** A response with a CPU usage reading of 42.7 and a first-GPU utilization of 97.5. */
  const CpuAndGpuReadings: seq<Reading> :=
    [Reading(Some(CpuUsageName), "", Some(42.7)), Reading(Some(GpuUsageName), Gpu0, Some(97.5))]

  lemma CpuAndGpuLabel()
    ensures DetectGpuPriority(CpuAndGpuReadings) == Some(Gpu0)
  {
    OnlyGpu0Classes(CpuAndGpuReadings, 1);
  }

  lemma CpuAndGpuValues()
    ensures SensorValue(CpuAndGpuReadings, CpuUsageName) == 42.7
    ensures GpuValue(CpuAndGpuReadings, GpuUsageName, Some(Gpu0)) == Success(97.5)
    ensures GpuValue(CpuAndGpuReadings, GpuTempName, Some(Gpu0)) == Success(0.0)
  {
    var data := CpuAndGpuReadings;
    assert FirstNamed(data, CpuUsageName, 0);
    assert FirstGpuMatch(data, GpuUsageName, Gpu0, 1) by {
      assert StartsWith(data[1].cls, Gpu0);
      assert !GpuMatch(data[0], GpuUsageName, Gpu0) by { assert |data[0].cls| < |Gpu0|; }
    }
    assert !GpuMatch(data[0], GpuTempName, Gpu0) by { assert |data[0].cls| < |Gpu0|; }
    assert !GpuMatch(data[1], GpuTempName, Gpu0) by { assert GpuUsageName[4] != GpuTempName[4]; }
  }

  /** The readings the response lacks. */
  lemma CpuAndGpuAbsent()
    ensures SensorValue(CpuAndGpuReadings, CpuTempName) == 0.0
    ensures SensorValue(CpuAndGpuReadings, UpRateName) == 0.0
    ensures SensorValue(CpuAndGpuReadings, DownRateName) == 0.0
  {
    var data := CpuAndGpuReadings;
    assert CpuUsageName[0] != UpRateName[0] && GpuUsageName[0] != UpRateName[0];
    assert CpuUsageName[0] != DownRateName[0] && GpuUsageName[0] != DownRateName[0];
    assert |CpuUsageName| != |CpuTempName| && |GpuUsageName| != |CpuTempName|;
    assert forall i :: 0 <= i < |data| ==> !Named(data[i], CpuTempName);
    assert forall i :: 0 <= i < |data| ==> !Named(data[i], UpRateName);
    assert forall i :: 0 <= i < |data| ==> !Named(data[i], DownRateName);
  }

  lemma CpuAndGpuTruncations()
    ensures Trunc(42.7) == 42 && Trunc(97.5) == 97 && Trunc(0.0) == 0 && RamGiB(0) == 0
  {
  }

  /**
    For that response the first GPU is selected, the values are truncated
    toward zero, and the readings it lacks read as 0.
  */
  lemma CpuAndGpuScenario()
    ensures Measure(CpuAndGpuReadings, Memory(0, 0)) == Success(Snapshot(42, 0, 97, 0, 0, 0, 0, 0))
  {
    CpuAndGpuLabel();
    CpuAndGpuValues();
    CpuAndGpuAbsent();
    CpuAndGpuTruncations();
  }

  /** The bytes `ser.write((output + "\n").encode())` sends. */
  function Payload(s: Snapshot): seq<byte> {
    Encode(Format(s) + "\n")
  }

  /** Bytes that decode, one per character, to a block and one final line break that the reference reader reads as `s`. */
  predicate Carries(bytes: seq<byte>, s: Snapshot) {
    && (forall k :: 0 <= k < |bytes| ==> bytes[k] < 0x80)
    && var text := DecodeAscii(bytes);
       |text| > 0 && text[|text| - 1] == '\n' && ParseDisplay(text[..|text| - 1]) == Some(s)
  }

  /** The payload of `s` is the block plus one line break, and carries `s`. */
  lemma PayloadCarries(s: Snapshot)
    ensures Carries(Payload(s), s)
  {
    var out := Format(s);
    PayloadTextAscii(s);
    EncodeAscii(out + "\n");
    ParseFormat(s);
    assert (out + "\n")[..|out|] == out;
  }

  /** Why a pass sent nothing without touching the link. */
  datatype SkipReason =
    | FetchFailed(error: FetchError)   // unreachable source, rejected or unparsable body
    | NoGpuLabel                       // `startswith(None)` raised in `get_gpu_value`

  /** What one pass of the loop did. */
  datatype Outcome =
    | Sent(bytes: seq<byte>)      // the write succeeded
    | Skipped(reason: SkipReason) // stopped by the gate or a caught exception; handle kept
    | LinkLost                    // the write raised `SerialException`: close, then `connect()`

  /**
    The environment of one pass: the HTTP response, the memory figures,
    whether `ser.write` succeeds, and the retry passes `connect()` would see
    if it is called.
  */
  datatype CycleInput = CycleInput(response: Response, memory: Memory, writeOk: bool, reconnect: seq<Attempt>)

  /** The link between passes: an open handle, or `connect()` still retrying. */
  datatype LinkState = Open(handle: Handle) | Blocked

  datatype StepResult = StepResult(outcome: Outcome, next: LinkState)

  function Reconnect(attempts: seq<Attempt>): (l: LinkState)
    ensures l.Open? ==> TargetHandle(l.handle)
  {
    ConnectOnTarget(attempts);
    match Connect(attempts)
    case Some(h) => Open(h)
    case None => Blocked
  }

  /** The readings of an accepted response, and the snapshot measured from them. */
  ghost predicate Measured(input: CycleInput, s: Snapshot) {
    && Fetch(input.response).Success?
    && Measure(Fetch(input.response).value, input.memory) == Success(s)
  }

  /**
    One iteration of `while True:` with the handle `h` open. A write is
    attempted exactly when the body passes the gate, parses, and every field
    of the snapshot is computed; what is written is that snapshot's payload; a
    failed write is the only path that gives up the handle, and it leads
    straight into `connect()`.
  */
  function Step(h: Handle, input: CycleInput): (r: StepResult)
    ensures !r.outcome.LinkLost? ==> r.next == Open(h)
    ensures r.outcome.LinkLost? ==> r.next == Reconnect(input.reconnect)
    ensures (r.outcome.Sent? || r.outcome.LinkLost?) <==> exists s :: Measured(input, s)
    ensures r.outcome.LinkLost? ==> !input.writeOk
    ensures r.outcome.Sent? ==> input.writeOk
    ensures r.outcome.Sent? ==> forall s :: Measured(input, s) ==> r.outcome.bytes == Payload(s) && Carries(r.outcome.bytes, s)
    ensures input.response.Body? && !AcceptsBody(input.response.text)
      ==> r == StepResult(Skipped(FetchFailed(InvalidResponse)), Open(h))
    ensures input.response.Unreachable? ==> r == StepResult(Skipped(FetchFailed(SourceUnreachable)), Open(h))
    ensures Fetch(input.response).Success? && |Fetch(input.response).value| > 0
      && !Mentions(Fetch(input.response).value, Gpu0) && !Mentions(Fetch(input.response).value, Gpu1)
      ==> r == StepResult(Skipped(NoGpuLabel), Open(h))
  {
    match Fetch(input.response)
    case Failure(e) => StepResult(Skipped(FetchFailed(e)), Open(h))
    case Success(data) =>
      match Measure(data, input.memory)
      case Failure(_) => StepResult(Skipped(NoGpuLabel), Open(h))
      case Success(s) =>
        assert Measured(input, s);
        PayloadCarries(s);
        if input.writeOk then StepResult(Sent(Payload(s)), Open(h))
        else StepResult(LinkLost, Reconnect(input.reconnect))
  }
}
