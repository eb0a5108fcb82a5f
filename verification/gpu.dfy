/** `detect_gpu_priority` and `get_gpu_value`: choosing which GPU's readings to report. */
module Gpu {
  import opened Wrappers
  import opened PyStr
  import opened Readings

  const Gpu0: string := "GPU [#0]:"
  const Gpu1: string := "GPU [#1]:"

  /** Some reading's class contains `gpu_label` as a substring. */
  ghost predicate Mentions(data: seq<Reading>, gpuLabel: string) {
    exists i :: 0 <= i < |data| && Contains(data[i].cls, gpuLabel)
  }

  /** `any(label in item.get("SensorClass", "") for item in data)` */
  function AnyClassContains(data: seq<Reading>, gpuLabel: string): (b: bool)
    ensures b <==> Mentions(data, gpuLabel)
  {
    if |data| == 0 then
      false
    else
      var rest := AnyClassContains(data[1..], gpuLabel);
      assert forall i :: 0 <= i < |data| - 1 ==> data[1..][i] == data[i + 1];
      Contains(data[0].cls, gpuLabel) || rest
  }

  /**
    `detect_gpu_priority(data)`: the second GPU's label whenever any class
    mentions it, otherwise the first GPU's label when some class mentions
    that, otherwise no label at all.
  */
  function DetectGpuPriority(data: seq<Reading>): (r: Option<string>)
    ensures r == Some(Gpu1) <==> Mentions(data, Gpu1)
    ensures r == Some(Gpu0) <==> !Mentions(data, Gpu1) && Mentions(data, Gpu0)
    ensures r == None <==> !Mentions(data, Gpu1) && !Mentions(data, Gpu0)
  {
    var hasGpu0 := AnyClassContains(data, Gpu0);
    var hasGpu1 := AnyClassContains(data, Gpu1);
    if hasGpu1 then Some(Gpu1) else if hasGpu0 then Some(Gpu0) else None
  }

  /** The exception `str.startswith(None)` raises. */
  datatype GpuError = GpuLabelIsNone

  /** The reading's class begins with `gpu_label` and its name is exactly `name`. */
  predicate GpuMatch(r: Reading, name: string, gpuLabel: string) {
    StartsWith(r.cls, gpuLabel) && Named(r, name)
  }

  ghost predicate FirstGpuMatch(data: seq<Reading>, name: string, gpuLabel: string, i: int) {
    0 <= i < |data| && GpuMatch(data[i], name, gpuLabel)
    && forall j :: 0 <= j < i ==> !GpuMatch(data[j], name, gpuLabel)
  }

  /** The loop of `get_gpu_value` for a present label. */
  function GpuLookup(data: seq<Reading>, name: string, gpuLabel: string): (v: real)
    ensures (forall i :: 0 <= i < |data| ==> !GpuMatch(data[i], name, gpuLabel)) ==> v == 0.0
    ensures forall i :: FirstGpuMatch(data, name, gpuLabel, i) ==> v == FieldValue(data[i])
  {
    if |data| == 0 then
      0.0
    else if GpuMatch(data[0], name, gpuLabel) then
      FieldValue(data[0])
    else
      var v := GpuLookup(data[1..], name, gpuLabel);
      assert forall i :: FirstGpuMatch(data, name, gpuLabel, i) ==> FirstGpuMatch(data[1..], name, gpuLabel, i - 1);
      v
  }

  /**
    `get_gpu_value(data, name, gpuLabel)`. With a gpuLabel it is the first-match
    lookup filtered by class prefix and exact name, 0.0 when nothing
    matches. Without a gpuLabel the first item's `startswith(None)` raises, so
    the call fails on any non-empty list and yields 0.0 only on an empty one.
  */
  function GpuValue(data: seq<Reading>, name: string, gpuLabel: Option<string>): (r: Result<real, GpuError>)
    ensures gpuLabel == None ==> (r.Failure? <==> |data| > 0)
    ensures gpuLabel == None && |data| == 0 ==> r == Success(0.0)
    ensures gpuLabel.Some? ==> r.Success?
    ensures gpuLabel.Some? && (forall i :: 0 <= i < |data| ==> !GpuMatch(data[i], name, gpuLabel.value))
      ==> r == Success(0.0)
    ensures gpuLabel.Some? ==>
      (forall i :: FirstGpuMatch(data, name, gpuLabel.value, i) ==> r == Success(FieldValue(data[i])))
  {
    match gpuLabel
    case None => if |data| == 0 then Success(0.0) else Failure(GpuLabelIsNone)
    case Some(l) => Success(GpuLookup(data, name, l))
  }

  /** The two labels differ in their digit, so neither contains the other. */
  lemma Gpu0LacksGpu1()
    ensures !Contains(Gpu0, Gpu1)
  {
    assert forall k :: 0 <= k < |Gpu0| ==> Gpu0[k] != '1';
    MissingCharNotContained(Gpu0, Gpu1, 6);
  }

  /** Readings whose classes are all empty or exactly the first GPU's label, with at least one of the latter, select the first GPU. */
  lemma OnlyGpu0Classes(data: seq<Reading>, i: nat)
    requires i < |data| && data[i].cls == Gpu0
    requires forall j :: 0 <= j < |data| ==> data[j].cls == "" || data[j].cls == Gpu0
    ensures DetectGpuPriority(data) == Some(Gpu0)
  {
    StartsWithContains(data[i].cls, Gpu0);
    assert Mentions(data, Gpu0);
    assert !Mentions(data, Gpu1) by {
      Gpu0LacksGpu1();
      assert !Contains("", Gpu1);
      forall j | 0 <= j < |data|
        ensures !Contains(data[j].cls, Gpu1)
      {
        assert data[j].cls == "" || data[j].cls == Gpu0;
      }
    }
  }

  /** A class carrying the first GPU's label only after a leading word. */
  const MidClass: string := "A GPU [#0]:"

  lemma MidClassMentionsGpu0()
    ensures Contains(MidClass, Gpu0)
  {
    assert MidClass[2..2 + |Gpu0|] == Gpu0;
    assert OccursAt(MidClass, Gpu0, 2);
  }

  lemma MidClassLacksGpu1()
    ensures !Contains(MidClass, Gpu1)
  {
    assert forall k :: 0 <= k < |MidClass| ==> MidClass[k] != '1';
    MissingCharNotContained(MidClass, Gpu1, 6);
  }

  lemma MidClassNotPrefixed()
    ensures !StartsWith(MidClass, Gpu0)
  {
    assert MidClass[..|Gpu0|][0] != Gpu0[0];
  }

  /**
    The label is detected by substring but matched by prefix: a class that
    carries it only in the middle selects that GPU and still yields 0.0.
  */
  lemma MidClassLabelYieldsZero()
    ensures var data := [Reading(Some("GPU Temperature"), MidClass, Some(61.0))];
      DetectGpuPriority(data) == Some(Gpu0)
      && GpuValue(data, "GPU Temperature", Some(Gpu0)) == Success(0.0)
  {
    var data := [Reading(Some("GPU Temperature"), MidClass, Some(61.0))];
    MidClassMentionsGpu0();
    MidClassLacksGpu1();
    MidClassNotPrefixed();
    assert Mentions(data, Gpu0) by { assert Contains(data[0].cls, Gpu0); }
    assert !GpuMatch(data[0], "GPU Temperature", Gpu0);
  }
}
