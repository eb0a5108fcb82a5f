/** `find_device` and `connect`: locating the display's serial port and opening it. */
module Link {
  import opened Wrappers
  import opened PyStr

  const Target: string := "Leonardo"
  const BaudRate: nat := 9600

  /** One entry of the serial port enumeration. */
  datatype Port = Port(description: string, device: string)

  ghost predicate FirstTarget(ports: seq<Port>, i: int) {
    0 <= i < |ports| && Contains(ports[i].description, Target)
    && forall j :: 0 <= j < i ==> !Contains(ports[j].description, Target)
  }

  /**
    `find_device()` over one enumeration: the first port, in enumeration
    order, whose description contains "Leonardo" (the script keeps only its
    `device` name), or none.
  */
  function FindDevice(ports: seq<Port>): (r: Option<Port>)
    ensures r.None? <==> forall i :: 0 <= i < |ports| ==> !Contains(ports[i].description, Target)
    ensures forall i :: FirstTarget(ports, i) ==> r == Some(ports[i])
    ensures r.Some? ==> r.value in ports && Contains(r.value.description, Target)
  {
    if |ports| == 0 then
      None
    else if Contains(ports[0].description, Target) then
      Some(ports[0])
    else
      var r := FindDevice(ports[1..]);
      assert forall i :: FirstTarget(ports, i) ==> FirstTarget(ports[1..], i - 1);
      assert forall i :: 0 <= i < |ports| - 1 ==> ports[1..][i] == ports[i + 1];
      r
  }

  /** An open serial connection, bound to the port it was opened on. */
  datatype Handle = Handle(port: Port, baud: nat)

  /**
    One pass of `connect()`'s retry loop: the ports enumerated at that moment,
    and whether `serial.Serial(device, 9600)` would succeed then.
  */
  datatype Attempt = Attempt(ports: seq<Port>, opens: bool)

  /**
    The pass returns a handle: a port was found, its device name is
    non-empty (`if port:` treats `""` like `None`), and opening it worked.
  */
  predicate AttemptSucceeds(a: Attempt) {
    var p := FindDevice(a.ports);
    p.Some? && p.value.device != "" && a.opens
  }

  ghost predicate FirstSuccess(attempts: seq<Attempt>, k: int) {
    0 <= k < |attempts| && AttemptSucceeds(attempts[k])
    && forall j :: 0 <= j < k ==> !AttemptSucceeds(attempts[j])
  }

  /** A handle `connect()` can return: a non-empty "Leonardo" device opened at 9600 baud. */
  predicate TargetHandle(h: Handle) {
    Contains(h.port.description, Target) && h.port.device != "" && h.baud == BaudRate
  }

  /**
    `connect()` run against a finite sequence of retry passes: the handle of
    the first pass that succeeds, or `None` while it is still retrying.
  */
  function Connect(attempts: seq<Attempt>): (r: Option<Handle>)
    ensures r.None? <==> forall k :: 0 <= k < |attempts| ==> !AttemptSucceeds(attempts[k])
    ensures forall k :: FirstSuccess(attempts, k) ==> r == Some(Handle(FindDevice(attempts[k].ports).value, BaudRate))
  {
    if |attempts| == 0 then
      None
    else if AttemptSucceeds(attempts[0]) then
      assert forall k :: FirstSuccess(attempts, k) ==> k == 0;
      Some(Handle(FindDevice(attempts[0].ports).value, BaudRate))
    else
      var r := Connect(attempts[1..]);
      ConnectTail(attempts, r);
      r
  }

  /** A failing first pass leaves the outcome to the passes after it. */
  lemma ConnectTail(attempts: seq<Attempt>, r: Option<Handle>)
    requires |attempts| > 0 && !AttemptSucceeds(attempts[0])
    requires r.None? <==> forall k :: 0 <= k < |attempts[1..]| ==> !AttemptSucceeds(attempts[1..][k])
    requires forall k :: FirstSuccess(attempts[1..], k) ==> r == Some(Handle(FindDevice(attempts[1..][k].ports).value, BaudRate))
    ensures r.None? <==> forall k :: 0 <= k < |attempts| ==> !AttemptSucceeds(attempts[k])
    ensures forall k :: FirstSuccess(attempts, k) ==> r == Some(Handle(FindDevice(attempts[k].ports).value, BaudRate))
  {
    var tail := attempts[1..];
    assert forall k :: 0 <= k < |tail| ==> tail[k] == attempts[k + 1];
    forall k | FirstSuccess(attempts, k)
      ensures r == Some(Handle(FindDevice(attempts[k].ports).value, BaudRate))
    {
      FirstSuccessTail(attempts, k);
    }
  }

  lemma FirstSuccessTail(attempts: seq<Attempt>, k: int)
    requires FirstSuccess(attempts, k) && !AttemptSucceeds(attempts[0])
    ensures k >= 1 && FirstSuccess(attempts[1..], k - 1) && attempts[1..][k - 1] == attempts[k]
  {
    var tail := attempts[1..];
    assert forall j :: 0 <= j < k - 1 ==> tail[j] == attempts[j + 1];
  }

  /** Whatever `connect()` returns is a non-empty "Leonardo" device opened at 9600 baud. */
  lemma {:induction false} ConnectOnTarget(attempts: seq<Attempt>)
    ensures Connect(attempts).Some? ==> TargetHandle(Connect(attempts).value)
  {
    if |attempts| > 0 {
      if AttemptSucceeds(attempts[0]) {
        var p := FindDevice(attempts[0].ports);
        assert p.Some? && Contains(p.value.description, Target) && p.value.device != "";
      } else {
        ConnectOnTarget(attempts[1..]);
      }
    }
  }
}
