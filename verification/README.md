# MacroPad1 telemetry forwarder: a Dafny model of the polling script

`Softwares/script.py` is a small forwarder. It polls a local hardware-monitor
HTTP endpoint (`http://localhost:6969/`) for a JSON array of sensor readings.
From those readings it takes CPU and GPU usage and temperature and network
rates, and it adds RAM figures from the local OS. It formats them into a
four-line text block and writes the block to an Arduino Leonardo over a serial
port, reconnecting whenever a write fails.

This project models the script's decision logic as pure Dafny functions and
proves what that logic guarantees. The modules follow the script's parts:

- `PyStr` (`strings.dfy`): the Python string operations the script relies on.
  These are `startswith`, the `in` substring test, `strip` with Python's
  whitespace set, `str(int)`, `>`-aligned width formatting and UTF-8
  `encode`. Each comes with its characterization or its inverse.
- `Readings` (`readings.dfy`): the reading datatype, `get_sensor_value` as a
  first-match lookup, and `int()` truncation toward zero.
- `Gpu` (`gpu.dfy`): `detect_gpu_priority` and `get_gpu_value`, including
  the `TypeError` that `str.startswith(None)` raises.
- `Telemetry` (`telemetry.dfy`): the response gate (`strip().startswith("[")`)
  and the outcome of one fetch.
- `Display` (`display.dfy`): the output f-string as literal and numeric
  pieces, and a reader that recovers every field from the text. The round
  trip `ParseDisplay(Format(s)) == Some(s)` is proved.
- `Link` (`link.dfy`): `find_device` over one port enumeration, and
  `connect()` run against a finite sequence of retry passes.
- `Cycle` (`cycle.dfy`): one iteration of the main loop, as a transition
  from an open handle to an outcome and the next link state.
- `Loop` (`loop.dfy`): the sequence of iterations, with the handle carried
  from one to the next, and the program as a whole (`ser = connect()` and
  then the loop).

Three behaviours of the code are easy to misread; the model keeps each as
written:

- **No GPU present.** `get_sensor_value` and `get_gpu_value` fall back to
  0.0 when no reading matches, which suggests that GPU fields were meant to
  read 0 when no GPU is found. The code does not do that. When no class
  mentions `GPU [#0]:` or `GPU [#1]:`, `detect_gpu_priority` returns
  `None`, and `get_gpu_value` calls `startswith(None)` on the first reading.
  That raises `TypeError`, and the generic handler skips the whole cycle.
  So for a non-empty response without a GPU class nothing is written at all
  (`Cycle.Measure`, `Cycle.Step`). A response holding only a CPU usage
  reading of 42.7, for example, writes nothing rather than a block whose
  first line is `CPU: 42%  TEMP:0 C`
  (`Loop.CpuOnlyResponseSendsNothing`).
- **Detection and matching use different tests.** GPU detection tests the
  label as a substring of the class (`in`). GPU value lookup tests it as a
  prefix (`startswith`). A class that carries the label only in the middle
  therefore selects that GPU and still yields 0.0
  (`Gpu.MidClassLabelYieldsZero`).
- **An empty device name.** `connect()` treats an empty device name like
  `None` (`if port:`). If the first "Leonardo" port has an empty device
  name, that pass fails, even when a later matching port has a name
  (`Link.AttemptSucceeds`).

## Model

| member | source | states |
|---|---|---|
| PyStr.Contains | Softwares/script.py:40-41 | `sub in s` is true exactly when `sub` occurs in `s` at some position |
| PyStr.StripSpec | Softwares/script.py:58 | `strip()` keeps exactly the stretch between the first and last non-whitespace character, and drops only whitespace |
| PyStr.StripEmptyIff | Softwares/script.py:58 | the stripped text is empty exactly when the body is all whitespace (Python's `isspace` set) |
| PyStr.NatStr | Softwares/script.py:82-85 | `str(n)` for a non-negative `n` is a non-empty digit string whose decimal value is `n`, starting with `0` only when it is exactly `"0"`, which is the text of zero alone |
| PyStr.ReadIntStr | Softwares/script.py:82-85 | reading an integer back from `str(n)` followed by non-digit text gives `n` and leaves the text untouched, negative numbers included |
| PyStr.PadLeft | Softwares/script.py:82-83 | `{:>w}` right-aligns with spaces to width `w` and never cuts a longer value |
| PyStr.EncodeAscii | Softwares/script.py:89 | on ASCII text `encode()` yields one byte per character, each equal to the character's code, and decodes back to the text |
| Readings.SensorValue | Softwares/script.py:8-15 | the value of the first reading whose name equals the query exactly, later same-named readings ignored, 0.0 when none matches; an unparsable first match gives 0.0 |
| Readings.UnparsableFirstMatch | Softwares/script.py:9-14 | when the first match cannot be parsed the result is 0.0 even if a later match parses |
| Readings.Trunc | Softwares/script.py:67-68 | `int()` of a float truncates toward zero: the result lies within 1 of the value, on the zero side |
| Gpu.AnyClassContains | Softwares/script.py:40-41 | `any(label in cls ...)` is true exactly when some reading's class contains the label |
| Gpu.DetectGpuPriority | Softwares/script.py:39-42 | `GPU [#1]:` whenever any class mentions it, `GPU [#0]:` only when `#1` is absent and `#0` present, otherwise no label |
| Gpu.GpuLookup | Softwares/script.py:45-51 | the value of the first reading whose class starts with the label and whose name matches exactly, else 0.0 |
| Gpu.GpuValue | Softwares/script.py:44-51 | with a label, the prefix-filtered first-match lookup; without one, 0.0 on an empty list and a `TypeError` failure on any non-empty list |
| Gpu.MidClassLabelYieldsZero | Softwares/script.py:40-46 | a class carrying `GPU [#0]:` only mid-string selects GPU 0 by detection and yet yields 0.0 by lookup |
| Telemetry.AcceptsBodyIff | Softwares/script.py:58-60 | a body is accepted exactly when its first non-whitespace character is `[` |
| Telemetry.BlankBodyRejected | Softwares/script.py:58-63 | an empty or whitespace-only body is rejected |
| Telemetry.BracketedAccepted | Softwares/script.py:58-60 | a body starting with `[` and ending with `]` passes the gate whatever lies between |
| Telemetry.Fetch | Softwares/script.py:56-65 | readings come out only for a reachable source whose body passes the gate and parses; a rejected body is `InvalidResponse` |
| Display.ParseRender | Softwares/script.py:81-86 | for any layout where every non-final number is followed by text not starting with a digit, reading the rendered text against its shape gives back exactly its integers |
| Display.ParseFormat | Softwares/script.py:81-86 | a reference reader of the block recovers exactly the snapshot it was formatted from, so the block loses no field |
| Display.FormatInjective | Softwares/script.py:81-86 | different snapshots give different blocks |
| Display.FormatLines | Softwares/script.py:81-86 | the block is the four lines `CPU:{u:>3}%  TEMP:{t} C`, `GPU:{u:>3}%  TEMP:{t} C`, `RAM:{used} GB  AVL:{avail} GB`, `TX:{tx}KB/s  RX:{rx}KB/s`, each printable ASCII, joined by three line breaks |
| Display.PayloadTextAscii | Softwares/script.py:89 | the block with its final line break is ASCII |
| Display.CpuLineExample | Softwares/script.py:82 | a usage of 42 and temperature 0 give the line `CPU: 42%  TEMP:0 C` |
| Link.FindDevice | Softwares/script.py:17-22 | the first port in enumeration order whose description contains "Leonardo", or none exactly when no description does |
| Link.Connect | Softwares/script.py:24-36 | `connect()` returns the handle of the first retry pass that finds a non-empty "Leonardo" device and opens it at 9600 baud, and keeps retrying while no pass does |
| Link.ConnectOnTarget | Softwares/script.py:24-36 | whatever `connect()` returns is opened at 9600 baud on a non-empty device whose description contains "Leonardo" |
| Cycle.RamGiB | Softwares/script.py:74-76 | `int(b / 1024**3)` is the byte count in whole gibibytes, truncated |
| Cycle.Measure | Softwares/script.py:67-79 | the snapshot fails exactly when readings are non-empty and no class mentions either GPU; CPU usage, CPU temperature, upload and download rates are the truncated first-name-match values (0 when absent); the GPU fields are the truncated prefix lookups under the detected label, from `#1`-prefixed readings whenever `GPU [#1]:` is mentioned and from `#0`-prefixed ones when only `GPU [#0]:` is, and 0 with no label on an empty list; RAM is in whole GiB |
| Cycle.CpuAndGpuScenario | Softwares/script.py:67-79 | CPU usage 42.7 and first-GPU utilization 97.5 give the snapshot (42, 0, 97, 0, 0, 0, 0, 0) |
| Cycle.PayloadCarries | Softwares/script.py:81-89 | the bytes written are the block plus one line break, one byte per character, and carry the snapshot |
| Cycle.Step | Softwares/script.py:55-104 | a write is attempted exactly when the body passes the gate, parses and every field is computed; the bytes are exactly that snapshot's block plus one line break, encoded, and the reference reader reads them back as the snapshot; only a failed write gives up the handle, and then the next state is what `connect()` returns; a rejected body, an unreachable source or a missing GPU label skips the cycle and keeps the handle |
| Loop.Run | Softwares/script.py:55-104 | for any pass function (the program uses `Cycle.Step`), one event per cycle, each the outcome of one pass on the current handle, with the next handle taken from that pass; the trace stops early only when a reconnection has not returned |
| Loop.StepLink | Softwares/script.py:89-94 | a cycle changes the handle only by losing the link, and then to the handle `connect()` returned |
| Loop.HandleContinuity | Softwares/script.py:89-102 | between consecutive cycles the handle is kept unless the write failed, after which it is exactly the reconnected handle |
| Loop.EarlyStop | Softwares/script.py:91-94 | cycles stop early only after a lost link whose reconnection never returned, so no cycle runs while disconnected |
| Loop.RunStaysOnTarget | Softwares/script.py:89-94 | when every pass that keeps the link open keeps it on a Leonardo handle at 9600 baud, a loop started on such a handle runs every cycle on one |
| Loop.SessionSafety | Softwares/script.py:53-94 | every cycle of the program runs on a handle opened on a "Leonardo" device at 9600 baud, and every write sends exactly the encoded block of that cycle's own snapshot plus one line break |
| Loop.BlankBodyNoWrite | Softwares/script.py:58-63 | an empty or whitespace-only body writes nothing and keeps the handle |
| Readings.TruncNegative | Softwares/script.py:67-68 | `int(-2.5)` is -2, not the floor -3, and `int(42.7)` is 42 |
| Loop.CpuOnlyResponseSendsNothing | Softwares/script.py:70-102 | a response with only a CPU usage reading and no GPU class writes nothing and keeps the handle |

## Left out

- The HTTP call, `resp.json()`, port enumeration, opening the port,
  `psutil.virtual_memory()` and the serial write are foreign I/O. They
  appear only as inputs: the response text with its already-parsed readings,
  the enumerated ports, whether opening works, the byte counts, and whether
  the write succeeds.
- JSON decoding is left out. The model assumes each array element is an
  object whose `SensorName` and `SensorClass`, when present, are strings.
  Other shapes either never match (a non-string `SensorName` compares
  unequal to every query, as an absent one does) or raise, which skips the
  cycle.
- `float()` parsing is abstracted to `Option<real>`. IEEE rounding, NaN and
  infinity are left out; for NaN and infinity `int()` raises and the cycle
  is skipped.
- Readings.Trunc: truncates the exact real value, not the float64 that
  `float()` produced.
- Cycle.RamGiB: takes the division as exact. For byte counts of 2^53 or
  more the float quotient can round up to the next whole gibibyte.
- Link.Connect: is modelled over a finite sequence of retry passes. The
  unbounded `while True` retry and its termination are not modelled.
- The one-second and two-second sleeps, the `print` diagnostics and the
  `KeyboardInterrupt` shutdown path (close, then exit) are timing and
  process plumbing.
- A failing `ser.close()` and partial writes before a `SerialException`
  are not modelled. A failed write counts as nothing sent.
- PyStr.Encode: implements UTF-8 for every character, but only its ASCII
  behaviour is proved. The block is always ASCII.
- The two variant scripts under `Softwares/Soft/` are not part of this
  model.
