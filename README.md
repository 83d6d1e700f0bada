# UHID virtual mouse, modelled in Dafny

This project models the session core of `samples/uhid/uhid-example.c`. That program is a user-space driver. It registers a
three-button mouse with wheel with the Linux UHID subsystem, then turns keystrokes into HID input reports.

The model has six modules:

- `Basics`: bytes, the `signed char` of the deltas, and positive `errno` values.
- `Report`: the six mouse globals as one value. It also holds the encoding of the 4-byte input report `send_event` builds, with its decoder and
  the round trip in both directions.
- `Protocol`: the frames the driver writes (create, destroy, input), as a tagged datatype. It also classifies the notification kinds `event` recognises.
- `Channel`: the `/dev/uhid` descriptor as a class. Its write and read outcomes are oracles indexed by the number of earlier calls, and it keeps a log of every frame handed to
  write(2). It contains `uhid_write`, `create`, `destroy`, `event` and the functions giving their return values.
- `Keyboard`: the globals as a class `Mouse`, stdin as a class `Terminal`, `send_event` (filling a zeroed buffer in
  place), and `keyboard`. The `Keyboard` method is proved against the pure interpreter `Interpret`, which follows the loop as
  written: one read handles at most one report (see "## Findings"). `InterpretAll` is the evidently intended loop, which handles
  every key of the buffer. The method `KeyboardAll` is proved against it.
- `Session`: `main` from `create` on (lines 338-380). A value-level step function `Iteration`, the loop `Loop` and the whole
  `SessionSpec` come with lemmas on the poll loop and the frames a session writes. The methods `Turn` (one pass of the loop)
  and `Run` are proved to follow them. The session calls `keyboard` as written.

Three behaviours of the code are easy to overlook. The model follows the code in each:

- A zero-length read returns -EFAULT: on stdin (lines 223-225) and on the device (lines 150-152). There is no separate "closed" error.
- A frame of unknown type is only logged, and `event` returns 0. It is not a decoding error (lines 181-185).
- The descriptor is closed only when `create` fails (line 341). After `destroy` the program returns without closing it.

## Model

| member | source | states |
|---|---|---|
| `Basics.ToByte` | samples/uhid/uhid-example.c:210-212 | storing a `signed char` delta into a report byte is reduction modulo 256 (two's complement), so -20 becomes 0xEC |
| `Basics.FromByte` | samples/uhid/uhid-example.c:210-212 | reading a report byte back as a delta gives the one `signed char` congruent to it modulo 256 |
| `Basics.FromToByte` | samples/uhid/uhid-example.c:210-212 | a delta stored into a report byte reads back as the same `signed char` |
| `Basics.ToFromByte` | samples/uhid/uhid-example.c:210-212 | every byte value is the image of exactly one delta |
| `Report.Toggled` | samples/uhid/uhid-example.c:233-250 | `btnN_down = !btnN_down` flips the named button and leaves the other buttons and all deltas unchanged |
| `Report.WithDelta` | samples/uhid/uhid-example.c:251-292 | assigning a delta changes exactly that axis and leaves the buttons and the other axes unchanged |
| `Report.ButtonMask` | samples/uhid/uhid-example.c:203-208 | the button byte stays below 8, so bits 3-7 are clear, and it is 0 exactly when no button is down |
| `Report.EncodeReport` | samples/uhid/uhid-example.c:199-212 | the input data buffer has the full UHID_DATA_MAX length |
| `Report.ReportLayout` | samples/uhid/uhid-example.c:199-212 | byte 0 holds btn1/btn2/btn3 in bits 0/1/2 with bits 3-7 clear, bytes 1-3 hold abs_hor, abs_ver and wheel in that order, and every later byte is zero |
| `Report.MaskBits` | samples/uhid/uhid-example.c:203-208 | each button is read back from its own bit of the mask, and the mask is below 8 |
| `Report.ParseEncode` | samples/uhid/uhid-example.c:199-212 | decoding the report of a state gives back that state |
| `Report.EncodeParse` | samples/uhid/uhid-example.c:199-212 | a full-size, zero-padded buffer that decodes to a state is exactly that state's report, so the encoding is canonical |
| `Report.ExampleReport` | samples/uhid/uhid-example.c:203-212 | buttons 1 and 3 down, horizontal -20, wheel +1 encode as 05 EC 00 01 |
| `Protocol.CreateFrame` | samples/uhid/uhid-example.c:115-128 | the create request names "test-uhid-device", carries the 52-byte descriptor with rd_size 52, bus USB, vendor 0x15d9, product 0x0a37, version 0 and country 0, and the name fits the 128-byte field with its terminator |
| `Protocol.InputFrame` | samples/uhid/uhid-example.c:199-212 | an input frame has size 4, a zero-padded full-length buffer, and decodes back to the state it was built from |
| `Protocol.InputFrameInjective` | samples/uhid/uhid-example.c:199-212 | distinct mouse states give distinct input frames |
| `Protocol.Classify` | samples/uhid/uhid-example.c:162-183 | START, STOP, OPEN, CLOSE, OUTPUT and OUTPUT_EV are reported by name, and every other type is reported as invalid |
| `Channel.WriteStatus` | samples/uhid/uhid-example.c:98-113 | the result is 0 if and only if exactly one whole frame was written; a failed call gives minus errno, and any other byte count gives -EFAULT |
| `Channel.EventStatus` | samples/uhid/uhid-example.c:148-160 | the result is 0 if and only if a whole frame was read, whatever its type; end of file or a partial frame gives -EFAULT, and a failed call gives minus errno |
| `Channel.EventNotice` | samples/uhid/uhid-example.c:160-185 | the event switch runs exactly when the read returned a whole frame, and it classifies the frame's type |
| `Channel.UhidDevice.constructor` | samples/uhid/uhid-example.c:332-336 | a freshly opened descriptor has written nothing and read nothing |
| `Channel.UhidDevice.Write` | samples/uhid/uhid-example.c:98-113 | exactly one write of the frame is attempted, with no retry, and the result is `WriteStatus` of that write's outcome |
| `Channel.UhidDevice.CreateDevice` | samples/uhid/uhid-example.c:115-131 | exactly one create request is written, and its write status is returned |
| `Channel.UhidDevice.DestroyDevice` | samples/uhid/uhid-example.c:133-141 | exactly one destroy request is written, and its outcome is dropped |
| `Channel.UhidDevice.Event` | samples/uhid/uhid-example.c:143-186 | one read, with the result and notice of `EventStatus`/`EventNotice`; nothing is written |
| `Channel.UhidDevice.Close` | samples/uhid/uhid-example.c:340-342 | the descriptor is closed, and the frame log and read count are unchanged |
| `Keyboard.CommandOf` | samples/uhid/uhid-example.c:232-296 | `q` is the only quit key, `1`/`2`/`3` the only toggles, `a`/`d`/`w`/`s`/`r`/`f` the only pulses, with deltas of 20 in either direction on the two axes and 1 in either direction on the wheel; every other key is unrecognised |
| `Keyboard.Interpret` | samples/uhid/uhid-example.c:231-300 | the loop as written: at most one report per buffer; when none is sent the state is unchanged; a sent report is an input frame, and the result is then the status of the buffer's only write; the result is never positive |
| `Keyboard.InterpretOne` | samples/uhid/uhid-example.c:232-297 | a single key: `q` returns -ECANCELED and sends nothing, an unknown key does nothing, and any other key sends one report and leaves its settled state |
| `Keyboard.InterpretAppend` | samples/uhid/uhid-example.c:231-300 | a first part that returns 0 and sends nothing is exactly a run of unrecognised keys; after such a part the rest is handled from the same state, and after any other first part the rest is never looked at |
| `Keyboard.InterpretUnrecognised` | samples/uhid/uhid-example.c:295-300 | a buffer of unrecognised keys sends nothing, changes nothing and returns 0 |
| `Keyboard.InterpretFirstKey` | samples/uhid/uhid-example.c:231-294 | the first recognised key alone decides the outcome: the keys before it are skipped and the keys after it are dropped |
| `Keyboard.InterpretStatus` | samples/uhid/uhid-example.c:231-300 | `keyboard` returns 0 exactly when the buffer has no recognised key, or its first recognised key sends and the write goes through; -ECANCELED with no effect when that key is `q`; one report goes out exactly when that key sends |
| `Keyboard.QuitCancels` | samples/uhid/uhid-example.c:293-296 | `q` after only unrecognised keys returns -ECANCELED, sends nothing and changes nothing |
| `Keyboard.InvalidIgnored` | samples/uhid/uhid-example.c:295-296 | deleting an unrecognised key from a buffer does not change the outcome |
| `Keyboard.ToggleKey` | samples/uhid/uhid-example.c:233-250 | `1`, `2` and `3` flip exactly the named button, keep the deltas, and send one report of the new state |
| `Keyboard.ToggleTwice` | samples/uhid/uhid-example.c:231-238 | the same toggle key at the head of two successive buffers, the first send succeeding, restores the button and sends two reports, the new state then the old; the keys after each toggle are dropped |
| `Keyboard.PulseKey` | samples/uhid/uhid-example.c:251-292 | a motion or wheel key sends one report carrying its delta (-20/+20 horizontal, -20/+20 vertical, +1/-1 wheel) and leaves that delta 0, even when the send failed |
| `Keyboard.InterpretKeepsRest` | samples/uhid/uhid-example.c:251-292 | pulses never accumulate: a state with all deltas 0 still has all deltas 0 after any buffer |
| `Keyboard.InterpretKeyAt` | samples/uhid/uhid-example.c:231-297 | the loop's turn at an index reached through unrecognised keys only: an unrecognised key keeps it so, and any other key fixes the result of the whole buffer |
| `Keyboard.OneReportPerRead` | samples/uhid/uhid-example.c:231-291 | with every write succeeding, "11" sends one report and leaves button 1 down where the intended loop sends two and lifts it again; "1q" returns 0 where the intended loop returns -ECANCELED |
| `Keyboard.InterpretAll` | samples/uhid/uhid-example.c:231-300 | the intended loop: no more reports than sending keys, each a size-4 input frame |
| `Keyboard.InterpretAllOne` | samples/uhid/uhid-example.c:232-297 | on a single key the intended loop and the loop as written agree |
| `Keyboard.InterpretAllAppend` | samples/uhid/uhid-example.c:231-300 | in the intended loop keys are handled strictly in order: a buffer is its first part and then, unless that stopped, the rest from the state and write count it left |
| `Keyboard.InterpretAllStops` | samples/uhid/uhid-example.c:235-294 | in the intended loop, once a key ends handling with a nonzero result, the keys after it have no effect |
| `Keyboard.InterpretAllStep` | samples/uhid/uhid-example.c:231-300 | one more key of the intended loop extends the outcome of the keys before it, and a nonzero result is the outcome of the whole buffer |
| `Keyboard.InterpretAllQuit` | samples/uhid/uhid-example.c:293-294 | in the intended loop `q` returns -ECANCELED with the state and frames of the keys before it and ignores the keys after it |
| `Keyboard.InterpretAllToggleTwice` | samples/uhid/uhid-example.c:233-238 | in the intended loop the same toggle key twice in one buffer, both sends succeeding, restores the button and sends two reports: the new state, then the old |
| `Keyboard.InterpretAllStatus` | samples/uhid/uhid-example.c:231-300 | the intended loop returns 0 if and only if the buffer has no `q` and every attempted write succeeded; a nonzero result is -ECANCELED or the status of the last write; on success one report goes out per sending key |
| `Keyboard.Terminal.constructor` | samples/uhid/uhid-example.c:222 | stdin starts with no reads made |
| `Keyboard.Terminal.Read` | samples/uhid/uhid-example.c:222 | one read of stdin, giving that read's outcome |
| `Keyboard.Mouse.constructor` | samples/uhid/uhid-example.c:188-193 | the globals start with all buttons up and all deltas 0 |
| `Keyboard.Mouse.SendEvent` | samples/uhid/uhid-example.c:195-215 | the zeroed buffer filled with `|=` and the three delta bytes is written as exactly the input frame of the current state, and the write status is returned |
| `Keyboard.Mouse.ToggleAndSend` | samples/uhid/uhid-example.c:233-250 | the button is flipped first, then the new state is sent |
| `Keyboard.Mouse.PulseAndSend` | samples/uhid/uhid-example.c:251-292 | the report carries the delta, and the delta is 0 again afterwards whatever the send returned |
| `Keyboard.Mouse.Keyboard` | samples/uhid/uhid-example.c:217-301 | `keyboard` as written, with `ret` as the loop bound: a failed read returns minus errno and an empty read -EFAULT, both with no other effect; otherwise the result, final globals and frames written are those `Interpret` gives for the buffer |
| `Keyboard.Mouse.HandleKey` | samples/uhid/uhid-example.c:232-297 | one turn of the key switch of the intended loop does what `InterpretAll` says of that key |
| `Keyboard.Mouse.HandleAll` | samples/uhid/uhid-example.c:231-300 | the intended loop over a buffer: its result, final globals and frames written are those `InterpretAll` gives |
| `Keyboard.Mouse.KeyboardAll` | samples/uhid/uhid-example.c:217-301 | the intended `keyboard`: the read errors as in `Keyboard`, and otherwise the outcome `InterpretAll` gives for the buffer |
| `Session.KeyboardStep` | samples/uhid/uhid-example.c:366-370 | a call of `keyboard` reads stdin exactly once and the device never, leaves the descriptor open or closed as it was, and returns 0 or a negative error |
| `Session.EventStep` | samples/uhid/uhid-example.c:371-375 | a call of `event` reads the device once and changes nothing else; it returns 0 exactly for a whole frame, and a negative error otherwise |
| `Session.Iteration` | samples/uhid/uhid-example.c:352-375 | one pass reads each descriptor at most once; a pass that does not break saw neither a poll error nor a HUP, and read every descriptor poll reported readable exactly once |
| `Session.Loop` | samples/uhid/uhid-example.c:351-376 | `fuel` passes read each descriptor at most `fuel` times, and the loop can only break when at least one pass ran |
| `Session.SessionSpec` | samples/uhid/uhid-example.c:338-380 | the session exits with failure exactly when the create request failed, and reads stdin and the device at most once per pass each |
| `Session.KeyboardStepFacts` | samples/uhid/uhid-example.c:366-370 | a keyboard step writes only input frames and leaves no pulse pending |
| `Session.IterationHup` | samples/uhid/uhid-example.c:352-364 | a failed poll or a HUP on either descriptor ends the loop before anything is read |
| `Session.IterationOrder` | samples/uhid/uhid-example.c:366-375 | with both descriptors readable, stdin is handled first; the device is read exactly when `keyboard` returned 0; a nonzero result ends the loop |
| `Session.IterationFacts` | samples/uhid/uhid-example.c:351-376 | one pass writes only input frames and never leaves a pulse pending |
| `Session.LoopFacts` | samples/uhid/uhid-example.c:351-376 | the loop only appends input frames, never closes the descriptor, and never leaves a pulse pending |
| `Session.SessionFrames` | samples/uhid/uhid-example.c:338-380 | a session writes one create request first; if it failed, nothing else is written and the descriptor is closed; otherwise only input reports follow, and exactly one destroy request comes last once the loop ends |
| `Session.SessionKeepsRest` | samples/uhid/uhid-example.c:351-376 | starting from zeroed globals, no delta is left nonzero by a session |
| `Session.Turn` | samples/uhid/uhid-example.c:352-375 | one pass of the loop of `main` breaks exactly when `Iteration` says so, and leaves the world `Iteration` gives |
| `Session.Run` | samples/uhid/uhid-example.c:338-380 | `main` from `create` on gives the verdict and final state of `SessionSpec` |

## Findings

| source | as written | input that shows it | evidently intended | confidence | as-written member | corrected member |
|---|---|---|---|---|---|---|
| samples/uhid/uhid-example.c:231-291 | `ret` is both the bound of `for (i = 0; i < ret; ++i)` and the result of each `send_event`, so a successful send sets the bound to 0 and ends the loop after the first report | stdin delivers "11" (or "1q") in one read and every write succeeds: one report and button 1 left down (or a return of 0, the `q` dropped) | every key of the buffer is handled in order: "11" sends two reports and lifts button 1 again, "1q" returns -ECANCELED | high; not executed | `Keyboard.OneReportPerRead` | `Keyboard.InterpretAll` |

The session (`Session.KeyboardStep`, `Session.Run`) calls `keyboard` as written, so the model of `main` keeps the dropped keys.
The intended loop is `Keyboard.InterpretAll`. The method `Keyboard.Mouse.KeyboardAll` is proved to follow it, and
`InterpretAllAppend`, `InterpretAllQuit`, `InterpretAllToggleTwice` and `InterpretAllStatus` state its properties.

## Left out

- Terminal setup with `tcgetattr`/`tcsetattr` (lines 311-320) and argument parsing with `--help` (lines 322-329). These are command-line plumbing.
- `open` of the device path (lines 331-336). `Run` starts from an already opened descriptor.
- The real `open`/`read`/`write`/`poll` calls. They are replaced by oracles that give the outcome of the k-th call. `errno` values stay symbolic, except EFAULT (14) and ECANCELED (125), which are the Linux numbers.
- poll(2) results are reduced to the POLLHUP and POLLIN bits of each descriptor. Other bits without these two make the code, and the model, go round the loop again.
- All `fprintf` logging, including the wrong `sizeof(ev)` in the message at lines 107-108. `Event` returns what it would log as a `Notice` value instead.
- The meaning of the report descriptor bytes. They are carried as an opaque 52-byte constant.
- The memory layout of `struct uhid_event` (linux/uhid.h is not part of this model). Frames are a datatype, and the frame size is a symbolic constant of the descriptor. Type tags are named kinds, not numbers.
- The unchecked `strcpy` of the device name (line 121). The name is a string field, and `CreateFrame` proves that this literal fits the 128-byte field.
- Run: the `while (1)` loop is limited to `fuel` iterations. A session that is still looping when the fuel runs out is reported as `StillRunning`, without the destroy request.
- The process exit after `destroy`, which releases the descriptor, is not modelled: `closed` stays false on that path.
- Keys are `char` values. Bytes outside the command alphabet are all treated alike, as unrecognised keys.
