/**
 * The keyboard side of the driver: the process-wide mouse state,
 * `send_event`, which turns it into one UHID_INPUT frame, and `keyboard`,
 * which reads one buffer of keys from stdin and acts on them. `Interpret`
 * is the meaning of a key buffer as the loop is written, where the first
 * successful send ends the loop; the `Keyboard` method is proved to follow
 * it. `InterpretAll` is the evidently intended meaning, every key handled
 * in order; the `KeyboardAll` method is proved to follow that one.
 */
module Keyboard {
  import opened Basics
  import opened Report
  import opened Protocol
  import opened Channel

  /** Size of the buffer `keyboard` reads stdin into. */
  const KeyBufSize: nat := 128

  /** At most one buffer's worth of keys. */
  type KeyBuf = s: seq<char> | |s| <= KeyBufSize

  /** What read(2) on stdin did; an empty buffer is end of file. */
  datatype StdinOutcome = Keys(buf: KeyBuf) | StdinFailed(errno: Errno)

  /** What a key asks for. */
  datatype Command = Toggle(button: Button) | Pulse(axis: Axis, delta: Int8) | Quit | Invalid

  /** The ten keys the switch of `keyboard` recognises, and what each asks for. */
  function CommandOf(c: char): (cmd: Command)
    ensures cmd.Quit? <==> c == 'q'
    ensures cmd.Toggle? <==> c in "123"
    ensures cmd.Pulse? <==> c in "adwsrf"
    ensures cmd.Pulse? && cmd.axis == Wheel ==> cmd.delta == 1 || cmd.delta == -1
    ensures cmd.Pulse? && cmd.axis != Wheel ==> cmd.delta == 20 || cmd.delta == -20
  {
    match c
    case '1' => Toggle(Btn1)
    case '2' => Toggle(Btn2)
    case '3' => Toggle(Btn3)
    case 'a' => Pulse(Horizontal, -20)
    case 'd' => Pulse(Horizontal, 20)
    case 'w' => Pulse(Vertical, -20)
    case 's' => Pulse(Vertical, 20)
    case 'r' => Pulse(Wheel, 1)
    case 'f' => Pulse(Wheel, -1)
    case 'q' => Quit
    case _ => Invalid
  }

  /** The commands that send a report. */
  predicate Sends(cmd: Command)
  {
    cmd.Toggle? || cmd.Pulse?
  }

  /** The state the report of `cmd` carries. */
  function Reported(cmd: Command, s: MouseState): (t: MouseState)
    requires Sends(cmd)
  {
    match cmd
    case Toggle(b) => Toggled(s, b)
    case Pulse(a, d) => WithDelta(s, a, d)
  }

  /** The state `cmd` leaves behind, whether its report went out or not. */
  function Settled(cmd: Command, s: MouseState): (t: MouseState)
    requires Sends(cmd)
  {
    match cmd
    case Toggle(b) => Toggled(s, b)
    case Pulse(a, _) => WithDelta(s, a, 0)
  }

  /** What handling a key buffer amounts to: the return value, the final state, the frames written. */
  datatype KeyOutcome = KeyOutcome(ret: int, state: MouseState, frames: seq<Frame>)

  /** No key of the buffer is one the switch recognises. */
  predicate Unrecognised(keys: seq<char>)
  {
    forall i :: 0 <= i < |keys| ==> CommandOf(keys[i]).Invalid?
  }

  /**
   * The meaning of handling `keys` from state `s`, when the next write on
   * the device is its `n`-th, `out` gives the outcome of each write and
   * frames are `size` bytes long. In `keyboard` the variable `ret` is both
   * the bound of the loop over the buffer and the status of the last send,
   * so a send that succeeds sets the bound to 0 and ends the loop:
   * unrecognised keys are skipped, and the first other key decides the
   * outcome. At most one report goes out per buffer.
   */
  function Interpret(keys: seq<char>, s: MouseState, out: nat -> WriteOutcome, n: nat, size: nat): (r: KeyOutcome)
    ensures |r.frames| <= 1
    ensures r.frames == [] ==> r.state == s
    ensures r.frames != [] ==> r.ret == WriteStatus(out(n), size)
    ensures forall f :: f in r.frames ==> f.Input? && f.size == ReportSize
    ensures r.ret <= 0
    decreases |keys|
  {
    if keys == [] then KeyOutcome(0, s, [])
    else
      var cmd := CommandOf(keys[0]);
      if cmd.Quit? then KeyOutcome(-ECANCELED, s, [])
      else if cmd.Invalid? then Interpret(keys[1..], s, out, n, size)
      else KeyOutcome(WriteStatus(out(n), size), Settled(cmd, s), [InputFrame(Reported(cmd, s))])
  }

  /** The number of unrecognised keys in front of the first recognised one. */
  function Skipped(keys: seq<char>): (k: nat)
    ensures k <= |keys|
    ensures forall i :: 0 <= i < k ==> CommandOf(keys[i]).Invalid?
    ensures k < |keys| ==> !CommandOf(keys[k]).Invalid?
  {
    if keys == [] || !CommandOf(keys[0]).Invalid? then 0 else 1 + Skipped(keys[1..])
  }

  /** Handling a single key. */
  lemma InterpretOne(c: char, s: MouseState, out: nat -> WriteOutcome, n: nat, size: nat)
    ensures var o := Interpret([c], s, out, n, size);
      var cmd := CommandOf(c);
      if cmd.Quit? then o == KeyOutcome(-ECANCELED, s, [])
      else if cmd.Invalid? then o == KeyOutcome(0, s, [])
      else o == KeyOutcome(WriteStatus(out(n), size), Settled(cmd, s), [InputFrame(Reported(cmd, s))])
  {
    assert [c][1..] == [];
  }

  /**
   * Handling a buffer is handling its first part and, only when that part
   * held nothing but unrecognised keys, the rest from the same state and
   * write count: a `q` or a send of the first part ends the loop.
   */
  lemma {:induction false} InterpretAppend(p: seq<char>, q: seq<char>, s: MouseState,
                                           out: nat -> WriteOutcome, n: nat, size: nat)
    ensures var o := Interpret(p, s, out, n, size);
      && (o.ret == 0 && o.frames == [] <==> Unrecognised(p))
      && Interpret(p + q, s, out, n, size) == if Unrecognised(p) then Interpret(q, s, out, n, size) else o
  {
    if p == [] {
      assert p + q == q;
    } else {
      assert (p + q)[0] == p[0];
      assert (p + q)[1..] == p[1..] + q;
      assert Unrecognised(p) <==> CommandOf(p[0]).Invalid? && Unrecognised(p[1..]) by {
        assert forall i :: 1 <= i < |p| ==> p[i] == p[1..][i - 1];
      }
      if CommandOf(p[0]).Invalid? {
        InterpretAppend(p[1..], q, s, out, n, size);
      }
    }
  }

  /** A buffer of unrecognised keys does nothing and returns 0. */
  lemma InterpretUnrecognised(keys: seq<char>, s: MouseState, out: nat -> WriteOutcome, n: nat, size: nat)
    requires Unrecognised(keys)
    ensures Interpret(keys, s, out, n, size) == KeyOutcome(0, s, [])
  {
    InterpretAppend(keys, [], s, out, n, size);
    assert keys + [] == keys;
  }

  /** Only the first recognised key of a buffer matters; the keys after it are never looked at. */
  lemma InterpretFirstKey(p: seq<char>, c: char, rest: seq<char>, s: MouseState, out: nat -> WriteOutcome, n: nat, size: nat)
    requires Unrecognised(p) && !CommandOf(c).Invalid?
    ensures Interpret(p + [c] + rest, s, out, n, size) == Interpret([c], s, out, n, size)
  {
    assert p + [c] + rest == p + ([c] + rest);
    InterpretAppend(p, [c] + rest, s, out, n, size);
    assert ([c] + rest)[0] == c;
    InterpretOne(c, s, out, n, size);
  }

  /**
   * The return value of `keyboard` on a buffer: 0 when it holds no
   * recognised key, or when its first recognised key sends and the write
   * goes through; -ECANCELED when that key is `q`; otherwise the failed
   * write's status. One report goes out exactly when the first recognised
   * key sends one, whatever the keys after it.
   */
  lemma InterpretStatus(keys: seq<char>, s: MouseState, out: nat -> WriteOutcome, n: nat, size: nat)
    ensures var o := Interpret(keys, s, out, n, size);
      var k := Skipped(keys);
      && (k == |keys| ==> o == KeyOutcome(0, s, []))
      && (k < |keys| && CommandOf(keys[k]).Quit? ==> o == KeyOutcome(-ECANCELED, s, []))
      && (o.ret == 0 <==> k == |keys| || (Sends(CommandOf(keys[k])) && WriteStatus(out(n), size) == 0))
      && (|o.frames| == 1 <==> k < |keys| && Sends(CommandOf(keys[k])))
  {
    var k := Skipped(keys);
    if k == |keys| {
      InterpretUnrecognised(keys, s, out, n, size);
    } else {
      assert keys == keys[..k] + [keys[k]] + keys[k + 1..];
      InterpretFirstKey(keys[..k], keys[k], keys[k + 1..], s, out, n, size);
      InterpretOne(keys[k], s, out, n, size);
    }
  }

  /** `q` as the first recognised key returns -ECANCELED, sending nothing and changing nothing. */
  lemma QuitCancels(p: seq<char>, rest: seq<char>, s: MouseState, out: nat -> WriteOutcome, n: nat, size: nat)
    requires Unrecognised(p)
    ensures Interpret(p + ['q'] + rest, s, out, n, size) == KeyOutcome(-ECANCELED, s, [])
  {
    InterpretFirstKey(p, 'q', rest, s, out, n, size);
    InterpretOne('q', s, out, n, size);
  }

  /** An unrecognised key changes nothing: removing it from the buffer gives the same outcome. */
  lemma InvalidIgnored(p: seq<char>, c: char, q: seq<char>, s: MouseState, out: nat -> WriteOutcome, n: nat, size: nat)
    requires CommandOf(c).Invalid?
    ensures Interpret(p + [c] + q, s, out, n, size) == Interpret(p + q, s, out, n, size)
  {
    assert p + [c] + q == p + ([c] + q);
    InterpretAppend(p, [c] + q, s, out, n, size);
    InterpretAppend(p, q, s, out, n, size);
    InterpretAppend([c], q, s, out, n, size);
    assert Unrecognised([c]);
  }

  /** A toggle key flips exactly its button and reports the new state. */
  lemma ToggleKey(c: char, s: MouseState, out: nat -> WriteOutcome, n: nat, size: nat)
    requires CommandOf(c).Toggle?
    ensures var b := CommandOf(c).button;
      var o := Interpret([c], s, out, n, size);
      && Pressed(o.state, b) == !Pressed(s, b)
      && (forall x :: x != b ==> Pressed(o.state, x) == Pressed(s, x))
      && (forall a :: Delta(o.state, a) == Delta(s, a))
      && o.frames == [InputFrame(o.state)]
      && o.ret == WriteStatus(out(n), size)
  {
    InterpretOne(c, s, out, n, size);
  }

  /**
   * The same toggle key at the head of two successive buffers, the first
   * send succeeding, restores the button and sends two reports: the new
   * state, then the old. The keys after each toggle are dropped.
   */
  lemma ToggleTwice(c: char, rest1: seq<char>, rest2: seq<char>, s: MouseState, out: nat -> WriteOutcome, n: nat, size: nat)
    requires CommandOf(c).Toggle?
    requires WriteStatus(out(n), size) == 0
    ensures var b := CommandOf(c).button;
      var o1 := Interpret([c] + rest1, s, out, n, size);
      var o2 := Interpret([c] + rest2, o1.state, out, n + |o1.frames|, size);
      && o1.ret == 0
      && o2.state == s
      && o1.frames + o2.frames == [InputFrame(Toggled(s, b)), InputFrame(s)]
      && o2.ret == WriteStatus(out(n + 1), size)
  {
    var b := CommandOf(c).button;
    assert Unrecognised([]);
    InterpretFirstKey([], c, rest1, s, out, n, size);
    assert [] + [c] + rest1 == [c] + rest1;
    InterpretOne(c, s, out, n, size);
    InterpretFirstKey([], c, rest2, Toggled(s, b), out, n + 1, size);
    assert [] + [c] + rest2 == [c] + rest2;
    InterpretOne(c, Toggled(s, b), out, n + 1, size);
    assert Toggled(Toggled(s, b), b) == s;
  }

  /**
   * A motion or wheel key sends one report carrying its delta, and leaves
   * that delta zero afterwards even when the send failed.
   */
  lemma PulseKey(c: char, s: MouseState, out: nat -> WriteOutcome, n: nat, size: nat)
    requires CommandOf(c).Pulse?
    ensures var cmd := CommandOf(c);
      var o := Interpret([c], s, out, n, size);
      && o.frames == [InputFrame(WithDelta(s, cmd.axis, cmd.delta))]
      && o.state == WithDelta(s, cmd.axis, 0)
      && Delta(o.state, cmd.axis) == 0
      && o.ret == WriteStatus(out(n), size)
  {
    InterpretOne(c, s, out, n, size);
  }

  /** Pulses do not accumulate: a state with no pending delta is left without one. */
  lemma {:induction false} InterpretKeepsRest(keys: seq<char>, s: MouseState, out: nat -> WriteOutcome, n: nat, size: nat)
    requires AtRest(s)
    ensures AtRest(Interpret(keys, s, out, n, size).state)
  {
    if keys != [] {
      var cmd := CommandOf(keys[0]);
      if Sends(cmd) {
        var t := Settled(cmd, s);
        assert AtRest(t) by {
          forall a ensures Delta(t, a) == 0 {
            assert Delta(s, a) == 0;
          }
        }
      } else if cmd.Invalid? {
        InterpretKeepsRest(keys[1..], s, out, n, size);
      }
    }
  }

  /**
   * What the loop of `keyboard` evidently means to do: handle every key of
   * the buffer in order, stopping only at `q` or at a failed send.
   */
  function InterpretAll(keys: seq<char>, s: MouseState, out: nat -> WriteOutcome, n: nat, size: nat): (r: KeyOutcome)
    ensures |r.frames| <= SendCount(keys)
    ensures forall f :: f in r.frames ==> f.Input? && f.size == ReportSize
    decreases |keys|
  {
    if keys == [] then KeyOutcome(0, s, [])
    else
      var cmd := CommandOf(keys[0]);
      if cmd.Quit? then KeyOutcome(-ECANCELED, s, [])
      else if cmd.Invalid? then InterpretAll(keys[1..], s, out, n, size)
      else
        var f := InputFrame(Reported(cmd, s));
        var st := WriteStatus(out(n), size);
        if st != 0 then KeyOutcome(st, Settled(cmd, s), [f])
        else
          var rest := InterpretAll(keys[1..], Settled(cmd, s), out, n + 1, size);
          KeyOutcome(rest.ret, rest.state, [f] + rest.frames)
  }

  /** Running `next` after `o`, unless `o` already stopped. */
  function Then(o: KeyOutcome, next: KeyOutcome): (r: KeyOutcome)
    ensures o.ret != 0 ==> r == o
    ensures o.ret == 0 ==> r.ret == next.ret && r.state == next.state && r.frames == o.frames + next.frames
  {
    if o.ret != 0 then o else KeyOutcome(next.ret, next.state, o.frames + next.frames)
  }

  /** Number of keys in `keys` that send a report. */
  function SendCount(keys: seq<char>): (k: nat)
    ensures k <= |keys|
  {
    if keys == [] then 0
    else (if Sends(CommandOf(keys[0])) then 1 else 0) + SendCount(keys[1..])
  }

  /** On a single key the loop as written and the intended loop agree. */
  lemma InterpretAllOne(c: char, s: MouseState, out: nat -> WriteOutcome, n: nat, size: nat)
    ensures InterpretAll([c], s, out, n, size) == Interpret([c], s, out, n, size)
  {
    assert [c][1..] == [];
  }

  /** In the intended loop keys are handled strictly in order: a buffer is its first part followed by the rest. */
  lemma {:induction false} InterpretAllAppend(p: seq<char>, q: seq<char>, s: MouseState,
                                              out: nat -> WriteOutcome, n: nat, size: nat)
    ensures var o := InterpretAll(p, s, out, n, size);
      InterpretAll(p + q, s, out, n, size) == Then(o, InterpretAll(q, o.state, out, n + |o.frames|, size))
  {
    if p == [] {
      assert p + q == q;
    } else {
      assert (p + q)[0] == p[0];
      assert (p + q)[1..] == p[1..] + q;
      var cmd := CommandOf(p[0]);
      if cmd.Quit? {
      } else if cmd.Invalid? {
        InterpretAllAppend(p[1..], q, s, out, n, size);
      } else if WriteStatus(out(n), size) != 0 {
      } else {
        var t := Settled(cmd, s);
        InterpretAllAppend(p[1..], q, t, out, n + 1, size);
        var f := InputFrame(Reported(cmd, s));
        var o1 := InterpretAll(p[1..], t, out, n + 1, size);
        if o1.ret == 0 {
          var r := InterpretAll(q, o1.state, out, n + 1 + |o1.frames|, size);
          assert [f] + (o1.frames + r.frames) == ([f] + o1.frames) + r.frames;
        }
      }
    }
  }

  /** In the intended loop, once handling stops the keys after the stopping point do not matter. */
  lemma InterpretAllStops(p: seq<char>, q: seq<char>, s: MouseState, out: nat -> WriteOutcome, n: nat, size: nat)
    requires InterpretAll(p, s, out, n, size).ret != 0
    ensures InterpretAll(p + q, s, out, n, size) == InterpretAll(p, s, out, n, size)
  {
    InterpretAllAppend(p, q, s, out, n, size);
  }

  /**
   * One more key of the intended loop, the step its method takes per turn:
   * `o` is the outcome of the keys before index `i` and `h` that of key `i`
   * from where they left off.
   */
  lemma InterpretAllStep(buf: seq<char>, i: nat, s: MouseState, out: nat -> WriteOutcome, n: nat, size: nat,
                         o: KeyOutcome, h: KeyOutcome)
    requires i < |buf|
    requires o == InterpretAll(buf[..i], s, out, n, size) && o.ret == 0
    requires h == InterpretAll([buf[i]], o.state, out, n + |o.frames|, size)
    ensures h.ret == 0 ==> InterpretAll(buf[..i + 1], s, out, n, size) == KeyOutcome(0, h.state, o.frames + h.frames)
    ensures h.ret != 0 ==> InterpretAll(buf, s, out, n, size) == KeyOutcome(h.ret, h.state, o.frames + h.frames)
  {
    assert buf[..i + 1] == buf[..i] + [buf[i]];
    InterpretAllAppend(buf[..i], [buf[i]], s, out, n, size);
    if h.ret != 0 {
      InterpretAllStops(buf[..i + 1], buf[i + 1..], s, out, n, size);
      assert buf[..i + 1] + buf[i + 1..] == buf;
    }
  }

  /** In the intended loop `q` ends the buffer with -ECANCELED, sending nothing and leaving the later keys unread. */
  lemma InterpretAllQuit(p: seq<char>, rest: seq<char>, s: MouseState, out: nat -> WriteOutcome, n: nat, size: nat)
    ensures var o := InterpretAll(p, s, out, n, size);
      InterpretAll(p + ['q'] + rest, s, out, n, size)
        == if o.ret != 0 then o else KeyOutcome(-ECANCELED, o.state, o.frames)
  {
    assert p + ['q'] + rest == p + (['q'] + rest);
    InterpretAllAppend(p, ['q'] + rest, s, out, n, size);
    assert (['q'] + rest)[0] == 'q';
  }

  /** In the intended loop, pressing a toggle key twice in one buffer restores the button and sends two reports. */
  lemma InterpretAllToggleTwice(c: char, rest: seq<char>, s: MouseState, out: nat -> WriteOutcome, n: nat, size: nat)
    requires CommandOf(c).Toggle?
    requires WriteStatus(out(n), size) == 0 && WriteStatus(out(n + 1), size) == 0
    ensures var b := CommandOf(c).button;
      var r := InterpretAll(rest, s, out, n + 2, size);
      InterpretAll([c, c] + rest, s, out, n, size)
        == KeyOutcome(r.ret, r.state, [InputFrame(Toggled(s, b)), InputFrame(s)] + r.frames)
  {
    var b := CommandOf(c).button;
    assert [c, c] + rest == [c] + ([c] + rest);
    InterpretAllAppend([c], [c] + rest, s, out, n, size);
    InterpretAllOne(c, s, out, n, size);
    InterpretOne(c, s, out, n, size);
    assert Toggled(Toggled(s, b), b) == s;
    InterpretAllAppend([c], rest, Toggled(s, b), out, n + 1, size);
    InterpretAllOne(c, Toggled(s, b), out, n + 1, size);
    InterpretOne(c, Toggled(s, b), out, n + 1, size);
  }

  /** No key of the buffer is `q`. */
  predicate NoQuit(keys: seq<char>)
  {
    forall i :: 0 <= i < |keys| ==> keys[i] != 'q'
  }

  /** The `k` writes starting with the `n`-th each move one whole frame. */
  predicate WritesOk(out: nat -> WriteOutcome, n: nat, k: nat, size: nat)
  {
    forall j :: n <= j < n + k ==> WriteStatus(out(j), size) == 0
  }

  /**
   * The intended loop succeeds exactly when the buffer holds no `q` and
   * every write went through; a failure is -ECANCELED or the status of the
   * last write. It sends a report for every sending key when it succeeds.
   */
  lemma {:induction false} InterpretAllStatus(keys: seq<char>, s: MouseState, out: nat -> WriteOutcome, n: nat, size: nat)
    ensures var o := InterpretAll(keys, s, out, n, size);
      && (o.ret == 0 <==> NoQuit(keys) && WritesOk(out, n, |o.frames|, size))
      && (o.ret != 0 ==> o.ret == -ECANCELED || (|o.frames| > 0 && o.ret == WriteStatus(out(n + |o.frames| - 1), size)))
      && (o.ret == 0 ==> |o.frames| == SendCount(keys))
  {
    if keys != [] {
      var cmd := CommandOf(keys[0]);
      var o := InterpretAll(keys, s, out, n, size);
      assert NoQuit(keys) <==> keys[0] != 'q' && NoQuit(keys[1..]) by {
        assert forall i :: 1 <= i < |keys| ==> keys[i] == keys[1..][i - 1];
      }
      if cmd.Quit? {
        assert keys[0] == 'q';
      } else if cmd.Invalid? {
        InterpretAllStatus(keys[1..], s, out, n, size);
      } else if WriteStatus(out(n), size) != 0 {
        assert !WritesOk(out, n, 1, size);
      } else {
        var t := Settled(cmd, s);
        InterpretAllStatus(keys[1..], t, out, n + 1, size);
        var r := InterpretAll(keys[1..], t, out, n + 1, size);
        assert WritesOk(out, n, 1 + |r.frames|, size) <==> WritesOk(out, n + 1, |r.frames|, size);
      }
    }
  }

  /**
   * The loop as written against the intended one: with every write
   * succeeding, "11" sends one report and leaves button 1 down where the
   * intended loop sends two and lifts it again, and "1q" returns 0 where
   * the intended loop returns -ECANCELED.
   */
  lemma OneReportPerRead(s: MouseState, out: nat -> WriteOutcome, n: nat, size: nat)
    requires WriteStatus(out(n), size) == 0 && WriteStatus(out(n + 1), size) == 0
    ensures var o := Interpret("11", s, out, n, size);
      && o == KeyOutcome(0, Toggled(s, Btn1), [InputFrame(Toggled(s, Btn1))])
      && |InterpretAll("11", s, out, n, size).frames| == 2
      && InterpretAll("11", s, out, n, size).state == s
    ensures Interpret("1q", s, out, n, size).ret == 0
    ensures InterpretAll("1q", s, out, n, size).ret == -ECANCELED
  {
    assert "11" == ['1', '1'] + [];
    InterpretStatus("11", s, out, n, size);
    InterpretOne('1', s, out, n, size);
    assert "11"[..0] == [] && "11"[1..] == ['1'];
    InterpretFirstKey([], '1', ['1'], s, out, n, size);
    InterpretAllToggleTwice('1', [], s, out, n, size);
    assert "1q"[1..] == ['q'];
    InterpretFirstKey([], '1', ['q'], s, out, n, size);
    assert InterpretAll("1q", s, out, n, size).ret == InterpretAll(['q'], Toggled(s, Btn1), out, n + 1, size).ret;
  }

  /**
   * The turn of the loop as written at index `i`, all keys before it
   * unrecognised: an unrecognised key keeps that so, any other key decides
   * the outcome of the whole buffer by itself.
   */
  lemma InterpretKeyAt(buf: seq<char>, i: nat, s: MouseState, out: nat -> WriteOutcome, n: nat, size: nat)
    requires i < |buf| && Unrecognised(buf[..i])
    ensures CommandOf(buf[i]).Invalid? ==> Unrecognised(buf[..i + 1])
    ensures !CommandOf(buf[i]).Invalid? ==>
      var cmd := CommandOf(buf[i]);
      Interpret(buf, s, out, n, size) ==
        if cmd.Quit? then KeyOutcome(-ECANCELED, s, [])
        else KeyOutcome(WriteStatus(out(n), size), Settled(cmd, s), [InputFrame(Reported(cmd, s))])
  {
    if CommandOf(buf[i]).Invalid? {
      assert forall j :: 0 <= j < i ==> buf[..i + 1][j] == buf[..i][j];
    } else {
      assert buf == buf[..i] + [buf[i]] + buf[i + 1..];
      InterpretFirstKey(buf[..i], buf[i], buf[i + 1..], s, out, n, size);
      InterpretOne(buf[i], s, out, n, size);
    }
  }

  /** Standard input, as a source of key buffers. */
  class Terminal {
    /** Outcome of the k-th read(2) on stdin. */
    const input: nat -> StdinOutcome
    var readCount: nat

    constructor (input: nat -> StdinOutcome)
      ensures this.input == input && readCount == 0
    {
      this.input := input;
      readCount := 0;
    }

    /** One read(2) of at most `KeyBufSize` bytes. */
    method Read() returns (o: StdinOutcome)
      modifies this
      ensures readCount == old(readCount) + 1
      ensures o == input(old(readCount))
    {
      o := input(readCount);
      readCount := readCount + 1;
    }
  }

  /** The six globals of the driver. */
  class Mouse {
    var btn1Down: bool
    var btn2Down: bool
    var btn3Down: bool
    var absHor: Int8
    var absVer: Int8
    var wheel: Int8

    /** Static storage starts out zero. */
    constructor ()
      ensures State() == Initial
    {
      btn1Down, btn2Down, btn3Down := false, false, false;
      absHor, absVer, wheel := 0, 0, 0;
    }

    function State(): (s: MouseState)
      reads this
    {
      MouseState(btn1Down, btn2Down, btn3Down, absHor, absVer, wheel)
    }

    /** `send_event`: fills a zeroed input buffer from the globals and writes it as one frame. */
    method SendEvent(fd: UhidDevice) returns (ret: int)
      modifies fd
      ensures fd.written == old(fd.written) + [InputFrame(State())]
      ensures fd.readCount == old(fd.readCount) && fd.closed == old(fd.closed)
      ensures ret == WriteStatus(fd.writeOutcome(|old(fd.written)|), fd.frameSize)
    {
      var data := new byte[InputDataMax](_ => 0);
      if btn1Down {
        data[0] := BitOr(data[0], 0x1);
      }
      if btn2Down {
        data[0] := BitOr(data[0], 0x2);
      }
      if btn3Down {
        data[0] := BitOr(data[0], 0x4);
      }
      data[1] := ToByte(absHor);
      data[2] := ToByte(absVer);
      data[3] := ToByte(wheel);
      assert data[0] == ButtonMask(State());
      assert data[..] == EncodeReport(State());
      ret := fd.Write(Input(ReportSize, data[..]));
    }

    /** The toggle cases of the switch in `keyboard`: flips `btnN_down` and sends the new state. */
    method ToggleAndSend(fd: UhidDevice, b: Button) returns (ret: int)
      modifies this, fd
      ensures fd.readCount == old(fd.readCount) && fd.closed == old(fd.closed)
      ensures State() == Toggled(old(State()), b)
      ensures fd.written == old(fd.written) + [InputFrame(State())]
      ensures ret == WriteStatus(fd.writeOutcome(|old(fd.written)|), fd.frameSize)
    {
      match b {
        case Btn1 => btn1Down := !btn1Down;
        case Btn2 => btn2Down := !btn2Down;
        case Btn3 => btn3Down := !btn3Down;
      }
      ret := SendEvent(fd);
    }

    /**
     * The motion and wheel cases of the switch in `keyboard`: sets the
     * delta of axis `a` to `d`, sends, and zeroes the delta again before
     * looking at how the send went.
     */
    method PulseAndSend(fd: UhidDevice, a: Axis, d: Int8) returns (ret: int)
      modifies this, fd
      ensures fd.readCount == old(fd.readCount) && fd.closed == old(fd.closed)
      ensures State() == WithDelta(old(State()), a, 0)
      ensures fd.written == old(fd.written) + [InputFrame(WithDelta(old(State()), a, d))]
      ensures ret == WriteStatus(fd.writeOutcome(|old(fd.written)|), fd.frameSize)
    {
      match a {
        case Horizontal =>
          absHor := d;
          ret := SendEvent(fd);
          absHor := 0;
        case Vertical =>
          absVer := d;
          ret := SendEvent(fd);
          absVer := 0;
        case Wheel =>
          wheel := d;
          ret := SendEvent(fd);
          wheel := 0;
      }
    }

    /** One turn of the switch of the intended loop: acts on key `c`, sending at most one report. */
    method HandleKey(fd: UhidDevice, c: char, ghost s: MouseState, ghost n: nat) returns (ret: int)
      requires State() == s && |fd.written| == n
      modifies this, fd
      ensures fd.readCount == old(fd.readCount) && fd.closed == old(fd.closed)
      ensures var o := InterpretAll([c], s, fd.writeOutcome, n, fd.frameSize);
        ret == o.ret && State() == o.state && fd.written == old(fd.written) + o.frames
    {
      InterpretAllOne(c, State(), fd.writeOutcome, |fd.written|, fd.frameSize);
      InterpretOne(c, State(), fd.writeOutcome, |fd.written|, fd.frameSize);
      match CommandOf(c) {
        case Toggle(b) =>
          ret := ToggleAndSend(fd, b);
        case Pulse(a, d) =>
          ret := PulseAndSend(fd, a, d);
        case Quit =>
          ret := -ECANCELED;
        case Invalid =>
          // an invalid key is only logged
          ret := 0;
      }
    }

    /**
     * `keyboard` as written: reads one buffer from stdin and runs the loop
     * whose bound `ret` the first successful send sets to 0.
     */
    method Keyboard(fd: UhidDevice, term: Terminal) returns (ret: int)
      modifies this, fd, term
      ensures term.readCount == old(term.readCount) + 1
      ensures fd.readCount == old(fd.readCount) && fd.closed == old(fd.closed)
      ensures match term.input(old(term.readCount))
        case StdinFailed(e) =>
          ret == -(e as int) && State() == old(State()) && fd.written == old(fd.written)
        case Keys(buf) =>
          if |buf| == 0 then
            ret == -EFAULT && State() == old(State()) && fd.written == old(fd.written)
          else
            var o := Interpret(buf, old(State()), fd.writeOutcome, |old(fd.written)|, fd.frameSize);
            ret == o.ret && State() == o.state && fd.written == old(fd.written) + o.frames
    {
      var input := term.Read();
      match input {
        case StdinFailed(e) =>
          ret := -(e as int);
        case Keys(buf) =>
          ret := |buf|;
          if ret == 0 {
            ret := -EFAULT;
            return;
          }
          ghost var s0 := State();
          ghost var n0 := |fd.written|;
          var i := 0;
          while i < ret
            invariant 0 <= i <= |buf|
            invariant term.readCount == old(term.readCount) + 1
            invariant fd.readCount == old(fd.readCount) && fd.closed == old(fd.closed)
            invariant ret == |buf| ==> Unrecognised(buf[..i]) && State() == s0 && fd.written == old(fd.written)
            invariant ret != |buf| ==>
              (ret == 0 && 0 < i &&
               var o := Interpret(buf, s0, fd.writeOutcome, n0, fd.frameSize);
               o.ret == 0 && State() == o.state && fd.written == old(fd.written) + o.frames)
            decreases |buf| - i
          {
            InterpretKeyAt(buf, i, s0, fd.writeOutcome, n0, fd.frameSize);
            match CommandOf(buf[i]) {
              case Toggle(b) =>
                ret := ToggleAndSend(fd, b);
                if ret != 0 {
                  return;
                }
              case Pulse(a, d) =>
                ret := PulseAndSend(fd, a, d);
                if ret != 0 {
                  return;
                }
              case Quit =>
                ret := -ECANCELED;
                return;
              case Invalid =>
                // an invalid key is only logged
            }
            i := i + 1;
          }
          if ret == |buf| {
            assert buf[..i] == buf;
            InterpretUnrecognised(buf, s0, fd.writeOutcome, n0, fd.frameSize);
          }
          ret := 0;
      }
    }

    /** The loop of the intended `keyboard` over a non-empty buffer `buf`. */
    method HandleAll(fd: UhidDevice, buf: seq<char>) returns (ret: int)
      modifies this, fd
      ensures fd.readCount == old(fd.readCount) && fd.closed == old(fd.closed)
      ensures var o := InterpretAll(buf, old(State()), fd.writeOutcome, |old(fd.written)|, fd.frameSize);
        ret == o.ret && State() == o.state && fd.written == old(fd.written) + o.frames
    {
      ghost var s0 := State();
      ghost var n0 := |fd.written|;
      var i := 0;
      while i < |buf|
        invariant 0 <= i <= |buf|
        invariant fd.readCount == old(fd.readCount) && fd.closed == old(fd.closed)
        invariant InterpretAll(buf[..i], s0, fd.writeOutcome, n0, fd.frameSize).ret == 0
        invariant State() == InterpretAll(buf[..i], s0, fd.writeOutcome, n0, fd.frameSize).state
        invariant fd.written == old(fd.written) + InterpretAll(buf[..i], s0, fd.writeOutcome, n0, fd.frameSize).frames
      {
        ghost var o := InterpretAll(buf[..i], s0, fd.writeOutcome, n0, fd.frameSize);
        ghost var h := InterpretAll([buf[i]], o.state, fd.writeOutcome, n0 + |o.frames|, fd.frameSize);
        InterpretAllStep(buf, i, s0, fd.writeOutcome, n0, fd.frameSize, o, h);
        ret := HandleKey(fd, buf[i], o.state, n0 + |o.frames|);
        assert ret == h.ret && State() == h.state;
        assert fd.written == old(fd.written) + (o.frames + h.frames);
        if ret != 0 {
          return;
        }
        i := i + 1;
      }
      assert buf[..i] == buf;
      ret := 0;
    }

    /** The intended `keyboard`: reads one buffer from stdin and handles every key of it in order. */
    method KeyboardAll(fd: UhidDevice, term: Terminal) returns (ret: int)
      modifies this, fd, term
      ensures term.readCount == old(term.readCount) + 1
      ensures fd.readCount == old(fd.readCount) && fd.closed == old(fd.closed)
      ensures match term.input(old(term.readCount))
        case StdinFailed(e) =>
          ret == -(e as int) && State() == old(State()) && fd.written == old(fd.written)
        case Keys(buf) =>
          if |buf| == 0 then
            ret == -EFAULT && State() == old(State()) && fd.written == old(fd.written)
          else
            var o := InterpretAll(buf, old(State()), fd.writeOutcome, |old(fd.written)|, fd.frameSize);
            ret == o.ret && State() == o.state && fd.written == old(fd.written) + o.frames
    {
      var input := term.Read();
      match input {
        case StdinFailed(e) =>
          ret := -(e as int);
        case Keys(buf) =>
          if |buf| == 0 {
            ret := -EFAULT;
          } else {
            ret := HandleAll(fd, buf);
          }
      }
    }
  }
}
