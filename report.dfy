/**
 * The mouse state the example keeps in process-wide globals, and the input
 * report `send_event` builds from it: byte 0 a button bitmask, bytes 1..3
 * the horizontal, vertical and wheel deltas, every other byte of the
 * UHID_INPUT data buffer zero.
 */
module Report {
  import opened Basics

  /** Capacity of the data buffer of a UHID_INPUT frame (UHID_DATA_MAX in linux/uhid.h). */
  const InputDataMax: nat := 4096

  /** Number of meaningful bytes in one report of this mouse. */
  const ReportSize: nat := 4

  datatype Button = Btn1 | Btn2 | Btn3

  datatype Axis = Horizontal | Vertical | Wheel

  /** btn1_down, btn2_down, btn3_down, abs_hor, abs_ver and wheel, as one value. */
  datatype MouseState = MouseState(btn1: bool, btn2: bool, btn3: bool, hor: Int8, ver: Int8, wheel: Int8)

  /** The state of the globals before `main` changes any of them. */
  const Initial: MouseState := MouseState(false, false, false, 0, 0, 0)

  predicate Pressed(s: MouseState, b: Button)
  {
    match b
    case Btn1 => s.btn1
    case Btn2 => s.btn2
    case Btn3 => s.btn3
  }

  function Delta(s: MouseState, a: Axis): (d: Int8)
  {
    match a
    case Horizontal => s.hor
    case Vertical => s.ver
    case Wheel => s.wheel
  }

  /** No motion or wheel pulse is pending. */
  predicate AtRest(s: MouseState)
  {
    forall a :: Delta(s, a) == 0
  }

  /** The state after `btnN_down = !btnN_down`. */
  function Toggled(s: MouseState, b: Button): (t: MouseState)
    ensures Pressed(t, b) == !Pressed(s, b)
    ensures forall c :: c != b ==> Pressed(t, c) == Pressed(s, c)
    ensures forall a :: Delta(t, a) == Delta(s, a)
  {
    match b
    case Btn1 => s.(btn1 := !s.btn1)
    case Btn2 => s.(btn2 := !s.btn2)
    case Btn3 => s.(btn3 := !s.btn3)
  }

  /** The state after assigning `d` to the global of axis `a`. */
  function WithDelta(s: MouseState, a: Axis, d: Int8): (t: MouseState)
    ensures Delta(t, a) == d
    ensures forall x :: x != a ==> Delta(t, x) == Delta(s, x)
    ensures forall b :: Pressed(t, b) == Pressed(s, b)
  {
    match a
    case Horizontal => s.(hor := d)
    case Vertical => s.(ver := d)
    case Wheel => s.(wheel := d)
  }

  /** Bit 0 for button 1, bit 1 for button 2, bit 2 for button 3; bits 3..7 clear. */
  function ButtonMask(s: MouseState): (m: byte)
    ensures m < 8
    ensures m == 0 <==> !s.btn1 && !s.btn2 && !s.btn3
  {
    (if s.btn1 then 1 else 0) + (if s.btn2 then 2 else 0) + (if s.btn3 then 4 else 0)
  }

  /** The whole UHID_INPUT data buffer for state `s`. */
  function EncodeReport(s: MouseState): (data: seq<byte>)
    ensures |data| == InputDataMax
  {
    seq(InputDataMax, i requires 0 <= i < InputDataMax =>
      if i == 0 then ButtonMask(s)
      else if i == 1 then ToByte(s.hor)
      else if i == 2 then ToByte(s.ver)
      else if i == 3 then ToByte(s.wheel)
      else 0)
  }

  /** The data bytes past the report are all zero. */
  predicate ZeroPadded(data: seq<byte>)
  {
    forall i :: ReportSize <= i < |data| ==> data[i] == 0
  }

  /**
   * How the host reads a report of this mouse back: only bits 0..2 of
   * byte 0 are buttons (the descriptor declares three one-bit fields and
   * five bits of padding, which a well-formed report leaves clear), bytes
   * 1..3 are signed 8-bit deltas.
   */
  function ParseReport(data: seq<byte>): (r: Option<MouseState>)
    ensures r.Some? <==> |data| >= ReportSize && data[0] < 8
    ensures r.Some? ==> r.value.hor == FromByte(data[1]) && r.value.ver == FromByte(data[2]) && r.value.wheel == FromByte(data[3])
  {
    if |data| < ReportSize || data[0] >= 8 then None
    else Some(MouseState(data[0] % 2 == 1, data[0] / 2 % 2 == 1, data[0] / 4 % 2 == 1,
                         FromByte(data[1]), FromByte(data[2]), FromByte(data[3])))
  }

  /** The byte layout `send_event` produces. */
  lemma ReportLayout(s: MouseState)
    ensures var data := EncodeReport(s);
      && (data[0] % 2 == 1 <==> s.btn1)
      && (data[0] / 2 % 2 == 1 <==> s.btn2)
      && (data[0] / 4 % 2 == 1 <==> s.btn3)
      && data[0] < 8
      && data[1] == ToByte(s.hor) && data[2] == ToByte(s.ver) && data[3] == ToByte(s.wheel)
      && ZeroPadded(data)
  {
    var data := EncodeReport(s);
    assert data[0] == ButtonMask(s);
    MaskBits(s);
  }

  /** Each button is read back from its own bit, and no other bit is set. */
  lemma MaskBits(s: MouseState)
    ensures var m := ButtonMask(s) as int;
      && (m % 2 == 1 <==> s.btn1)
      && (m / 2 % 2 == 1 <==> s.btn2)
      && (m / 4 % 2 == 1 <==> s.btn3)
      && m < 8
  {
    if s.btn1 {
      if s.btn2 { if s.btn3 { assert ButtonMask(s) == 7; } else { assert ButtonMask(s) == 3; } }
      else { if s.btn3 { assert ButtonMask(s) == 5; } else { assert ButtonMask(s) == 1; } }
    } else {
      if s.btn2 { if s.btn3 { assert ButtonMask(s) == 6; } else { assert ButtonMask(s) == 2; } }
      else { if s.btn3 { assert ButtonMask(s) == 4; } else { assert ButtonMask(s) == 0; } }
    }
  }

  /** Decoding an encoded report gives back the state it was built from. */
  lemma ParseEncode(s: MouseState)
    ensures ParseReport(EncodeReport(s)) == Some(s)
  {
    var data := EncodeReport(s);
    ReportLayout(s);
    FromToByte(s.hor);
    FromToByte(s.ver);
    FromToByte(s.wheel);
  }

  /** A full-size, zero-padded buffer that decodes to `s` is exactly the encoding of `s`. */
  lemma EncodeParse(data: seq<byte>, s: MouseState)
    requires |data| == InputDataMax && ZeroPadded(data)
    requires ParseReport(data) == Some(s)
    ensures EncodeReport(s) == data
  {
    assert ButtonMask(s) == data[0];
    ToFromByte(data[1]);
    ToFromByte(data[2]);
    ToFromByte(data[3]);
    var e := EncodeReport(s);
    forall i | 0 <= i < InputDataMax
      ensures e[i] == data[i]
    {
    }
  }

  /** Buttons 1 and 3 down, a left pulse and one wheel notch up give 05 EC 00 01. */
  lemma ExampleReport()
    ensures EncodeReport(MouseState(true, false, true, -20, 0, 1))[..ReportSize] == [0x05, 0xEC, 0x00, 0x01]
  {
    var st := MouseState(true, false, true, -20, 0, 1);
    var data := EncodeReport(st);
    assert data[0] == ButtonMask(st) == 0x05;
    assert data[1] == ToByte(-20) == 0xEC;
    assert data[2] == ToByte(0) == 0;
    assert data[3] == ToByte(1) == 1;
  }
}
