/**
 * The UHID messages this driver exchanges with the kernel, as a tagged
 * variant rather than the raw `struct uhid_event` memory image, together
 * with the three frames the driver itself builds (create, destroy, input)
 * and the classification of the notifications the kernel sends back.
 */
module Protocol {
  import opened Basics
  import opened Report

  /** Capacity of the `name` field of a create request, terminator included. */
  const NameCapacity: nat := 128

  /** BUS_USB from linux/input.h. */
  const BusUsb: nat := 0x03

  const DeviceName: string := "test-uhid-device"
  const VendorId: nat := 0x15d9
  const ProductId: nat := 0x0a37

  /** The report descriptor of a three-button mouse with wheel; its items are not interpreted here. */
  const Rdesc: seq<byte> := [
    0x05, 0x01, 0x09, 0x02, 0xa1, 0x01, 0x09, 0x01,
    0xa1, 0x00, 0x05, 0x09, 0x19, 0x01, 0x29, 0x03,
    0x15, 0x00, 0x25, 0x01, 0x95, 0x03, 0x75, 0x01,
    0x81, 0x02, 0x95, 0x01, 0x75, 0x05, 0x81, 0x01,
    0x05, 0x01, 0x09, 0x30, 0x09, 0x31, 0x09, 0x38,
    0x15, 0x80, 0x25, 0x7f, 0x75, 0x08, 0x95, 0x03,
    0x81, 0x06, 0xc0, 0xc0
  ]

  /**
   * The `type` field of a frame. The kinds the example names get a
   * constructor each; any other value that arrives is kept as `OtherType`.
   */
  datatype EventType =
    | UhidCreate | UhidDestroy | UhidInput
    | UhidStart | UhidStop | UhidOpen | UhidClose | UhidOutput | UhidOutputEv
    | OtherType(raw: nat)

  /** The frames the driver writes. */
  datatype Frame =
    | Create(name: string, rdData: seq<byte>, rdSize: nat, bus: nat,
             vendor: nat, product: nat, version: nat, country: nat)
    | Destroy
    | Input(size: nat, data: seq<byte>)

  /** The request `create` fills in. */
  function CreateFrame(): (f: Frame)
    ensures f.Create? && f.name == DeviceName && f.rdData == Rdesc
    ensures f.rdSize == |Rdesc| == 52
    ensures f.bus == BusUsb && f.vendor == VendorId && f.product == ProductId
    ensures f.version == 0 && f.country == 0
    ensures |f.name| < NameCapacity
  {
    Create(DeviceName, Rdesc, |Rdesc|, BusUsb, VendorId, ProductId, 0, 0)
  }

  /**
   * The UHID_INPUT frame carrying state `s`: size 4, and a data buffer
   * the host decodes back to `s`, with nothing after the fourth byte.
   */
  function InputFrame(s: MouseState): (f: Frame)
    ensures f.Input? && f.size == ReportSize
    ensures |f.data| == InputDataMax && ZeroPadded(f.data)
    ensures ParseReport(f.data) == Some(s)
  {
    ReportLayout(s);
    ParseEncode(s);
    Input(ReportSize, EncodeReport(s))
  }

  /** The host sees distinct input frames for distinct states. */
  lemma InputFrameInjective(s: MouseState, t: MouseState)
    requires InputFrame(s) == InputFrame(t)
    ensures s == t
  {
    assert Some(s) == ParseReport(InputFrame(s).data) == Some(t);
  }

  /** The line `event` logs for a frame of type `t`. */
  datatype Notice = Notified(kind: EventType) | InvalidEvent(kind: EventType)

  /** The six notification kinds `event` names in its switch. */
  predicate IsNotification(t: EventType)
  {
    t in {UhidStart, UhidStop, UhidOpen, UhidClose, UhidOutput, UhidOutputEv}
  }

  /** Classifies a received frame type; every value, known or not, gets a notice. */
  function Classify(t: EventType): (n: Notice)
    ensures n.kind == t
    ensures n.Notified? <==> IsNotification(t)
  {
    match t
    case UhidStart => Notified(t)
    case UhidStop => Notified(t)
    case UhidOpen => Notified(t)
    case UhidClose => Notified(t)
    case UhidOutput => Notified(t)
    case UhidOutputEv => Notified(t)
    case _ => InvalidEvent(t)
  }
}
