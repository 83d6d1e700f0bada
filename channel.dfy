/**
 * The UHID character device as the driver sees it through its file
 * descriptor. The kernel side is an oracle: the outcome of the k-th
 * write and of the k-th read are fixed in advance, and the device keeps
 * a log of every frame handed to write(2).
 */
module Channel {
  import opened Basics
  import opened Protocol

  /** Linux error numbers the driver returns by name. */
  const EFAULT: int := 14
  const ECANCELED: int := 125

  /** What write(2) did: moved `count` bytes, or failed and set errno. */
  datatype WriteOutcome = Wrote(count: nat) | WriteFailed(errno: Errno)

  /** What read(2) did: moved `count` bytes of a frame whose type field is `kind`, or failed. */
  datatype ReadOutcome = ReadFrame(count: nat, kind: EventType) | ReadFailed(errno: Errno)

  /**
   * The value `uhid_write` returns for a write of a `frameSize`-byte frame:
   * zero only for a transfer of exactly one whole frame, minus errno on a
   * failed call, minus EFAULT for any shorter or longer transfer.
   */
  function WriteStatus(o: WriteOutcome, frameSize: nat): (r: int)
    ensures r == 0 <==> o == Wrote(frameSize)
    ensures r <= 0
    ensures o.WriteFailed? ==> r == -(o.errno as int)
    ensures o.Wrote? && o.count != frameSize ==> r == -EFAULT
  {
    match o
    case WriteFailed(e) => -(e as int)
    case Wrote(n) => if n != frameSize then -EFAULT else 0
  }

  /**
   * The value `event` returns for a read into a `frameSize`-byte frame:
   * minus EFAULT on end of file or a partial frame, minus errno on a failed
   * call, and zero for a whole frame whatever its type.
   */
  function EventStatus(o: ReadOutcome, frameSize: nat): (r: int)
    ensures r == 0 <==> o.ReadFrame? && o.count == frameSize && o.count != 0
    ensures r <= 0
    ensures o.ReadFailed? ==> r == -(o.errno as int)
    ensures o.ReadFrame? && (o.count == 0 || o.count != frameSize) ==> r == -EFAULT
  {
    match o
    case ReadFrame(n, _) =>
      if n == 0 then -EFAULT
      else if n != frameSize then -EFAULT
      else 0
    case ReadFailed(e) => -(e as int)
  }

  /** The notice `event` logs, present exactly when it reached its switch. */
  function EventNotice(o: ReadOutcome, frameSize: nat): (n: Option<Notice>)
    ensures n.Some? <==> EventStatus(o, frameSize) == 0
    ensures n.Some? ==> n.value == Classify(o.kind)
  {
    if EventStatus(o, frameSize) == 0 then Some(Classify(o.kind)) else None
  }

  /** The file descriptor of /dev/uhid and the kernel behind it. */
  class UhidDevice {
    /** sizeof(struct uhid_event); its layout comes from a header this model does not include. */
    const frameSize: nat
    /** Outcome of the k-th write(2) on this descriptor. */
    const writeOutcome: nat -> WriteOutcome
    /** Outcome of the k-th read(2) on this descriptor. */
    const readOutcome: nat -> ReadOutcome

    /** Every frame handed to write(2), in order. */
    var written: seq<Frame>
    /** Number of read(2) calls made so far. */
    var readCount: nat
    var closed: bool

    /** The descriptor right after a successful open(2). */
    constructor (frameSize: nat, writeOutcome: nat -> WriteOutcome, readOutcome: nat -> ReadOutcome)
      ensures this.frameSize == frameSize
      ensures this.writeOutcome == writeOutcome && this.readOutcome == readOutcome
      ensures written == [] && readCount == 0 && !closed
    {
      this.frameSize := frameSize;
      this.writeOutcome := writeOutcome;
      this.readOutcome := readOutcome;
      written := [];
      readCount := 0;
      closed := false;
    }

    /** `uhid_write`: one write(2) of one frame, never retried. */
    method Write(ev: Frame) returns (ret: int)
      modifies this
      ensures written == old(written) + [ev]
      ensures readCount == old(readCount) && closed == old(closed)
      ensures ret == WriteStatus(writeOutcome(|old(written)|), frameSize)
    {
      var o := writeOutcome(|written|);
      written := written + [ev];
      match o
      case WriteFailed(e) =>
        ret := -(e as int);
      case Wrote(n) =>
        if n != frameSize {
          ret := -EFAULT;
        } else {
          ret := 0;
        }
    }

    /** `create`: writes the one UHID_CREATE request of the session. */
    method CreateDevice() returns (ret: int)
      modifies this
      ensures written == old(written) + [CreateFrame()]
      ensures readCount == old(readCount) && closed == old(closed)
      ensures ret == WriteStatus(writeOutcome(|old(written)|), frameSize)
    {
      ret := Write(CreateFrame());
    }

    /** `destroy`: writes UHID_DESTROY and ignores how the write went. */
    method DestroyDevice()
      modifies this
      ensures written == old(written) + [Destroy]
      ensures readCount == old(readCount) && closed == old(closed)
    {
      var _ := Write(Destroy);
    }

    /** `event`: one read(2) of one frame; any whole frame is accepted. */
    method Event() returns (ret: int, notice: Option<Notice>)
      modifies this
      ensures readCount == old(readCount) + 1
      ensures written == old(written) && closed == old(closed)
      ensures ret == EventStatus(readOutcome(old(readCount)), frameSize)
      ensures notice == EventNotice(readOutcome(old(readCount)), frameSize)
    {
      var o := readOutcome(readCount);
      readCount := readCount + 1;
      notice := None;
      match o
      case ReadFrame(n, kind) =>
        if n == 0 {
          ret := -EFAULT;
        } else if n != frameSize {
          ret := -EFAULT;
        } else {
          notice := Some(Classify(kind));
          ret := 0;
        }
      case ReadFailed(e) =>
        ret := -(e as int);
    }

    /** close(2). */
    method Close()
      modifies this
      ensures closed
      ensures written == old(written) && readCount == old(readCount)
    {
      closed := true;
    }
  }
}
