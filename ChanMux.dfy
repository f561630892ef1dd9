/**
 * The ChanMux component: the singleton channel multiplexer and the intake
 * loop `run()` that drains the underlying channel's FIFO dataport into an
 * internal 2048-byte FIFO and hands the bytes, one by one and in order, to
 * the multiplexer engine.
 *
 * The engine (`ChanMux_ctor`, `ChanMux_takeByte`, `ChanMux_write`,
 * `ChanMux_read`), the `CharFifo` and `FifoDataport` libraries and the
 * producer on the other side of the dataport are not part of this model.
 * The two FIFOs are modelled by their contents; the engine's answers and
 * the producer's activity are parameters; the bytes handed to
 * `ChanMux_takeByte` are a ghost result.
 */
module ChanMux {
  import opened Wrappers
  import opened OsError
  import opened OsDataport

  /** `sizeof(fifo_buffer)`: the capacity of the internal FIFO. */
  const FifoBufferSize: nat := 2048

  /** The occupancy above which the loop stops draining and boosts processing: three quarters, rounded down to whole quarters. */
  function Watermark(capacity: nat): nat
  {
    (capacity / 4) * 3
  }

  /** A FIFO of positive capacity that is full is above its watermark, so the drain loop leaves on the watermark test. */
  lemma WatermarkBelowCapacity(capacity: nat)
    requires capacity > 0
    ensures Watermark(capacity) < capacity
    ensures Watermark(FifoBufferSize) == 1536
  {
    var q, r := capacity / 4, capacity % 4;
    assert capacity == 4 * q + r;
    assert Watermark(capacity) == 3 * q;
  }

  /** How many bytes one process phase hands over: `1 + boost`, or fewer when the FIFO runs empty. */
  function ProcessCount(boost: nat, size: nat): (n: nat)
    ensures n <= size && n <= 1 + boost
    ensures size > 0 ==> n > 0
    ensures n == size || n == 1 + boost
  {
    if 1 + boost < size then 1 + boost else size
  }

  /** The internal `CharFifo` over `fifo_buffer`: its contents, oldest first, and its capacity. */
  class CharFifo {
    const capacity: nat
    var items: seq<uint8>

    ghost predicate Valid()
      reads this
    {
      |items| <= capacity
    }

    /** `CharFifo_ctor` over a buffer of `capacity` bytes: an empty FIFO. */
    constructor (capacity: nat)
      ensures Valid() && this.capacity == capacity && items == []
    {
      this.capacity := capacity;
      items := [];
    }

    /** `CharFifo_isEmpty`. */
    function IsEmpty(): (b: bool)
      reads this
      ensures b <==> |items| == 0
    {
      items == []
    }

    /** `CharFifo_getSize`. */
    function Size(): nat
      reads this
    {
      |items|
    }

    /** `CharFifo_getFirst`: the oldest byte, or NULL when empty. */
    function First(): (c: Option<uint8>)
      reads this
      ensures c.None? <==> items == []
      ensures c.Some? ==> c.value == items[0]
    {
      if items == [] then None else Some(items[0])
    }

    /** `CharFifo_push`: append a byte, or refuse it when the FIFO is full. */
    method Push(c: uint8) returns (ok: bool)
      requires Valid()
      modifies this
      ensures Valid()
      ensures ok <==> |old(items)| < capacity
      ensures items == if ok then old(items) + [c] else old(items)
    {
      ok := |items| < capacity;
      if ok {
        items := items + [c];
      }
    }

    /** `CharFifo_pop`: drop the oldest byte. */
    method Pop()
      requires Valid() && items != []
      modifies this
      ensures Valid() && items == old(items)[1..]
    {
      items := items[1..];
    }
  }

  /**
   * What the producer does to the dataport FIFO while the loop waits: it
   * appends `data`, the ring wraps after `run` bytes of the first
   * contiguous run (clipped to what is possible), and `overflow` says
   * whether it raised the overflow flag.
   */
  datatype Event = Event(data: seq<uint8>, run: nat, overflow: bool)

  /** `x` clipped to `[lo, hi]`. */
  function Clip(x: nat, lo: nat, hi: nat): nat
  {
    if x < lo then lo else if x > hi then hi else x
  }

  /**
   * The length of the first contiguous run after `data` is appended to a
   * ring holding `pending`, whose first run is `first` bytes long. A ring
   * that has already wrapped keeps its first run; one that has not may
   * grow its first run by up to `|data|` bytes.
   */
  function RunAfterAppend(pending: seq<uint8>, first: nat, data: seq<uint8>, run: nat): (r: nat)
    requires first <= |pending| && (pending != [] ==> first > 0)
    ensures r <= |pending| + |data|
    ensures pending + data != [] ==> r > 0
    ensures first < |pending| ==> r == first
    ensures r >= first
  {
    if first < |pending| then first
    else if pending == [] && data != [] then Clip(run, 1, |data|)
    else Clip(run, |pending|, |pending| + |data|)
  }

  /**
   * The FIFO the underlying channel writes into the output dataport
   * `out`: the bytes it holds, oldest first, and the length of their first
   * contiguous run in the dataport's ring. The dataport's last byte is the
   * overflow flag.
   */
  class FifoPort {
    /** `OS_DATAPORT_ASSIGN(UnderlyingChan_outputFifoDataport)`. */
    const out: Dataport
    var pending: seq<uint8>
    var firstRun: nat

    ghost predicate Valid()
      reads this
    {
      && out.io.Some? && Assigned(out) && GetSize(out) >= 1
      && firstRun <= |pending| && (pending != [] ==> firstRun > 0)
    }

    /** An empty FIFO over `buf`. */
    constructor (buf: array<uint8>)
      requires buf.Length >= 1
      ensures Valid() && out == Assign(buf) && pending == []
    {
      out := Assign(buf);
      pending := [];
      firstRun := 0;
    }

    /** The dataport's buffer. */
    function Buf(): array<uint8>
      requires out.io.Some?
    {
      GetBuf(out)
    }

    /** `*isFifoOverflow`: the byte at `getBuf(out) + getSize(out) - 1`. */
    function OverflowFlag(): uint8
      reads this, Buf()
      requires Valid()
    {
      Buf()[GetSize(out) - 1]
    }

    /** `FifoDataport_isEmpty`. */
    function IsEmpty(): (b: bool)
      reads this
      ensures b <==> |pending| == 0
    {
      pending == []
    }

    /** `FifoDataport_getAmountConsecutives`: zero exactly when the FIFO is empty. */
    function Consecutives(): (n: nat)
      reads this
      requires Valid()
      ensures n <= |pending|
      ensures n == 0 <==> pending == []
    {
      firstRun
    }

    /** The bytes `FifoDataport_getFirst` points at: the first contiguous run. */
    function First(): (run: seq<uint8>)
      reads this
      requires Valid()
      ensures |run| == Consecutives() && run <= pending
    {
      pending[..firstRun]
    }

    /** `FifoDataport_remove`: drop the `n` oldest bytes of the first run; when the run is used up the rest of the ring is contiguous. */
    method Remove(n: nat)
      requires Valid() && n <= firstRun
      modifies this
      ensures Valid() && pending == old(pending)[n..]
      ensures firstRun == if n < old(firstRun) then old(firstRun) - n else |pending|
    {
      pending := pending[n..];
      firstRun := if n < firstRun then firstRun - n else |pending|;
    }

    /** The producer's side while the loop waits: append the event's bytes and raise the flag if it says so. */
    method Produce(e: Event)
      requires Valid()
      modifies this, Buf()
      ensures Valid() && pending == old(pending) + e.data
      ensures firstRun == RunAfterAppend(old(pending), old(firstRun), e.data, e.run)
      ensures OverflowFlag() == if e.overflow then 1 else old(OverflowFlag())
    {
      firstRun := RunAfterAppend(pending, firstRun, e.data, e.run);
      pending := pending + e.data;
      if e.overflow {
        Buf()[GetSize(out) - 1] := 1;
      }
    }
  }

  /** The do-while copy loop: push the bytes of `run` in order until one is refused or all `avail` are in. */
  method CopyConsecutive(fifo: CharFifo, run: seq<uint8>, avail: nat) returns (copied: nat)
    requires fifo.Valid() && 0 < avail <= |run|
    modifies fifo
    ensures fifo.Valid()
    ensures copied <= avail
    ensures copied == if avail <= fifo.capacity - |old(fifo.items)| then avail else fifo.capacity - |old(fifo.items)|
    ensures fifo.items == old(fifo.items) + run[..copied]
    ensures copied < avail ==> |fifo.items| == fifo.capacity
  {
    copied := 0;
    while true
      invariant fifo.Valid() && copied < avail
      invariant fifo.items == old(fifo.items) + run[..copied]
      decreases avail - copied
    {
      var ok := fifo.Push(run[copied]);
      if !ok {
        break;
      }
      assert run[..copied + 1] == run[..copied] + [run[copied]];
      copied := copied + 1;
      if copied >= avail {
        break;
      }
    }
  }

  /** Where a drain phase leaves the internal FIFO, the dataport FIFO (its bytes and first run) and the boost. */
  datatype DrainResult = DrainResult(items: seq<uint8>, pending: seq<uint8>, first: nat, boost: nat)

  /**
   * The drain phase as a reference definition: while the dataport FIFO has
   * a first run, copy as much of it as fits, remove what was copied, and
   * stop with a boost of the excess as soon as the internal FIFO of
   * `capacity` is above its watermark; stop with boost 0 once the dataport
   * FIFO is empty.
   */
  /**
   * One pass of the drain loop's body: copy as much of the first run as
   * fits into the internal FIFO of `capacity` and remove that much from the
   * dataport FIFO; a run used up leaves the rest of the ring contiguous.
   */
  function DrainPass(capacity: nat, items: seq<uint8>, pending: seq<uint8>, first: nat): (r: DrainResult)
    requires 0 < capacity && |items| <= capacity && 0 < first <= |pending|
    ensures r.items + r.pending == items + pending
    ensures items <= r.items && |r.items| <= capacity && r.items != []
    ensures r.first <= |r.pending| && (r.pending != [] ==> r.first > 0) && r.boost == 0
    ensures |r.pending| < |pending| || |r.items| == capacity
  {
    var copied := if first <= capacity - |items| then first else capacity - |items|;
    assert pending == pending[..copied] + pending[copied..];
    var pending2 := pending[copied..];
    DrainResult(items + pending[..copied], pending2, if copied < first then first - copied else |pending2|, 0)
  }

  /**
   * The drain phase as a reference definition: while the dataport FIFO has
   * a first run, make a pass, and stop with a boost of the excess as soon
   * as the internal FIFO of `capacity` is above its watermark; stop with
   * boost 0 once the dataport FIFO is empty.
   */
  function Drained(capacity: nat, items: seq<uint8>, pending: seq<uint8>, first: nat): (r: DrainResult)
    requires 0 < capacity && |items| <= capacity
    requires first <= |pending| && (pending != [] ==> first > 0)
    ensures r.items + r.pending == items + pending
    ensures items <= r.items && |r.items| <= capacity
    ensures r.first <= |r.pending| && (r.pending != [] ==> r.first > 0)
    ensures r.boost == 0 ==> r.pending == [] && r.first == 0 && (|r.items| <= Watermark(capacity) || r.items == items)
    ensures r.boost > 0 ==> r.boost == |r.items| - Watermark(capacity)
    ensures pending != [] ==> r.items != []
    decreases |pending|
  {
    if first == 0 then DrainResult(items, pending, 0, 0)
    else
      var p := DrainPass(capacity, items, pending, first);
      WatermarkBelowCapacity(capacity);
      if |p.items| > Watermark(capacity) then p.(boost := |p.items| - Watermark(capacity))
      else Drained(capacity, p.items, p.pending, p.first)
  }

  /** One pass of the drain loop: copy `copied` bytes of the first run, remove them, and stop or go on as `Drained` does. */
  lemma DrainedStep(capacity: nat, items: seq<uint8>, pending: seq<uint8>, first: nat, copied: nat,
                    items2: seq<uint8>, pending2: seq<uint8>, first2: nat)
    requires 0 < capacity && |items| <= capacity
    requires 0 < first <= |pending|
    requires copied == if first <= capacity - |items| then first else capacity - |items|
    requires items2 == items + pending[..first][..copied] && pending2 == pending[copied..]
    requires first2 == if copied < first then first - copied else |pending2|
    ensures |items2| <= capacity && first2 <= |pending2| && (pending2 != [] ==> first2 > 0)
    ensures |items2| > Watermark(capacity) ==>
      Drained(capacity, items, pending, first) == DrainResult(items2, pending2, first2, |items2| - Watermark(capacity))
    ensures |items2| <= Watermark(capacity) ==>
      Drained(capacity, items, pending, first) == Drained(capacity, items2, pending2, first2)
    ensures items2 + pending2 == items + pending
  {
    assert pending[..first][..copied] == pending[..copied];
    assert DrainPass(capacity, items, pending, first) == DrainResult(items2, pending2, first2, 0);
  }

  /**
   * Draining stops at the first run that lifts the internal FIFO above its
   * watermark: with capacity 8 (watermark 6) and 9 pending bytes whose first
   * run is 7 long, the 7 bytes are copied, the boost is 1, 2 bytes stay
   * pending, and the process phase then hands over 2 bytes.
   */
  lemma DrainStopsAboveWatermark(data: seq<uint8>)
    requires |data| == 9
    ensures Drained(8, [], data, 7) == DrainResult(data[..7], data[7..], 2, 1)
    ensures ProcessCount(1, 7) == 2
  {
    assert DrainPass(8, [], data, 7) == DrainResult(data[..7], data[7..], 2, 0);
  }

  /**
   * The drain loop: move the dataport FIFO's first run into the internal
   * FIFO, again and again, until the dataport FIFO is empty (boost 0) or
   * the internal FIFO is above its watermark (boost = the excess).
   */
  method Drain(fifo: CharFifo, port: FifoPort) returns (boost: nat)
    requires fifo.Valid() && port.Valid() && fifo.capacity > 0
    modifies fifo, port
    ensures fifo.Valid() && port.Valid()
    ensures DrainResult(fifo.items, port.pending, port.firstRun, boost)
         == Drained(fifo.capacity, old(fifo.items), old(port.pending), old(port.firstRun))
    ensures fifo.items + port.pending == old(fifo.items) + old(port.pending)
    ensures old(fifo.items) <= fifo.items
    ensures old(port.pending) != [] ==> fifo.items != []
    ensures boost == 0 ==> port.pending == [] && (|fifo.items| <= Watermark(fifo.capacity) || fifo.items == old(fifo.items))
    ensures boost > 0 ==> boost == |fifo.items| - Watermark(fifo.capacity)
  {
    ghost var goal := Drained(fifo.capacity, fifo.items, port.pending, port.firstRun);
    boost := 0;
    while true
      invariant fifo.Valid() && port.Valid()
      invariant Drained(fifo.capacity, fifo.items, port.pending, port.firstRun) == goal
      decreases |port.pending|
    {
      var avail := port.Consecutives();
      if avail == 0 {
        break;
      }
      var run := port.First();
      ghost var items, pending := fifo.items, port.pending;
      var copied := CopyConsecutive(fifo, run, avail);
      port.Remove(copied);
      var watermark := Watermark(fifo.capacity);
      var used := fifo.Size();
      DrainedStep(fifo.capacity, items, pending, avail, copied, fifo.items, port.pending, port.firstRun);
      if used > watermark {
        boost := used - watermark;
        break;
      }
    }
  }

  /**
   * The process phase: hand the oldest byte to `ChanMux_takeByte` and pop
   * it, `1 + boost` times or until the FIFO is empty. The handed bytes are
   * returned, in order.
   */
  method Process(fifo: CharFifo, boost: nat) returns (ghost handed: seq<uint8>)
    requires fifo.Valid()
    modifies fifo
    ensures fifo.Valid()
    ensures var n := ProcessCount(boost, |old(fifo.items)|);
      handed == old(fifo.items)[..n] && fifo.items == old(fifo.items)[n..]
  {
    handed := [];
    var left: nat := boost;
    ghost var n: nat := 0;
    while true
      invariant fifo.Valid() && n <= |old(fifo.items)|
      invariant n == boost - left && left <= boost
      invariant handed == old(fifo.items)[..n] && fifo.items == old(fifo.items)[n..]
      decreases left
    {
      var c := fifo.First();
      if c.None? {
        break;
      }
      handed := handed + [c.value];
      fifo.Pop();
      assert old(fifo.items)[..n + 1] == old(fifo.items)[..n] + [old(fifo.items)[n]];
      n := n + 1;
      if left == 0 {
        break;
      }
      left := left - 1;
    }
  }

  /** The engine's static storage `theOne`: `ChanMux_ctor` sets it up for a lower channel. */
  class Engine {
    /** Whether the last `ChanMux_ctor` on it succeeded. */
    var constructed: bool
    /** The lower channel's dataport it was set up with. */
    var lower: Dataport

    /** Zero-initialised static storage. */
    constructor ()
      ensures !constructed && lower == NoDataport
    {
      constructed := false;
      lower := NoDataport;
    }

    /** `ChanMux_ctor(&theOne, &cfgChanMux, &cfgChanMux_lower)`, whose outcome is `ok`. */
    method Construct(lowerPort: Dataport, ok: bool)
      modifies this
      ensures constructed == ok && lower == lowerPort
    {
      constructed := ok;
      lower := lowerPort;
    }
  }

  /** A call the RPC forwarders make into the engine: the instance (None for NULL), the sender, the channel and the length. */
  datatype MuxCall =
    | MuxWrite(mux: Option<Engine>, sender: nat, chanNum: nat, len: nat)
    | MuxRead(mux: Option<Engine>, sender: nat, chanNum: nat, len: nat)

  /** The component's static state: the singleton pointer `self` and the storage `theOne` it points at once set. */
  class Component {
    /** `OS_DATAPORT_ASSIGN(UnderlyingChan_inputDataport)`, the lower channel's port in `cfgChanMux_lower`. */
    const input: Dataport
    const theOne: Engine
    var self: Option<Engine>
    /** How often `ChanMux_ctor` has been called. */
    ghost var ctorCalls: nat

    ghost predicate Valid()
      reads this, theOne
    {
      self.Some? ==> self.value == theOne && theOne.constructed && theOne.lower == input
    }

    /** The state at program start: `self == NULL`. */
    constructor (inputBuf: array<uint8>)
      ensures Valid() && self.None? && ctorCalls == 0 && input == Assign(inputBuf)
      ensures fresh(theOne) && !theOne.constructed
    {
      input := Assign(inputBuf);
      theOne := new Engine();
      self := None;
      ctorCalls := 0;
    }

    /**
     * `get_instance_ChanMux`: construct `theOne` while `self` is NULL (a
     * failing constructor leaves it NULL, so the next call tries again),
     * and afterwards return the same instance without constructing again.
     */
    method GetInstance(ctorOk: bool) returns (r: Option<Engine>)
      requires Valid()
      modifies this, theOne
      ensures Valid() && r == self
      ensures self == if old(self).Some? || ctorOk then Some(theOne) else None
      ensures ctorCalls == old(ctorCalls) + if old(self).None? then 1 else 0
      ensures old(self).Some? ==> unchanged(theOne)
    {
      if self.None? {
        theOne.Construct(input, ctorOk);
        ctorCalls := ctorCalls + 1;
        if !ctorOk {
          return None;
        }
        self := Some(theOne);
      }
      return self;
    }

    /** `pre_init`: make sure the instance is set up. */
    method PreInit(ctorOk: bool)
      requires Valid() && self.None? && ctorCalls == 0
      modifies this, theOne
      ensures Valid() && ctorCalls == 1
      ensures self == if ctorOk then Some(theOne) else None
    {
      var _ := GetInstance(ctorOk);
    }

    /** `ChanMuxRpc_write`: forward to `ChanMux_write` on the singleton, whose answer is `answer`. */
    method RpcWrite(sender: nat, chanNum: nat, len: nat, ctorOk: bool, answer: (OsError, nat))
      returns (err: OsError, lenWritten: nat, ghost call: MuxCall)
      requires Valid()
      modifies this, theOne
      ensures Valid() && self == if old(self).Some? || ctorOk then Some(theOne) else None
      ensures ctorCalls == old(ctorCalls) + if old(self).None? then 1 else 0
      ensures call == MuxWrite(self, sender, chanNum, len)
      ensures err == answer.0 && lenWritten == answer.1
    {
      var mux := GetInstance(ctorOk);
      call := MuxWrite(mux, sender, chanNum, len);
      err, lenWritten := answer.0, answer.1;
    }

    /** `ChanMuxRpc_read`: forward to `ChanMux_read` on the singleton, whose answer is `answer`. */
    method RpcRead(sender: nat, chanNum: nat, len: nat, ctorOk: bool, answer: (OsError, nat))
      returns (err: OsError, lenRead: nat, ghost call: MuxCall)
      requires Valid()
      modifies this, theOne
      ensures Valid() && self == if old(self).Some? || ctorOk then Some(theOne) else None
      ensures ctorCalls == old(ctorCalls) + if old(self).None? then 1 else 0
      ensures call == MuxRead(self, sender, chanNum, len)
      ensures err == answer.0 && lenRead == answer.1
    {
      var mux := GetInstance(ctorOk);
      call := MuxRead(mux, sender, chanNum, len);
      err, lenRead := answer.0, answer.1;
    }
  }

  /** The bytes a sequence of producer events appends, in order. */
  function Arrivals(events: seq<Event>): seq<uint8>
  {
    if events == [] then [] else Arrivals(events[..|events| - 1]) + events[|events| - 1].data
  }

  lemma ArrivalsStep(events: seq<Event>, i: nat)
    requires i < |events|
    ensures Arrivals(events[..i + 1]) == Arrivals(events[..i]) + events[i].data
  {
    assert events[..i + 1][..i] == events[..i];
  }

  /** The waiting loop's bookkeeping across a wait: the event's bytes join the (empty) FIFOs. */
  lemma ArrivalKept(handed: seq<uint8>, start: seq<uint8>, events: seq<Event>, i: nat)
    requires i < |events| && handed == start + Arrivals(events[..i])
    ensures handed + ([] + events[i].data) == start + Arrivals(events[..i + 1])
  {
    ArrivalsStep(events, i);
  }

  /** The waiting loop's bookkeeping across one drain and process: what is handed over leaves the FIFOs' front. */
  lemma HandOverKept(handed: seq<uint8>, now: seq<uint8>, rest: seq<uint8>, held: seq<uint8>)
    requires now + rest == held
    ensures (handed + now) + rest == handed + held
  {
  }

  /**
   * `UnderlyingChan_EventHasData_wait`: the loop reaches it only with both
   * FIFOs empty and the overflow flag clear; while it blocks, the producer
   * does what `e` says.
   */
  method WaitForData(fifo: CharFifo, port: FifoPort, e: Event)
    requires fifo.Valid() && port.Valid()
    requires fifo.items == [] && port.pending == [] && port.OverflowFlag() == 0
    modifies port, port.Buf()
    ensures port.Valid() && port.pending == e.data
    ensures port.OverflowFlag() != 0 <==> e.overflow
  {
    port.Produce(e);
  }

  /** How `run()` ends: it returns `code`, or it blocks in the event wait with nothing more to come. */
  datatype Stop = Exited(code: int) | Blocked

  /** The bookkeeping of one iteration: the process phase takes its bytes from the front of the drained FIFO. */
  lemma ProcessKept(held: seq<uint8>, drained: seq<uint8>, pending: seq<uint8>, now: seq<uint8>, rest: seq<uint8>)
    requires drained + pending == held
    requires |now| <= |drained| && now == drained[..|now|] && rest == drained[|now|..]
    ensures now + (rest + pending) == held
  {
    assert drained == now + rest;
  }

  /**
   * One drain phase followed by one process phase. The handed bytes, then
   * the internal FIFO, then the dataport FIFO spell what the two FIFOs held
   * before; when they held anything, at least one byte is handed over.
   */
  method Iterate(fifo: CharFifo, port: FifoPort) returns (ghost now: seq<uint8>)
    requires fifo.Valid() && port.Valid() && fifo.capacity > 0
    modifies fifo, port
    ensures fifo.Valid() && port.Valid()
    ensures now + (fifo.items + port.pending) == old(fifo.items) + old(port.pending)
    ensures old(fifo.items) + old(port.pending) != [] ==> now != []
  {
    ghost var held := fifo.items + port.pending;
    var boost := Drain(fifo, port);
    ghost var drained, pending := fifo.items, port.pending;
    now := Process(fifo, boost);
    ProcessKept(held, drained, pending, now, fifo.items);
  }

  /**
   * The `for (;;)` loop of `run()` over the internal FIFO `fifo`. Every
   * byte that arrives is handed over exactly once and in arrival order: at
   * every step the handed bytes, then the internal FIFO, then the dataport
   * FIFO spell what arrived. The loop ends only with both FIFOs empty and
   * every byte handed over: with -1 if the overflow flag is set, blocked
   * in the wait otherwise.
   */
  method Serve(fifo: CharFifo, port: FifoPort, events: seq<Event>)
    returns (r: Stop, ghost handed: seq<uint8>, consumed: nat)
    requires fifo.Valid() && fifo.capacity > 0 && port.Valid()
    modifies fifo, port, port.Buf()
    ensures fifo.Valid() && port.Valid() && fifo.items == [] && port.pending == []
    ensures consumed <= |events|
    ensures handed == old(fifo.items) + old(port.pending) + Arrivals(events[..consumed])
    ensures || (r == Exited(-1) && port.OverflowFlag() != 0)
            || (r == Blocked && port.OverflowFlag() == 0 && consumed == |events|)
    ensures old(port.OverflowFlag()) != 0 ==> r == Exited(-1) && consumed == 0
    ensures forall i :: 0 <= i && i + 1 < consumed ==> !events[i].overflow
    ensures r == Exited(-1) <==> (old(port.OverflowFlag()) != 0 || exists i :: 0 <= i < consumed && events[i].overflow)
  {
    ghost var start := old(fifo.items) + old(port.pending);
    ghost var flag0 := port.OverflowFlag();
    handed, consumed := [], 0;
    assert events[..0] == [];
    while true
      invariant fifo.Valid() && port.Valid()
      invariant consumed <= |events|
      invariant handed + (fifo.items + port.pending) == start + Arrivals(events[..consumed])
      invariant flag0 != 0 ==> consumed == 0 && port.OverflowFlag() != 0
      invariant forall i :: 0 <= i && i + 1 < consumed ==> !events[i].overflow
      invariant port.OverflowFlag() != 0 <==> (flag0 != 0 || exists i :: 0 <= i < consumed && events[i].overflow)
      decreases |events| - consumed, |fifo.items| + |port.pending|
    {
      if fifo.IsEmpty() && port.IsEmpty() {
        if port.OverflowFlag() != 0 {
          return Exited(-1), handed, consumed;
        }
        if consumed == |events| {
          return Blocked, handed, consumed;
        }
        assert handed == start + Arrivals(events[..consumed]) by {
          assert fifo.items + port.pending == [];
        }
        WaitForData(fifo, port, events[consumed]);
        ArrivalKept(handed, start, events, consumed);
        consumed := consumed + 1;
      }
      ghost var h, held := handed, fifo.items + port.pending;
      ghost var now := Iterate(fifo, port);
      handed := handed + now;
      HandOverKept(h, now, fifo.items + port.pending, held);
    }
  }

  /**
   * `run()`. `fifoCtorOk` and `muxCtorOk` are the outcomes of `CharFifo_ctor`
   * and `ChanMux_ctor`; `events` is what the producer does at each wait, in
   * order. Returned are how it ends, the bytes handed to
   * `ChanMux_takeByte` and how many events were used.
   */
  method Run(comp: Component, port: FifoPort, fifoCtorOk: bool, muxCtorOk: bool, events: seq<Event>)
    returns (r: Stop, ghost handed: seq<uint8>, consumed: nat)
    requires comp.Valid() && port.Valid()
    modifies comp, comp.theOne, port, port.Buf()
    ensures !fifoCtorOk ==> r == Exited(-1) && handed == [] && consumed == 0
    ensures !fifoCtorOk ==> unchanged(comp, comp.theOne, port, port.Buf())
    ensures fifoCtorOk ==> comp.Valid() && comp.self == if old(comp.self).Some? || muxCtorOk then Some(comp.theOne) else None
    ensures fifoCtorOk ==> consumed <= |events| && port.Valid() && port.pending == []
    ensures fifoCtorOk ==> handed == old(port.pending) + Arrivals(events[..consumed])
    ensures fifoCtorOk ==>
      || (r == Exited(-1) && port.OverflowFlag() != 0)
      || (r == Blocked && port.OverflowFlag() == 0 && consumed == |events|)
    ensures fifoCtorOk && old(port.OverflowFlag()) != 0 ==> r == Exited(-1) && consumed == 0
    ensures fifoCtorOk ==> forall i :: 0 <= i && i + 1 < consumed ==> !events[i].overflow
    ensures fifoCtorOk ==>
      (r == Exited(-1) <==> (old(port.OverflowFlag()) != 0 || exists i :: 0 <= i < consumed && events[i].overflow))
  {
    if !fifoCtorOk {
      return Exited(-1), [], 0;
    }
    var fifo := new CharFifo(FifoBufferSize);
    var chanMux := comp.GetInstance(muxCtorOk);
    r, handed, consumed := Serve(fifo, port, events);
  }
}
