/**
 The asynchronous file reader: `src/hostbuf-file-reader.c`.  Three host windows are filled
 from a file in turn; copies from them to the device run behind, in the order of each
 stream, and may advance at any moment.
 */
module FileReader {
  import opened Basics

  type Byte = bv8

  const SLOTS: nat := 3
  const WINDOW: nat := 67108864
  const LEAD_IN_THRESHOLD: nat := WINDOW - 16777216

  /** An event covers what was issued to its stream before it. */
  datatype Event = Event(stream: nat, ticket: nat)

  datatype Slot = Slot(pinned: bool, buffer: seq<Byte>, offset: nat, stream: nat, event: Option<Event>)

  /**
   One byte of a copy that was issued and has not happened yet.  `value` is the byte that
   stood in the window when the copy was issued.
   */
  datatype Copy = Copy(ticket: nat, stream: nat, slot: nat, pos: nat, dst: nat, value: Byte)

  // ---------------------------------------------------------------- copies in flight

  /** Streams are first in, first out. */
  ghost predicate Ready(inflight: set<Copy>, c: Copy) {
    c in inflight && forall d | d in inflight && d.stream == c.stream :: c.ticket <= d.ticket
  }

  ghost predicate Latest(inflight: set<Copy>, c: Copy) {
    c in inflight && forall d | d in inflight && d.dst == c.dst :: d.ticket <= c.ticket
  }

  ghost predicate OneStream(inflight: set<Copy>, dst: nat, stream: nat) {
    forall c | c in inflight && c.dst == dst :: c.stream == stream
  }

  /** Device byte `dst` is `v`, or will be once the copies in flight have happened. */
  ghost predicate Arrives(inflight: set<Copy>, device: nat -> Byte, dst: nat, v: Byte) {
    && (forall c | Latest(inflight, c) && c.dst == dst :: c.value == v)
    && (forall c, d | c in inflight && d in inflight && c.dst == dst && d.dst == dst :: c.stream == d.stream)
    && ((forall c | c in inflight :: c.dst != dst) ==> device(dst) == v)
  }

  /** Whatever was to arrive still is. */
  ghost predicate Keeps(inflight: set<Copy>, device: nat -> Byte, inflight': set<Copy>, device': nat -> Byte) {
    && inflight' <= inflight
    && forall dst, v | Arrives(inflight, device, dst, v) :: Arrives(inflight', device', dst, v)
  }

  lemma {:induction false} ExecuteKeeps(inflight: set<Copy>, device: nat -> Byte, c: Copy, device': nat -> Byte)
    requires Ready(inflight, c)
    requires device'(c.dst) == c.value && forall x: nat | x != c.dst :: device'(x) == device(x)
    ensures Keeps(inflight, device, inflight - {c}, device')
  {
    var rest := inflight - {c};
    forall dst, v | Arrives(inflight, device, dst, v)
      ensures Arrives(rest, device', dst, v)
    {
      forall d | Latest(rest, d) && d.dst == dst
        ensures d.value == v
      {
        assert Latest(inflight, d);
      }
      if c.dst == dst && forall d | d in rest :: d.dst != dst {
        assert Latest(inflight, c);
      }
    }
  }

  lemma {:induction false} KeepsTransitive(i1: set<Copy>, d1: nat -> Byte, i2: set<Copy>, d2: nat -> Byte,
                                           i3: set<Copy>, d3: nat -> Byte)
    requires Keeps(i1, d1, i2, d2) && Keeps(i2, d2, i3, d3)
    ensures Keeps(i1, d1, i3, d3)
  {
  }

  /** The first of a stream's copies. */
  lemma {:induction false} FirstOf(inflight: set<Copy>, c: Copy) returns (first: Copy)
    requires c in inflight
    ensures Ready(inflight, first) && first.stream == c.stream && first.ticket <= c.ticket
    decreases |inflight|
  {
    if d :| d in inflight && d.stream == c.stream && d.ticket < c.ticket {
      var rest := inflight - {c};
      first := FirstOf(rest, d);
    } else {
      first := c;
    }
  }

  ghost function Issued(ticket: nat, stream: nat, slot: nat, pos: nat, dst: nat, bytes: seq<Byte>): set<Copy> {
    set k | 0 <= k < |bytes| :: Copy(ticket, stream, slot, pos + k, dst + k, bytes[k])
  }

  /** A copy just issued is the last word on the bytes it goes to. */
  lemma {:induction false} IssuedArrives(inflight: set<Copy>, device: nat -> Byte, ticket: nat, stream: nat, slot: nat,
                                         pos: nat, dst: nat, bytes: seq<Byte>, k: nat)
    requires k < |bytes| && OneStream(inflight, dst + k, stream) && forall c | c in inflight :: c.ticket < ticket
    ensures Arrives(inflight + Issued(ticket, stream, slot, pos, dst, bytes), device, dst + k, bytes[k])
  {
    var issued := Issued(ticket, stream, slot, pos, dst, bytes);
    var mine := Copy(ticket, stream, slot, pos + k, dst + k, bytes[k]);
    assert mine in issued;
    forall c | Latest(inflight + issued, c) && c.dst == dst + k
      ensures c.value == bytes[k]
    {
      assert mine.ticket <= c.ticket;
      assert c in issued;
    }
  }

  lemma {:induction false} IssuedElsewhere(inflight: set<Copy>, device: nat -> Byte, ticket: nat, stream: nat,
                                           slot: nat, pos: nat, dst: nat, bytes: seq<Byte>, x: nat, v: Byte)
    requires (x < dst || dst + |bytes| <= x) && Arrives(inflight, device, x, v)
    ensures Arrives(inflight + Issued(ticket, stream, slot, pos, dst, bytes), device, x, v)
  {
    var issued := Issued(ticket, stream, slot, pos, dst, bytes);
    forall c | Latest(inflight + issued, c) && c.dst == x
      ensures c.value == v
    {
      assert Latest(inflight, c);
    }
  }

  // ---------------------------------------------------------------- windows

  /** The copy reads what it was issued for, and an event or the active window vouches for it. */
  ghost predicate CopyOk(c: Copy, slots: seq<Slot>, active: int, tickets: nat) {
    && c.ticket < tickets && c.slot < |slots|
    && var slot := slots[c.slot];
       && slot.pinned && c.pos < |slot.buffer| && slot.buffer[c.pos] == c.value
       && if c.slot == active then c.pos < slot.offset && c.stream == slot.stream
          else slot.event.Some? && slot.event.value.stream == c.stream && c.ticket < slot.event.value.ticket
  }

  predicate SlotOk(slot: Slot) {
    slot.offset <= WINDOW && (slot.pinned ==> |slot.buffer| == WINDOW) && (!slot.pinned ==> slot.event == None)
  }

  ghost predicate SlotsOk(slots: seq<Slot>, active: int) {
    && |slots| == SLOTS && -1 <= active < SLOTS
    && (forall s | 0 <= s < SLOTS :: SlotOk(slots[s]))
    && (active >= 0 ==> slots[active].event == None && slots[active].pinned)
  }

  ghost predicate CopiesOk(inflight: set<Copy>, slots: seq<Slot>, active: int, tickets: nat) {
    forall c | c in inflight :: CopyOk(c, slots, active, tickets)
  }

  /** Where the next bytes go, or that a fresh window is due. */
  predicate NeedsWindow(slots: seq<Slot>, active: int, stream: nat, size: nat)
    requires -1 <= active < |slots|
  {
    active < 0 || slots[active].stream != stream
    || (slots[active].offset + size >= WINDOW && slots[active].offset >= LEAD_IN_THRESHOLD)
  }

  function Slice(file: nat -> Byte, offset: nat, len: nat): (bytes: seq<Byte>)
    ensures |bytes| == len && forall k | 0 <= k < len :: bytes[k] == file(offset + k)
  {
    seq(len, k requires 0 <= k < len => file(offset + k))
  }

  ghost predicate ByteArrives(inflight: set<Copy>, device: nat -> Byte, dst: nat, file: nat -> Byte, offset: nat,
                              k: nat)
  {
    Arrives(inflight, device, dst + k, file(offset + k))
  }

  /** The device range from `dst` holds the file range, or will. */
  ghost predicate Delivers(inflight: set<Copy>, device: nat -> Byte, dst: nat, file: nat -> Byte, offset: nat,
                           len: nat)
  {
    forall k: nat | k < len :: ByteArrives(inflight, device, dst, file, offset, k)
  }

  /** Only `stream` is writing to the device range. */
  ghost predicate RangeOn(inflight: set<Copy>, dst: nat, len: nat, stream: nat) {
    forall c | c in inflight && dst <= c.dst < dst + len :: c.stream == stream
  }

  lemma {:induction false} DeliversStill(inflight: set<Copy>, device: nat -> Byte, inflight': set<Copy>,
                                         device': nat -> Byte, dst: nat, file: nat -> Byte, offset: nat, len: nat)
    requires Delivers(inflight, device, dst, file, offset, len) && Keeps(inflight, device, inflight', device')
    ensures Delivers(inflight', device', dst, file, offset, len)
  {
    hide Arrives;
    forall k: nat | k < len
      ensures ByteArrives(inflight', device', dst, file, offset, k)
    {
      assert ByteArrives(inflight, device, dst, file, offset, k);
    }
  }

  lemma {:induction false} ByteMore(inflight: set<Copy>, device: nat -> Byte, ticket: nat, stream: nat, slot: nat,
                                    pos: nat, dst: nat, file: nat -> Byte, offset: nat, done: nat, len: nat, k: nat)
    requires Delivers(inflight, device, dst, file, offset, done) && RangeOn(inflight, dst + done, len, stream)
    requires (forall c | c in inflight :: c.ticket < ticket) && k < done + len
    ensures ByteArrives(inflight + Issued(ticket, stream, slot, pos, dst + done, Slice(file, offset + done, len)),
                        device, dst, file, offset, k)
  {
    hide Arrives, Issued;
    var bytes := Slice(file, offset + done, len);
    if k < done {
      assert ByteArrives(inflight, device, dst, file, offset, k);
      IssuedElsewhere(inflight, device, ticket, stream, slot, pos, dst + done, bytes, dst + k, file(offset + k));
    } else {
      var i := k - done;
      assert dst + done + i == dst + k && offset + done + i == offset + k;
      IssuedArrives(inflight, device, ticket, stream, slot, pos, dst + done, bytes, i);
    }
  }

  /** One more chunk is on its way behind the ones before it. */
  lemma {:induction false} DeliversMore(inflight: set<Copy>, device: nat -> Byte, ticket: nat, stream: nat, slot: nat,
                                        pos: nat, dst: nat, file: nat -> Byte, offset: nat, done: nat, len: nat)
    requires Delivers(inflight, device, dst, file, offset, done) && RangeOn(inflight, dst + done, len, stream)
    requires forall c | c in inflight :: c.ticket < ticket
    ensures Delivers(inflight + Issued(ticket, stream, slot, pos, dst + done, Slice(file, offset + done, len)),
                     device, dst, file, offset, done + len)
  {
    hide ByteArrives, Issued, Slice, RangeOn;
    var inflight' := inflight + Issued(ticket, stream, slot, pos, dst + done, Slice(file, offset + done, len));
    forall k: nat | k < done + len
      ensures ByteArrives(inflight', device, dst, file, offset, k)
    {
      ByteMore(inflight, device, ticket, stream, slot, pos, dst, file, offset, done, len, k);
    }
  }

  /** Outside the range, whatever was to arrive still is. */
  ghost predicate KeepsOutside(inflight: set<Copy>, device: nat -> Byte, inflight': set<Copy>, device': nat -> Byte,
                               dst: nat, len: nat)
  {
    forall x: nat, v | (x < dst || dst + len <= x) && Arrives(inflight, device, x, v) ::
          Arrives(inflight', device', x, v)
  }

  lemma {:induction false} IssuedOutside(inflight: set<Copy>, device: nat -> Byte, ticket: nat, stream: nat, slot: nat,
                                         pos: nat, dst: nat, bytes: seq<Byte>, first: nat, total: nat)
    requires first <= dst && dst + |bytes| <= first + total && RangeOn(inflight, first, total, stream)
    ensures var inflight' := inflight + Issued(ticket, stream, slot, pos, dst, bytes);
            KeepsOutside(inflight, device, inflight', device, first, total) && RangeOn(inflight', first, total, stream)
  {
    hide Arrives;
    forall x: nat, v | (x < first || first + total <= x) && Arrives(inflight, device, x, v)
      ensures Arrives(inflight + Issued(ticket, stream, slot, pos, dst, bytes), device, x, v)
    {
      IssuedElsewhere(inflight, device, ticket, stream, slot, pos, dst, bytes, x, v);
    }
  }

  lemma {:induction false} TicketsBound(inflight: set<Copy>, slots: seq<Slot>, active: int, tickets: nat)
    requires CopiesOk(inflight, slots, active, tickets)
    ensures forall c | c in inflight :: c.ticket < tickets
  {
    assert forall c | c in inflight :: CopyOk(c, slots, active, tickets);
  }

  /** With nothing in flight on its stream, what was to arrive is there. */
  lemma {:induction false} Delivered(inflight: set<Copy>, device: nat -> Byte, dst: nat, file: nat -> Byte, offset: nat,
                                     len: nat, stream: nat)
    requires Delivers(inflight, device, dst, file, offset, len) && RangeOn(inflight, dst, len, stream)
    requires forall c | c in inflight :: c.stream != stream
    ensures Slice(device, dst, len) == Slice(file, offset, len)
  {
    forall k: nat | k < len
      ensures Slice(device, dst, len)[k] == Slice(file, offset, len)[k]
    {
      assert ByteArrives(inflight, device, dst, file, offset, k);
    }
  }

  class Reader {
    var slots: seq<Slot>
    var active: int

    /** Driver and host memory grant whatever is asked for, and the file can be read. */
    const willing: bool

    /** The driver: how much was issued so far, what has not happened yet, and the device memory. */
    var tickets: nat
    ghost var inflight: set<Copy>
    ghost var device: nat -> Byte

    /** `a` is the window being filled, or -1 between two. */
    ghost predicate Sound(a: int)
      reads this
    {
      SlotsOk(slots, a) && CopiesOk(inflight, slots, a, tickets)
    }

    ghost predicate Valid()
      reads this
    {
      Sound(active)
    }

    constructor (ghost device: nat -> Byte)
      ensures Valid() && inflight == {} && this.device == device
    {
      slots := seq(SLOTS, _ => Slot(false, [], 0, 0, None));
      active := -1;
      willing := *;
      tickets, inflight, this.device := 0, {}, device;
    }

    // -------------------------------------------------------------- the device

    /** One copy happens: the device reads the window as it is at that moment. */
    ghost method Execute(c: Copy, a: int)
      requires Sound(a) && Ready(inflight, c)
      modifies this`inflight, this`device
      ensures Sound(a) && inflight == old(inflight) - {c}
      ensures Keeps(old(inflight), old(device), inflight, device)
    {
      assert CopyOk(c, slots, a, tickets);
      var was, read := device, slots[c.slot].buffer[c.pos];
      device := (x: nat) => if x == c.dst then read else was(x);
      inflight := inflight - {c};
      ExecuteKeeps(old(inflight), was, c, device);
    }

    /** Any number of copies happen, of any streams. */
    method Progress(ghost a: int)
      requires Sound(a)
      modifies this`inflight, this`device
      ensures Sound(a) && Keeps(old(inflight), old(device), inflight, device)
    {
      ghost var steps: nat := *;
      ghost var left := steps;
      while left > 0
        invariant Sound(a) && Keeps(old(inflight), old(device), inflight, device)
      {
        ghost var c: Copy := *;
        if c in inflight && Ready(inflight, c) {
          ghost var i, d := inflight, device;
          Execute(c, a);
          KeepsTransitive(old(inflight), old(device), i, d, inflight, device);
        }
        left := left - 1;
      }
    }

    /** Wait until all that was issued to a stream before a ticket has happened. */
    ghost method Drain(stream: nat, ticket: nat, a: int)
      requires Sound(a)
      modifies this`inflight, this`device
      ensures Sound(a) && Keeps(old(inflight), old(device), inflight, device)
      ensures forall c | c in inflight :: c.stream != stream || c.ticket >= ticket
    {
      while exists c :: c in inflight && c.stream == stream && c.ticket < ticket
        invariant Sound(a) && Keeps(old(inflight), old(device), inflight, device)
        decreases |inflight|
      {
        var c :| c in inflight && c.stream == stream && c.ticket < ticket;
        var first := FirstOf(inflight, c);
        var i, d := inflight, device;
        Execute(first, a);
        KeepsTransitive(old(inflight), old(device), i, d, inflight, device);
      }
    }

    /** `cuStreamSynchronize`. */
    method StreamSynchronize(stream: nat)
      requires Valid()
      modifies this`inflight, this`device
      ensures Valid() && Keeps(old(inflight), old(device), inflight, device)
      ensures forall c | c in inflight :: c.stream != stream
    {
      Drain(stream, tickets, active);
      assert forall c | c in inflight :: CopyOk(c, slots, active, tickets);
    }

    /** `cuMemcpyHtoDAsync` from the active window. */
    method CopyAsync(dst: nat, len: nat) returns (ok: bool)
      requires Valid() && active >= 0 && slots[active].offset + len <= WINDOW
      modifies this`inflight, this`tickets, this`slots
      ensures ok ==> Valid()
      ensures var slot := old(slots[active]);
              slots == if ok then old(slots)[active := slot.(offset := slot.offset + len)] else old(slots)
      ensures ok ==> tickets == old(tickets) + 1
      ensures ok ==> var slot := old(slots[active]);
                inflight == old(inflight) + Issued(old(tickets), slot.stream, active, slot.offset, dst,
                                                   slot.buffer[slot.offset..slot.offset + len])
      ensures !ok ==> inflight == old(inflight) && tickets == old(tickets)
      ensures willing ==> ok
    {
      ok := *;
      if willing { ok := true; }
      if ok {
        var slot := slots[active];
        inflight := inflight + Issued(tickets, slot.stream, active, slot.offset, dst,
                                      slot.buffer[slot.offset..slot.offset + len]);
        tickets := tickets + 1;
        slots := slots[active := slot.(offset := slot.offset + len)];
      }
    }

    // -------------------------------------------------------------- the windows

    /** `hostbuf_file_reader_retire_active`: mark where the copies from the active window end. */
    method RetireActive() returns (ok: bool)
      requires Valid()
      modifies this`slots, this`tickets
      ensures ok ==> Sound(-1) && inflight == old(inflight)
      ensures willing ==> ok
    {
      if active < 0 {
        return true;
      }
      var slot := slots[active];
      if slot.offset == 0 {
        return true;
      }
      if slot.event.Some? {
        return false;
      }
      ok := *;
      if willing { ok := true; }
      if ok {
        ghost var ticket := tickets;
        slots := slots[active := slot.(event := Some(Event(slot.stream, tickets)))];
        tickets := tickets + 1;
      }
    }

    /** `hostbuf_file_reader_next`: the next window in turn, once nothing reads it any more. */
    method NextWindow(stream: nat) returns (ok: bool)
      requires Sound(-1) && -1 <= active < SLOTS
      modifies this`slots, this`active, this`inflight, this`device
      ensures ok ==> Valid() && active >= 0 && slots[active].offset == 0 && slots[active].stream == stream
      ensures ok ==> forall c | c in inflight :: c.slot != active
      ensures Keeps(old(inflight), old(device), inflight, device)
      ensures active == if old(active) == SLOTS - 1 then 0 else old(active) + 1
      ensures willing ==> ok
    {
      active := (active + 1) % SLOTS;
      var slot := slots[active];
      if slot.pinned && slot.event.Some? {
        ok := *;
        if willing { ok := true; }
        if !ok { return; }
        Drain(slot.event.value.stream, slot.event.value.ticket, -1);
        slot := slot.(event := None);
      }
      assert forall c | c in inflight :: CopyOk(c, slots, -1, tickets);
      assert forall c | c in inflight :: c.slot != active;
      if !slot.pinned {
        ok := *;
        if willing { ok := true; }
        if !ok { return; }
        var bytes: Byte := *;
        slot := slot.(pinned := true, buffer := seq(WINDOW, _ => bytes));
      }
      slots := slots[active := slot.(offset := 0, stream := stream)];
      ok := true;
    }

    /** `xfer_file_read` into the active window; what it leaves there on failure is anybody's guess. */
    method FillWindow(file: nat -> Byte, fileOffset: nat, len: nat) returns (ok: bool)
      requires Valid() && active >= 0 && slots[active].offset + len <= WINDOW
      modifies this`slots
      ensures Valid() && |slots[active].buffer| == WINDOW
      ensures slots == old(slots)[active := old(slots[active]).(buffer := slots[active].buffer)]
      ensures ok ==>
                slots[active].buffer[slots[active].offset..slots[active].offset + len] == Slice(file, fileOffset, len)
      ensures willing ==> ok
    {
      var slot := slots[active];
      var bytes: seq<Byte> := *;
      if willing { bytes := Slice(file, fileOffset, len); }
      ok := bytes == Slice(file, fileOffset, len);
      if |bytes| == len {
        var buffer := slot.buffer[..slot.offset] + bytes + slot.buffer[slot.offset + len..];
        slots := slots[active := slot.(buffer := buffer)];
      }
    }

    /**
     Go on in the active window, if it is this stream's and either has room for all of it or
     more than 16 MiB left; otherwise retire it for the next one.
     */
    method ChooseWindow(stream: nat, size: nat) returns (ok: bool)
      requires Valid() && size > 0
      modifies this
      ensures ok ==> Valid() && active >= 0 && slots[active].stream == stream && slots[active].offset < WINDOW
      ensures ok ==>
                var left := WINDOW - (if old(active) >= 0 then old(slots)[old(active)].offset else 0);
                if old(active) >= 0 && old(slots)[old(active)].stream == stream && (left > size || left > 16777216)
                then active == old(active) && slots[active].offset == WINDOW - left
                else active != old(active) && slots[active].offset == 0
      ensures Keeps(old(inflight), old(device), inflight, device)
      ensures willing ==> ok
    {
      if NeedsWindow(slots, active, stream, size) {
        ok := RetireActive();
        if !ok { return; }
        ghost var i, d := inflight, device;
        Progress(-1);
        ghost var i', d' := inflight, device;
        ok := NextWindow(stream);
        KeepsTransitive(i, d, i', d', inflight, device);
      } else {
        ok := true;
      }
    }

    /** One round of the loop in `hostbuf_file_reader_read`: it always gets further. */
    method ReadChunk(file: nat -> Byte, offset: nat, size: nat, stream: nat, dst: nat, ghost first: nat,
                     ghost start: nat)
      returns (ok: bool, chunk: nat)
      requires Valid() && size > 0 && first <= dst && start <= offset && dst - first == offset - start
      requires RangeOn(inflight, first, dst - first + size, stream)
      requires Delivers(inflight, device, first, file, start, dst - first)
      modifies this
      ensures ok ==> Valid() && 0 < chunk <= size
      ensures ok ==> RangeOn(inflight, first, dst - first + size, stream)
      ensures ok ==> Delivers(inflight, device, first, file, start, dst - first + chunk)
      ensures KeepsOutside(old(inflight), old(device), inflight, device, first, dst - first + size)
      ensures willing ==> ok
    {
      hide Arrives, Ready, CopyOk, SlotOk, Delivers, Issued, Slice;
      ghost var i0, d0, total := inflight, device, dst - first + size;
      ok := ChooseWindow(stream, size);
      chunk := 0;
      if !ok { return; }
      ghost var i1, d1 := inflight, device;
      Progress(active);
      chunk := Min(size, WINDOW - slots[active].offset);
      ok := FillWindow(file, offset, chunk);
      KeepsTransitive(i0, d0, i1, d1, inflight, device);
      if !ok { return; }
      ghost var i2, d2, t, pos := inflight, device, tickets, slots[active].offset;
      TicketsBound(i2, slots, active, t);
      DeliversStill(i0, d0, i2, d2, first, file, start, dst - first);
      DeliversMore(i2, d2, t, stream, active, pos, first, file, start, dst - first, chunk);
      ok := CopyAsync(dst, chunk);
      if !ok { return; }
      ghost var i3 := inflight;
      IssuedOutside(i2, d2, t, stream, active, pos, dst, Slice(file, offset, chunk), first, total);
      Progress(active);
      DeliversStill(i3, d2, inflight, device, first, file, start, dst - first + chunk);
    }

    /**
     `hostbuf_file_reader_read`.  On success the device range ends as the file range,
     whenever the copies happen, and nothing else on the device is disturbed.
     */
    method Read(file: nat -> Byte, fileOffset: nat, size: nat, stream: nat, devicePtr: nat) returns (ok: bool)
      requires Valid() && RangeOn(inflight, devicePtr, size, stream)
      modifies this
      ensures ok ==> Valid() && Delivers(inflight, device, devicePtr, file, fileOffset, size)
      ensures ok ==> RangeOn(inflight, devicePtr, size, stream)
      ensures KeepsOutside(old(inflight), old(device), inflight, device, devicePtr, size)
      ensures devicePtr == 0 && size > 0 ==> !ok
      ensures willing ==> (ok <==> size == 0 || devicePtr != 0)
    {
      hide Arrives;
      if size == 0 {
        return true;
      }
      if devicePtr == 0 {
        return false;
      }
      var left, offset, dst := size, fileOffset, devicePtr;
      while left > 0
        invariant left <= size && offset == fileOffset + (size - left) && dst == devicePtr + (size - left)
        invariant Valid() && RangeOn(inflight, devicePtr, size, stream)
        invariant Delivers(inflight, device, devicePtr, file, fileOffset, size - left)
        invariant KeepsOutside(old(inflight), old(device), inflight, device, devicePtr, size)
      {
        var chunk;
        ok, chunk := ReadChunk(file, offset, left, stream, dst, devicePtr, fileOffset);
        if !ok { return; }
        offset, dst, left := offset + chunk, dst + chunk, left - chunk;
      }
      ok := true;
    }

    /** A read that the caller waits for: the device holds the file's bytes. */
    method ReadAndWait(file: nat -> Byte, fileOffset: nat, size: nat, stream: nat, devicePtr: nat) returns (ok: bool)
      requires Valid() && RangeOn(inflight, devicePtr, size, stream)
      modifies this
      ensures ok ==> Valid() && Slice(device, devicePtr, size) == Slice(file, fileOffset, size)
      ensures willing ==> (ok <==> size == 0 || devicePtr != 0)
    {
      ok := Read(file, fileOffset, size, stream, devicePtr);
      if ok {
        ghost var i, d := inflight, device;
        StreamSynchronize(stream);
        DeliversStill(i, d, inflight, device, devicePtr, file, fileOffset, size);
        Delivered(inflight, device, devicePtr, file, fileOffset, size, stream);
      }
    }
  }
}
