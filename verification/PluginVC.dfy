/** The in-process duplex connection of proxy/PluginVC.cc: two halves (`PluginVC`) joined by a
    `PluginVCCore` that owns one bounded intermediate buffer per direction.

    Every callback into a VC user is a `UserTurn`: the user may do any sequence of operations on
    any half it may touch, including `reenable_re`, which re-enters the processing code.  The
    `fuel` of a turn bounds one finite behaviour; every theorem holds for every fuel.  Try-locks
    are parameters or nondeterministic choices, and the event processor is the set `queue` of
    scheduled, undelivered events of a half. */
module PluginVirtualConnection {
  import opened Options

  newtype byte = x: int | 0 <= x < 256

  const PVC_DEFAULT_MAX_BYTES := 32768

  datatype Slot = SmRetry | CoreRetry | ActiveTimer | InactiveTimer

  datatype Signal =
    | WriteReady | WriteComplete | ReadReady | ReadComplete
    | Eos | Error | ActiveTimeout | InactivityTimeout

  datatype HowTo = ShutRead | ShutWrite | ShutReadWrite

  /** One signal sent to the user of the active (`toActive`) or passive half. */
  datatype Notice = Notice(toActive: bool, signal: Signal)

  /** What the try-locks of one delivered event give, and the space left in the reader's buffer. */
  datatype Tries = Tries(read: bool, room: int, write: bool, timeout: bool, accept: bool)

  /** What the event of an open half is for: the sides that need it are visited, what they owe being done, and the
      write side at any rate; or a timeout is reported; or nothing is said. */
  datatype Duty =
    | Retry(read: Option<Due>, write: Option<Due>, visitWrite: Option<nat>)
    | Timeout(said: seq<Notice>)
    | Silence(said: seq<Notice>)

  /** What a visit of a side owes: one more visit than there were, these bytes in its total, this in the log, and if
      bytes are moved a new time for the inactivity timeout, and (`wakes`) a visit of the side at the other end. */
  datatype Due = Due(visits: nat, bytes: seq<byte>, said: seq<Notice>, moved: bool, wakes: bool, renewals: nat, peerVisits: nat)

  /** `PluginVCState`: a VIO (`op` says that an operation was started) and a shutdown flag. */
  datatype IoState = IoState(op: bool, nbytes: int, ndone: int, shutdown: bool) {
    function Todo(): int { nbytes - ndone }
  }

  function Max0(a: int): nat { if a > 0 then a else 0 }

  function Min(a: int, b: int): int { if a <= b then a else b }

  /** Moves `actOn` bytes between two buffers block by block.  How the source bytes are cut into
      blocks is chosen anew at each step, so the result holds for every layout. */
  method TransferBytes(to: seq<byte>, from: seq<byte>, actOn: int)
    returns (to': seq<byte>, from': seq<byte>, total: nat)
    requires actOn <= |from|
    ensures total == if actOn <= 0 then 0 else actOn
    ensures to' == to + from[..total] && from' == from[total..]
  {
    to', from', total := to, from, 0;
    var left := actOn;
    while left > 0
      invariant total + left == actOn && (total == 0 || left >= 0)
      invariant total <= |from|
      invariant to' == to + from[..total] && from' == from[total..]
    {
      var cut: int := *;
      var blockReadAvail := if 1 <= cut <= |from'| then cut else |from'|;
      var toMove := Min(left, blockReadAvail);
      if toMove <= 0 {
        break;
      }
      // Large runs append a clone of the block, small ones copy; both append the same bytes.
      to' := to' + from'[..toMove];
      left := left - toMove;
      from' := from'[toMove..];
      total := total + toMove;
    }
  }

  /** An intermediate buffer with the totals that have passed through it. */
  class CoreBuffer {
    var data: seq<byte>
    ghost var taken: seq<byte>      // everything removed from the writer's buffer
    ghost var delivered: seq<byte>  // everything put into the reader's buffer
    ghost var ended: bool           // EOS was sent to the reader with the buffer empty
    ghost var endedAt: nat          // bytes taken at that moment

    constructor ()
      ensures Conserved() && data == [] && taken == [] && !ended
    {
      data, taken, delivered, ended, endedAt := [], [], [], false, 0;
    }

    ghost predicate Conserved()
      reads this
    {
      && taken == delivered + data
      && |data| <= PVC_DEFAULT_MAX_BYTES
      && (ended ==> data == [] && |taken| == endedAt)
    }

    /** New contents after bytes came in from the writer. */
    method Fill(data': seq<byte>, bytes: seq<byte>)
      requires Conserved() && !ended && data' == data + bytes && |data'| <= PVC_DEFAULT_MAX_BYTES
      modifies this`data, this`taken
      ensures Conserved() && Grew() && data == data' && taken == old(taken) + bytes
    {
      data, taken := data', taken + bytes;
    }

    /** New contents after bytes went out to the reader. */
    method Drain(data': seq<byte>, bytes: seq<byte>)
      requires Conserved() && data == bytes + data'
      modifies this`data, this`delivered
      ensures Conserved() && Grew() && data == data' && delivered == old(delivered) + bytes
    {
      data, delivered := data', delivered + bytes;
      assert taken == old(delivered) + (bytes + data');
    }

    method End()
      requires Conserved() && data == []
      modifies this`ended, this`endedAt
      ensures Conserved() && Grew() && ended
    {
      ended, endedAt := true, |taken|;
    }

    /** After the end mark no byte enters or is delivered, and every byte taken was delivered. */
    twostate lemma EndIsFinal()
      requires old(Conserved()) && Conserved() && Grew() && old(ended)
      ensures taken == old(taken) == delivered == old(delivered)
    {
      assert old(taken) == taken[..|old(taken)|];
    }

    /** Bytes are only ever appended to the two totals, and the end mark is final. */
    twostate predicate Grew()
      reads this
    {
      && old(taken) <= taken
      && old(delivered) <= delivered
      && (old(ended) ==> ended && endedAt == old(endedAt))
    }
  }

  // ---- what one visit of process_write_side or process_read_side does, on values -------------

  /** So many bytes are there, are wanted, and have a place. */
  predicate Fits(n: nat, avail: nat, todo: int, room: int) {
    n <= avail && n <= todo && n <= room
  }

  /** The most that fit, which is nothing if even nothing does not. */
  ghost predicate Most(n: nat, avail: nat, todo: int, room: int) {
    (n > 0 ==> Fits(n, avail, todo, room)) && forall m: nat :: Fits(m, avail, todo, room) ==> m <= n
  }

  function WriteAmount(w: IoState, avail: nat, room: int): (n: nat)
    ensures n <= avail
  {
    Max0(Min(Min(avail, w.Todo()), room))
  }

  /** The first signal of a visit that holds its lock. */
  function WriteSignal(w: IoState, peerGone: bool, avail: nat, room: int): Option<Signal> {
    var todo, n := w.Todo(), WriteAmount(w, avail, room);
    if todo == 0 then None
    else if peerGone then Some(Error)
    else if n > 0 then Some(if n == todo then WriteComplete else WriteReady)
    else if todo > 0 && avail == 0 then Some(WriteReady)
    else None
  }

  function ReadAmount(r: IoState, avail: nat, room: int): (n: nat)
    ensures n <= avail
  {
    if r.shutdown then 0 else Max0(Min(Min(avail, r.Todo()), room))
  }

  function ReadSignal(r: IoState, peerDone: bool, avail: nat, room: int): Option<Signal> {
    var todo, n := r.Todo(), ReadAmount(r, avail, room);
    if n > 0 then Some(if n == todo then ReadComplete else ReadReady)
    else if SaysEos(r, peerDone, avail) then Some(Eos)
    else None
  }

  /** When a visit reports the end of the stream. */
  predicate SaysEos(r: IoState, peerDone: bool, avail: nat) {
    !r.shutdown && peerDone && (r.Todo() < 0 || (r.Todo() > 0 && avail == 0))
  }

  /** The end of the stream is reported with bytes still in the buffer exactly if the reader's byte
      count is already exceeded; otherwise only when the buffer is empty and bytes are expected. */
  lemma EosStrandsBytesIff(r: IoState, peerDone: bool, avail: nat, room: int)
    ensures ReadSignal(r, peerDone, avail, room) == Some(Eos) && avail > 0 <==>
      !r.shutdown && peerDone && avail > 0 && r.Todo() < 0
    ensures r.Todo() >= 0 ==>
      (ReadSignal(r, peerDone, avail, room) == Some(Eos) <==> !r.shutdown && peerDone && avail == 0 && r.Todo() > 0)
  {
    assert avail > 0 && r.Todo() > 0 ==> !SaysEos(r, peerDone, avail);
  }

  /** A reader that has got 10 bytes and then lowers its byte count to 3, with 5 bytes in the buffer and a
      peer that has closed. */
  lemma EosStrandsBytesExample(room: int)
    ensures ReadSignal(IoState(true, 3, 10, false), true, 5, room) == Some(Eos)
  {
  }

  class PluginVC {
    const isActive: bool
    var read: IoState
    var write: IoState
    var source: seq<byte>      // unread bytes of the buffer given to do_io_write
    var needRead: bool
    var needWrite: bool
    var closed: bool
    var deletable: bool
    var depth: nat             // reentrancy_count
    var sm: bool               // sm_lock_retry_event != nullptr
    var coreRetry: bool        // core_lock_retry_event != nullptr
    var activeTimer: bool      // active_event != nullptr
    var inactiveTimer: bool    // inactive_event != nullptr
    var inactiveTimeout: int
    var inactiveAt: int
    var queue: set<Slot>       // events of this half that are scheduled and not yet delivered
    ghost var readVisits: nat  // visits of the read side
    ghost var writeVisits: nat // visits of the write side
    ghost var renewals: nat    // updates of the time of the inactivity timeout

    constructor (isActive: bool)
      ensures this.isActive == isActive && Pristine() && !closed && depth == 0 && !deletable && !needRead && !needWrite
    {
      this.isActive := isActive;
      read, write := IoState(false, 0, 0, false), IoState(false, 0, 0, false);
      source, needRead, needWrite, closed, deletable, depth := [], false, false, false, false, 0;
      sm, coreRetry, activeTimer, inactiveTimer := false, false, false, false;
      inactiveTimeout, inactiveAt, queue := 0, 0, {};
      readVisits, writeVisits, renewals := 0, 0, 0;
    }

    /** The events of this half that are scheduled are those it holds a pointer to. */
    predicate Tracked()
      reads this
    {
      && (SmRetry in queue <==> sm)
      && (CoreRetry in queue <==> coreRetry)
      && (ActiveTimer in queue <==> activeTimer)
      && (InactiveTimer in queue <==> inactiveTimer)
    }

    predicate Idle()
      reads this
    {
      !sm && !coreRetry && !activeTimer && !inactiveTimer
    }

    predicate Pending()
      reads this
    {
      sm || coreRetry
    }

    ghost predicate Pristine()
      reads this
    {
      !read.op && !write.op && Tracked() && Idle()
    }

    /** No event is orphaned or dangling; deletion only after close and with nothing pending; a
        closed half outside a handler will get the event that deletes it; no wake-up is lost. */
    ghost predicate Sound()
      reads this
    {
      && Tracked()
      && (deletable ==> closed && Idle())
      && (closed && !deletable && depth == 0 ==> sm)
      && (!closed && depth == 0 && (needRead || needWrite) ==> Pending())
    }

    /** What a nested call may do to a half. */
    twostate predicate Kept()
      reads this
    {
      && depth == old(depth)
      && (needRead ==> old(needRead) || Pending())
      && (needWrite ==> old(needWrite) || Pending())
      && Advanced()
    }

    /** A side that needed to be visited has been, or still needs it. */
    twostate predicate Remembered()
      reads this`needRead, this`needWrite, this`readVisits, this`writeVisits
    {
      && old(readVisits) <= readVisits && old(writeVisits) <= writeVisits
      && (old(needRead) ==> needRead || old(readVisits) < readVisits)
      && (old(needWrite) ==> needWrite || old(writeVisits) < writeVisits)
    }

    /** The two VIOs and the closing are as before. */
    twostate predicate SameState()
      reads this
    {
      read == old(read) && write == old(write) && closed == old(closed)
    }

    /** Nothing is undone. */
    twostate predicate Advanced()
      reads this
    {
      && Remembered() && old(renewals) <= renewals
      && (old(closed) ==> closed)
      && deletable == old(deletable)
      && (old(sm) ==> sm) && (old(coreRetry) ==> coreRetry)
      && (old(read.shutdown) ==> read.shutdown) && (old(write.shutdown) ==> write.shutdown)
      && (old(read.op) ==> read.op) && (old(write.op) ==> write.op)
    }

    /** setup_event_cb: at most one event per pointer. */
    method SetupEventCb(slot: Slot)
      requires slot == SmRetry || slot == CoreRetry
      requires Tracked()
      modifies this`sm, this`coreRetry, this`queue
      ensures sm == (old(sm) || slot == SmRetry) && coreRetry == (old(coreRetry) || slot == CoreRetry)
      ensures Tracked()
    {
      if slot == SmRetry && !sm {
        sm := true;
        queue := queue + {SmRetry};
      } else if slot == CoreRetry && !coreRetry {
        coreRetry := true;
        queue := queue + {CoreRetry};
      }
    }

    /** clear_event.  The one-shot active timer has just been delivered; the periodic inactive
        timer is still scheduled and must be cancelled. */
    method ClearEvent(slot: Slot)
      requires slot == ActiveTimer || slot == InactiveTimer
      modifies this`activeTimer, this`inactiveTimer, this`inactiveAt, this`queue
      ensures queue == if slot == InactiveTimer then old(queue) - {InactiveTimer} else old(queue)
      ensures activeTimer == (old(activeTimer) && slot != ActiveTimer)
      ensures inactiveTimer == (old(inactiveTimer) && slot != InactiveTimer)
    {
      if slot == InactiveTimer {
        queue := queue - {InactiveTimer};
        inactiveAt := 0;
        inactiveTimer := false;
      } else {
        activeTimer := false;
      }
    }

    method SetActiveTimeout(timeout: int)
      requires Tracked()
      modifies this`activeTimer, this`queue
      ensures Tracked() && activeTimer == (timeout > 0)
    {
      if activeTimer {
        queue := queue - {ActiveTimer};
        activeTimer := false;
      }
      if timeout > 0 {
        activeTimer := true;
        queue := queue + {ActiveTimer};
      }
    }

    method SetInactivityTimeout(timeout: int, now: int)
      requires Tracked()
      modifies this`inactiveTimeout, this`inactiveAt, this`inactiveTimer, this`queue
      ensures Tracked() && inactiveTimer == (timeout != 0) && inactiveTimeout == timeout
      ensures inactiveAt == if timeout != 0 then now + timeout else 0
    {
      inactiveTimeout := timeout;
      if timeout != 0 {
        inactiveAt := now + timeout;
        if !inactiveTimer {
          inactiveTimer := true;
          queue := queue + {InactiveTimer};
        }
      } else {
        inactiveAt := 0;
        if inactiveTimer {
          queue := queue - {InactiveTimer};
          inactiveTimer := false;
        }
      }
    }

    // ---- operations of the user of this half ------------------------------------------------

    method DoIoRead(nbytes: int)
      requires Sound() && !closed
      modifies this
      ensures Sound() && Kept()
      ensures read == old(read).(op := true, nbytes := nbytes, ndone := 0) && write == old(write)
      ensures needRead && sm && needWrite == old(needWrite)
    {
      read := read.(op := true, nbytes := nbytes, ndone := 0);
      needRead := true;
      SetupEventCb(SmRetry);
    }

    method DoIoWrite(nbytes: int, buffer: seq<byte>)
      requires Sound() && !closed
      modifies this
      ensures Sound() && Kept()
      ensures write == old(write).(op := true, nbytes := nbytes, ndone := 0) && read == old(read)
      ensures source == buffer && needWrite && sm && needRead == old(needRead)
    {
      source := buffer;
      write := write.(op := true, nbytes := nbytes, ndone := 0);
      needWrite := true;
      SetupEventCb(SmRetry);
    }

    method Reenable(writing: bool)
      requires Sound() && !closed
      requires if writing then write.op else read.op
      modifies this
      ensures Sound() && Kept()
      ensures sm && (if writing then needWrite else needRead)
      ensures read == old(read) && write == old(write) && source == old(source)
    {
      if writing {
        needWrite := true;
      } else {
        needRead := true;
      }
      SetupEventCb(SmRetry);
    }

    /** A second close is ignored. */
    method DoIoClose()
      requires Sound()
      modifies this
      ensures Sound() && Kept() && closed
      ensures old(closed) || depth > 0 ==> queue == old(queue)
      ensures read == old(read) && write == old(write) && source == old(source)
    {
      if !closed {
        closed := true;
        if depth <= 0 {
          SetupEventCb(SmRetry);
        }
      }
    }

    method DoIoShutdown(howto: HowTo)
      requires Sound() && !closed
      modifies this`read, this`write
      ensures Sound() && Kept()
      ensures read == old(read).(shutdown := old(read.shutdown) || howto != ShutWrite)
      ensures write == old(write).(shutdown := old(write.shutdown) || howto != ShutRead)
    {
      match howto
      case ShutRead => read := read.(shutdown := true);
      case ShutWrite => write := write.(shutdown := true);
      case ShutReadWrite =>
        read := read.(shutdown := true);
        write := write.(shutdown := true);
    }

    /** The start and the end of reenable_re around the processing. */
    method Enter(writing: bool)
      requires Sound() && !closed
      modifies this`depth, this`needRead, this`needWrite
      ensures Sound() && depth == old(depth) + 1
      ensures needRead == (old(needRead) || !writing) && needWrite == (old(needWrite) || writing)
    {
      depth := depth + 1;
      if writing {
        needWrite := true;
      } else {
        needRead := true;
      }
    }

    method Leave()
      requires Sound() && depth > 0 && !deletable && (depth == 1 && !closed && (needRead || needWrite) ==> Pending())
      modifies this`depth, this`sm, this`coreRetry, this`queue
      ensures Sound() && depth == old(depth) - 1
      ensures (old(sm) ==> sm) && (old(coreRetry) ==> coreRetry) && (closed ==> sm)
    {
      depth := depth - 1;
      if closed {
        SetupEventCb(SmRetry);
      }
    }

    /** Any one operation that its user may perform on an open half without re-entering it, which
        includes appending to its own buffer and adjusting the public `nbytes` of a VIO. */
    method UserStep()
      requires Sound() && !closed
      modifies this
      ensures Sound() && Kept()
    {
      var n: int, t: int, bytes: seq<byte> := *, *, *;
      if {
        case true => DoIoRead(n);
        case true => DoIoWrite(n, bytes);
        case read.op => Reenable(false);
        case write.op => Reenable(true);
        case true => DoIoClose();
        case true => DoIoShutdown(ShutRead);
        case true => DoIoShutdown(ShutWrite);
        case true => DoIoShutdown(ShutReadWrite);
        case true => SetActiveTimeout(n);
        case true => SetInactivityTimeout(n, t);
        case true => source := source + bytes;
        case true => read := read.(nbytes := n);
        case true => write := write.(nbytes := n);
      }
    }

    // ---- moving bytes -----------------------------------------------------------------------

    predicate Writing()
      reads this
    {
      write.op && !closed && !write.shutdown
    }

    predicate Reading()
      reads this
    {
      read.op && !closed
    }

    /** How much a visit of the write side that has its lock moves, and what it says. */
    function WriteMoves(out: CoreBuffer, peerGone: bool): (n: nat)
      reads this, out
      ensures n <= |source|
    {
      if !Writing() || peerGone then 0 else WriteAmount(write, |source|, PVC_DEFAULT_MAX_BYTES - |out.data|)
    }

    function WriteSays(out: CoreBuffer, peerGone: bool): Option<Signal>
      reads this, out
    {
      if !Writing() then None else WriteSignal(write, peerGone, |source|, PVC_DEFAULT_MAX_BYTES - |out.data|)
    }

    /** The same for the read side. */
    function ReadMoves(core: CoreBuffer, room: int): (n: nat)
      reads this, core
      ensures n <= |core.data|
    {
      if !Reading() then 0 else ReadAmount(read, |core.data|, room)
    }

    function ReadSays(core: CoreBuffer, peerDone: bool, room: int): Option<Signal>
      reads this, core
    {
      if !Reading() then None else ReadSignal(read, peerDone, |core.data|, room)
    }

    method Send(out: CoreBuffer, actOn: nat)
      requires out.Conserved() && !out.ended && actOn <= |source| && |out.data| + actOn <= PVC_DEFAULT_MAX_BYTES
      modifies out`data, out`taken, this`source, this`write
      ensures out.Conserved() && out.Grew() && out.taken == old(out.taken) + old(source)[..actOn]
      ensures source == old(source)[actOn..] && write == old(write).(ndone := old(write.ndone) + actOn)
    {
      var data, rest, added := TransferBytes(out.data, source, actOn);
      out.Fill(data, source[..added]);
      source := rest;
      write := write.(ndone := write.ndone + added);
    }

    method Receive(core: CoreBuffer, actOn: nat)
      requires core.Conserved() && actOn <= |core.data|
      modifies core`data, core`delivered, this`read
      ensures core.Conserved() && core.Grew() && core.delivered == old(core.delivered) + old(core.data)[..actOn]
      ensures read == old(read).(ndone := old(read.ndone) + actOn)
    {
      var output, data, added := TransferBytes([], core.data, actOn);
      assert core.data == output + data;
      core.Drain(data, output);
      read := read.(ndone := read.ndone + added);
    }

    /** process_write_side up to its callback: what is moved, and what is to be said. */
    method TryWrite(out: CoreBuffer, peerGone: bool, hit: bool) returns (say: Option<Signal>, moved: nat)
      requires Sound() && out.Conserved() && (Writing() ==> !out.ended)
      modifies this, out
      ensures Sound() && Kept() && out.Conserved() && out.Grew() && out.ended == old(out.ended)
      ensures writeVisits == old(writeVisits) + 1 && readVisits == old(readVisits) && renewals == old(renewals) && needRead == old(needRead)
      ensures moved == if hit then old(WriteMoves(out, peerGone)) else 0
      ensures say == if hit then old(WriteSays(out, peerGone)) else None
      ensures out.taken == old(out.taken) + old(source)[..moved] && source == old(source)[moved..]
      ensures write == old(write).(ndone := old(write.ndone) + moved) && read == old(read) && closed == old(closed)
      ensures needWrite == (old(Writing()) && !hit) && (needWrite ==> coreRetry)
      ensures !old(Writing()) ==> queue == old(queue)
    {
      hide Most, WriteAmount, WriteSignal;
      say, moved := None, 0;
      writeVisits := writeVisits + 1;
      needWrite := false;
      if !write.op || closed || write.shutdown {
        return;
      }
      if !hit {
        needWrite := true;
        SetupEventCb(CoreRetry);
        return;
      }
      say, moved := PutOut(out, peerGone);
    }

    /** The part of process_write_side that has its lock: as much is moved as there is, is wanted and has a place,
        and the signals mean what they say. */
    method PutOut(out: CoreBuffer, peerGone: bool) returns (say: Option<Signal>, moved: nat)
      requires out.Conserved() && !out.ended && Writing()
      modifies this`source, this`write, out`data, out`taken
      ensures out.Conserved() && out.Grew()
      ensures moved == old(WriteMoves(out, peerGone)) && say == old(WriteSays(out, peerGone))
      ensures out.taken == old(out.taken) + old(source)[..moved] && source == old(source)[moved..]
      ensures write == old(write).(ndone := old(write.ndone) + moved)
      ensures !peerGone ==>
        Most(moved, old(|source|), old(write.nbytes - write.ndone), PVC_DEFAULT_MAX_BYTES - old(|out.data|))
      ensures say == Some(WriteComplete) <==> moved > 0 && write.ndone == write.nbytes
      ensures say == Some(WriteReady) <==>
        (moved > 0 && write.ndone < write.nbytes) || (!peerGone && old(source) == [] && write.ndone < write.nbytes)
      ensures say == Some(Error) <==> peerGone && write.ndone != write.nbytes
      ensures say in {None, Some(WriteReady), Some(WriteComplete), Some(Error)}
    {
      say, moved := None, 0;
      var ntodo := write.Todo();
      if ntodo == 0 {
        return;
      }
      var actOn := Min(|source|, ntodo);
      if peerGone {
        say := Some(Error);
        return;
      }
      if actOn <= 0 {
        if ntodo > 0 {
          say := Some(WriteReady);
        }
        return;
      }
      var bufSpace := PVC_DEFAULT_MAX_BYTES - |out.data|;
      if bufSpace <= 0 {
        return;
      }
      actOn := Min(actOn, bufSpace);
      Send(out, actOn);
      moved := actOn;
      say := Some(if write.Todo() == 0 then WriteComplete else WriteReady);
    }

    /** process_read_side up to its callback. */
    method TryRead(core: CoreBuffer, peerDone: bool, hit: bool, room: int) returns (say: Option<Signal>, moved: nat)
      requires Sound() && core.Conserved()
      modifies this, core
      ensures Sound() && Kept() && core.Conserved() && core.Grew() && core.taken == old(core.taken)
      ensures readVisits == old(readVisits) + 1 && writeVisits == old(writeVisits) && renewals == old(renewals) && needWrite == old(needWrite)
      ensures moved == if hit then old(ReadMoves(core, room)) else 0
      ensures say == if hit then old(ReadSays(core, peerDone, room)) else None
      ensures core.delivered == old(core.delivered) + old(core.data)[..moved]
      ensures read == old(read).(ndone := old(read.ndone) + moved) && write == old(write) && closed == old(closed)
      ensures needRead == (old(Reading()) && !hit) && (needRead ==> coreRetry)
      ensures core.ended == (old(core.ended) || (say == Some(Eos) && old(core.data) == []))
      ensures !old(Reading()) ==> queue == old(queue)
    {
      hide Most, WriteAmount, WriteSignal;
      say, moved := None, 0;
      readVisits := readVisits + 1;
      needRead := false;
      if !read.op || closed {
        return;
      }
      if !hit {
        needRead := true;
        SetupEventCb(CoreRetry);
        return;
      }
      if read.shutdown {
        return;
      }
      say, moved := TakeIn(core, peerDone, room);
    }

    /** The part of process_read_side that has its lock. */
    method TakeIn(core: CoreBuffer, peerDone: bool, room: int) returns (say: Option<Signal>, moved: nat)
      requires core.Conserved() && Reading() && !read.shutdown
      modifies this`read, core
      ensures core.Conserved() && core.Grew() && core.taken == old(core.taken)
      ensures moved == old(ReadMoves(core, room)) && say == old(ReadSays(core, peerDone, room))
      ensures core.delivered == old(core.delivered) + old(core.data)[..moved]
      ensures read == old(read).(ndone := old(read.ndone) + moved)
      ensures core.ended == (old(core.ended) || (say == Some(Eos) && old(core.data) == []))
      ensures Most(moved, old(|core.data|), old(read.nbytes - read.ndone), room)
      ensures say == Some(ReadComplete) <==> moved > 0 && read.ndone == read.nbytes
      ensures say == Some(ReadReady) <==> moved > 0 && read.ndone < read.nbytes
      ensures say == Some(Eos) <==>
        peerDone && (read.ndone > read.nbytes || (read.ndone < read.nbytes && old(core.data) == []))
      ensures say in {None, Some(ReadReady), Some(ReadComplete), Some(Eos)}
    {
      say, moved := None, 0;
      var ntodo := read.Todo();
      if ntodo == 0 {
        return;
      }
      var actOn := Min(|core.data|, ntodo);
      if actOn <= 0 {
        if peerDone {
          if |core.data| == 0 {
            core.End();
          }
          say := Some(Eos);
        }
        return;
      }
      if room <= 0 {
        return;
      }
      actOn := Min(actOn, room);
      Receive(core, actOn);
      moved := actOn;
      say := Some(if read.Todo() == 0 then ReadComplete else ReadReady);
    }

    // ---- event delivery ---------------------------------------------------------------------

    /** An event is taken off the queue to be delivered; the periodic one stays there. */
    method Deliver(slot: Slot)
      modifies this`queue
      ensures queue == if slot == InactiveTimer then old(queue) else old(queue) - {slot}
    {
      if slot != InactiveTimer {
        queue := queue - {slot};
      }
    }

    /** A delivered event that cannot get the VIO locks is scheduled again. */
    method Missed(slot: Slot)
      requires slot in queue
      modifies this`queue
      ensures unchanged(this)
    {
      Deliver(slot);
      if slot != InactiveTimer {
        queue := queue + {slot};
      }
      assert queue == old(queue);
    }

    /** The handler is entered, and forgets the retry event that called it. */
    method EnterHandler(slot: Slot)
      requires depth == 0
      modifies this`depth, this`sm, this`coreRetry
      ensures depth == 1
      ensures sm == (old(sm) && slot != SmRetry) && coreRetry == (old(coreRetry) && slot != CoreRetry)
    {
      depth := depth + 1;
      match slot
      case SmRetry => sm := false;
      case CoreRetry => coreRetry := false;
      case _ =>
    }

    /** process_timeout up to its callback: a timer that cannot get the user's lock stays. */
    method TimeoutFires(slot: Slot, hit: bool) returns (say: bool)
      requires slot == ActiveTimer || slot == InactiveTimer
      modifies this`queue, this`activeTimer, this`inactiveTimer, this`inactiveAt
      ensures say == (Waiting() && hit)
      ensures say <==>
        && hit && !closed
        && ((read.op && !read.shutdown && read.ndone < read.nbytes) || (write.op && !write.shutdown && write.ndone < write.nbytes))
      ensures slot == ActiveTimer ==>
        && activeTimer == (old(activeTimer) && Waiting() && !hit) && inactiveTimer == old(inactiveTimer)
        && queue == if Waiting() && !hit then old(queue) + {ActiveTimer} else old(queue)
      ensures slot == InactiveTimer ==>
        && activeTimer == old(activeTimer) && inactiveTimer == (old(inactiveTimer) && Waiting() && !hit)
        && queue == if Waiting() && !hit then old(queue) else old(queue) - {InactiveTimer}
    {
      say := false;
      if closed {
        ClearEvent(slot);
        return;
      }
      if Expecting(read) || Expecting(write) {
        if !hit {
          if slot == ActiveTimer {
            queue := queue + {ActiveTimer};
          }
          return;
        }
        ClearEvent(slot);
        say := true;
      } else {
        ClearEvent(slot);
      }
    }

    /** main_handler from the moment its locks are held until it first calls out. */
    method Arrive(slot: Slot, timeoutHit: bool, now: int) returns (say: bool)
      requires Sound() && depth == 0 && slot in queue && !closed
      modifies this`queue, this`depth, this`sm, this`coreRetry, this`activeTimer, this`inactiveTimer, this`inactiveAt
      ensures Sound() && depth == 1
      ensures slot == ActiveTimer || slot == InactiveTimer ==> sm == old(sm) && coreRetry == old(coreRetry)
      ensures say == old(Expires(slot, timeoutHit, now))
      ensures say && slot == InactiveTimer ==> old(inactiveAt) != 0 && old(inactiveAt) < now
    {
      Deliver(slot);
      EnterHandler(slot);
      say := false;
      if slot == ActiveTimer || (slot == InactiveTimer && inactiveAt != 0 && inactiveAt < now) {
        say := TimeoutFires(slot, timeoutHit);
      }
    }

    /** A timer that is delivered is reported: the active one whenever an operation waits, the inactive one
        only past its time. */
    predicate Expires(slot: Slot, hit: bool, now: int)
      reads this
    {
      && Waiting() && hit
      && (slot == ActiveTimer || (slot == InactiveTimer && inactiveAt != 0 && inactiveAt < now))
    }

    predicate Waiting()
      reads this
    {
      !closed && (Expecting(read) || Expecting(write))
    }

    predicate Expecting(io: IoState) { io.op && !io.shutdown && io.Todo() > 0 }

    /** update_inactive_time: a transfer puts off the inactivity timeout. */
    method UpdateInactiveTime(now: int)
      requires Sound()
      modifies this`inactiveAt, this`renewals
      ensures Sound() && Kept() && renewals == old(renewals) + 1
      ensures inactiveAt == if inactiveTimer && inactiveTimeout != 0 then now + inactiveTimeout else old(inactiveAt)
    {
      renewals := renewals + 1;
      if inactiveTimer && inactiveTimeout != 0 {
        inactiveAt := now + inactiveTimeout;
      }
    }

    /** What process_close does to an open peer. */
    method Nudge()
      requires Sound() && !closed
      modifies this`needRead, this`needWrite, this`coreRetry, this`sm, this`queue
      ensures Sound() && needRead && needWrite && coreRetry
    {
      needWrite := true;
      needRead := true;
      SetupEventCb(CoreRetry);
    }

    /** The part of process_close that concerns this half: every event is cancelled. */
    method CancelAll()
      modifies this`deletable, this`queue, this`sm, this`coreRetry, this`activeTimer, this`inactiveTimer, this`inactiveAt
      requires (SmRetry in queue ==> sm) && (CoreRetry in queue ==> coreRetry)
      requires (ActiveTimer in queue ==> activeTimer) && (InactiveTimer in queue ==> inactiveTimer)
      ensures deletable && queue == {} && Idle()
    {
      deletable := true;
      if sm {
        queue := queue - {SmRetry};
        sm := false;
      }
      if coreRetry {
        queue := queue - {CoreRetry};
        coreRetry := false;
      }
      if activeTimer {
        queue := queue - {ActiveTimer};
        activeTimer := false;
      }
      if inactiveTimer {
        queue := queue - {InactiveTimer};
        inactiveTimer := false;
        inactiveAt := 0;
      }
      forall slot ensures slot !in queue {
        match slot case SmRetry => case CoreRetry => case ActiveTimer => case InactiveTimer =>
      }
    }
  }

  class PluginVCCore {
    const active: PluginVC
    const passive: PluginVC
    const aToP: CoreBuffer
    const pToA: CoreBuffer
    var connected: bool
    var accepted: bool       // the acceptor has been handed the passive half
    var acceptQueued: bool   // state_send_accept waits for a lock
    var failQueued: bool     // state_send_accept_failed waits for a lock
    ghost var destroys: nat
    ghost var log: seq<Notice>

    constructor Alloc()
      ensures fresh(active) && fresh(passive) && fresh(aToP) && fresh(pToA)
      ensures Valid() && Quiet() && destroys == 0 && !connected && log == []
      ensures aToP.taken == [] && pToA.taken == []
    {
      active := new PluginVC(true);
      passive := new PluginVC(false);
      aToP := new CoreBuffer();
      pToA := new CoreBuffer();
      connected, accepted, acceptQueued, failQueued := false, false, false, false;
      destroys, log := 0, [];
    }

    predicate Owns(vc: PluginVC) { vc == active || vc == passive }

    function Other(vc: PluginVC): PluginVC { if vc == active then passive else active }

    /** The buffer a half writes into, and the one it reads from. */
    function Outgoing(vc: PluginVC): CoreBuffer { if vc == active then aToP else pToA }
    function Incoming(vc: PluginVC): CoreBuffer { if vc == active then pToA else aToP }

    /** This half will not write any more. */
    predicate WriterDone(vc: PluginVC)
      reads vc
    {
      vc.closed || vc.write.shutdown
    }

    /** The other half will not read any more. */
    predicate Gone(vc: PluginVC)
      reads active, passive
    {
      Other(vc).closed || Other(vc).read.shutdown
    }

    ghost predicate Valid()
      reads this, active, passive, aToP, pToA
    {
      && active.isActive && !passive.isActive && aToP != pToA
      && active.Sound() && passive.Sound()
      && aToP.Conserved() && pToA.Conserved()
      && (aToP.ended ==> WriterDone(active)) && (pToA.ended ==> WriterDone(passive))
      && EosIsLate() && ValidLifetime()
    }

    /** A half that was told of the end has a peer that will not write any more. */
    ghost predicate EosIsLate()
      reads this`log, active, passive
    {
      && (Notice(true, Eos) in log ==> WriterDone(passive))
      && (Notice(false, Eos) in log ==> WriterDone(active))
    }

    /** When the pair is handed out, given up and freed. */
    ghost predicate ValidLifetime()
      reads this, active, passive
    {
      && (accepted ==> connected)
      && (acceptQueued ==> connected && !accepted && destroys == 0)
      && (!accepted ==> !passive.read.op && !passive.write.op && !passive.closed)
      && (!connected ==> passive.Pristine())
      && (failQueued ==> active.deletable && !connected && destroys == 0)
      && (active.deletable && !connected ==> failQueued || destroys == 1)
      && (active.deletable && passive.deletable ==> destroys == 1)
      && destroys <= 1
      && (destroys == 1 ==> active.deletable && (passive.deletable || !connected))
    }

    lemma Apart()
      requires Valid()
      ensures active != passive && aToP != pToA
    {
    }

    /** No handler is running. */
    predicate Quiet()
      reads active, passive
    {
      active.depth == 0 && passive.depth == 0
    }

    /** A half its user may still operate on. */
    predicate Usable(vc: PluginVC)
      reads this, vc
    {
      Owns(vc) && !vc.closed && (vc == passive ==> accepted)
    }

    twostate predicate Evolved()
      reads this, active, passive, aToP, pToA
    {
      active.Kept() && passive.Kept() && EvolvedCore()
    }

    /** No need to visit a side is forgotten. */
    twostate predicate Remembered()
      reads active, passive
    {
      active.Remembered() && passive.Remembered()
    }

    /** What has happened stays so. */
    twostate predicate Later()
      reads this, active, passive, aToP, pToA
    {
      && Remembered() && aToP.Grew() && pToA.Grew() && old(log) <= log
      && (old(active.closed) ==> active.closed) && (old(passive.closed) ==> passive.closed)
      && old(active.renewals) <= active.renewals && old(passive.renewals) <= passive.renewals
    }

    twostate predicate SameRenewals()
      reads active, passive
    {
      active.renewals == old(active.renewals) && passive.renewals == old(passive.renewals)
    }

    twostate predicate EvolvedCore()
      reads this, aToP, pToA
    {
      && aToP.Grew() && pToA.Grew()
      && connected == old(connected) && accepted == old(accepted)
      && acceptQueued == old(acceptQueued) && failQueued == old(failQueued)
      && destroys == old(destroys)
      && old(log) <= log
    }

    /** A step of one half that its user may take leaves the pair valid. */
    twostate lemma HalfStep(vc: PluginVC)
      requires old(Valid()) && old(Usable(vc))
      requires unchanged(this) && unchanged(aToP) && unchanged(pToA) && unchanged(Other(vc))
      requires vc.Sound() && vc.Kept()
      ensures Valid() && Evolved()
    {
    }

    /** So does a transfer between one half and the buffer it writes to or reads from. */
    twostate lemma TransferStep(vc: PluginVC, new outgoing: bool)
      requires old(Valid()) && Owns(vc) && old(!vc.deletable)
      requires unchanged(this) && unchanged(Other(vc))
      requires outgoing ==> unchanged(Incoming(vc)) && Outgoing(vc).Conserved() && Outgoing(vc).Grew()
      requires !outgoing ==> unchanged(Outgoing(vc)) && Incoming(vc).Conserved() && Incoming(vc).Grew()
      requires vc.Sound() && vc.Kept() && vc.closed == old(vc.closed)
      requires vc.read.op == old(vc.read.op) && vc.write.op == old(vc.write.op)
      requires old(!vc.read.op && !vc.write.op) ==> vc.queue == old(vc.queue)
      requires outgoing ==> Outgoing(vc).ended == old(Outgoing(vc).ended)
      requires !outgoing && Incoming(vc).ended && !old(Incoming(vc).ended) ==> WriterDone(Other(vc))
      ensures Valid() && Evolved()
    {
    }

    // ---- user operations --------------------------------------------------------------------

    /** What is done stays done. */
    twostate lemma MetStays(vc: PluginVC, new writing: bool, new due: Due)
      requires Owns(vc) && old(Met(vc, writing, due)) && Later()
      ensures Met(vc, writing, due)
    {
    }

    lemma MetVisits(vc: PluginVC, writing: bool, due: Due)
      requires Met(vc, writing, due)
      ensures Visits(vc, writing) > due.visits
    {
    }

    lemma OwingVisits(vc: PluginVC, writing: bool, hit: bool, room: int)
      ensures Owing(vc, writing, hit, room, true).visits == Visits(vc, writing)
    {
    }

    twostate lemma FulfilledStays(vc: PluginVC, new duty: Duty)
      requires Owns(vc) && old(Fulfilled(vc, duty)) && Later() && log == old(log)
      ensures Fulfilled(vc, duty)
    {
    }

    /** What is owed depends on the VIOs, the buffers and the log. */
    twostate lemma SameOwing(vc: PluginVC, new writing: bool, new hit: bool, new room: int)
      requires Owns(vc) && active != passive && Later() && log == old(log) && unchanged(aToP) && unchanged(pToA) && unchanged(Other(vc))
      requires vc.read == old(vc.read) && vc.write == old(vc.write) && vc.source == old(vc.source) && vc.closed == old(vc.closed)
      requires vc.readVisits == old(vc.readVisits) && vc.writeVisits == old(vc.writeVisits) && vc.renewals == old(vc.renewals)
      ensures Owing(vc, writing, hit, room, true) == old(Owing(vc, writing, hit, room, true))
    {
    }

    /** The processing is on behalf of the user that calls, and does what a visit owes. */
    method ReenableRe(vc: PluginVC, writing: bool, hit: bool, room: int, fuel: nat)
      requires Valid() && Usable(vc)
      requires if writing then vc.write.op else vc.read.op
      modifies this, active, passive, aToP, pToA
      ensures Valid() && Evolved()
      ensures vc.closed ==> vc.sm
      ensures Met(vc, writing, old(Owing(vc, writing, hit, room, true)))
      decreases fuel, 5
    {
      hide Met, Owing, ValidLifetime, EosIsLate;
      hide CoreBuffer.Conserved;
      ghost var due := Owing(vc, writing, hit, room, true);
      EnterAndProcess(vc, writing, hit, room, fuel);
      LeaveAgain(vc, writing, due);
    }

    method EnterAndProcess(vc: PluginVC, writing: bool, hit: bool, room: int, fuel: nat)
      requires Valid() && Usable(vc)
      modifies this, active, passive, aToP, pToA
      ensures Valid() && EvolvedCore() && Other(vc).Kept() && vc.Advanced() && vc.depth == old(vc.depth) + 1
      ensures vc.needRead ==> vc.Pending() || (writing && old(vc.needRead))
      ensures vc.needWrite ==> vc.Pending() || (!writing && old(vc.needWrite))
      ensures Met(vc, writing, old(Owing(vc, writing, hit, room, true)))
      decreases fuel, 4, 1
    {
      hide Met, Owing, Valid;
      Enter(vc, writing, hit, room);
      ProcessSide(vc, writing, hit, room, fuel);
    }

    method Enter(vc: PluginVC, writing: bool, hit: bool, room: int)
      requires Valid() && Usable(vc)
      modifies vc`depth, vc`needRead, vc`needWrite
      ensures Valid() && vc.depth == old(vc.depth) + 1 && !vc.deletable
      ensures vc.needRead == (old(vc.needRead) || !writing) && vc.needWrite == (old(vc.needWrite) || writing)
      ensures Owing(vc, writing, hit, room, true) == old(Owing(vc, writing, hit, room, true))
    {
      vc.Enter(writing);
      SameOwing(vc, writing, hit, room);
    }

    method LeaveAgain(vc: PluginVC, ghost writing: bool, ghost due: Due)
      requires Valid() && Owns(vc) && vc.depth > 0 && !vc.deletable && (vc == passive ==> accepted)
      requires vc.depth == 1 && !vc.closed && (vc.needRead || vc.needWrite) ==> vc.Pending()
      requires Met(vc, writing, due)
      modifies vc`depth, vc`sm, vc`coreRetry, vc`queue
      ensures Valid() && vc.depth == old(vc.depth) - 1
      ensures (old(vc.sm) ==> vc.sm) && (old(vc.coreRetry) ==> vc.coreRetry) && (vc.closed ==> vc.sm)
      ensures Met(vc, writing, due)
    {
      vc.Leave();
    }

    method ProcessSide(vc: PluginVC, writing: bool, hit: bool, room: int, fuel: nat)
      requires Valid() && Owns(vc) && !vc.deletable
      modifies this, active, passive, aToP, pToA
      ensures Valid() && Evolved()
      ensures (if writing then vc.needWrite else vc.needRead) ==> vc.Pending()
      ensures Met(vc, writing, old(Owing(vc, writing, hit, room, true)))
      decreases fuel, 4, 0
    {
      if writing {
        var said := ProcessWriteSide(vc, false, hit, room, fuel);
      } else {
        var said := ProcessReadSide(vc, false, hit, room, fuel);
      }
    }

    /** Anything the users may do while they hold control, one operation per unit of fuel. */
    method UserTurn(fuel: nat)
      requires Valid()
      modifies this, active, passive, aToP, pToA
      ensures Valid() && Evolved()
      decreases fuel, 0
    {
      var stop: bool := *;
      if fuel == 0 || stop {
        return;
      }
      UserOperation(fuel - 1);
      UserTurn(fuel - 1);
    }

    method UserOperation(fuel: nat)
      requires Valid()
      modifies this, active, passive, aToP, pToA
      ensures Valid() && Evolved()
      decreases fuel, 6
    {
      var onActive: bool, reenter: bool, writing: bool, hit: bool, room: int := *, *, *, *, *;
      var vc := if onActive then active else passive;
      if !Usable(vc) {
        return;
      }
      if reenter && (if writing then vc.write.op else vc.read.op) {
        ReenableRe(vc, writing, hit, room, fuel);
      } else {
        vc.UserStep();
        HalfStep(vc);
      }
    }

    // ---- moving bytes -----------------------------------------------------------------------

    /** A side of a half has been visited since the old state. */
    twostate predicate Visited(vc: PluginVC, new writing: bool)
      reads vc
    {
      if writing then old(vc.writeVisits) < vc.writeVisits else old(vc.readVisits) < vc.readVisits
    }

    ghost function Visits(vc: PluginVC, writing: bool): nat
      reads vc
    {
      if writing then vc.writeVisits else vc.readVisits
    }

    /** The total of the bytes a side has moved. */
    ghost function Total(vc: PluginVC, writing: bool): seq<byte>
      reads aToP, pToA
    {
      if writing then Outgoing(vc).taken else Incoming(vc).delivered
    }

    function Saying(vc: PluginVC, signal: Option<Signal>): seq<Notice> {
      if signal.Some? then [Notice(vc.isActive, signal.value)] else []
    }

    /** What a visit of a side owes: what can be moved, if its lock is obtained, and what is to be said. */
    ghost function Owing(vc: PluginVC, writing: bool, hit: bool, room: int, direct: bool): Due
      reads this, active, passive, aToP, pToA, vc
    {
      var bytes := if writing then vc.source else Incoming(vc).data;
      var moved :=
        if !hit then 0
        else if writing then vc.WriteMoves(Outgoing(vc), Gone(vc))
        else vc.ReadMoves(Incoming(vc), room);
      var signal :=
        if !hit then None
        else if writing then vc.WriteSays(Outgoing(vc), Gone(vc))
        else vc.ReadSays(Incoming(vc), WriterDone(Other(vc)), room);
      Due(Visits(vc, writing), Total(vc, writing) + bytes[..moved], log + Saying(vc, signal),
          moved > 0, moved > 0 && direct, vc.renewals, Visits(Other(vc), !writing))
    }

    /** What was owed has been done. */
    ghost predicate Met(vc: PluginVC, writing: bool, due: Due)
      reads this, active, passive, aToP, pToA, vc
    {
      && Visits(vc, writing) > due.visits
      && due.bytes <= Total(vc, writing)
      && due.said <= log
      && (due.moved ==> vc.renewals > due.renewals)
      && (due.wakes ==> Other(vc).closed || Visits(Other(vc), !writing) > due.peerVisits)
    }

    /** So far: the side has been visited and the bytes moved, and the signal is still to be given. */
    ghost predicate Paid(vc: PluginVC, writing: bool, due: Due, say: Option<Signal>)
      reads this, active, passive, aToP, pToA, vc
    {
      && Visits(vc, writing) > due.visits
      && due.bytes <= Total(vc, writing)
      && due.said == log + Saying(vc, say)
      && due.renewals == vc.renewals && due.peerVisits == Visits(Other(vc), !writing)
    }

    /** So far: the signal has been given as well. */
    ghost predicate Told(vc: PluginVC, writing: bool, due: Due)
      reads this, active, passive, aToP, pToA, vc
    {
      && Visits(vc, writing) > due.visits
      && due.bytes <= Total(vc, writing)
      && due.said <= log
      && due.renewals <= vc.renewals && due.peerVisits <= Visits(Other(vc), !writing)
    }

    /** What the event of a slot is for. */
    ghost function DutyOf(vc: PluginVC, slot: Slot, tries: Tries, now: int): Duty
      reads this, active, passive, aToP, pToA, vc
    {
      if slot == SmRetry || slot == CoreRetry then
        Retry(if vc.needRead then Some(Owing(vc, false, tries.read, tries.room, true)) else None,
              if !vc.needRead && vc.needWrite then Some(Owing(vc, true, tries.write, tries.room, true)) else None,
              if vc.needWrite then Some(vc.writeVisits) else None)
      else if vc.Expires(slot, tries.timeout, now) then
        Timeout(log + [Notice(vc.isActive, if slot == ActiveTimer then ActiveTimeout else InactivityTimeout)])
      else
        Silence(log)
    }

    ghost predicate Fulfilled(vc: PluginVC, duty: Duty)
      reads this, active, passive, aToP, pToA, vc
    {
      match duty
      case Retry(read, write, visitWrite) =>
        && (read.Some? ==> Met(vc, false, read.value))
        && (write.Some? ==> Met(vc, true, write.value))
        && (visitWrite.Some? ==> vc.closed || vc.writeVisits > visitWrite.value)
      case Timeout(said) => said <= log
      case Silence(said) => said == log
    }

    /** In terms of the fields: a retry visits the sides that need it, unless the half is closed meanwhile, and
        a reader that needs it gets as many bytes as there are, are wanted and have a place. */
    twostate predicate Answered(vc: PluginVC, new tries: Tries)
      reads this, active, passive, aToP, pToA, vc
    {
      && (old(vc.needRead) ==> Visited(vc, false))
      && (old(vc.needWrite) ==> Visited(vc, true) || vc.closed)
      && (old(vc.needRead && vc.read.op && !vc.read.shutdown && !vc.closed) && tries.read ==>
            exists n: nat :: n <= old(|Incoming(vc).data|)
              && Most(n, old(|Incoming(vc).data|), old(vc.read.nbytes - vc.read.ndone), tries.room)
              && old(Incoming(vc).delivered) + old(Incoming(vc).data)[..n] <= Incoming(vc).delivered)
    }

    twostate lemma FulfilledAnswers(vc: PluginVC, new slot: Slot, new tries: Tries, new now: int)
      requires slot == SmRetry || slot == CoreRetry
      requires old(!vc.closed) && Fulfilled(vc, old(DutyOf(vc, slot, tries, now)))
      ensures Answered(vc, tries)
    {
      var n := old(vc.ReadMoves(Incoming(vc), tries.room));
      assert old(vc.Reading() && !vc.read.shutdown) ==> Most(n, old(|Incoming(vc).data|), old(vc.read.nbytes - vc.read.ndone), tries.room);
    }

    ghost method Note(entry: Notice)
      requires Valid()
      requires entry == Notice(true, Eos) ==> WriterDone(passive)
      requires entry == Notice(false, Eos) ==> WriterDone(active)
      modifies this`log
      ensures Valid() && log == old(log) + [entry]
    {
      log := log + [entry];
    }

    /** After a transfer the other half, if it is open, is made to look at its buffers, or has an
        event scheduled to. */
    twostate predicate Woken(vc: PluginVC, new writing: bool, new otherSideCall: bool)
      reads this, vc
    {
      if otherSideCall then Reenabled(vc, writing) else vc.closed || Visited(vc, writing)
    }

    predicate Reenabled(vc: PluginVC, writing: bool)
      reads vc
    {
      vc.closed || if writing then vc.write.op ==> vc.needWrite && vc.Pending() else vc.read.op ==> vc.needRead && vc.Pending()
    }

    /** Calls the user's continuation, which may do anything a user may do. */
    method Notify(vc: PluginVC, signal: Signal, fuel: nat)
      requires Valid() && Owns(vc) && (signal == Eos ==> WriterDone(Other(vc)))
      modifies this, active, passive, aToP, pToA
      ensures Valid() && Evolved()
      ensures old(log) + [Notice(vc.isActive, signal)] <= log
      decreases fuel, 1
    {
      Note(Notice(vc.isActive, signal));
      UserTurn(fuel);
    }

    method ProcessWriteSide(vc: PluginVC, otherSideCall: bool, hit: bool, ghost room: int, fuel: nat) returns (say: Option<Signal>)
      requires Valid() && Owns(vc) && !vc.deletable
      modifies this, active, passive, aToP, pToA
      ensures Valid() && Evolved()
      ensures vc.needWrite ==> vc.Pending()
      ensures say == if hit then old(vc.WriteSays(Outgoing(vc), Gone(vc))) else None
      ensures say == Some(Error) <==>
        && hit && old(vc.Writing()) && old(vc.write.ndone != vc.write.nbytes)
        && (old(Other(vc).closed) || old(Other(vc).read.shutdown))
      ensures Met(vc, true, old(Owing(vc, true, hit, room, !otherSideCall)))
      ensures otherSideCall && old(Owing(vc, true, hit, room, !otherSideCall)).moved ==> Reenabled(Other(vc), false)
      ensures say == None ==> log == old(log)
      decreases fuel, 2, if otherSideCall then 1 else 3, 5
    {
      hide Met, Owing, Paid, Reenabled, Valid;
      hide PluginVC.WriteSays, PluginVC.ReadSays, PluginVC.Writing, PluginVC.Reading;
      Apart();
      ghost var due := Owing(vc, true, hit, room, !otherSideCall);
      var moved;
      say, moved := VisitWrite(vc, hit, room, !otherSideCall);
      Answer(vc, true, say, moved > 0, otherSideCall, due, fuel);
    }

    method VisitWrite(vc: PluginVC, hit: bool, ghost room: int, ghost direct: bool) returns (say: Option<Signal>, moved: nat)
      requires Valid() && Owns(vc) && !vc.deletable
      modifies active, passive, aToP, pToA
      ensures Valid() && Evolved()
      ensures vc.needWrite ==> vc.Pending()
      ensures Paid(vc, true, old(Owing(vc, true, hit, room, direct)), say)
      ensures var due := old(Owing(vc, true, hit, room, direct));
        due.moved == (moved > 0) && due.wakes == (moved > 0 && direct)
      ensures (moved > 0 ==> say.Some?) && say != Some(Eos)
      ensures say == if hit then old(vc.WriteSays(Outgoing(vc), Gone(vc))) else None
      ensures say == Some(Error) <==>
        && hit && old(vc.Writing()) && old(vc.write.ndone != vc.write.nbytes)
        && (old(Other(vc).closed) || old(Other(vc).read.shutdown))
    {
      say, moved := vc.TryWrite(Outgoing(vc), Gone(vc), hit);
      TransferStep(vc, true);
    }

    /** What follows a visit. */
    method Answer(vc: PluginVC, writing: bool, say: Option<Signal>, transferred: bool, otherSideCall: bool, ghost due: Due, fuel: nat)
      requires Valid() && Owns(vc) && !vc.deletable && (say == Some(Eos) ==> WriterDone(Other(vc))) && (transferred ==> say.Some?)
      requires Paid(vc, writing, due, say) && due.moved == transferred && due.wakes == (transferred && !otherSideCall)
      modifies this, active, passive, aToP, pToA
      ensures Valid() && Evolved()
      ensures Met(vc, writing, due)
      ensures transferred && otherSideCall ==> Reenabled(Other(vc), !writing)
      ensures say == None ==> log == old(log)
      decreases fuel, 2, if otherSideCall then 1 else 3, 4
    {
      if say.Some? {
        Report(vc, writing, say.value, transferred, otherSideCall, due, fuel);
      }
    }

    /** What follows a visit that has something to say: the callback and, after a transfer, the
        other side, which has bytes or buffer space to look at.  With that, what was owed is done. */
    method Report(vc: PluginVC, writing: bool, signal: Signal, transferred: bool, otherSideCall: bool, ghost due: Due, fuel: nat)
      requires Valid() && Owns(vc) && !vc.deletable && (signal == Eos ==> WriterDone(Other(vc)))
      requires Paid(vc, writing, due, Some(signal)) && due.moved == transferred && due.wakes == (transferred && !otherSideCall)
      modifies this, active, passive, aToP, pToA
      ensures Valid() && Evolved()
      ensures Met(vc, writing, due)
      ensures transferred && otherSideCall ==> Reenabled(Other(vc), !writing)
      decreases fuel, 2, if otherSideCall then 1 else 3, 3
    {
      hide Paid, Met, Told, Reenabled, ValidLifetime, EosIsLate;
      hide CoreBuffer.Conserved;
      Tell(vc, writing, signal, due, fuel);
      Finish(vc, writing, transferred, otherSideCall, due, fuel);
    }

    /** What is left after the callback. */
    method Finish(vc: PluginVC, writing: bool, transferred: bool, otherSideCall: bool, ghost due: Due, fuel: nat)
      requires Valid() && Owns(vc) && !vc.deletable
      requires Told(vc, writing, due) && due.moved == transferred && due.wakes == (transferred && !otherSideCall)
      modifies this, active, passive, aToP, pToA
      ensures Valid() && Evolved() && Met(vc, writing, due)
      ensures transferred && otherSideCall ==> Reenabled(Other(vc), !writing)
      decreases fuel, 2, if otherSideCall then 1 else 3, 2
    {
      hide Valid;
      if transferred {
        Transferred(vc, writing, otherSideCall, due, fuel);
      }
    }

    /** The callback. */
    method Tell(vc: PluginVC, writing: bool, signal: Signal, ghost due: Due, fuel: nat)
      requires Valid() && Owns(vc) && (signal == Eos ==> WriterDone(Other(vc)))
      requires Paid(vc, writing, due, Some(signal))
      modifies this, active, passive, aToP, pToA
      ensures Valid() && Evolved() && Told(vc, writing, due)
      decreases fuel, 2, 0, 0
    {
      hide Valid;
      Notify(vc, signal, fuel);
    }

    method Transferred(vc: PluginVC, writing: bool, otherSideCall: bool, ghost due: Due, fuel: nat)
      requires Valid() && Owns(vc) && !vc.deletable
      requires Told(vc, writing, due) && due.moved && due.wakes == !otherSideCall
      modifies this, active, passive, aToP, pToA
      ensures Valid() && Evolved() && Met(vc, writing, due)
      ensures otherSideCall ==> Reenabled(Other(vc), !writing)
      decreases fuel, 2, if otherSideCall then 1 else 3, 1
    {
      hide Valid;
      Apart();
      var now: int := *;
      UpdateInactiveTime(vc, now);
      Wake(vc, writing, otherSideCall, fuel);
    }

    method UpdateInactiveTime(vc: PluginVC, now: int)
      requires Valid() && Owns(vc) && !vc.deletable
      modifies vc`inactiveAt, vc`renewals
      ensures Valid() && Evolved() && vc.renewals == old(vc.renewals) + 1
    {
      vc.UpdateInactiveTime(now);
      TransferStep(vc, true);
    }

    method Wake(vc: PluginVC, writing: bool, otherSideCall: bool, fuel: nat)
      requires Valid() && Owns(vc)
      modifies this, active, passive, aToP, pToA
      ensures Valid() && Evolved() && Woken(Other(vc), !writing, otherSideCall)
      decreases fuel, 2, if otherSideCall then 1 else 3, 0
    {
      var other := Other(vc);
      if !other.closed {
        if !otherSideCall {
          var peerHit: bool, room: int := *, *;
          if writing {
            var said := ProcessReadSide(other, true, peerHit, room, fuel);
          } else {
            var said := ProcessWriteSide(other, true, peerHit, room, fuel);
          }
        } else {
          ReenableVio(other, !writing);
        }
      }
    }

    /** VIO::reenable, which does nothing on a VIO that was never started. */
    method ReenableVio(vc: PluginVC, writing: bool)
      requires Valid() && Owns(vc) && !vc.closed
      modifies vc
      ensures Valid() && Evolved() && Woken(vc, writing, true)
    {
      var started := if writing then vc.write.op else vc.read.op;
      if started {
        vc.Reenable(writing);
        HalfStep(vc);
      }
    }

    method ProcessReadSide(vc: PluginVC, otherSideCall: bool, hit: bool, room: int, fuel: nat) returns (say: Option<Signal>)
      requires Valid() && Owns(vc) && !vc.deletable
      modifies this, active, passive, aToP, pToA
      ensures Valid() && Evolved()
      ensures vc.needRead ==> vc.Pending()
      ensures say == if hit then old(vc.ReadSays(Incoming(vc), WriterDone(Other(vc)), room)) else None
      ensures say == Some(Eos) <==>
        && hit && old(vc.Reading()) && !old(vc.read.shutdown)
        && (old(Other(vc).closed) || old(Other(vc).write.shutdown))
        && old(vc.read.ndone > vc.read.nbytes || (vc.read.ndone < vc.read.nbytes && Incoming(vc).data == []))
      ensures say == Some(Eos) && old(Incoming(vc).data) == [] ==> Incoming(vc).ended
      ensures Met(vc, false, old(Owing(vc, false, hit, room, !otherSideCall)))
      ensures otherSideCall && old(Owing(vc, false, hit, room, !otherSideCall)).moved ==> Reenabled(Other(vc), true)
      ensures say == None ==> log == old(log)
      decreases fuel, 2, if otherSideCall then 1 else 3, 5
    {
      hide Met, Owing, Paid, Reenabled, Valid;
      hide PluginVC.WriteSays, PluginVC.ReadSays, PluginVC.Writing, PluginVC.Reading;
      Apart();
      ghost var due := Owing(vc, false, hit, room, !otherSideCall);
      var moved;
      say, moved := VisitRead(vc, hit, room, !otherSideCall);
      Answer(vc, false, say, moved > 0, otherSideCall, due, fuel);
    }

    method VisitRead(vc: PluginVC, hit: bool, room: int, ghost direct: bool) returns (say: Option<Signal>, moved: nat)
      requires Valid() && Owns(vc) && !vc.deletable
      modifies active, passive, aToP, pToA
      ensures Valid() && Evolved()
      ensures (vc.needRead ==> vc.Pending()) && (say == Some(Eos) ==> WriterDone(Other(vc)))
      ensures Paid(vc, false, old(Owing(vc, false, hit, room, direct)), say)
      ensures var due := old(Owing(vc, false, hit, room, direct));
        due.moved == (moved > 0) && due.wakes == (moved > 0 && direct)
      ensures moved > 0 ==> say.Some?
      ensures say == if hit then old(vc.ReadSays(Incoming(vc), WriterDone(Other(vc)), room)) else None
      ensures say == Some(Eos) <==>
        && hit && old(vc.Reading()) && !old(vc.read.shutdown)
        && (old(Other(vc).closed) || old(Other(vc).write.shutdown))
        && old(vc.read.ndone > vc.read.nbytes || (vc.read.ndone < vc.read.nbytes && Incoming(vc).data == []))
      ensures say == Some(Eos) && old(Incoming(vc).data) == [] ==> Incoming(vc).ended
    {
      say, moved := vc.TryRead(Incoming(vc), WriterDone(Other(vc)), hit, room);
      TransferStep(vc, false);
    }

    // ---- closing and deleting ---------------------------------------------------------------

    /** Valid, except that the events of `vc` are being handled. */
    ghost predicate ValidButFor(vc: PluginVC)
      reads this, active, passive, aToP, pToA
    {
      && active.isActive && !passive.isActive && aToP != pToA
      && Other(vc).Sound()
      && aToP.Conserved() && pToA.Conserved()
      && (aToP.ended ==> WriterDone(active)) && (pToA.ended ==> WriterDone(passive))
      && EosIsLate() && ValidLifetime()
    }

    method Destroy()
      requires destroys == 0
      modifies this`destroys
      ensures destroys == 1
    {
      destroys := destroys + 1;
    }

    /** attempt_delete, whose failing branch (state_send_accept_failed) needs the acceptor's lock. */
    method AttemptDelete(hit: bool)
      requires destroys == 0 && !failQueued
      modifies this`destroys, this`failQueued
      ensures var now := active.deletable && (passive.deletable || (!connected && hit));
        destroys == (if now then 1 else 0)
      ensures failQueued == (active.deletable && !passive.deletable && !connected && !hit)
    {
      if active.deletable {
        if passive.deletable {
          Destroy();
        } else if !connected {
          if hit {
            Destroy();
          } else {
            failQueued := true;
          }
        }
      }
    }

    /** The closed half becomes deletable, with no event left; an open peer is made to look; and
        the pair is freed exactly when nobody is left. */
    method ProcessClose(vc: PluginVC, hit: bool)
      requires ValidButFor(vc) && Quiet() && Owns(vc) && vc.closed && !vc.deletable
      requires (SmRetry in vc.queue ==> vc.sm) && (CoreRetry in vc.queue ==> vc.coreRetry)
      requires (ActiveTimer in vc.queue ==> vc.activeTimer) && (InactiveTimer in vc.queue ==> vc.inactiveTimer)
      modifies this`destroys, this`failQueued, active, passive
      ensures Valid() && Quiet() && vc.deletable && vc.queue == {}
      ensures !Other(vc).closed && connected ==>
        Other(vc).needRead && Other(vc).needWrite && Other(vc).coreRetry
      ensures destroys == if Other(vc).deletable || (!connected && hit) then 1 else 0
      ensures Other(vc).closed == old(Other(vc).closed) && Other(vc).deletable == old(Other(vc).deletable)
      ensures vc.closed && Remembered() && SameRenewals()
    {
      Retire(vc);
      AttemptDelete(hit);
    }

    /** The part of process_close before attempt_delete. */
    method Retire(vc: PluginVC)
      requires Other(vc).Sound() && Quiet() && Owns(vc) && active != passive && vc.closed && !vc.deletable
      requires (SmRetry in vc.queue ==> vc.sm) && (CoreRetry in vc.queue ==> vc.coreRetry)
      requires (ActiveTimer in vc.queue ==> vc.activeTimer) && (InactiveTimer in vc.queue ==> vc.inactiveTimer)
      modifies active, passive
      ensures active.Sound() && passive.Sound() && Quiet() && vc.deletable && vc.queue == {}
      ensures !Other(vc).closed && connected ==>
        Other(vc).needRead && Other(vc).needWrite && Other(vc).coreRetry
      ensures !connected ==> unchanged(Other(vc))
      ensures Remembered() && SameRenewals() && Other(vc).deletable == old(Other(vc).deletable)
      ensures active.SameState() && passive.SameState()
    {
      var other := Other(vc);
      vc.CancelAll();
      if !other.closed && connected {
        other.Nudge();
      }
    }

    // ---- event delivery ---------------------------------------------------------------------

    /** Entering a handler changes nothing the rest of the pair depends on. */
    twostate lemma FireStep(vc: PluginVC)
      requires old(Valid()) && Owns(vc) && old(vc.queue != {} && !vc.deletable)
      requires unchanged(this) && unchanged(aToP) && unchanged(pToA) && unchanged(Other(vc))
      requires vc.Sound() && vc.closed == old(vc.closed) && vc.deletable == old(vc.deletable)
      requires vc.read == old(vc.read) && vc.write == old(vc.write)
      ensures Valid()
    {
      assert old(!vc.Idle()) by {
        var slot :| slot in old(vc.queue);
        match slot case SmRetry => case CoreRetry => case ActiveTimer => case InactiveTimer =>
      }
    }

    /** The retry branch of main_handler: a side that needs it is visited. */
    method RetryTurn(vc: PluginVC, tries: Tries, fuel: nat)
      requires Valid() && Owns(vc) && !vc.deletable && !vc.closed
      modifies this, active, passive, aToP, pToA
      ensures Valid() && Evolved()
      ensures !vc.closed && (vc.needRead || vc.needWrite) ==> vc.Pending()
      ensures Fulfilled(vc, old(DutyOf(vc, SmRetry, tries, 0)))
    {
      hide Met, Owing, Valid;
      ghost var needed, due := vc.needRead, Owing(vc, false, tries.read, tries.room, true);
      if vc.needRead {
        ProcessSide(vc, false, tries.read, tries.room, fuel);
      }
      RetryWrite(vc, tries, needed, due, fuel);
    }

    method RetryWrite(vc: PluginVC, tries: Tries, ghost before: bool, ghost due: Due, fuel: nat)
      requires Valid() && Owns(vc) && !vc.deletable && (before ==> Met(vc, false, due))
      modifies this, active, passive, aToP, pToA
      ensures Valid() && Evolved() && (before ==> Met(vc, false, due))
      ensures !vc.closed && vc.needWrite ==> vc.Pending()
      ensures old(vc.needWrite && !vc.closed) ==>
        Met(vc, true, old(Owing(vc, true, tries.write, tries.room, true))) && vc.writeVisits > old(vc.writeVisits)
      ensures !old(vc.needWrite && !vc.closed) ==> unchanged(this) && unchanged(vc) && unchanged(Other(vc))
    {
      hide Met, Owing;
      if vc.needWrite && !vc.closed {
        ghost var mine := Owing(vc, true, tries.write, tries.room, true);
        OwingVisits(vc, true, tries.write, tries.room);
        ProcessSide(vc, true, tries.write, tries.room, fuel);
        MetVisits(vc, true, mine);
        if before {
          MetStays(vc, false, due);
        }
      }
    }

    /** The retry events of an open half. */
    method RetryBody(vc: PluginVC, slot: Slot, tries: Tries, fuel: nat)
      requires Valid() && Quiet() && Owns(vc) && slot in vc.queue && !vc.closed && (slot == SmRetry || slot == CoreRetry)
      modifies this, active, passive, aToP, pToA
      ensures AfterBody(vc)
      ensures Fulfilled(vc, old(DutyOf(vc, slot, tries, 0)))
    {
      hide Met, Owing, ValidLifetime, EosIsLate;
      hide CoreBuffer.Conserved;
      var say := Arrive(vc, slot, tries, 0);
      RetryTurn(vc, tries, fuel);
    }

    /** The timers of an open half. */
    method TimerBody(vc: PluginVC, slot: Slot, tries: Tries, now: int, fuel: nat)
      requires Valid() && Quiet() && Owns(vc) && slot in vc.queue && !vc.closed && (slot == ActiveTimer || slot == InactiveTimer)
      modifies this, active, passive, aToP, pToA
      ensures AfterBody(vc)
      ensures if old(vc.Expires(slot, tries.timeout, now)) then
          old(log) + [Notice(vc.isActive, if slot == ActiveTimer then ActiveTimeout else InactivityTimeout)] <= log
        else
          log == old(log)
    {
      hide Met, Owing, ValidLifetime, EosIsLate;
      hide CoreBuffer.Conserved;
      var say := Arrive(vc, slot, tries, now);
      if say {
        Notify(vc, if slot == ActiveTimer then ActiveTimeout else InactivityTimeout, fuel);
      }
    }

    /** The state at the end of a handler's body. */
    twostate predicate AfterBody(vc: PluginVC)
      reads this, active, passive, aToP, pToA, vc
    {
      && Valid() && vc.depth == 1 && Other(vc).depth == 0 && !vc.deletable
      && Later()
      && destroys == old(destroys) && Other(vc).deletable == old(Other(vc).deletable)
      && (!vc.closed && (vc.needRead || vc.needWrite) ==> vc.Pending())
    }

    /** main_handler from the moment its locks are held until it first calls out.  What is owed stays the same. */
    method Arrive(vc: PluginVC, slot: Slot, tries: Tries, now: int) returns (say: bool)
      requires Valid() && Quiet() && Owns(vc) && slot in vc.queue && !vc.closed
      modifies vc`queue, vc`depth, vc`sm, vc`coreRetry, vc`activeTimer, vc`inactiveTimer, vc`inactiveAt
      ensures Valid() && vc.depth == 1 && !vc.deletable && active != passive
      ensures slot == ActiveTimer || slot == InactiveTimer ==> (vc.needRead || vc.needWrite ==> vc.Pending())
      ensures say == old(vc.Expires(slot, tries.timeout, now))
      ensures Owing(vc, false, tries.read, tries.room, true) == old(Owing(vc, false, tries.read, tries.room, true))
      ensures Owing(vc, true, tries.write, tries.room, true) == old(Owing(vc, true, tries.write, tries.room, true))
    {
      hide Owing, Valid;
      say := BeginHandler(vc, slot, tries.timeout, now);
      SameOwing(vc, false, tries.read, tries.room);
      SameOwing(vc, true, tries.write, tries.room);
    }

    method BeginHandler(vc: PluginVC, slot: Slot, timeoutHit: bool, now: int) returns (say: bool)
      requires Valid() && Quiet() && Owns(vc) && slot in vc.queue && !vc.closed
      modifies vc`queue, vc`depth, vc`sm, vc`coreRetry, vc`activeTimer, vc`inactiveTimer, vc`inactiveAt
      ensures Valid() && vc.depth == 1 && !vc.deletable && active != passive
      ensures slot == ActiveTimer || slot == InactiveTimer ==> (vc.needRead || vc.needWrite ==> vc.Pending())
      ensures say == old(vc.Expires(slot, timeoutHit, now))
    {
      say := vc.Arrive(slot, timeoutHit, now);
      FireStep(vc);
    }

    /** main_handler on an open half, all of it but the final process_close. */
    method HandlerBody(vc: PluginVC, slot: Slot, tries: Tries, now: int, fuel: nat)
      requires Valid() && Quiet() && Owns(vc) && slot in vc.queue && !vc.closed
      modifies this, active, passive, aToP, pToA
      ensures AfterBody(vc)
      ensures Fulfilled(vc, old(DutyOf(vc, slot, tries, now)))
    {
      if slot == SmRetry || slot == CoreRetry {
        RetryBody(vc, slot, tries, fuel);
      } else {
        TimerBody(vc, slot, tries, now, fuel);
      }
    }

    /** Any event that reaches a closed half runs process_close. */
    method CloseTurn(vc: PluginVC, slot: Slot, hit: bool)
      requires Valid() && Quiet() && Owns(vc) && slot in vc.queue && vc.closed && !vc.deletable
      modifies this`destroys, this`failQueued, active, passive
      ensures Valid() && Quiet() && vc.closed && vc.deletable && Remembered()
      ensures destroys == if Other(vc).deletable || (!connected && hit) then 1 else 0
    {
      vc.Deliver(slot);
      ProcessClose(vc, hit);
    }

    method LeaveHandler(vc: PluginVC, hit: bool, ghost duty: Duty)
      requires Valid() && Owns(vc) && vc.depth == 1 && Other(vc).depth == 0 && !vc.deletable
      requires destroys == 0
      requires !vc.closed && (vc.needRead || vc.needWrite) ==> vc.Pending()
      requires Fulfilled(vc, duty)
      modifies this`destroys, this`failQueued, active, passive
      ensures Valid() && Quiet() && (vc.closed <==> vc.deletable)
      ensures Later() && Fulfilled(vc, duty)
    {
      hide Fulfilled;
      Depart(vc, hit);
      FulfilledStays(vc, duty);
    }

    method Depart(vc: PluginVC, hit: bool)
      requires Valid() && Owns(vc) && vc.depth == 1 && Other(vc).depth == 0 && !vc.deletable
      requires destroys == 0
      requires !vc.closed && (vc.needRead || vc.needWrite) ==> vc.Pending()
      modifies this`destroys, this`failQueued, active, passive
      ensures Valid() && Quiet() && (vc.closed <==> vc.deletable) && Later()
    {
      vc.depth := vc.depth - 1;
      if vc.closed {
        ProcessClose(vc, hit);
      }
    }

    /** One delivered event.  `locks` says whether the locks of both VIOs were obtained.  With them, the event of
        an open half does what it is for. */
    method MainHandler(vc: PluginVC, slot: Slot, locks: bool, tries: Tries, now: int, fuel: nat)
      requires Valid() && Quiet() && Owns(vc) && slot in vc.queue
      modifies this, active, passive, aToP, pToA
      ensures Valid() && Quiet() && Remembered()
      ensures aToP.Grew() && pToA.Grew() && old(log) <= log
      ensures old(destroys) == 0 && old(!vc.deletable)
      ensures !locks ==> unchanged(vc) && unchanged(Other(vc)) && log == old(log)
      ensures locks ==> (vc.closed <==> vc.deletable)
      ensures locks && !old(vc.closed) ==> Fulfilled(vc, old(DutyOf(vc, slot, tries, now)))
      ensures locks && !old(vc.closed) && (slot == SmRetry || slot == CoreRetry) ==> Answered(vc, tries)
    {
      hide Fulfilled, DutyOf, Answered;
      NothingLeft(vc);
      if locks {
        Handle(vc, slot, tries, now, fuel);
        if !old(vc.closed) && (slot == SmRetry || slot == CoreRetry) {
          FulfilledAnswers(vc, slot, tries, now);
        }
      } else {
        vc.Missed(slot);
      }
    }

    method Handle(vc: PluginVC, slot: Slot, tries: Tries, now: int, fuel: nat)
      requires Valid() && Quiet() && Owns(vc) && slot in vc.queue && !vc.deletable && destroys == 0
      modifies this, active, passive, aToP, pToA
      ensures Valid() && Quiet() && Remembered()
      ensures aToP.Grew() && pToA.Grew() && old(log) <= log
      ensures vc.closed <==> vc.deletable
      ensures old(vc.closed) ==>
        log == old(log) && (destroys == 1 <==> Other(vc).deletable || (!connected && tries.accept))
      ensures !old(vc.closed) ==> Fulfilled(vc, old(DutyOf(vc, slot, tries, now)))
    {
      hide Fulfilled, DutyOf;
      ghost var duty := DutyOf(vc, slot, tries, now);
      if vc.closed {
        CloseTurn(vc, slot, tries.accept);
      } else {
        HandlerBody(vc, slot, tries, now, fuel);
        LeaveHandler(vc, tries.accept, duty);
      }
    }

    /** A half with an event scheduled is not deletable, and the pair is not freed. */
    lemma NothingLeft(vc: PluginVC)
      requires Valid() && Owns(vc) && vc.queue != {}
      ensures !vc.deletable && destroys == 0
    {
      var slot :| slot in vc.queue;
      match slot case SmRetry => case CoreRetry => case ActiveTimer => case InactiveTimer =>
    }

    // ---- connecting -------------------------------------------------------------------------

    method Connect(hit: bool, fuel: nat)
      requires Valid() && Quiet() && !connected && !active.closed
      modifies this, active, passive, aToP, pToA
      ensures Valid() && Quiet() && Remembered() && connected && accepted == hit && acceptQueued == !hit
      ensures aToP.Grew() && pToA.Grew() && old(log) <= log && destroys == old(destroys)
    {
      connected := true;
      SendAccept(hit, fuel);
    }

    /** state_send_accept: called by connect and again by its retry event. */
    method SendAccept(hit: bool, fuel: nat)
      requires Valid() && Quiet() && connected && !accepted && destroys == 0
      modifies this, active, passive, aToP, pToA
      ensures Valid() && Quiet() && Remembered() && connected && accepted == hit && acceptQueued == !hit
      ensures aToP.Grew() && pToA.Grew() && old(log) <= log && destroys == old(destroys)
    {
      if hit {
        acceptQueued, accepted := false, true;
        UserTurn(fuel);
      } else {
        acceptQueued := true;
      }
    }

    /** state_send_accept_failed, run again by its retry event. */
    method SendAcceptFailed(hit: bool)
      requires Valid() && failQueued
      modifies this`destroys, this`failQueued
      ensures Valid() && destroys == (if hit then 1 else 0) && failQueued == !hit
    {
      if hit {
        failQueued := false;
        Destroy();
      }
    }

    /** Any run: each step is a user operation, a connect or the delivery of some scheduled event,
        with any outcome of the locks. */
    method Run(steps: nat, fuel: nat)
      requires Valid() && Quiet()
      modifies this, active, passive, aToP, pToA
      ensures Valid() && Quiet() && Remembered()
      ensures aToP.Grew() && pToA.Grew() && old(log) <= log && old(destroys) <= destroys <= 1
      ensures old(aToP.ended) ==> aToP.delivered == aToP.taken == old(aToP.taken)
      ensures old(pToA.ended) ==> pToA.delivered == pToA.taken == old(pToA.taken)
    {
      for i := 0 to steps
        invariant Valid() && Quiet() && Remembered()
        invariant aToP.Grew() && pToA.Grew() && old(log) <= log && old(destroys) <= destroys
      {
        Step(fuel);
      }
      if old(aToP.ended) {
        aToP.EndIsFinal();
      }
      if old(pToA.ended) {
        pToA.EndIsFinal();
      }
    }

    method Step(fuel: nat)
      requires Valid() && Quiet()
      modifies this, active, passive, aToP, pToA
      ensures Valid() && Quiet() && Remembered()
      ensures aToP.Grew() && pToA.Grew() && old(log) <= log && old(destroys) <= destroys
    {
      var slot: Slot, onActive: bool, locks: bool, hit: bool, tries: Tries, now: int := *, *, *, *, *, *;
      var vc := if onActive then active else passive;
      if {
        case true => UserTurn(fuel);
        case slot in vc.queue => MainHandler(vc, slot, locks, tries, now, fuel);
        case !connected && !active.closed => Connect(hit, fuel);
        case acceptQueued => SendAccept(hit, fuel);
        case failQueued => SendAcceptFailed(hit);
      }
    }
  }
}
