/** The deletion protocol of TransformTerminus (proxy/Transform.cc).  The terminus counts the events
    it is waiting for; the handler that takes the last one, once both the terminus and the
    transform connection around it are closed, deletes the connection.

    Four parties use the terminus: the owner of the connection, the last transform (the writer), a
    transform before it that may close the rest of the chain (upstream), and the handler.  Closing the
    connection closes the transforms one after the other and, at the end of the chain, the terminus.
    Each step is one access to a shared variable, or one call that schedules an event.

    The owner calls in with the mutex of its continuation, which is also that of the terminus, so it and
    the handler exclude each other.  `shared` says whether the transforms have that mutex too, as those
    of TSTransformCreate do; a null transform of TransformControl has one of its own. */
module TransformTermination {

  datatype Operation = Io | Reenable | Close | ChainClose

  /** Where a client stands in an operation.  `Chain` is about to close the last transform, `Chained`
      about to look at its link to the terminus; `Counted` is past the increment of the event count,
      `Marked` past setting m_closed, `Cleared` past clearing the operations, and `Unlinking` about
      to cut the link. */
  datatype Client =
    | Idle
    | Chain
    | Chained
    | Begun(op: Operation)
    | Checked
    | Counted(op: Operation)
    | Marked(op: Operation)
    | Cleared(op: Operation)
    | Unlinking
    | Gone

  /** Where the handler stands in handle_event.  It tries its locks before it calls anybody back, and
      does not try again afterwards. */
  datatype Handler =
    | Ready
    | Entered
    | SawClosed(closed: bool)
    | SawBoth(deletable: bool)
    | Decremented(deletable: bool)
    | Trying
    | Calling
    | Retrying

  datatype Choice =
    | WriterBegins(op: Operation)
    | OwnerBegins(op: Operation)
    | OwnerCloses
    | UpstreamCloses
    | WriterMoves
    | OwnerMoves
    | UpstreamMoves
    | Delivers
    | HandlerMoves(lockMissed: bool)

  /** The increments of a client whose event is still to be scheduled. */
  function Owed(c: Client): int {
    if c.Counted? || c.Marked? || c.Cleared? then 1 else 0
  }

  /** The event the handler has taken but not yet counted off, or the retry it has counted but
      not yet scheduled. */
  function Held(h: Handler): int {
    if h.Entered? || h.SawClosed? || h.SawBoth? || h.Retrying? then 1 else 0
  }

  predicate Inside(c: Client) {
    c != Idle && c != Gone
  }

  /** In an operation of the terminus itself. */
  predicate InTerminus(c: Client) {
    c.Begun? || c == Checked || Owed(c) == 1
  }

  /** In the part of a close of the chain that concerns the last transform. */
  predicate InChain(c: Client) {
    c == Chain || c == Chained || c == Unlinking
  }

  predicate Closes(op: Operation) {
    op == Close || op == ChainClose
  }

  /** Whether the next step of a client schedules an event. */
  function Schedules(c: Client): int {
    if c.Cleared? || (c.Counted? && !Closes(c.op)) then 1 else 0
  }

  /** Where a client stands after its next step, with this event count and this link. */
  function ClientNext(c: Client, eventCount: int, linked: bool): Client {
    match c
    case Chain => Chained
    case Chained => if linked then Begun(ChainClose) else Gone
    case Begun(op) => if op != Reenable then Counted(op) else if eventCount == 0 then Checked else Idle
    case Checked => Counted(Reenable)
    case Counted(op) => if Closes(op) then Marked(op) else Idle
    case Marked(op) => Cleared(op)
    case Cleared(op) => if op == ChainClose then Unlinking else Idle
    case Unlinking => Gone
    case _ => c
  }

  /** Where the handler stands after its next step. */
  function HandlerNext(h: Handler, closed: bool, tvcClosed: bool, eventCount: int, lockMissed: bool): Handler {
    match h
    case Entered => SawClosed(closed)
    case SawClosed(sawClosed) => SawBoth(sawClosed && tvcClosed)
    case SawBoth(deletable) => Decremented(deletable && eventCount == 1)
    case Decremented(_) => if closed && tvcClosed then Ready else Trying
    case Trying => if lockMissed then Retrying else Calling
    case _ => Ready
  }

  class TransformTerminus {
    const shared: bool         // the transforms have the mutex of the terminus
    var eventCount: int
    var closed: bool           // m_closed
    var tvcClosed: bool        // m_tvc->m_closed
    var transformClosed: bool  // m_closed of the last transform
    var linked: bool           // the m_output_vc of the last transform is the terminus
    var writer: Client
    var owner: Client
    var upstream: Client
    var handler: Handler
    var scheduled: int         // events scheduled and not delivered
    var deletions: int
    ghost var seen: bool       // some event has found m_tvc->m_closed set
    ghost var reached: bool    // the owner's close found the chain intact, and closes the terminus
    var touched: bool          // the connection was used after it was deleted
    ghost var passes: nat      // how often the handler got past its locks, to its callbacks

    constructor (shared: bool)
      ensures Valid() && this.shared == shared && AllIdle()
      ensures linked && !transformClosed && !closed && deletions == 0 && !touched && !seen
    {
      this.shared := shared;
      eventCount, closed, tvcClosed, transformClosed, linked := 0, false, false, false, true;
      writer, owner, upstream, handler, scheduled := Idle, Idle, Idle, Ready, 0;
      deletions, seen, reached, touched, passes := 0, false, false, false, 0;
    }

    /** No party is at work, and the connection is not closed. */
    predicate AllIdle()
      reads this
    {
      writer == Idle && owner == Idle && upstream == Idle && handler == Ready && eventCount == 0
    }

    /** The count is the number of events scheduled, still to be scheduled, or being taken. */
    ghost predicate CountIsExact()
      reads this`eventCount, this`scheduled, this`writer, this`owner, this`upstream, this`handler
    {
      scheduled >= 0 && eventCount == scheduled + Owed(writer) + Owed(owner) + Owed(upstream) + Held(handler)
    }

    /** What each party may be doing. */
    ghost predicate Roles()
      reads this`writer, this`owner, this`upstream
    {
      && !(writer.Chain? || writer.Chained? || writer.Unlinking? || writer.Gone?)
      && (writer.Begun? || writer.Counted? || writer.Marked? || writer.Cleared? ==> writer.op != ChainClose)
      && (owner.Begun? || owner.Counted? ==> owner.op != Close)
      && (owner.Marked? || owner.Cleared? ==> owner.op == ChainClose)
      && upstream != Checked
      && (upstream.Begun? || upstream.Counted? || upstream.Marked? || upstream.Cleared? ==> upstream.op == ChainClose)
    }

    /** A client that closes the chain has got as far as its last transform. */
    predicate PastTransform(c: Client) {
      c == Chained || c == Unlinking || c == Gone ||
      ((c.Begun? || c.Counted? || c.Marked? || c.Cleared?) && c.op == ChainClose)
    }

    predicate PastMark(c: Client) {
      c.Marked? || c.Cleared? || c == Unlinking
    }

    ghost predicate Flags()
      reads this`closed, this`tvcClosed, this`transformClosed, this`linked, this`writer, this`owner, this`upstream
    {
      && (tvcClosed <==> owner == Chain || PastTransform(owner))
      && (PastTransform(owner) || PastTransform(upstream) ==> transformClosed)
      && (PastMark(writer) || PastMark(owner) || PastMark(upstream) || !linked ==> closed)
      && (owner == Gone || upstream == Gone <==> !linked)
      && (!linked ==> transformClosed)
    }

    /** The owner and the handler exclude each other; with a shared mutex everybody does.  The
        handler lets others in only while it calls back. */
    ghost predicate Exclusion()
      reads this`writer, this`owner, this`upstream, this`handler
    {
      && (Inside(owner) ==> handler == Ready || handler == Calling)
      && (shared ==>
            && (Inside(writer) || Inside(upstream) ==> handler == Ready || handler == Calling)
            && !(Inside(owner) && Inside(writer)) && !(Inside(owner) && Inside(upstream)) && !(Inside(writer) && Inside(upstream)))
    }

    /** What the handler has read still holds, and its decision to delete. */
    ghost predicate Reading()
      reads this
    {
      && (handler == SawClosed(true) ==> closed)
      && (handler == SawBoth(true) || handler == Decremented(true) ==> closed && tvcClosed && seen)
      && (handler == Decremented(true) && shared ==> eventCount == 0)
      && (seen ==> tvcClosed)
    }

    /** The events whose reading of the flags is to come or has found both set. */
    ghost function Promising(): int
      reads this`scheduled, this`writer, this`owner, this`upstream, this`handler
    {
      scheduled + Owed(writer) + Owed(owner) + Owed(upstream) +
      if handler == Entered || handler == SawClosed(true) || handler == SawBoth(true) then 1 else 0
    }

    ghost predicate Progress()
      reads this
    {
      && (handler == SawClosed(false) && closed ==> scheduled + Owed(writer) + Owed(owner) + Owed(upstream) >= 1)
      && (seen && closed && deletions == 0 ==> Promising() >= 1 || handler == Decremented(true))
      && (reached ==> tvcClosed)
      && (reached && !seen ==> owner == Begun(ChainClose) || Promising() >= 1 || handler.SawClosed?)
      && (owner == Begun(ChainClose) || PastMark(owner) || owner == Counted(ChainClose) ==> reached)
    }

    ghost predicate Deleting()
      reads this
    {
      && 0 <= deletions <= 1
      && (deletions == 1 ==> closed && seen && handler == Ready && owner == Gone && (shared ==> AtRest()))
      && (touched ==> deletions == 1 && !shared)
    }

    ghost predicate Valid()
      reads this
    {
      CountIsExact() && Roles() && Flags() && Exclusion() && Reading() && Progress() && Deleting()
    }

    /** Everything is closed, and no event is or will be pending. */
    predicate AtRest()
      reads this
    {
      && closed && tvcClosed && owner == Gone && writer == Idle && transformClosed && !linked
      && !InTerminus(upstream) && handler == Ready && scheduled == 0 && eventCount == 0
    }

    /** Something will still use the terminus: an operation of a transform, or an event. */
    predicate Stray()
      reads this
    {
      Inside(writer) || InTerminus(upstream) || scheduled > 0
    }

    /** The mutexes a transform needs to begin an operation, and the owner or the handler to go on. */
    predicate LetsIn()
      reads this
    {
      handler == Ready || handler == Calling
    }

    predicate TransformMayEnter()
      reads this
    {
      shared ==> LetsIn() && !Inside(owner) && !Inside(writer) && !Inside(upstream)
    }

    predicate TransformsOut()
      reads this
    {
      shared ==> !Inside(writer) && !Inside(upstream)
    }

    /** A transform that is closed starts no operation; events are delivered one at a time. */
    predicate Enabled(c: Choice)
      reads this
    {
      match c
      case WriterBegins(op) => writer == Idle && !transformClosed && op != ChainClose && TransformMayEnter()
      case OwnerBegins(op) => owner == Idle && !Closes(op) && LetsIn() && TransformsOut()
      case OwnerCloses => owner == Idle && LetsIn() && TransformsOut()
      case UpstreamCloses => upstream == Idle && TransformMayEnter()
      case WriterMoves => Inside(writer)
      case OwnerMoves => Inside(owner)
      case UpstreamMoves => Inside(upstream)
      case Delivers => scheduled > 0 && handler == Ready && !Inside(owner) && TransformsOut()
      case HandlerMoves(_) => handler != Ready && !Inside(owner) && TransformsOut()
    }

    /** One step of do_io_read or do_io_write (Io), of reenable or of do_io_close. */
    method TerminusStep(c: Client) returns (next: Client)
      requires InTerminus(c)
      modifies this`eventCount, this`closed, this`scheduled
      ensures next == ClientNext(c, old(eventCount), linked)
      ensures eventCount == old(eventCount) + if c == Checked || (c.Begun? && c.op != Reenable) then 1 else 0
      ensures scheduled == old(scheduled) + Schedules(c)
      ensures closed == (old(closed) || (c.Counted? && Closes(c.op)))
    {
      next := c;
      match c {
        case Begun(op) =>
          if op != Reenable {
            eventCount := eventCount + 1;
            next := Counted(op);
          } else if eventCount == 0 {
            next := Checked;
          } else {
            next := Idle;
          }
        case Checked =>
          eventCount := eventCount + 1;
          next := Counted(Reenable);
        case Counted(op) =>
          if Closes(op) {
            closed := true;
            next := Marked(op);
          } else {
            scheduled := scheduled + 1;
            next := Idle;
          }
        case Marked(op) =>
          next := Cleared(op);
        case Cleared(op) =>
          scheduled := scheduled + 1;
          next := if op == ChainClose then Unlinking else Idle;
      }
    }

    /** The do_io_close of the last transform: it passes on to the terminus if it is linked. */
    method PassOn(c: Client) returns (next: Client)
      requires c == Chain || c == Chained
      modifies this`transformClosed
      ensures next == ClientNext(c, eventCount, linked) && transformClosed == (old(transformClosed) || c == Chain)
    {
      if c == Chain {
        transformClosed := true;
        next := Chained;
      } else {
        next := if linked then Begun(ChainClose) else Gone;
      }
    }

    method WriterStep()
      requires Valid() && Inside(writer) && deletions == 0
      modifies this`eventCount, this`closed, this`scheduled, this`writer
      ensures Valid() && writer == ClientNext(old(writer), old(eventCount), linked)
      ensures scheduled == old(scheduled) + Schedules(old(writer))
    {
      writer := TerminusStep(writer);
    }

    method UpstreamTerminusStep()
      requires Valid() && InTerminus(upstream) && deletions == 0
      modifies this`eventCount, this`closed, this`scheduled, this`upstream
      ensures Valid() && upstream == ClientNext(old(upstream), old(eventCount), linked)
      ensures scheduled == old(scheduled) + Schedules(old(upstream))
    {
      upstream := TerminusStep(upstream);
    }

    method UpstreamPassOn()
      requires Valid() && (upstream == Chain || upstream == Chained)
      modifies this`transformClosed, this`upstream
      ensures Valid() && upstream == ClientNext(old(upstream), eventCount, linked)
    {
      upstream := PassOn(upstream);
    }

    /** The last transform cuts its link when the do_io_close of the terminus returns. */
    method UpstreamUnlink()
      requires Valid() && upstream == Unlinking
      modifies this`linked, this`upstream
      ensures Valid() && upstream == Gone && !linked
    {
      linked, upstream := false, Gone;
    }

    /** A step of the owner in do_io_read, in reenable, or in the terminus at the end of a close. */
    method OwnerTerminusStep()
      requires Valid() && InTerminus(owner)
      modifies this`eventCount, this`closed, this`scheduled, this`owner
      ensures Valid() && owner == ClientNext(old(owner), old(eventCount), linked)
      ensures scheduled == old(scheduled) + Schedules(old(owner))
    {
      owner := TerminusStep(owner);
    }

    /** TransformVConnection::do_io_close closes the last transform. */
    method OwnerClosesTransform()
      requires Valid() && owner == Chain
      modifies this`transformClosed, this`owner
      ensures Valid() && owner == Chained && transformClosed
    {
      owner := PassOn(owner);
    }

    /** The last transform passes on to the terminus if it is linked. */
    method OwnerPassOn()
      requires Valid() && owner == Chained
      modifies this`transformClosed, this`owner, this`reached
      ensures Valid() && owner == ClientNext(old(owner), eventCount, linked)
      ensures reached == (old(reached) || linked)
    {
      reached := reached || linked;
      owner := PassOn(owner);
    }

    method OwnerUnlink()
      requires Valid() && owner == Unlinking
      modifies this`linked, this`owner
      ensures Valid() && owner == Gone && !linked
    {
      linked, owner := false, Gone;
    }

    predicate HandlerMay()
      reads this
    {
      handler != Ready && !Inside(owner) && TransformsOut()
    }

    /** The handler reads the two flags. */
    method ReadFlags()
      requires Valid() && HandlerMay() && (handler == Entered || handler.SawClosed?)
      modifies this`handler, this`seen
      ensures Valid() && handler == HandlerNext(old(handler), closed, tvcClosed, eventCount, false)
      ensures seen == (old(seen) || (old(handler).SawClosed? && tvcClosed))
    {
      if handler == Entered {
        handler := SawClosed(closed);
      } else {
        seen := seen || tvcClosed;
        handler := SawBoth(handler.closed && tvcClosed);
      }
    }

    /** The handler counts its event off.  There is one, as the source asserts. */
    method CountOff()
      requires Valid() && HandlerMay() && handler.SawBoth?
      modifies this`eventCount, this`handler
      ensures Valid() && handler == HandlerNext(old(handler), closed, tvcClosed, old(eventCount), false)
      ensures old(eventCount) > 0 && eventCount == old(eventCount) - 1
    {
      var val := eventCount;
      eventCount := eventCount - 1;
      handler := Decremented(handler.deletable && val == 1);
    }

    /** The handler deletes the connection, or goes on. */
    method Decide()
      requires Valid() && HandlerMay() && handler.Decremented? && deletions == 0
      modifies this`handler, this`deletions
      ensures Valid() && handler == HandlerNext(old(handler), closed, tvcClosed, eventCount, false)
      ensures deletions == if old(handler) == Decremented(true) then 1 else 0
    {
      var deletable := handler.deletable;
      if closed && tvcClosed {
        if deletable {
          deletions := deletions + 1;
        }
        handler := Ready;
      } else {
        handler := Trying;
      }
    }

    /** The handler tries its locks, and comes back later if it misses one; then it calls back. */
    method Work(lockMissed: bool)
      requires Valid() && HandlerMay() && (handler == Trying || handler == Calling || handler == Retrying)
      modifies this`eventCount, this`scheduled, this`handler, this`passes
      ensures Valid() && handler == HandlerNext(old(handler), closed, tvcClosed, old(eventCount), lockMissed)
      // with its locks it calls back, and a missed one is counted first and scheduled next
      ensures old(handler) == Trying && !lockMissed ==>
        handler == Calling && passes == old(passes) + 1 && eventCount == old(eventCount) && scheduled == old(scheduled)
      ensures old(handler) == Trying && lockMissed ==>
        handler == Retrying && passes == old(passes) && eventCount == old(eventCount) + 1 && scheduled == old(scheduled)
      ensures old(handler) == Retrying ==>
        handler == Ready && passes == old(passes) && eventCount == old(eventCount) && scheduled == old(scheduled) + 1
      ensures old(handler) == Calling ==>
        handler == Ready && passes == old(passes) && eventCount == old(eventCount) && scheduled == old(scheduled)
    {
      if handler == Retrying {
        scheduled := scheduled + 1;
        handler := Ready;
      } else if handler == Calling {
        handler := Ready;
      } else if lockMissed {
        eventCount := eventCount + 1;
        handler := Retrying;
      } else {
        passes := passes + 1;
        handler := Calling;
      }
    }

    /** One step of handle_event. */
    method HandlerStep(lockMissed: bool)
      requires Valid() && HandlerMay() && deletions == 0
      modifies this`eventCount, this`scheduled, this`handler, this`deletions, this`seen, this`passes
      ensures Valid()
      ensures handler == HandlerNext(old(handler), closed, tvcClosed, old(eventCount), lockMissed)
      ensures RetriesWell(lockMissed)
      ensures deletions == 1 <==> old(handler) == Decremented(true)
      ensures scheduled == old(scheduled) + if old(handler) == Retrying then 1 else 0
      ensures seen == (old(seen) || (old(handler).SawClosed? && tvcClosed))
    {
      hide Valid;
      match handler {
        case Entered => ReadFlags();
        case SawClosed(_) => ReadFlags();
        case SawBoth(_) => CountOff();
        case Decremented(_) => Decide();
        case Trying => Work(lockMissed);
        case Calling => Work(lockMissed);
        case Retrying => Work(lockMissed);
      }
    }

    /** The handler calls back only with its locks.  A missed lock is counted, and in its next step scheduled. */
    twostate predicate RetriesWell(new lockMissed: bool)
      reads this`handler, this`eventCount, this`scheduled, this`passes
    {
      && passes == old(passes) + (if old(handler) == Trying && !lockMissed then 1 else 0)
      && (handler == Calling <==> old(handler) == Trying && !lockMissed)
      && (old(handler) == Trying && lockMissed ==> handler == Retrying && eventCount == old(eventCount) + 1)
      && (old(handler) == Retrying ==> handler == Ready && scheduled == old(scheduled) + 1)
      && (handler == Retrying ==> old(handler) == Trying && lockMissed)
    }

    method WriterBegin(op: Operation)
      requires Valid() && Enabled(WriterBegins(op)) && deletions == 0
      modifies this`writer
      ensures Valid() && writer == Begun(op)
    {
      writer := Begun(op);
    }

    method OwnerBegin(op: Operation)
      requires Valid() && Enabled(OwnerBegins(op))
      modifies this`owner
      ensures Valid() && owner == Begun(op)
    {
      owner := Begun(op);
    }

    /** TransformVConnection::do_io_close, as far as m_closed. */
    method OwnerClose()
      requires Valid() && Enabled(OwnerCloses)
      modifies this`tvcClosed, this`owner
      ensures Valid() && tvcClosed && owner == Chain
    {
      tvcClosed, owner := true, Chain;
    }

    method UpstreamClose()
      requires Valid() && Enabled(UpstreamCloses)
      modifies this`upstream
      ensures Valid() && upstream == Chain
    {
      upstream := Chain;
    }

    method Deliver()
      requires Valid() && Enabled(Delivers) && deletions == 0
      modifies this`scheduled, this`handler
      ensures Valid() && scheduled == old(scheduled) - 1 && handler == Entered
    {
      scheduled, handler := scheduled - 1, Entered;
    }

    method OwnerStep()
      requires Valid() && Inside(owner)
      modifies this`eventCount, this`closed, this`scheduled, this`transformClosed, this`linked, this`owner, this`reached
      ensures Valid() && owner == ClientNext(old(owner), old(eventCount), old(linked))
      ensures scheduled == old(scheduled) + Schedules(old(owner)) && linked == (old(linked) && old(owner) != Unlinking)
    {
      if InTerminus(owner) {
        OwnerTerminusStep();
      } else if owner == Unlinking {
        OwnerUnlink();
      } else if owner == Chain {
        OwnerClosesTransform();
      } else {
        OwnerPassOn();
      }
    }

    method UpstreamStep()
      requires Valid() && Inside(upstream) && (deletions == 1 ==> InChain(upstream))
      modifies this`eventCount, this`closed, this`scheduled, this`transformClosed, this`linked, this`upstream
      ensures Valid() && upstream == ClientNext(old(upstream), old(eventCount), old(linked))
      ensures scheduled == old(scheduled) + Schedules(old(upstream)) && linked == (old(linked) && old(upstream) != Unlinking)
    {
      if InTerminus(upstream) {
        UpstreamTerminusStep();
      } else if upstream == Unlinking {
        UpstreamUnlink();
      } else {
        UpstreamPassOn();
      }
    }

    /** Some event is to find the connection closed: it is pending, being taken, or will be scheduled by a
        transform in the middle of an operation, or by the owner's close at the end of an intact chain. */
    predicate Awaited()
      reads this
    {
      scheduled > 0 || InTerminus(writer) || InTerminus(upstream) || linked
    }

    /** A transform is about to cut the link, and nothing else is to come. */
    predicate CutPending()
      reads this
    {
      upstream == Unlinking && scheduled == 0 && !InTerminus(writer)
    }

    /** After the owner has closed the connection: what `foreseen` said then still holds, or an event has
        come to see it. */
    ghost predicate Foreseen(foreseen: bool)
      reads this
    {
      && tvcClosed
      && (handler == Ready || handler == Calling || handler == Entered || handler.SawClosed? || seen)
      && if foreseen then
           || seen || scheduled > 0 || handler == Entered || handler.SawClosed?
           || InTerminus(writer) || InTerminus(upstream) || InTerminus(owner)
           || ((owner == Chain || owner == Chained) && linked && upstream != Unlinking)
         else
           && !seen && !linked && transformClosed && scheduled == 0 && (handler == Ready || handler == Calling)
           && writer == Idle && !InTerminus(upstream) && !InTerminus(owner)
    }

    /** A step that uses the connection or its terminus: any but one in the last transform alone. */
    predicate Touches(c: Choice)
      reads this
    {
      !c.UpstreamCloses? && !(c == UpstreamMoves && InChain(upstream))
    }

    /** A deleted connection is used again exactly if a transform was in the middle of an operation on the
        terminus, or had just finished one; with a shared mutex that cannot be. */
    lemma TouchedIffStray()
      requires Valid() && deletions == 1
      ensures (exists c :: Enabled(c) && Touches(c)) <==> Stray()
      ensures shared ==> !Stray()
    {
      assert Inside(writer) ==> Enabled(WriterMoves) && Touches(WriterMoves);
      assert InTerminus(upstream) ==> Enabled(UpstreamMoves) && Touches(UpstreamMoves);
      assert !shared && scheduled > 0 ==> Enabled(Delivers) && Touches(Delivers);
    }

    /** What a step does to the party that takes it. */
    twostate predicate Moved(c: Choice)
      reads this
    {
      match c
      case WriterBegins(op) => writer == Begun(op)
      case OwnerBegins(op) => owner == Begun(op)
      case OwnerCloses => tvcClosed && owner == Chain
      case UpstreamCloses => upstream == Chain
      case WriterMoves => writer == ClientNext(old(writer), old(eventCount), old(linked))
      case OwnerMoves => owner == ClientNext(old(owner), old(eventCount), old(linked))
      case UpstreamMoves => upstream == ClientNext(old(upstream), old(eventCount), old(linked))
      case Delivers => scheduled == old(scheduled) - 1 && handler == Entered
      case HandlerMoves(lockMissed) => handler == HandlerNext(old(handler), closed, tvcClosed, old(eventCount), lockMissed)
    }

    twostate predicate KeepsForeseen()
      reads this
    {
      (old(Foreseen(true)) ==> Foreseen(true)) && (old(Foreseen(false)) ==> Foreseen(false))
    }

    method WriterTurn(c: Choice)
      requires Valid() && Enabled(c) && (c.WriterBegins? || c == WriterMoves) && deletions == 0
      modifies this`eventCount, this`closed, this`scheduled, this`writer
      ensures Valid() && Moved(c) && KeepsForeseen()
    {
      if c == WriterMoves {
        WriterStep();
      } else {
        WriterBegin(c.op);
      }
    }

    method OwnerTurn(c: Choice)
      requires Valid() && Enabled(c) && (c.OwnerBegins? || c == OwnerCloses || c == OwnerMoves)
      modifies this`eventCount, this`closed, this`scheduled, this`tvcClosed, this`transformClosed, this`linked, this`owner, this`reached
      ensures Valid() && Moved(c) && KeepsForeseen()
    {
      hide Progress, Deleting;
      match c {
        case OwnerBegins(op) => OwnerBegin(op);
        case OwnerCloses => OwnerClose();
        case OwnerMoves => OwnerStep();
      }
    }

    method UpstreamTurn(c: Choice)
      requires Valid() && Enabled(c) && (c == UpstreamCloses || c == UpstreamMoves) && (deletions == 1 ==> !Touches(c))
      modifies this`eventCount, this`closed, this`scheduled, this`transformClosed, this`linked, this`upstream
      ensures Valid() && Moved(c) && KeepsForeseen()
    {
      if c == UpstreamCloses {
        UpstreamClose();
      } else {
        UpstreamStep();
      }
    }

    method HandlerTurn(c: Choice)
      requires Valid() && Enabled(c) && (c == Delivers || c.HandlerMoves?) && deletions == 0
      modifies this`eventCount, this`scheduled, this`handler, this`deletions, this`seen, this`passes
      ensures Valid() && Moved(c) && KeepsForeseen()
      ensures c.HandlerMoves? ==> RetriesWell(c.lockMissed)
      ensures deletions == 1 <==> c.HandlerMoves? && old(handler) == Decremented(true)
    {
      if c == Delivers {
        Deliver();
      } else {
        HandlerStep(c.lockMissed);
      }
    }

    method Step(c: Choice)
      requires Valid() && Enabled(c) && !touched
      modifies this
      ensures Valid() && KeepsForeseen()
      ensures touched == (old(deletions) == 1 && old(Touches(c)))
      ensures old(deletions) <= deletions
      ensures deletions != old(deletions) <==> old(deletions) == 0 && c.HandlerMoves? && old(handler) == Decremented(true)
      ensures !touched ==> Moved(c)
      ensures !touched && c.HandlerMoves? ==> RetriesWell(c.lockMissed)
    {
      if deletions == 1 && Touches(c) {
        touched := true;
        return;
      }
      match c {
        case WriterBegins(_) => WriterTurn(c);
        case WriterMoves => WriterTurn(c);
        case OwnerBegins(_) => OwnerTurn(c);
        case OwnerCloses => OwnerTurn(c);
        case OwnerMoves => OwnerTurn(c);
        case UpstreamCloses => UpstreamTurn(c);
        case UpstreamMoves => UpstreamTurn(c);
        case Delivers => HandlerTurn(c);
        case HandlerMoves(_) => HandlerTurn(c);
      }
    }

    /** The owner has closed the connection, and nothing is left to do. */
    predicate Quiet()
      reads this
    {
      owner == Gone && writer == Idle && !Inside(upstream) && handler == Ready && scheduled == 0
    }

    /** Any interleaving.  The connection is deleted at most once.  With a shared mutex it is deleted only
        when no event is or will be pending, and never used afterwards.  When nothing is left to do it
        has been deleted exactly if some event found m_tvc->m_closed set, and certainly if the owner's
        close found the chain intact. */
    method Run(choices: seq<Choice>)
      requires Valid() && !touched
      modifies this
      ensures Valid() && old(deletions) <= deletions <= 1 && KeepsForeseen()
      ensures shared ==> !touched && (deletions == 1 ==> AtRest())
      ensures Quiet() ==> (deletions == 1 <==> seen)
      ensures Quiet() && reached ==> deletions == 1
    {
      for n := 0 to |choices|
        invariant Valid() && !touched && old(deletions) <= deletions && KeepsForeseen()
      {
        if Enabled(choices[n]) {
          Step(choices[n]);
          if touched {
            break;
          }
        }
      }
    }

    /** The owner closes, between events or in a callback of the handler, and then any interleaving follows.
        When nothing is left to do the connection has been deleted exactly if, at the close, some event was
        to find it closed.  With a shared mutex nobody is in the middle of an operation then, so that says:
        exactly if the chain is intact or an event is scheduled.  With another mutex, a transform that is
        just about to cut the link leaves it open; see EitherWay. */
    method CloseThenRun(choices: seq<Choice>)
      requires Valid() && !touched && Enabled(OwnerCloses)
      modifies this
      ensures Valid() && (shared ==> !touched)
      ensures Quiet() && !touched && !old(CutPending()) ==> (deletions == 1 <==> old(Awaited()))
      ensures Quiet() && shared ==> (deletions == 1 <==> old(linked || scheduled > 0))
    {
      ghost var awaited, open := Awaited(), CutPending();
      OwnerClose();
      assert open || Foreseen(awaited);
      Run(choices);
      assert open || Foreseen(awaited);
    }

    /** A do_io_read, do_io_write or reenable of the owner, not interrupted: afterwards an event is pending, and
        reenable adds one only if there was none. */
    method OwnerOperates(op: Operation)
      requires Valid() && Enabled(OwnerBegins(op))
      modifies this`eventCount, this`closed, this`scheduled, this`owner
      ensures Valid() && owner == Idle && eventCount > 0
      ensures scheduled == old(scheduled) + if op == Io || old(eventCount) == 0 then 1 else 0
    {
      OwnerBegin(op);
      OwnerTerminusStep();
      if owner == Checked {
        OwnerTerminusStep();
      }
      if owner.Counted? {
        OwnerTerminusStep();
      }
    }

    /** The owner's close as far as the terminus, not interrupted. */
    method CloseTransforms()
      requires Valid() && Enabled(OwnerCloses)
      modifies this`tvcClosed, this`transformClosed, this`owner, this`reached
      ensures Valid() && owner == (if linked then Begun(ChainClose) else Gone) && reached == (old(reached) || linked)
    {
      OwnerClose();
      OwnerClosesTransform();
      OwnerPassOn();
    }

    /** The owner's close in the terminus, as far as m_closed, not interrupted. */
    method CountAndMark()
      requires Valid() && owner == Begun(ChainClose)
      modifies this`eventCount, this`closed, this`scheduled, this`owner
      ensures Valid() && owner == Marked(ChainClose) && scheduled == old(scheduled)
    {
      OwnerTerminusStep();
      OwnerTerminusStep();
    }

    /** The rest of the owner's close, not interrupted. */
    method ClearAndSchedule()
      requires Valid() && owner == Marked(ChainClose)
      modifies this`eventCount, this`closed, this`scheduled, this`linked, this`owner
      ensures Valid() && owner == Gone && scheduled == old(scheduled) + 1 && !linked
    {
      OwnerTerminusStep();
      OwnerTerminusStep();
      OwnerUnlink();
    }

    /** A whole close by the owner, not interrupted. */
    method DoIoClose()
      requires Valid() && Enabled(OwnerCloses)
      modifies this`eventCount, this`closed, this`scheduled, this`tvcClosed, this`transformClosed, this`linked, this`owner, this`reached
      ensures Valid() && owner == Gone && reached == (old(reached) || old(linked))
      ensures scheduled == old(scheduled) + if old(linked) then 1 else 0
    {
      CloseTransforms();
      if linked {
        CountAndMark();
        ClearAndSchedule();
      }
    }

    /** handle_event as far as its reading of the flags, not interrupted. */
    method TakeEvent()
      requires Valid() && Enabled(Delivers) && deletions == 0
      modifies this`scheduled, this`handler, this`seen
      ensures Valid() && handler == SawBoth(closed && tvcClosed)
      ensures scheduled == old(scheduled) - 1 && seen == (old(seen) || tvcClosed)
    {
      Deliver();
      ReadFlags();
      ReadFlags();
    }

    /** handle_event, not interrupted.  Unless both are closed, it calls back if it has its locks, and
        otherwise leaves as many events as it found. */
    method HandleEvent(lockMissed: bool)
      requires Valid() && Enabled(Delivers) && deletions == 0
      modifies this`eventCount, this`scheduled, this`handler, this`deletions, this`seen, this`passes
      ensures Valid() && handler == Ready
      ensures closed && tvcClosed ==> scheduled == old(scheduled) - 1 && passes == old(passes)
      ensures !(closed && tvcClosed) && !lockMissed ==> scheduled == old(scheduled) - 1 && passes == old(passes) + 1
      ensures !(closed && tvcClosed) && lockMissed ==> scheduled == old(scheduled) && passes == old(passes)
      ensures seen == (old(seen) || tvcClosed)
      ensures deletions == 1 <==> closed && tvcClosed && eventCount == 0
    {
      TakeEvent();
      CountOff();
      Conclude(lockMissed);
    }

    /** The rest of handle_event, not interrupted. */
    method Conclude(lockMissed: bool)
      requires Valid() && HandlerMay() && handler.Decremented? && deletions == 0
      modifies this`eventCount, this`scheduled, this`handler, this`deletions, this`passes
      ensures Valid() && handler == Ready
      ensures var missed := !(closed && tvcClosed) && lockMissed;
        && scheduled == old(scheduled) + (if missed then 1 else 0)
        && eventCount == old(eventCount) + (if missed then 1 else 0)
      ensures passes == old(passes) + if !(closed && tvcClosed) && !lockMissed then 1 else 0
      ensures deletions == if old(handler) == Decremented(true) then 1 else 0
    {
      Decide();
      if handler == Trying {
        Work(lockMissed);
        Work(false);
      }
    }

    /** The owner closes when nobody else is at work, and then the events that are left are handled. */
    method CloseLast()
      requires Valid() && !touched && owner == Idle && writer == Idle && !Inside(upstream) && handler == Ready
      modifies this
      ensures Valid() && !touched && Quiet() && (deletions == 1 <==> old(linked || scheduled > 0))
    {
      ghost var awaited := linked || scheduled > 0;
      DoIoClose();
      while scheduled > 0
        invariant Valid() && !touched && owner == Gone && writer == Idle && !Inside(upstream) && handler == Ready
        invariant seen || scheduled > 0 <==> awaited
        invariant deletions == 1 ==> scheduled == 0
        decreases scheduled
      {
        HandleEvent(false);
      }
    }

    /** The owner closes while a transform is about to cut the link, and nothing else is to come.  It depends
        on who is first, the owner in finding the link or the transform in cutting it. */
    method EitherWay(ownerFirst: bool)
      requires Valid() && !touched && Enabled(OwnerCloses) && CutPending()
      modifies this
      ensures Valid() && !touched && Quiet() && (deletions == 1 <==> ownerFirst)
    {
      if ownerFirst {
        DoIoClose();
        UpstreamUnlink();
        ReturnsFromCalls();
        HandleEvent(false);
      } else {
        UpstreamUnlink();
        DoIoClose();
        ReturnsFromCalls();
      }
    }

    method ReturnsFromCalls()
      requires Valid() && LetsIn() && !Inside(owner) && TransformsOut()
      modifies this`eventCount, this`scheduled, this`handler, this`passes
      ensures Valid() && handler == Ready && scheduled == old(scheduled) && eventCount == old(eventCount)
    {
      if handler == Calling {
        Work(false);
      }
    }

    /** The last transform finds an event count of 0 in reenable. */
    method WriterTests()
      requires Valid() && Enabled(WriterBegins(Reenable)) && eventCount == 0 && deletions == 0
      modifies this`eventCount, this`closed, this`scheduled, this`writer
      ensures Valid() && writer == Checked && eventCount == scheduled == 0
    {
      WriterBegin(Reenable);
      WriterStep();
    }

    /** The last transform closes the terminus alone, not interrupted. */
    method WriterCloses()
      requires Valid() && Enabled(WriterBegins(Close)) && deletions == 0
      modifies this`eventCount, this`closed, this`scheduled, this`writer
      ensures Valid() && writer == Idle && scheduled == old(scheduled) + 1
    {
      WriterBegin(Close);
      WriterMarks();
      WriterStep();
      WriterStep();
    }

    method WriterMarks()
      requires Valid() && writer == Begun(Close) && deletions == 0
      modifies this`eventCount, this`closed, this`scheduled, this`writer
      ensures Valid() && writer == Marked(Close) && scheduled == old(scheduled)
    {
      WriterStep();
      WriterStep();
    }

    /** A transform before the last closes the rest of the chain, not interrupted. */
    method CloseRest()
      requires Valid() && Enabled(UpstreamCloses) && linked && deletions == 0
      modifies this`eventCount, this`closed, this`scheduled, this`transformClosed, this`linked, this`upstream
      ensures Valid() && upstream == Gone && !linked && scheduled == old(scheduled) + 1
    {
      CloseRestBelow();
      UpstreamUnlink();
    }

    /** The same as far as the link, which is still to be cut. */
    method CloseRestBelow()
      requires Valid() && Enabled(UpstreamCloses) && linked && deletions == 0
      modifies this`eventCount, this`closed, this`scheduled, this`transformClosed, this`upstream
      ensures Valid() && upstream == Unlinking && scheduled == old(scheduled) + 1
    {
      UpstreamReaches();
      UpstreamMarks();
      UpstreamTerminusStep();
      UpstreamTerminusStep();
    }

    method UpstreamReaches()
      requires Valid() && Enabled(UpstreamCloses) && linked
      modifies this`transformClosed, this`upstream
      ensures Valid() && upstream == Begun(ChainClose)
    {
      UpstreamClose();
      UpstreamPassOn();
      UpstreamPassOn();
    }

    method UpstreamMarks()
      requires Valid() && upstream == Begun(ChainClose) && deletions == 0
      modifies this`eventCount, this`closed, this`scheduled, this`upstream
      ensures Valid() && upstream == Marked(ChainClose) && scheduled == old(scheduled)
    {
      UpstreamTerminusStep();
      UpstreamTerminusStep();
    }
  }

  /** The last transform closes the terminus, whose event is handled, and then the owner closes the
      connection, which closes the terminus again: the connection is deleted. */
  method ClosedTwice(shared: bool) returns (t: TransformTerminus)
    ensures fresh(t) && t.Valid() && t.Quiet() && t.deletions == 1
  {
    t := new TransformTerminus(shared);
    t.WriterCloses();
    t.HandleEvent(false);
    t.CloseLast();
  }

  /** The rest of the chain is closed, and its event handled, before the owner closes the connection:
      nothing is left to do, and it has not been deleted. */
  method CutChain(shared: bool) returns (t: TransformTerminus)
    ensures fresh(t) && t.Valid() && t.Quiet() && t.deletions == 0
  {
    t := new TransformTerminus(shared);
    t.CloseRest();
    t.HandleEvent(false);
    t.CloseLast();
  }

  /** A transform with a mutex of its own has closed the rest of the chain, the event of that is handled, and
      it is about to cut the link. */
  method AboutToUnlink() returns (t: TransformTerminus)
    ensures fresh(t) && t.Valid() && !t.shared && !t.touched && t.Enabled(OwnerCloses) && t.CutPending()
  {
    t := new TransformTerminus(false);
    t.CloseRestBelow();
    t.HandleEvent(false);
  }

  /** A last transform with a mutex of its own has seen an event count of 0 in reenable when the owner
      closes the connection; it goes on with a connection that has been deleted. */
  method RacingTransform() returns (t: TransformTerminus)
    ensures fresh(t) && !t.shared && t.touched
  {
    t := new TransformTerminus(false);
    t.WriterTests();
    t.DoIoClose();
    t.HandleEvent(false);
    t.Step(WriterMoves);
  }
}
