/** The channel state machine: a channel object shared by its endpoints,
    holding the open-endpoint counters, the two availability flags and the
    store of its mode, and the `Sender` and `Receiver` handles that refer to
    it until they are closed. Every operation is one sequential step of the
    cooperative scheduler; where the task would be suspended the operation
    returns `WouldBlock`. */
module Channels {
  import opened Values
  import opened Registry
  import opened Fanout

  /** The three channel classes: work queue, broadcast and rendezvous. */
  datatype Mode = QueueMode | BroadcastMode | RendezvousMode

  /** How `create` picks the channel class: broadcast whenever it is asked
      for, whatever the capacity; otherwise rendezvous for capacity 0 and a
      work queue for every other capacity, whose constructor refuses a
      capacity below 1 with `ValueError`. */
  function SelectMode(capacity: int, broadcast: bool): (r: Outcome<Mode>)
    ensures r == Ok(BroadcastMode) <==> broadcast
    ensures r == Ok(RendezvousMode) <==> !broadcast && capacity == 0
    ensures r == Ok(QueueMode) <==> !broadcast && capacity >= 1
    ensures r.Err? <==> !broadcast && capacity < 0
    ensures r.Err? ==> r.error == ValueError
    ensures !r.WouldBlock?
  {
    if broadcast then Ok(BroadcastMode)
    else if capacity == 0 then Ok(RendezvousMode)
    else if capacity < 1 then Err(ValueError)
    else Ok(QueueMode)
  }

  /** The mode-specific store: the shared bounded FIFO of a work queue, one
      unbounded FIFO per receiver for broadcast, the two waiter registries of
      a rendezvous channel. */
  datatype Store =
    | QueueStore(buffer: seq<Value>)
    | BroadcastStore(mailboxes: seq<Mailbox<Receiver>>)
    | RendezvousStore(senders: seq<SenderEntry>, receivers: seq<ReceiverEntry>)

  function EmptyStore(mode: Mode): Store {
    match mode
    case QueueMode => QueueStore([])
    case BroadcastMode => BroadcastStore([])
    case RendezvousMode => RendezvousStore([], [])
  }

  /** What the events of a rendezvous channel satisfy. Events are numbered
      below `next`; `parked` holds the events that blocked senders wait on,
      and none of them has been set, nor is any of them the event of a
      registry entry (the only events the channel ever sets). */
  ghost predicate EventsConsistent(senders: seq<SenderEntry>, receivers: seq<ReceiverEntry>,
                                   next: EventId, fired: set<EventId>, parked: set<EventId>)
  {
    && (forall e :: e in fired ==> e < next)
    && (forall e :: e in parked ==> e < next)
    && parked !! fired
    && (forall i :: 0 <= i < |senders| ==> senders[i].event < next && senders[i].event !in parked)
    && (forall i :: 0 <= i < |receivers| ==> receivers[i].event < next && receivers[i].event !in parked)
  }

  /** A rendezvous send keeps the events consistent: the event the sender
      waits on is new, so it has not been set, and the wake-up event it sets
      belongs to a registry entry, so it is not one a sender waits on. */
  lemma SendKeepsEvents(senders: seq<SenderEntry>, receivers: seq<ReceiverEntry>,
                        next: EventId, fired: set<EventId>, parked: set<EventId>,
                        x: Value, task: TaskId, done: set<TaskId>)
    requires EventsConsistent(senders, receivers, next, fired, parked)
    ensures var d := PopLive(receivers, done);
      EventsConsistent(senders + [Entry(x, next + 1, task)], d.rest, next + 2,
                       fired + (if d.found.Some? then {d.found.value.event} else {}), parked + {next})
  {
    PopLiveSuffix(receivers, done);
    var d := PopLive(receivers, done);
    if d.found.Some? {
      var j :| 0 <= j < |receivers| && receivers[j] == d.found.value;
    }
    var s := senders + [Entry(x, next + 1, task)];
    assert forall i :: 0 <= i < |senders| ==> s[i] == senders[i];
  }

  /** A pass of the rendezvous receive loop keeps the events consistent: the
      acknowledgement it sets belongs to a sender's entry, and the wake-up
      event it registers is new. */
  lemma TakeKeepsEvents(senders: seq<SenderEntry>, receivers: seq<ReceiverEntry>,
                        next: EventId, fired: set<EventId>, parked: set<EventId>,
                        task: TaskId, done: set<TaskId>)
    requires EventsConsistent(senders, receivers, next, fired, parked)
    ensures var d := PopLive(senders, done);
      if d.found.Some?
      then EventsConsistent(d.rest, receivers, next, fired + {d.found.value.event}, parked)
      else EventsConsistent([], receivers + [Entry((), next, task)], next + 1, fired, parked)
  {
    PopLiveSuffix(senders, done);
    var d := PopLive(senders, done);
    if d.found.Some? {
      var j :| 0 <= j < |senders| && senders[j] == d.found.value;
    } else {
      var r := receivers + [Entry((), next, task)];
      assert forall i :: 0 <= i < |receivers| ==> r[i] == receivers[i];
    }
  }

  /** One pass of an `*_eventually` retry loop: the loop returns a value,
      goes round again, raises an error, or the task is suspended. */
  datatype Step<+T> = Return(value: T) | Again | Raise(error: ChannelError) | Suspend

  /** How one `send` outcome steers `send_eventually`: a sent value does not
      end the loop, `Disconnected` is swallowed and the task waits for a
      receiver (at once satisfied when one is open), and every other error
      escapes. The loop therefore never returns. */
  function SendRetry(o: Outcome<()>, receiversAvailable: bool): (step: Step<()>)
    ensures !step.Return?
    ensures step.Raise? <==> o.Err? && o.error != Disconnected
    ensures step.Raise? ==> step.error == o.error
    ensures step == Again <==> o.Ok? || (o == Err(Disconnected) && receiversAvailable)
  {
    match o
    case Ok(_) => Again
    case WouldBlock => Suspend
    case Err(e) =>
      if e != Disconnected then Raise(e)
      else if receiversAvailable then Again
      else Suspend
  }

  /** How one `receive` outcome steers `receive_eventually`: a received value
      is returned, `Disconnected` is swallowed and the task waits for a
      sender, and every other error escapes. */
  function ReceiveRetry(o: Outcome<Value>, sendersAvailable: bool): (step: Step<Value>)
    ensures step.Return? <==> o.Ok?
    ensures step.Return? ==> step.value == o.value
    ensures step.Raise? <==> o.Err? && o.error != Disconnected
    ensures step.Raise? ==> step.error == o.error
    ensures step == Again <==> o == Err(Disconnected) && sendersAvailable
  {
    match o
    case Ok(x) => Return(x)
    case WouldBlock => Suspend
    case Err(e) =>
      if e != Disconnected then Raise(e)
      else if sendersAvailable then Again
      else Suspend
  }

  /** How `__anext__` turns a `receive` outcome into the iteration's: the end
      of the iteration replaces `Disconnected`, and only it. */
  function IterationOutcome(o: Outcome<Value>): (r: Outcome<Value>)
    ensures r == Err(StopIteration) <==> o == Err(Disconnected) || o == Err(StopIteration)
    ensures o != Err(Disconnected) ==> r == o
    ensures r != Err(Disconnected)
  {
    if o == Err(Disconnected) then Err(StopIteration) else o
  }

  class Channel {
    const mode: Mode
    const capacity: int
    const copyOnSend: bool
    const onlySingleProducer: bool
    const onlySingleConsumer: bool

    var openSenders: int
    var openReceivers: int
    var sendersAvailable: bool
    var receiversAvailable: bool
    var store: Store
    /** The numbering of the events a rendezvous channel creates, and the set
        of them that have been set. */
    var nextEvent: EventId
    var fired: set<EventId>

    /** The endpoints attached and not yet closed, and the events blocked
        rendezvous senders wait on. */
    ghost var senders: set<Sender>
    ghost var receivers: set<Receiver>
    ghost var parked: set<EventId>

    ghost predicate Valid()
      reads this
    {
      && openSenders == |senders|
      && openReceivers == |receivers|
      && (sendersAvailable <==> openSenders > 0)
      && (receiversAvailable <==> openReceivers > 0)
      && (onlySingleProducer ==> openSenders <= 1)
      && (onlySingleConsumer ==> openReceivers <= 1)
      && match mode
         case QueueMode =>
           store.QueueStore? && 1 <= capacity && |store.buffer| <= capacity
         case BroadcastMode =>
           store.BroadcastStore? && DistinctOwners(store.mailboxes) && Owners(store.mailboxes) == receivers
         case RendezvousMode =>
           store.RendezvousStore? &&
           EventsConsistent(store.senders, store.receivers, nextEvent, fired, parked)
    }

    constructor (mode: Mode, capacity: int, copyOnSend: bool, onlySingleProducer: bool, onlySingleConsumer: bool)
      requires mode == QueueMode ==> capacity >= 1
      ensures Valid()
      ensures this.mode == mode && this.capacity == capacity && this.copyOnSend == copyOnSend
      ensures this.onlySingleProducer == onlySingleProducer && this.onlySingleConsumer == onlySingleConsumer
      ensures openSenders == 0 && openReceivers == 0 && !sendersAvailable && !receiversAvailable
      ensures senders == {} && receivers == {} && store == EmptyStore(mode)
      ensures fired == {} && parked == {}
    {
      this.mode := mode;
      this.capacity := capacity;
      this.copyOnSend := copyOnSend;
      this.onlySingleProducer := onlySingleProducer;
      this.onlySingleConsumer := onlySingleConsumer;
      openSenders, openReceivers := 0, 0;
      sendersAvailable, receiversAvailable := false, false;
      store := EmptyStore(mode);
      nextEvent, fired := 0, {};
      senders, receivers, parked := {}, {}, {};
    }

    // ---- two-state descriptions of the transitions ----

    twostate predicate SendersUnchanged()
      reads this
    {
      senders == old(senders) && openSenders == old(openSenders) && sendersAvailable == old(sendersAvailable)
    }

    twostate predicate ReceiversUnchanged()
      reads this
    {
      receivers == old(receivers) && openReceivers == old(openReceivers) && receiversAvailable == old(receiversAvailable)
    }

    twostate predicate EventsUnchanged()
      reads this
    {
      nextEvent == old(nextEvent) && fired == old(fired) && parked == old(parked)
    }

    twostate predicate StoreUnchanged()
      reads this
    {
      store == old(store) && EventsUnchanged()
    }

    /** `add_sender`: one more open sender, and the flag is set. */
    twostate predicate SenderAdded(new s: Sender)
      reads this
    {
      && senders == old(senders) + {s} && s !in old(senders)
      && openSenders == old(openSenders) + 1 && sendersAvailable
      && ReceiversUnchanged() && StoreUnchanged()
    }

    /** `remove_sender`: one open sender fewer; the flag is cleared exactly
        when the count reaches 0. */
    twostate predicate SenderRemoved(new s: Sender)
      reads this
    {
      && s in old(senders) && senders == old(senders) - {s}
      && openSenders == old(openSenders) - 1 && (sendersAvailable <==> openSenders != 0)
      && ReceiversUnchanged() && StoreUnchanged()
    }

    /** `add_receiver`: one more open receiver, the flag is set and, in
        broadcast mode, the receiver gets a new empty mailbox. */
    twostate predicate ReceiverAdded(new r: Receiver)
      reads this
    {
      && receivers == old(receivers) + {r} && r !in old(receivers)
      && openReceivers == old(openReceivers) + 1 && receiversAvailable
      && SendersUnchanged() && EventsUnchanged()
      && if mode == BroadcastMode
         then old(store).BroadcastStore? && store == BroadcastStore(Attach(old(store).mailboxes, r))
         else store == old(store)
    }

    /** `remove_receiver`: one open receiver fewer, the flag is cleared
        exactly when the count reaches 0 and, in broadcast mode, the
        receiver's mailbox is popped with whatever it still holds. */
    twostate predicate ReceiverRemoved(new r: Receiver)
      reads this
    {
      && r in old(receivers) && receivers == old(receivers) - {r}
      && openReceivers == old(openReceivers) - 1 && (receiversAvailable <==> openReceivers != 0)
      && SendersUnchanged() && EventsUnchanged()
      && if mode == BroadcastMode
         then old(store).BroadcastStore? && r in Owners(old(store).mailboxes)
              && store == BroadcastStore(Detach(old(store).mailboxes, r))
         else store == old(store)
    }

    /** The bounded put of a work queue: appended when there is room, the
        task blocks when the buffer is full. */
    twostate predicate Enqueued(x: Value, new o: Outcome<()>)
      reads this
    {
      && old(store).QueueStore? && EventsUnchanged()
      && if |old(store).buffer| < capacity
         then o == Ok(()) && store == QueueStore(old(store).buffer + [x])
         else o == WouldBlock && store == old(store)
    }

    /** The get of a work queue: the oldest item, or the task blocks when the
        buffer is empty. */
    twostate predicate Dequeued(new o: Outcome<Value>)
      reads this
    {
      && old(store).QueueStore? && EventsUnchanged()
      && if old(store).buffer == []
         then o == WouldBlock && store == old(store)
         else o == Ok(old(store).buffer[0]) && store == QueueStore(old(store).buffer[1..])
    }

    /** Work-queue `send`: `TypeError` for an uncopyable value under
        `copy_on_send` comes first, then `Disconnected` when no receiver is
        open, then the (copied) value is put into the buffer. */
    twostate predicate QueueSent(v: Value, new o: Outcome<()>)
      reads this
    {
      var p := PrepareForSend(copyOnSend, v);
      && SendersUnchanged() && ReceiversUnchanged()
      && if p.Err? then o == Err(TypeError) && StoreUnchanged()
         else if !receiversAvailable then o == Err(Disconnected) && StoreUnchanged()
         else Enqueued(p.value, o)
    }

    /** Work-queue `receive`: `Disconnected` as soon as no sender is open,
        even if items are still buffered; otherwise a get. */
    twostate predicate QueueReceived(new o: Outcome<Value>)
      reads this
    {
      && SendersUnchanged() && ReceiversUnchanged()
      && if !sendersAvailable then o == Err(Disconnected) && StoreUnchanged()
         else Dequeued(o)
    }

    /** Broadcast `send`: the same two checks as a work queue, then one item
        for every mailbox registered at that moment, as `FanOut` describes. */
    twostate predicate BroadcastSent(v: Value, new o: Outcome<()>)
      reads this
    {
      && SendersUnchanged() && ReceiversUnchanged() && EventsUnchanged()
      && old(store).BroadcastStore?
      && if copyOnSend && !v.supportsCopy then o == Err(TypeError) && store == old(store)
         else if !receiversAvailable then o == Err(Disconnected) && store == old(store)
         else o == Ok(()) && store == BroadcastStore(FanOut(old(store).mailboxes, v, copyOnSend))
    }

    /** The get on receiver `r`'s own mailbox. */
    twostate predicate Taken(new r: Receiver, new o: Outcome<Value>)
      reads this
    {
      && old(store).BroadcastStore? && r in Owners(old(store).mailboxes) && EventsUnchanged()
      && var boxes := old(store).mailboxes;
         var i := IndexOf(boxes, r);
         if boxes[i].items == []
         then o == WouldBlock && store == old(store)
         else o == Ok(boxes[i].items[0])
              && store == BroadcastStore(boxes[i := boxes[i].(items := boxes[i].items[1..])])
    }

    /** Broadcast `receive` on `r`: `Disconnected` as soon as no sender is
        open, even if `r`'s mailbox still holds items; otherwise a get on it. */
    twostate predicate BroadcastReceived(new r: Receiver, new o: Outcome<Value>)
      reads this
    {
      && SendersUnchanged() && ReceiversUnchanged()
      && if !sendersAvailable then o == Err(Disconnected) && StoreUnchanged()
         else Taken(r, o)
    }

    /** Rendezvous `send` from task `task`: after the same two checks, the
        sender creates the event it waits on (`old(nextEvent)`) and a second,
        different event that goes into its registry entry; it appends the
        entry, sets the wake-up event of the first waiting receiver whose
        task is not done (discarding the done ones in front of it), and
        blocks on the first event. */
    twostate predicate RendezvousSent(v: Value, task: TaskId, done: set<TaskId>, new o: Outcome<()>)
      reads this
    {
      var p := PrepareForSend(copyOnSend, v);
      && SendersUnchanged() && ReceiversUnchanged()
      && old(store).RendezvousStore?
      && if p.Err? then o == Err(TypeError) && StoreUnchanged()
         else if !receiversAvailable then o == Err(Disconnected) && StoreUnchanged()
         else
           var d := PopLive(old(store).receivers, done);
           && o == WouldBlock
           && nextEvent == old(nextEvent) + 2
           && parked == old(parked) + {old(nextEvent)}
           && store == RendezvousStore(old(store).senders + [Entry(p.value, old(nextEvent) + 1, task)], d.rest)
           && fired == old(fired) + (if d.found.Some? then {d.found.value.event} else {})
    }

    /** One pass of the rendezvous receive loop by task `task`: the first
        waiting sender whose task is not done gets its acknowledgement event
        set and its value is returned, the done ones in front of it being
        discarded; with no such sender the receiver registers under a new
        wake-up event and blocks. */
    twostate predicate RendezvousTaken(task: TaskId, done: set<TaskId>, new o: Outcome<Value>)
      reads this
    {
      && old(store).RendezvousStore? && parked == old(parked)
      && var d := PopLive(old(store).senders, done);
         if d.found.Some?
         then && o == Ok(d.found.value.payload)
              && store == RendezvousStore(d.rest, old(store).receivers)
              && fired == old(fired) + {d.found.value.event}
              && nextEvent == old(nextEvent)
         else && o == WouldBlock
              && store == RendezvousStore([], old(store).receivers + [Entry((), old(nextEvent), task)])
              && fired == old(fired)
              && nextEvent == old(nextEvent) + 1
    }

    /** Rendezvous `receive`: `Disconnected` when no sender is open, then a
        pass of the receive loop. */
    twostate predicate RendezvousReceived(task: TaskId, done: set<TaskId>, new o: Outcome<Value>)
      reads this
    {
      && SendersUnchanged() && ReceiversUnchanged()
      && if !sendersAvailable then o == Err(Disconnected) && StoreUnchanged()
         else RendezvousTaken(task, done, o)
    }

    /** `send` of the channel's mode. */
    twostate predicate Sent(v: Value, task: TaskId, done: set<TaskId>, new o: Outcome<()>)
      reads this
    {
      match mode
      case QueueMode => QueueSent(v, o)
      case BroadcastMode => BroadcastSent(v, o)
      case RendezvousMode => RendezvousSent(v, task, done, o)
    }

    /** `receive` of the channel's mode on receiver `r`. */
    twostate predicate Received(new r: Receiver, task: TaskId, done: set<TaskId>, new o: Outcome<Value>)
      reads this
    {
      match mode
      case QueueMode => QueueReceived(o)
      case BroadcastMode => BroadcastReceived(r, o)
      case RendezvousMode => RendezvousReceived(task, done, o)
    }

    // ---- liveness tracking ----

    method AddSender(s: Sender)
      requires Valid() && s !in senders
      requires onlySingleProducer ==> !sendersAvailable
      modifies this
      ensures Valid() && SenderAdded(s)
    {
      openSenders := openSenders + 1;
      sendersAvailable := true;
      senders := senders + {s};
    }

    method RemoveSender(s: Sender)
      requires Valid() && s in senders
      modifies this
      ensures Valid() && SenderRemoved(s)
    {
      openSenders := openSenders - 1;
      senders := senders - {s};
      if openSenders == 0 {
        sendersAvailable := false;
      }
    }

    method AddReceiver(r: Receiver)
      requires Valid() && r !in receivers
      requires onlySingleConsumer ==> !receiversAvailable
      modifies this
      ensures Valid() && ReceiverAdded(r)
    {
      CountReceiverIn(r);
      if mode == BroadcastMode {
        AttachOwners(store.mailboxes, r);
        store := BroadcastStore(Attach(store.mailboxes, r));
      }
    }

    /** The counting that every channel class does on `add_receiver`; the
        broadcast class then registers a mailbox. */
    method CountReceiverIn(r: Receiver)
      requires r !in receivers && openReceivers == |receivers|
      modifies this
      ensures receivers == old(receivers) + {r} && openReceivers == old(openReceivers) + 1
      ensures openReceivers == |receivers| && receiversAvailable
      ensures SendersUnchanged() && StoreUnchanged()
    {
      openReceivers := openReceivers + 1;
      receiversAvailable := true;
      receivers := receivers + {r};
    }

    method RemoveReceiver(r: Receiver)
      requires Valid() && r in receivers
      modifies this
      ensures Valid() && ReceiverRemoved(r)
    {
      CountReceiverOut(r);
      if mode == BroadcastMode {
        DetachOwners(store.mailboxes, r);
        store := BroadcastStore(Detach(store.mailboxes, r));
      }
    }

    /** The counting that every channel class does on `remove_receiver`; the
        broadcast class then pops the receiver's mailbox. */
    method CountReceiverOut(r: Receiver)
      requires r in receivers && openReceivers == |receivers| && (receiversAvailable <==> openReceivers > 0)
      modifies this
      ensures receivers == old(receivers) - {r} && openReceivers == old(openReceivers) - 1
      ensures openReceivers == |receivers| && (receiversAvailable <==> openReceivers != 0)
      ensures SendersUnchanged() && StoreUnchanged()
    {
      openReceivers := openReceivers - 1;
      receivers := receivers - {r};
      if openReceivers == 0 {
        receiversAvailable := false;
      }
    }

    // ---- send and receive, dispatched on the mode ----

    method Send(v: Value, task: TaskId, done: set<TaskId>) returns (o: Outcome<()>)
      requires Valid()
      modifies this
      ensures Valid() && Sent(v, task, done, o)
    {
      match mode
      case QueueMode => o := QueueSend(v);
      case BroadcastMode => o := BroadcastSend(v);
      case RendezvousMode => o := RendezvousSend(v, task, done);
    }

    method Receive(r: Receiver, task: TaskId, done: set<TaskId>) returns (o: Outcome<Value>)
      requires Valid() && r in receivers
      modifies this
      ensures Valid() && Received(r, task, done, o)
    {
      match mode
      case QueueMode => o := QueueReceive();
      case BroadcastMode => o := BroadcastReceive(r);
      case RendezvousMode => o := RendezvousReceive(task, done);
    }

    // ---- work queue ----

    method QueueSend(v: Value) returns (o: Outcome<()>)
      requires Valid() && mode == QueueMode
      modifies this
      ensures Valid() && QueueSent(v, o)
    {
      var p := PrepareForSend(copyOnSend, v);
      if p.Err? {
        return Err(TypeError);
      }
      if !receiversAvailable {
        return Err(Disconnected);
      }
      o := Put(p.value);
    }

    /** The buffer put, also what a task blocked on a full buffer performs
        when it resumes. */
    method Put(x: Value) returns (o: Outcome<()>)
      requires Valid() && mode == QueueMode
      modifies this
      ensures Valid() && SendersUnchanged() && ReceiversUnchanged() && Enqueued(x, o)
    {
      if |store.buffer| < capacity {
        store := QueueStore(store.buffer + [x]);
        o := Ok(());
      } else {
        o := WouldBlock;
      }
    }

    method QueueReceive() returns (o: Outcome<Value>)
      requires Valid() && mode == QueueMode
      modifies this
      ensures Valid() && QueueReceived(o)
    {
      if !sendersAvailable {
        return Err(Disconnected);
      }
      o := Get();
    }

    /** The buffer get, also what a task blocked on an empty buffer performs
        when it resumes (without checking for senders again). */
    method Get() returns (o: Outcome<Value>)
      requires Valid() && mode == QueueMode
      modifies this
      ensures Valid() && SendersUnchanged() && ReceiversUnchanged() && Dequeued(o)
    {
      if store.buffer == [] {
        o := WouldBlock;
      } else {
        o := Ok(store.buffer[0]);
        store := QueueStore(store.buffer[1..]);
      }
    }

    // ---- broadcast ----

    method BroadcastSend(v: Value) returns (o: Outcome<()>)
      requires Valid() && mode == BroadcastMode
      modifies this
      ensures Valid() && BroadcastSent(v, o)
    {
      if copyOnSend && !v.supportsCopy {
        return Err(TypeError);
      }
      if !receiversAvailable {
        return Err(Disconnected);
      }
      var boxes := FanOutLoop(store.mailboxes, v, copyOnSend);
      FanOutAppendsOnce(old(store).mailboxes, v, copyOnSend);
      store := BroadcastStore(boxes);
      o := Ok(());
    }

    method BroadcastReceive(r: Receiver) returns (o: Outcome<Value>)
      requires Valid() && mode == BroadcastMode && r in receivers
      modifies this
      ensures Valid() && BroadcastReceived(r, o)
    {
      if !sendersAvailable {
        return Err(Disconnected);
      }
      o := Take(r);
    }

    /** The get on `r`'s mailbox, also what a task blocked on an empty
        mailbox performs when it resumes. */
    method Take(r: Receiver) returns (o: Outcome<Value>)
      requires Valid() && mode == BroadcastMode && r in receivers
      modifies this
      ensures Valid() && SendersUnchanged() && ReceiversUnchanged() && Taken(r, o)
    {
      var boxes := store.mailboxes;
      var i := IndexOf(boxes, r);
      if boxes[i].items == [] {
        o := WouldBlock;
      } else {
        o := Ok(boxes[i].items[0]);
        SetItemsOwners(boxes, i, boxes[i].items[1..]);
        store := BroadcastStore(boxes[i := boxes[i].(items := boxes[i].items[1..])]);
      }
    }

    // ---- rendezvous ----

    method RendezvousSend(v: Value, task: TaskId, done: set<TaskId>) returns (o: Outcome<()>)
      requires Valid() && mode == RendezvousMode
      modifies this
      ensures Valid() && RendezvousSent(v, task, done, o)
      ensures o == WouldBlock ==> old(nextEvent) in parked && old(nextEvent) !in fired
    {
      var p := PrepareForSend(copyOnSend, v);
      if p.Err? {
        return Err(TypeError);
      }
      if !receiversAvailable {
        return Err(Disconnected);
      }
      SendKeepsEvents(store.senders, store.receivers, nextEvent, fired, parked, p.value, task, done);
      ParkSender(p.value, task, done);
      o := WouldBlock;
    }

    /** What a rendezvous send does once past its checks: two new events,
        the sender's entry, the wake-up of the first live receiver, and the
        wait on the first event. */
    method ParkSender(x: Value, task: TaskId, done: set<TaskId>)
      requires store.RendezvousStore?
      modifies this
      ensures var d := PopLive(old(store).receivers, done);
        && store == RendezvousStore(old(store).senders + [Entry(x, old(nextEvent) + 1, task)], d.rest)
        && fired == old(fired) + (if d.found.Some? then {d.found.value.event} else {})
        && parked == old(parked) + {old(nextEvent)}
        && nextEvent == old(nextEvent) + 2
      ensures SendersUnchanged() && ReceiversUnchanged()
    {
      var waitOn := nextEvent;
      var ack := nextEvent + 1;
      var d := Drain(store.receivers, done);
      store := RendezvousStore(store.senders + [Entry(x, ack, task)], d.rest);
      fired := fired + (if d.found.Some? then {d.found.value.event} else {});
      parked := parked + {waitOn};
      nextEvent := nextEvent + 2;
    }

    method RendezvousReceive(task: TaskId, done: set<TaskId>) returns (o: Outcome<Value>)
      requires Valid() && mode == RendezvousMode
      modifies this
      ensures Valid() && RendezvousReceived(task, done, o)
    {
      if !sendersAvailable {
        return Err(Disconnected);
      }
      o := RendezvousTake(task, done);
    }

    /** One pass of the rendezvous receive loop; a receiver woken by a
        sender runs it again. */
    method RendezvousTake(task: TaskId, done: set<TaskId>) returns (o: Outcome<Value>)
      requires Valid() && mode == RendezvousMode
      modifies this
      ensures Valid() && SendersUnchanged() && ReceiversUnchanged() && RendezvousTaken(task, done, o)
    {
      var d := Drain(store.senders, done);
      TakeKeepsEvents(store.senders, store.receivers, nextEvent, fired, parked, task, done);
      if d.found.Some? {
        fired := fired + {d.found.value.event};
        store := store.(senders := d.rest);
        o := Ok(d.found.value.payload);
      } else {
        var wakeUp := nextEvent;
        nextEvent := nextEvent + 1;
        store := RendezvousStore([], store.receivers + [Entry((), wakeUp, task)]);
        o := WouldBlock;
      }
    }
  }

  class Sender {
    /** The channel this endpoint is bound to; `null` once it is closed. */
    var channel: Channel?

    ghost predicate Valid()
      reads this, channel
    {
      channel != null ==> channel.Valid() && this in channel.senders
    }

    /** Allocation and `_channel` assignment, without the attach step. */
    constructor Bind(c: Channel)
      ensures channel == c
    {
      channel := c;
    }

    /** `is_closed`: the endpoint no longer refers to a channel; while it
        does, it is one of the channel's open senders. */
    predicate IsClosed(): (b: bool)
      reads this, channel
      ensures b <==> channel == null
      ensures !b && Valid() ==> this in channel.senders && channel.openSenders >= 1
    {
      channel == null
    }

    /** `same_channel`: false once either endpoint is closed, otherwise
        whether both refer to the same channel object. */
    predicate SameChannel(other: Sender): (r: bool)
      reads this, other
      ensures channel == null || other.channel == null ==> !r
      ensures channel != null && other == this ==> r
    {
      channel != null && other.channel != null && channel == other.channel
    }

    /** `Sender._create`: with `only_single_producer`, refused with
        `ValueError` while a sender is open, leaving the channel as it was;
        otherwise a new open sender attached to `c`. */
    static method Create(c: Channel) returns (o: Outcome<Sender>)
      requires c.Valid()
      modifies c
      ensures c.Valid()
      ensures o.Err? <==> c.onlySingleProducer && old(c.sendersAvailable)
      ensures o.Err? ==> o.error == ValueError && unchanged(c)
      ensures o.Ok? ==> fresh(o.value) && o.value.channel == c && o.value.Valid() && c.SenderAdded(o.value)
      ensures !o.WouldBlock?
    {
      var s := new Sender.Bind(c);
      if c.onlySingleProducer && c.sendersAvailable {
        return Err(ValueError);
      }
      c.AddSender(s);
      o := Ok(s);
    }

    /** `clone`: `ValueError` on a closed endpoint, and always `ValueError`
        on an open one with `only_single_producer` (this endpoint is open, so
        the flag is set); otherwise a new sender on the same channel. */
    method Clone() returns (o: Outcome<Sender>)
      requires Valid()
      modifies channel
      ensures Valid()
      ensures channel == null ==> o == Err(ValueError)
      ensures channel != null && channel.onlySingleProducer ==> o == Err(ValueError) && unchanged(channel)
      ensures channel != null && !channel.onlySingleProducer ==>
        o.Ok? && fresh(o.value) && o.value.channel == channel && o.value.Valid() && channel.SenderAdded(o.value)
      ensures o.Ok? ==> SameChannel(o.value) && o.value.SameChannel(this)
    {
      if channel == null {
        return Err(ValueError);
      }
      o := Create(channel);
    }

    /** `derive_receiver`: `Closed` on a closed endpoint, otherwise what
        `Receiver._create` does on the same channel. */
    method DeriveReceiver() returns (o: Outcome<Receiver>)
      requires Valid()
      modifies channel
      ensures Valid()
      ensures channel == null ==> o == Err(Closed)
      ensures channel != null ==>
        && (o.Err? <==> channel.onlySingleConsumer && old(channel.receiversAvailable))
        && (o.Err? ==> o.error == ValueError && unchanged(channel))
        && (o.Ok? ==> fresh(o.value) && o.value.channel == channel && o.value.Valid() && channel.ReceiverAdded(o.value))
        && !o.WouldBlock?
    {
      if channel == null {
        return Err(Closed);
      }
      o := Receiver.Create(channel);
    }

    /** `send`: `Closed` on a closed endpoint, otherwise the channel's send. */
    method Send(v: Value, task: TaskId, done: set<TaskId>) returns (o: Outcome<()>)
      requires Valid()
      modifies channel
      ensures Valid()
      ensures channel == null ==> o == Err(Closed)
      ensures channel != null ==> channel.Sent(v, task, done, o)
    {
      if channel == null {
        return Err(Closed);
      }
      o := channel.Send(v, task, done);
    }

    /** `wait_for_receivers`: `Closed` on a closed endpoint; returns at once
        while a receiver is open, otherwise the task waits. */
    method WaitForReceivers() returns (o: Outcome<()>)
      requires Valid()
      ensures channel == null ==> o == Err(Closed)
      ensures channel != null ==> (o == Ok(()) <==> channel.openReceivers > 0)
      ensures channel != null ==> (o == WouldBlock <==> channel.openReceivers == 0)
    {
      if channel == null {
        return Err(Closed);
      }
      o := if channel.receiversAvailable then Ok(()) else WouldBlock;
    }

    /** One pass of `send_eventually`'s loop. A successful send does not end
        the loop: there is no way out of it but an error other than
        `Disconnected`. */
    method SendEventuallyStep(v: Value, task: TaskId, done: set<TaskId>) returns (step: Step<()>)
      requires Valid()
      modifies channel
      ensures Valid()
      ensures !step.Return?
      ensures channel == null ==> step == Raise(Closed)
      ensures channel != null ==>
        exists o :: channel.Sent(v, task, done, o) && step == SendRetry(o, channel.receiversAvailable)
    {
      var o := Send(v, task, done);
      assert channel != null ==> channel.Sent(v, task, done, o);
      match o
      case Ok(_) =>
        step := Again;
      case WouldBlock =>
        step := Suspend;
      case Err(e) =>
        if e != Disconnected {
          step := Raise(e);
        } else {
          var w := WaitForReceivers();
          step := if w.Ok? then Again else Suspend;
        }
      assert channel != null ==> step == SendRetry(o, channel.receiversAvailable);
    }

    /** `close`: the first call detaches the endpoint (one open sender fewer)
        and unbinds it; on a closed endpoint nothing changes. */
    method Close()
      requires Valid()
      modifies this, channel
      ensures Valid() && IsClosed()
      ensures old(channel) == null ==> unchanged(this)
      ensures old(channel) != null ==> old(channel).Valid() && old(channel).SenderRemoved(this)
      ensures forall x: Sender :: !SameChannel(x) && !x.SameChannel(this)
    {
      if channel == null {
        return;
      }
      channel.RemoveSender(this);
      channel := null;
    }
  }

  class Receiver {
    /** The channel this endpoint is bound to; `null` once it is closed. */
    var channel: Channel?

    ghost predicate Valid()
      reads this, channel
    {
      channel != null ==> channel.Valid() && this in channel.receivers
    }

    constructor Bind(c: Channel)
      ensures channel == c
    {
      channel := c;
    }

    /** `is_closed`: the endpoint no longer refers to a channel; while it
        does, it is one of the channel's open receivers. */
    predicate IsClosed(): (b: bool)
      reads this, channel
      ensures b <==> channel == null
      ensures !b && Valid() ==> this in channel.receivers && channel.openReceivers >= 1
    {
      channel == null
    }

    /** `same_channel`: false once either endpoint is closed, otherwise
        whether both refer to the same channel object. */
    predicate SameChannel(other: Receiver): (r: bool)
      reads this, other
      ensures channel == null || other.channel == null ==> !r
      ensures channel != null && other == this ==> r
    {
      channel != null && other.channel != null && channel == other.channel
    }

    /** `Receiver._create`: with `only_single_consumer`, refused with
        `ValueError` while a receiver is open, leaving the channel as it was;
        otherwise a new open receiver attached to `c`. */
    static method Create(c: Channel) returns (o: Outcome<Receiver>)
      requires c.Valid()
      modifies c
      ensures c.Valid()
      ensures o.Err? <==> c.onlySingleConsumer && old(c.receiversAvailable)
      ensures o.Err? ==> o.error == ValueError && unchanged(c)
      ensures o.Ok? ==> fresh(o.value) && o.value.channel == c && o.value.Valid() && c.ReceiverAdded(o.value)
      ensures !o.WouldBlock?
    {
      var r := new Receiver.Bind(c);
      if c.onlySingleConsumer && c.receiversAvailable {
        return Err(ValueError);
      }
      c.AddReceiver(r);
      o := Ok(r);
    }

    method Clone() returns (o: Outcome<Receiver>)
      requires Valid()
      modifies channel
      ensures Valid()
      ensures channel == null ==> o == Err(ValueError)
      ensures channel != null && channel.onlySingleConsumer ==> o == Err(ValueError) && unchanged(channel)
      ensures channel != null && !channel.onlySingleConsumer ==>
        o.Ok? && fresh(o.value) && o.value.channel == channel && o.value.Valid() && channel.ReceiverAdded(o.value)
      ensures o.Ok? ==> SameChannel(o.value) && o.value.SameChannel(this)
    {
      if channel == null {
        return Err(ValueError);
      }
      o := Create(channel);
    }

    /** `derive_sender`: `Closed` on a closed endpoint, otherwise what
        `Sender._create` does on the same channel. */
    method DeriveSender() returns (o: Outcome<Sender>)
      requires Valid()
      modifies channel
      ensures Valid()
      ensures channel == null ==> o == Err(Closed)
      ensures channel != null ==>
        && (o.Err? <==> channel.onlySingleProducer && old(channel.sendersAvailable))
        && (o.Err? ==> o.error == ValueError && unchanged(channel))
        && (o.Ok? ==> fresh(o.value) && o.value.channel == channel && o.value.Valid() && channel.SenderAdded(o.value))
        && !o.WouldBlock?
    {
      if channel == null {
        return Err(Closed);
      }
      o := Sender.Create(channel);
    }

    /** `receive`: `Closed` on a closed endpoint, otherwise the channel's
        receive for this endpoint. */
    method Receive(task: TaskId, done: set<TaskId>) returns (o: Outcome<Value>)
      requires Valid()
      modifies channel
      ensures Valid()
      ensures channel == null ==> o == Err(Closed)
      ensures channel != null ==> channel.Received(this, task, done, o)
    {
      if channel == null {
        return Err(Closed);
      }
      o := channel.Receive(this, task, done);
    }

    /** `__anext__`: a receive, where `Disconnected` ends the iteration
        instead of propagating. */
    method Next(task: TaskId, done: set<TaskId>) returns (o: Outcome<Value>)
      requires Valid()
      modifies channel
      ensures Valid()
      ensures channel == null ==> o == Err(Closed)
      ensures channel != null ==>
        exists r :: channel.Received(this, task, done, r) && o == IterationOutcome(r)
    {
      var r := Receive(task, done);
      assert channel != null ==> channel.Received(this, task, done, r);
      o := if r == Err(Disconnected) then Err(StopIteration) else r;
      assert o == IterationOutcome(r);
    }

    /** `wait_for_senders`: `Closed` on a closed endpoint; returns at once
        while a sender is open, otherwise the task waits. */
    method WaitForSenders() returns (o: Outcome<()>)
      requires Valid()
      ensures channel == null ==> o == Err(Closed)
      ensures channel != null ==> (o == Ok(()) <==> channel.openSenders > 0)
      ensures channel != null ==> (o == WouldBlock <==> channel.openSenders == 0)
    {
      if channel == null {
        return Err(Closed);
      }
      o := if channel.sendersAvailable then Ok(()) else WouldBlock;
    }

    /** One pass of `receive_eventually`'s loop: a received value is
        returned, `Disconnected` waits for a sender and goes round again. */
    method ReceiveEventuallyStep(task: TaskId, done: set<TaskId>) returns (step: Step<Value>)
      requires Valid()
      modifies channel
      ensures Valid()
      ensures channel == null ==> step == Raise(Closed)
      ensures channel != null ==>
        exists o :: channel.Received(this, task, done, o) && step == ReceiveRetry(o, channel.sendersAvailable)
    {
      var o := Receive(task, done);
      assert channel != null ==> channel.Received(this, task, done, o);
      match o
      case Ok(x) =>
        step := Return(x);
      case WouldBlock =>
        step := Suspend;
      case Err(e) =>
        if e != Disconnected {
          step := Raise(e);
        } else {
          var w := WaitForSenders();
          step := if w.Ok? then Again else Suspend;
        }
      assert channel != null ==> step == ReceiveRetry(o, channel.sendersAvailable);
    }

    /** `close`: the first call detaches the endpoint (one open receiver
        fewer, and in broadcast mode its mailbox is dropped) and unbinds it;
        on a closed endpoint nothing changes. */
    method Close()
      requires Valid()
      modifies this, channel
      ensures Valid() && IsClosed()
      ensures old(channel) == null ==> unchanged(this)
      ensures old(channel) != null ==> old(channel).Valid() && old(channel).ReceiverRemoved(this)
      ensures forall x: Receiver :: !SameChannel(x) && !x.SameChannel(this)
    {
      if channel == null {
        return;
      }
      channel.RemoveReceiver(this);
      channel := null;
    }
  }

  /** `create`: the mode `SelectMode` picks, and a fresh channel with exactly
      one open sender and one open receiver, returned in that order. */
  method Create(capacity: int, broadcast: bool, copyOnSend: bool,
                onlySingleProducer: bool, onlySingleConsumer: bool)
    returns (o: Outcome<(Sender, Receiver)>)
    ensures o.Err? <==> SelectMode(capacity, broadcast).Err?
    ensures o.Err? ==> o.error == ValueError
    ensures !o.WouldBlock?
    ensures o.Ok? ==>
      var s := o.value.0;
      var r := o.value.1;
      && fresh(s) && fresh(r) && s.channel != null && r.channel == s.channel && fresh(s.channel)
      && s.Valid() && r.Valid()
      && s.channel.senders == {s} && s.channel.receivers == {r}
      && s.channel.openSenders == 1 && s.channel.openReceivers == 1
      && s.channel.mode == SelectMode(capacity, broadcast).value
      && s.channel.capacity == capacity
      && s.channel.copyOnSend == copyOnSend
      && s.channel.onlySingleProducer == onlySingleProducer
      && s.channel.onlySingleConsumer == onlySingleConsumer
      && s.channel.store == (if broadcast then BroadcastStore([Mailbox(r, [])]) else EmptyStore(s.channel.mode))
  {
    var m := SelectMode(capacity, broadcast);
    if m.Err? {
      return Err(ValueError);
    }
    var c := new Channel(m.value, capacity, copyOnSend, onlySingleProducer, onlySingleConsumer);
    var so := Sender.Create(c);
    var ro := Receiver.Create(c);
    match so
    case Ok(s) =>
      match ro
      case Ok(r) =>
        o := Ok((s, r));
  }
}
