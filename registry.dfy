/** The waiter registries of a rendezvous channel. A waiting sender is
    registered as (value, acknowledgement event, task), a waiting receiver as
    (wake-up event, task); both are FIFO deques that the other side drains
    from the front, discarding entries whose task has already finished. */
module Registry {
  import opened Values

  /** Scheduler objects are identified by numbers: a cocotb `Task` by a
      `TaskId`, a cocotb `Event` by an `EventId`. */
  type TaskId = nat
  type EventId = nat

  /** One registry entry: what it carries (the value for a sender, nothing for
      a receiver), the event its partner sets, and the task that registered. */
  datatype Entry<T> = Entry(payload: T, event: EventId, task: TaskId)

  type SenderEntry = Entry<Value>
  type ReceiverEntry = Entry<()>

  /** The position of the first entry whose task is not done, or `|q|` when
      every task in `q` is done. */
  function FirstLive<T>(q: seq<Entry<T>>, done: set<TaskId>): (k: nat)
    ensures k <= |q|
    ensures forall i :: 0 <= i < k ==> q[i].task in done
    ensures k < |q| ==> q[k].task !in done
    decreases |q|
  {
    if q == [] then 0
    else if q[0].task in done then 1 + FirstLive(q[1..], done)
    else 0
  }

  /** The result of draining a registry from the front: the first live entry,
      if there is one, and what is left of the registry after it. */
  datatype Drained<T> = Drained(found: Option<Entry<T>>, rest: seq<Entry<T>>)

  /** Popping entries off the front until one whose task is still running
      turns up: that entry, and the registry left behind. */
  function PopLive<T>(q: seq<Entry<T>>, done: set<TaskId>): (d: Drained<T>)
    ensures d.found.None? <==> forall i :: 0 <= i < |q| ==> q[i].task in done
    ensures d.found.Some? ==> d.found.value.task !in done
  {
    var k := FirstLive(q, done);
    if k < |q| then Drained(Some(q[k]), q[k + 1..]) else Drained(None, [])
  }

  /** `FirstLive` is determined by the two facts its contract states: a live
      entry at `k` preceded only by finished ones. */
  lemma {:induction false} FirstLiveAt<T>(q: seq<Entry<T>>, done: set<TaskId>, k: nat)
    requires k <= |q|
    requires forall i :: 0 <= i < k ==> q[i].task in done
    requires k < |q| ==> q[k].task !in done
    ensures FirstLive(q, done) == k
    decreases k
  {
    if k > 0 {
      assert q[0].task in done;
      assert forall i :: 0 <= i < k - 1 ==> q[1..][i] == q[i + 1];
      FirstLiveAt(q[1..], done, k - 1);
    }
  }

  /** Draining hands out the earliest entry whose task is still running,
      discards exactly the finished entries in front of it, and leaves the
      rest of the registry in order. When no task is running, everything is
      discarded. */
  lemma {:induction false} PopLiveIsFifo<T>(q: seq<Entry<T>>, done: set<TaskId>)
    ensures var d := PopLive(q, done);
      && (d.found.Some? <==> exists i :: 0 <= i < |q| && q[i].task !in done)
      && (d.found.Some? ==>
            && d.found.value.task !in done
            && |d.rest| < |q|
            && q == q[..|q| - |d.rest| - 1] + [d.found.value] + d.rest
            && forall i :: 0 <= i < |q| - |d.rest| - 1 ==> q[i].task in done)
      && (d.found.None? ==> d.rest == [] && forall i :: 0 <= i < |q| ==> q[i].task in done)
  {
    var k := FirstLive(q, done);
    if k < |q| {
      assert q == q[..k] + [q[k]] + q[k + 1..];
    }
  }

  /** What a drain leaves behind is a suffix of the registry, and what it
      hands out is one of its entries. */
  lemma PopLiveSuffix<T>(q: seq<Entry<T>>, done: set<TaskId>)
    ensures var d := PopLive(q, done);
      && |d.rest| <= |q|
      && (forall i :: 0 <= i < |d.rest| ==> d.rest[i] == q[|q| - |d.rest| + i])
      && (d.found.Some? ==> d.found.value in q)
  {
    var k := FirstLive(q, done);
    if k < |q| {
      assert PopLive(q, done).rest == q[k + 1..];
    }
  }

  /** The draining loop both rendezvous operations run over the opposite
      side's registry: pop entries off the front, dropping those whose task
      is done, and stop at the first entry whose task is still running. */
  method Drain<T>(q: seq<Entry<T>>, done: set<TaskId>) returns (d: Drained<T>)
    ensures d == PopLive(q, done)
  {
    var rest := q;
    ghost var popped := 0;
    while rest != []
      invariant 0 <= popped <= |q| && rest == q[popped..]
      invariant forall i :: 0 <= i < popped ==> q[i].task in done
    {
      var entry := rest[0];
      rest := rest[1..];
      popped := popped + 1;
      if entry.task !in done {
        FirstLiveAt(q, done, popped - 1);
        return Drained(Some(entry), rest);
      }
    }
    FirstLiveAt(q, done, |q|);
    d := Drained(None, []);
  }
}
