/** The per-receiver buffers of a broadcast channel: a dictionary from
    receiver endpoint to an unbounded FIFO. A Python dictionary keeps its keys
    in insertion order, so it is modelled as a list of mailboxes with distinct
    owners; attaching appends a mailbox, popping a key removes one. */
module Fanout {
  import opened Values

  datatype Mailbox<K> = Mailbox(owner: K, items: seq<Value>)

  /** The keys of the dictionary. */
  function Owners<K>(boxes: seq<Mailbox<K>>): (s: set<K>)
    ensures forall i :: 0 <= i < |boxes| ==> boxes[i].owner in s
    ensures forall k :: k in s ==> exists i :: 0 <= i < |boxes| && boxes[i].owner == k
  {
    set i | 0 <= i < |boxes| :: boxes[i].owner
  }

  /** A dictionary has each key once. */
  ghost predicate DistinctOwners<K>(boxes: seq<Mailbox<K>>) {
    forall i, j :: 0 <= i < j < |boxes| ==> boxes[i].owner != boxes[j].owner
  }

  /** The position of `k`'s mailbox. */
  function IndexOf<K(==)>(boxes: seq<Mailbox<K>>, k: K): (i: nat)
    requires k in Owners(boxes)
    ensures i < |boxes| && boxes[i].owner == k
    ensures forall j :: 0 <= j < i ==> boxes[j].owner != k
    decreases |boxes|
  {
    if boxes[0].owner == k then 0
    else
      assert k in Owners(boxes[1..]) by {
        var j :| 0 <= j < |boxes| && boxes[j].owner == k;
        assert j > 0 && boxes[1..][j - 1] == boxes[j];
      }
      1 + IndexOf(boxes[1..], k)
  }

  /** Registering a key not yet present under a new empty queue: a new mailbox at
      the end. */
  function Attach<K>(boxes: seq<Mailbox<K>>, k: K): (r: seq<Mailbox<K>>)
    ensures |r| == |boxes| + 1 && r[..|boxes|] == boxes
    ensures r[|boxes|].owner == k && r[|boxes|].items == []
  {
    boxes + [Mailbox(k, [])]
  }

  /** Popping key `k`: the list without `k`'s mailbox, the others in order. */
  function Detach<K(==)>(boxes: seq<Mailbox<K>>, k: K): (r: seq<Mailbox<K>>)
    requires k in Owners(boxes)
    ensures |r| == |boxes| - 1
  {
    var i := IndexOf(boxes, k);
    boxes[..i] + boxes[i + 1..]
  }

  /** Attaching a new key adds exactly that key and keeps the keys distinct. */
  lemma AttachOwners<K>(boxes: seq<Mailbox<K>>, k: K)
    requires DistinctOwners(boxes) && k !in Owners(boxes)
    ensures Owners(Attach(boxes, k)) == Owners(boxes) + {k}
    ensures DistinctOwners(Attach(boxes, k))
  {
    var r := Attach(boxes, k);
    assert r[|boxes|].owner == k;
    forall x | x in Owners(boxes) + {k} ensures x in Owners(r) {
      if x != k {
        var i :| 0 <= i < |boxes| && boxes[i].owner == x;
        assert r[i] == boxes[i];
      }
    }
  }

  /** Detaching a key removes exactly that key and keeps the others
      distinct. */
  lemma DetachOwners<K>(boxes: seq<Mailbox<K>>, k: K)
    requires DistinctOwners(boxes) && k in Owners(boxes)
    ensures Owners(Detach(boxes, k)) == Owners(boxes) - {k}
    ensures DistinctOwners(Detach(boxes, k))
    ensures |Detach(boxes, k)| == |boxes| - 1
  {
    var i := IndexOf(boxes, k);
    var r := Detach(boxes, k);
    DetachShape(boxes, k);
    forall x | x in Owners(boxes) - {k} ensures x in Owners(r) {
      var j :| 0 <= j < |boxes| && boxes[j].owner == x;
      if j < i { assert r[j] == boxes[j]; } else { assert j != i && r[j - 1] == boxes[j]; }
    }
    forall x | x in Owners(r) ensures x in Owners(boxes) - {k} {
      var j :| 0 <= j < |r| && r[j].owner == x;
      if j < i { assert r[j] == boxes[j]; } else { assert r[j] == boxes[j + 1]; }
    }
  }

  /** Detaching leaves every other mailbox, contents included, as it was. */
  lemma DetachKeepsOthers<K>(boxes: seq<Mailbox<K>>, k: K)
    requires DistinctOwners(boxes) && k in Owners(boxes)
    ensures forall x :: x in Owners(Detach(boxes, k)) ==>
      Detach(boxes, k)[IndexOf(Detach(boxes, k), x)] == boxes[IndexOf(boxes, x)]
  {
    var i := IndexOf(boxes, k);
    var r := Detach(boxes, k);
    DetachShape(boxes, k);
    forall x | x in Owners(r) ensures r[IndexOf(r, x)] == boxes[IndexOf(boxes, x)] {
      var j := IndexOf(r, x);
      if j < i {
        IndexOfUnique(boxes, x, j);
      } else {
        IndexOfUnique(boxes, x, j + 1);
      }
    }
  }

  /** The mailboxes in front of `k`'s keep their positions, those behind it
      move up by one. */
  lemma DetachShape<K>(boxes: seq<Mailbox<K>>, k: K)
    requires k in Owners(boxes)
    ensures var i := IndexOf(boxes, k);
      && |Detach(boxes, k)| == |boxes| - 1
      && (forall j :: 0 <= j < i ==> Detach(boxes, k)[j] == boxes[j])
      && (forall j :: i <= j < |boxes| - 1 ==> Detach(boxes, k)[j] == boxes[j + 1])
  {
    var i := IndexOf(boxes, k);
    var front, back := boxes[..i], boxes[i + 1..];
    assert Detach(boxes, k) == front + back;
    assert forall j :: 0 <= j < i ==> (front + back)[j] == front[j] == boxes[j];
    assert forall j :: i <= j < |boxes| - 1 ==> (front + back)[j] == back[j - i] == boxes[j + 1];
  }

  /** In a dictionary, the mailbox owned by `k` is the one at `IndexOf`. */
  lemma IndexOfUnique<K>(boxes: seq<Mailbox<K>>, k: K, i: nat)
    requires DistinctOwners(boxes) && i < |boxes| && boxes[i].owner == k
    ensures k in Owners(boxes) && IndexOf(boxes, k) == i
  {
  }

  /** The value the fan-out loop hands to the mailbox at position `k`. The
      loop reassigns the copy to the variable it copies from, so with
      `copy_on_send` the `k`-th mailbox receives a copy taken `k + 1` times
      over; without it every mailbox shares the original. */
  function Delivered(v: Value, copyOnSend: bool, k: nat): (d: Value)
    requires copyOnSend ==> v.supportsCopy
    ensures d.payload == v.payload
    ensures !copyOnSend ==> d == v
    ensures copyOnSend ==> d.generation == v.generation + k + 1 && d != v
  {
    if copyOnSend then CopyChain(v, k + 1) else v
  }

  /** The mailboxes after one broadcast: one more item at the end of every
      mailbox, nothing else changed. */
  function FanOut<K>(boxes: seq<Mailbox<K>>, v: Value, copyOnSend: bool): (r: seq<Mailbox<K>>)
    requires copyOnSend ==> v.supportsCopy
    ensures |r| == |boxes|
  {
    seq(|boxes|, k requires 0 <= k < |boxes| =>
      boxes[k].(items := boxes[k].items + [Delivered(v, copyOnSend, k)]))
  }

  /** The loop of a broadcast `send`: with `copy_on_send`, each mailbox in
      turn gets `value := copy(value)`, so the copies chain; otherwise every
      mailbox gets the sent object. */
  method FanOutLoop<K>(boxes: seq<Mailbox<K>>, v: Value, copyOnSend: bool) returns (r: seq<Mailbox<K>>)
    requires copyOnSend ==> v.supportsCopy
    ensures r == FanOut(boxes, v, copyOnSend)
  {
    r := boxes;
    var value := v;
    var i := 0;
    while i < |r|
      invariant 0 <= i <= |r| == |boxes|
      invariant value == if copyOnSend then CopyChain(v, i) else v
      invariant forall k :: 0 <= k < i ==>
        r[k] == boxes[k].(items := boxes[k].items + [Delivered(v, copyOnSend, k)])
      invariant forall k :: i <= k < |r| ==> r[k] == boxes[k]
    {
      if copyOnSend {
        value := Copy(value);
      }
      r := r[i := r[i].(items := r[i].items + [value])];
      i := i + 1;
    }
  }

  /** Replacing the items of one mailbox keeps the keys. */
  lemma SetItemsOwners<K>(boxes: seq<Mailbox<K>>, i: nat, items: seq<Value>)
    requires i < |boxes|
    ensures var r := boxes[i := boxes[i].(items := items)];
      && Owners(r) == Owners(boxes)
      && (DistinctOwners(boxes) ==> DistinctOwners(r))
  {
    var r := boxes[i := boxes[i].(items := items)];
    assert forall j :: 0 <= j < |boxes| ==> r[j].owner == boxes[j].owner;
    forall x | x in Owners(boxes) ensures x in Owners(r) {
      var j :| 0 <= j < |boxes| && boxes[j].owner == x;
      assert r[j].owner == x;
    }
  }

  /** A broadcast keeps the dictionary's keys and their order, and appends
      exactly one item to every mailbox, each with the payload that was sent. */
  lemma FanOutAppendsOnce<K>(boxes: seq<Mailbox<K>>, v: Value, copyOnSend: bool)
    requires copyOnSend ==> v.supportsCopy
    ensures var r := FanOut(boxes, v, copyOnSend);
      && |r| == |boxes|
      && Owners(r) == Owners(boxes)
      && (DistinctOwners(boxes) ==> DistinctOwners(r))
      && forall k :: 0 <= k < |r| ==>
           && r[k].owner == boxes[k].owner
           && |r[k].items| == |boxes[k].items| + 1
           && r[k].items[..|boxes[k].items|] == boxes[k].items
           && r[k].items[|boxes[k].items|].payload == v.payload
  {
    var r := FanOut(boxes, v, copyOnSend);
    assert forall k :: 0 <= k < |r| ==> r[k].owner == boxes[k].owner;
    assert Owners(r) == Owners(boxes) by {
      forall x | x in Owners(boxes) ensures x in Owners(r) {
        var i :| 0 <= i < |boxes| && boxes[i].owner == x;
        assert r[i].owner == x;
      }
    }
  }

  /** With `copy_on_send`, the copies are chained: the second mailbox does not
      receive a copy of the sent object but a copy of the copy the first
      mailbox received. Only the first mailbox gets a direct copy. */
  lemma FanOutChainsCopies<K>(boxes: seq<Mailbox<K>>, v: Value)
    requires v.supportsCopy
    ensures var r := FanOut(boxes, v, true);
      forall k :: 0 <= k < |r| ==>
        Last(r[k].items).generation == v.generation + k + 1
        && (k > 0 ==> Last(r[k].items) == Copy(Last(r[k - 1].items)))
  {
  }

  function Last(s: seq<Value>): Value
    requires s != []
  {
    s[|s| - 1]
  }
}
