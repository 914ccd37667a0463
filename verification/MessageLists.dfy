/**
 The two message lists of the client as linked lists that are relinked in place.

 The C structure holds head, tail and length of each list as six fields; here the three fields of
 one list are one object.
 */
module MessageLists {
  import opened Engine
  import opened Mqtt

  /** A `mosquitto_message_all`: its data and its link. */
  class Node {
    var val: Msg
    var next: Node?

    constructor (m: Msg)
      ensures val == m && next == null
    {
      val, next := m, null;
    }
  }

  ghost function Vals(spine: seq<Node>): (ms: seq<Msg>)
    reads spine
    ensures |ms| == |spine| && forall i :: 0 <= i < |ms| ==> ms[i] == spine[i].val
  {
    seq(|spine|, i requires 0 <= i < |spine| reads spine => spine[i].val)
  }

  ghost function Last(spine: seq<Node>): Node? {
    if spine == [] then null else spine[|spine| - 1]
  }

  /** Leaving out one element of a sequence of distinct nodes. */
  lemma CutOut(spine: seq<Node>, k: nat)
    requires k < |spine| && forall i, j :: 0 <= i < j < |spine| ==> spine[i] != spine[j]
    ensures var s := spine[..k] + spine[k + 1..];
            && |s| == |spine| - 1
            && (forall j :: 0 <= j < k ==> s[j] == spine[j])
            && (forall j :: k <= j < |s| ==> s[j] == spine[j + 1])
            && (forall i, j :: 0 <= i < j < |s| ==> s[i] != s[j])
            && (forall n :: n in s ==> n in spine)
  {
  }

  lemma ValsCut(spine: seq<Node>, k: nat)
    requires k < |spine|
    ensures Vals(spine[..k] + spine[k + 1..]) == Without(Vals(spine), k)
    ensures forall n :: n in spine[..k] + spine[k + 1..] ==> n in spine
  {
  }

  lemma ValsAppend(spine: seq<Node>, n: Node)
    ensures Vals(spine + [n]) == Vals(spine) + [n.val]
  {
  }

  /** Relinking nodes does not change their data. */
  twostate lemma SameVals(spine: seq<Node>)
    requires forall i :: 0 <= i < |spine| ==> spine[i].val == old(spine[i].val)
    ensures Vals(spine) == old(Vals(spine))
  {
  }

  lemma FindIs(ms: seq<Msg>, mid: uint16, k: nat)
    requires k <= |ms| && (k < |ms| ==> ms[k].mid == mid)
    requires forall j :: 0 <= j < k ==> ms[j].mid != mid
    ensures Find(ms, mid) == k
  {
  }

  class MessageList {
    var head: Node?
    var last: Node?
    var len: int
    ghost var spine: seq<Node>  // the nodes reachable from head, in order

    /** The chain from `head` runs through the spine once and ends. */
    ghost predicate Chained()
      reads this, spine
    {
      && head == (if spine == [] then null else spine[0])
      && (forall i :: 0 <= i < |spine| - 1 ==> spine[i].next == spine[i + 1])
      && (spine != [] ==> spine[|spine| - 1].next == null)
      && (forall i, j :: 0 <= i < j < |spine| ==> spine[i] != spine[j])
    }

    ghost predicate Linked()
      reads this, spine
    {
      Chained() && len == |spine|
    }

    /** The tail pointer is right, unless the list is empty. */
    ghost predicate Valid()
      reads this, spine
    {
      Linked() && (spine != [] ==> Sound())
    }

    /** The tail pointer is right. */
    ghost predicate Sound()
      reads this
    {
      last == Last(spine)
    }

    /** Assignment to the data of one message. */
    method Put(node: Node, m: Msg, ghost i: nat)
      requires Chained() && i < |spine| && node == spine[i]
      modifies node`val
      ensures Chained() && Vals(spine) == old(Vals(spine))[i := m]
    {
      node.val := m;
    }

    constructor ()
      ensures Valid() && Sound() && spine == []
    {
      head, last, len, spine := null, null, 0, [];
    }

    /**
     The pointer part of `_mosquitto_message_queue`. With a tail pointer that has gone stale on an
     empty list, the message is linked behind a node of another list and is not in this one.
     */
    method Append(message: Node)
      requires Valid() && message !in spine && message != last
      modifies this, message`next, (if last == null then {} else {last})`next
      ensures old(Sound()) ==> Valid() && Sound() && spine == old(spine) + [message]
      ensures !old(Sound()) ==>
                spine == [] && head == null && last == message && old(last).next == message && message.next == null
      ensures len == old(len) + 1
    {
      len := len + 1;
      message.next := null;
      ghost var sound := Sound();
      if last != null {
        last.next := message;
      } else {
        head := message;
      }
      last := message;
      if sound {
        spine := spine + [message];
      }
    }

    /** The search of `_mosquitto_message_remove`: the first node with this id, and the one before it. */
    method Locate(mid: uint16) returns (prev: Node?, cur: Node?, ghost k: nat)
      requires Valid()
      ensures k == Find(Vals(spine), mid)
      ensures cur == if k < |spine| then spine[k] else null
      ensures k < |spine| ==> prev == if k == 0 then null else spine[k - 1]
    {
      prev, cur, k := null, head, 0;
      while cur != null
        invariant 0 <= k <= |spine|
        invariant cur == if k < |spine| then spine[k] else null
        invariant prev == if k == 0 then null else spine[k - 1]
        invariant forall j :: 0 <= j < k ==> spine[j].val.mid != mid
        decreases |spine| - k
      {
        if cur.val.mid == mid {
          break;
        }
        assert k < |spine| - 1 ==> spine[k].next == spine[k + 1];
        prev, cur, k := cur, cur.next, k + 1;
      }
      FindIs(Vals(spine), mid, k);
    }

    /** The relinking of `_mosquitto_message_remove`. */
    method CutAt(prev: Node?, cur: Node, ghost k: nat)
      requires Valid() && k < |spine| && cur == spine[k] && prev == if k == 0 then null else spine[k - 1]
      modifies this, spine`next
      ensures Valid() && Sound() && old(Sound()) && spine == old(spine[..k] + spine[k + 1..])
    {
      CutOut(spine, k);
      assert k < |spine| - 1 ==> cur.next == spine[k + 1];
      if prev != null {
        prev.next := cur.next;
      } else {
        head := cur.next;
      }
      len := len - 1;
      if cur.next == null {
        last := prev;
      } else {
        assert head != null;  // so the C code's third case, an emptied list, does not arise here
      }
      spine := spine[..k] + spine[k + 1..];
    }

    /** First loop of `_mosquitto_message_remove`: unlink the first message with this id. */
    method Unlink(mid: uint16) returns (found: Node?)
      requires Valid()
      modifies this, spine`next
      ensures Valid() && (Sound() <==> old(Sound())) && forall n :: n in spine ==> n in old(spine)
      ensures var k := Find(old(Vals(spine)), mid);
              if k == |old(spine)| then found == null && spine == old(spine)
              else found == old(spine)[k] && spine == old(spine[..k] + spine[k + 1..])
                   && Vals(spine) == Without(old(Vals(spine)), k)
    {
      hide Vals, Find, Without, Valid, Sound;
      var prev, cur, k := Locate(mid);
      if cur != null {
        ValsCut(spine, k);
        CutAt(prev, cur, k);
        SameVals(spine);
      }
      found := cur;
    }
  }
}
