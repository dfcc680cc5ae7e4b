/**
  Message queues: rt-thread/kernel/src/ipc.c.  The messages are copied outside the locked sections,
  so each call is two sections (Begin and End) that other calls may come between; the node being
  copied is meanwhile in the hands of one sender or receiver.
 */
module MessageQueue {
  import opened Wrappers
  import opened Queues
  import opened WaitQueues

  type Bytes = seq<bv8>

  const MQ_ENTRY_MAX: nat := 65535

  datatype Outcome = OK | ERROR | FULL | TIMEDOUT | BLOCKED

  datatype Hand = Sending | Receiving(msg: Bytes)

  /** Every node of the pool is in exactly one place. */
  ghost predicate Placed(queued: seq<Node>, freed: seq<Node>, hand: set<Node>, max: nat) {
    && NoDup(queued) && NoDup(freed)
    && (forall n {:trigger n in queued} :: n in queued ==> n < max && n !in freed && n !in hand)
    && (forall n {:trigger n in freed} :: n in freed ==> n < max && n !in hand)
    && (forall n {:trigger n in hand} :: n in hand ==> n < max)
    && |queued| + |freed| + |hand| == max
  }

  lemma PlacedTakeFree(queued: seq<Node>, freed: seq<Node>, hand: set<Node>, max: nat)
    requires Placed(queued, freed, hand, max) && freed != []
    ensures Placed(queued, freed[1..], hand + {freed[0]}, max) && freed[0] !in hand && freed[0] !in queued && freed[0] < max
  {
    assert freed[0] in freed && freed[0] !in freed[1..];
    assert forall n :: n in freed[1..] ==> n in freed;
    assert NoDup(freed[1..]);
  }

  lemma PlacedTakeHead(queued: seq<Node>, freed: seq<Node>, hand: set<Node>, max: nat)
    requires Placed(queued, freed, hand, max) && queued != []
    ensures Placed(queued[1..], freed, hand + {queued[0]}, max) && queued[0] !in hand && queued[0] < max
  {
    assert queued[0] in queued && queued[0] !in queued[1..];
    assert forall n :: n in queued[1..] ==> n in queued;
    assert NoDup(queued[1..]);
  }

  lemma PlacedSend(queued: seq<Node>, freed: seq<Node>, hand: set<Node>, max: nat, msg: Node)
    requires Placed(queued, freed, hand, max) && msg in hand
    ensures Placed(queued + [msg], freed, hand - {msg}, max) && |queued| < max
    ensures Placed([msg] + queued, freed, hand - {msg}, max)
  {
    assert msg !in queued && msg !in freed;
    assert |hand| > 0 && |hand - {msg}| == |hand| - 1;
  }

  lemma PlacedReturn(queued: seq<Node>, freed: seq<Node>, hand: set<Node>, max: nat, msg: Node)
    requires Placed(queued, freed, hand, max) && msg in hand
    ensures Placed(queued, [msg] + freed, hand - {msg}, max)
  {
    assert msg !in queued && msg !in freed;
  }

  /** A sum of sizes equal to the size of the pool leaves no node out. */
  lemma NoNodeLost(queued: seq<Node>, freed: seq<Node>, hand: set<Node>, max: nat, n: Node)
    requires Placed(queued, freed, hand, max) && n < max
    ensures n in queued || n in freed || n in hand
  {
    var q, f := Elements(queued), Elements(freed);
    assert q !! f && q !! hand && f !! hand && |q + f| == |q| + |f|;
    assert |q + f + hand| == max;
    SubsetFull(q + f + hand, Below(max));
  }

  ghost function Below(max: nat): (r: set<Node>)
    ensures |r| == max && forall n: nat :: n in r <==> n < max
  {
    if max == 0 then {} else Below(max - 1) + {max - 1}
  }

  lemma {:induction false} SubsetFull(a: set<Node>, b: set<Node>)
    requires a <= b && |a| == |b|
    ensures a == b
  {
    if a != {} {
      var x :| x in a;
      SubsetFull(a - {x}, b - {x});
    } else {
      assert b == {};
    }
  }

  ghost function Last(s: seq<Node>): Option<Node> {
    if s == [] then None else Some(s[|s| - 1])
  }

  ghost function Bodies(body: map<Node, Bytes>, s: seq<Node>): (r: seq<Bytes>)
    requires forall n :: n in s ==> n in body
    ensures |r| == |s| && forall i :: 0 <= i < |s| ==> r[i] == body[s[i]]
  {
    if s == [] then [] else [body[s[0]]] + Bodies(body, s[1..])
  }

  /** rt_memcpy into a node: bytes beyond the message stay as they were. */
  function Overwrite(was: Bytes, buffer: Bytes): (r: Bytes)
    requires |buffer| <= |was|
    ensures |r| == |was|
    ensures forall i :: 0 <= i < |was| ==> r[i] == if i < |buffer| then buffer[i] else was[i]
  {
    buffer + was[|buffer|..]
  }

  lemma BodiesSame(body: map<Node, Bytes>, s: seq<Node>, n: Node, v: Bytes)
    requires (forall x :: x in s ==> x in body) && n !in s
    ensures Bodies(body[n := v], s) == Bodies(body, s)
  {
    assert forall i :: 0 <= i < |s| ==> Bodies(body[n := v], s)[i] == Bodies(body, s)[i];
  }

  lemma BodiesAppend(body: map<Node, Bytes>, s: seq<Node>, n: Node)
    requires (forall x :: x in s ==> x in body) && n in body
    ensures Bodies(body, s + [n]) == Bodies(body, s) + [body[n]]
  {
    assert forall i :: 0 <= i <= |s| ==> Bodies(body, s + [n])[i] == (Bodies(body, s) + [body[n]])[i];
  }

  /** The queued and the free nodes are chained from their heads. */
  ghost predicate Chains(next: Next, head: Option<Node>, tail: Option<Node>, free: Option<Node>, queued: seq<Node>, freed: seq<Node>) {
    Chain(next, head, queued) && tail == Last(queued) && Chain(next, free, freed)
  }

  lemma ChainsTakeFree(next: Next, head: Option<Node>, tail: Option<Node>, free: Option<Node>, queued: seq<Node>, freed: seq<Node>)
    requires Chains(next, head, tail, free, queued, freed) && freed != [] && freed[0] !in queued && NoDup(freed)
    ensures freed[0] in next && Chains(next[freed[0] := None], head, tail, next[freed[0]], queued, freed[1..])
  {
    ChainTail(next, free, freed);
    ChainElsewhere(next, next[freed[0]], freed[1..], freed[0], None);
    ChainElsewhere(next, head, queued, freed[0], None);
  }

  lemma ChainsTakeHead(next: Next, head: Option<Node>, tail: Option<Node>, free: Option<Node>, queued: seq<Node>, freed: seq<Node>)
    requires Chains(next, head, tail, free, queued, freed) && queued != [] && NoDup(queued)
    ensures queued[0] in next
    ensures Chains(next, next[queued[0]], if tail == Some(queued[0]) then None else tail, free, queued[1..], freed)
  {
    ChainTail(next, head, queued);
  }

  lemma ChainsReturn(next: Next, head: Option<Node>, tail: Option<Node>, free: Option<Node>, queued: seq<Node>, freed: seq<Node>, msg: Node)
    requires Chains(next, head, tail, free, queued, freed) && msg !in queued && msg !in freed
    ensures Chains(next[msg := free], head, tail, Some(msg), queued, [msg] + freed)
  {
    ChainPush(next, free, freed, msg);
    ChainElsewhere(next, head, queued, msg, free);
  }

  lemma ChainsUrgent(next: Next, head: Option<Node>, tail: Option<Node>, free: Option<Node>, queued: seq<Node>, freed: seq<Node>, msg: Node)
    requires Chains(next, head, tail, free, queued, freed) && msg !in queued && msg !in freed
    ensures Chains(next[msg := head], Some(msg), if tail == None then Some(msg) else tail, free, [msg] + queued, freed)
  {
    ChainPush(next, head, queued, msg);
    ChainElsewhere(next, free, freed, msg, head);
  }

  lemma ChainsSend(next: Next, head: Option<Node>, tail: Option<Node>, free: Option<Node>, queued: seq<Node>, freed: seq<Node>, msg: Node)
    requires Chains(next, head, tail, free, queued, freed) && msg !in queued && msg !in freed && NoDup(queued)
    requires forall n :: n in queued ==> n !in freed
    ensures var next1 := next[msg := None];
      var next2 := if tail == None then next1 else next1[tail.value := Some(msg)];
      Chains(next2, if head == None then Some(msg) else head, Some(msg), free, queued + [msg], freed)
  {
    var next1 := next[msg := None];
    ChainElsewhere(next, head, queued, msg, None);
    ChainElsewhere(next, free, freed, msg, None);
    ChainAppend(next1, head, queued, msg);
    if tail != None {
      assert tail.value in queued;
      ChainElsewhere(next1, free, freed, tail.value, Some(msg));
    }
  }

  /** Every node has a buffer of the message size; those being received hold what was taken. */
  ghost predicate Bodied(body: map<Node, Bytes>, hand: map<Node, Hand>, max: nat, msgSize: nat) {
    && (forall n: nat :: n < max ==> n in body && |body[n]| == msgSize)
    && (forall n :: n in hand && hand[n].Receiving? ==> n in body && body[n] == hand[n].msg)
  }

  /** Chained, placed and filled: all about the nodes but the counting. */
  ghost predicate Stored(next: Next, body: map<Node, Bytes>, head: Option<Node>, tail: Option<Node>, free: Option<Node>,
                         queued: seq<Node>, freed: seq<Node>, hand: map<Node, Hand>, max: nat, msgSize: nat)
  {
    && Chains(next, head, tail, free, queued, freed)
    && Placed(queued, freed, hand.Keys, max)
    && Bodied(body, hand, max, msgSize)
  }

  /** All of PopHead but the counting. */
  lemma PopHeadOk(next: Next, body: map<Node, Bytes>, head: Option<Node>, tail: Option<Node>, free: Option<Node>,
                  queued: seq<Node>, freed: seq<Node>, hand: map<Node, Hand>, max: nat, msgSize: nat, msg: Node)
    requires Stored(next, body, head, tail, free, queued, freed, hand, max, msgSize) && head == Some(msg)
    ensures queued != [] && msg in next && msg in body && msg !in hand
    ensures Stored(next, body, next[msg], if tail == Some(msg) then None else tail, free, queued[1..], freed,
                   hand[msg := Receiving(body[msg])], max, msgSize)
    ensures (forall n :: n in queued ==> n in body) && Bodies(body, queued) == [body[msg]] + Bodies(body, queued[1..])
  {
    PlacedTakeHead(queued, freed, hand.Keys, max);
    ChainsTakeHead(next, head, tail, free, queued, freed);
    assert hand[msg := Receiving(body[msg])].Keys == hand.Keys + {msg};
  }

  /** max_msgs, a 16-bit field. */
  function NodesIn(poolSize: nat, each: nat): (r: nat)
    requires each > 0
    ensures r <= MQ_ENTRY_MAX
    ensures Fitting(poolSize, each) < 0x10000 ==> r == Fitting(poolSize, each)
  {
    Fitting(poolSize, each) % 0x10000
  }

  function EmptyBodies(msgSize: nat, max: nat): (r: map<Node, Bytes>)
    ensures forall n: nat :: n < max ==> n in r && |r[n]| == msgSize
  {
    if max == 0 then map[] else EmptyBodies(msgSize, max - 1)[max - 1 := seq(msgSize, _ => 0)]
  }

  /** All of LinkLast but the counting. */
  lemma LinkLastOk(next: Next, body: map<Node, Bytes>, head: Option<Node>, tail: Option<Node>, free: Option<Node>,
                   queued: seq<Node>, freed: seq<Node>, hand: map<Node, Hand>, max: nat, msgSize: nat, msg: Node)
    requires Stored(next, body, head, tail, free, queued, freed, hand, max, msgSize) && msg in hand
    ensures |queued| < max
    ensures var next1 := next[msg := None];
      Stored(if tail == None then next1 else next1[tail.value := Some(msg)], body,
             if head == None then Some(msg) else head, Some(msg), free, queued + [msg], freed, hand - {msg}, max, msgSize)
    ensures (forall n :: n in queued ==> n in body) && msg in body
    ensures Bodies(body, queued + [msg]) == Bodies(body, queued) + [body[msg]]
  {
    PlacedSend(queued, freed, hand.Keys, max, msg);
    ChainsSend(next, head, tail, free, queued, freed, msg);
    BodiesAppend(body, queued, msg);
    assert (hand - {msg}).Keys == hand.Keys - {msg};
  }

  /** All of LinkFirst but the counting. */
  lemma LinkFirstOk(next: Next, body: map<Node, Bytes>, head: Option<Node>, tail: Option<Node>, free: Option<Node>,
                    queued: seq<Node>, freed: seq<Node>, hand: map<Node, Hand>, max: nat, msgSize: nat, msg: Node)
    requires Stored(next, body, head, tail, free, queued, freed, hand, max, msgSize) && msg in hand
    ensures |queued| < max
    ensures Stored(next[msg := head], body, Some(msg), if tail == None then Some(msg) else tail, free,
                   [msg] + queued, freed, hand - {msg}, max, msgSize)
    ensures (forall n :: n in queued ==> n in body) && msg in body
    ensures Bodies(body, [msg] + queued) == [body[msg]] + Bodies(body, queued)
  {
    PlacedSend(queued, freed, hand.Keys, max, msg);
    ChainsUrgent(next, head, tail, free, queued, freed, msg);
    BodiesPush(body, queued, msg);
    assert (hand - {msg}).Keys == hand.Keys - {msg};
  }

  lemma BodiesPush(body: map<Node, Bytes>, s: seq<Node>, n: Node)
    requires (forall x :: x in s ==> x in body) && n in body
    ensures Bodies(body, [n] + s) == [body[n]] + Bodies(body, s)
  {
    assert ([n] + s)[1..] == s;
  }

  /** The loop of rt_mq_init. */
  method FirstFree(max: nat) returns (next: Next, free: Option<Node>, ghost freed: seq<Node>)
    ensures Chain(next, free, freed) && NoDup(freed) && |freed| == max && forall n :: n in freed ==> n < max
  {
    next, free, freed := map[], None, [];
    var temp := 0;
    while temp < max
      invariant 0 <= temp <= max
      invariant Chain(next, free, freed) && NoDup(freed) && |freed| == temp
      invariant forall n :: n in freed ==> n < temp
    {
      ChainPush(next, free, freed, temp);
      next := next[temp := free];
      free := Some(temp);
      freed := [temp] + freed;
      temp := temp + 1;
    }
  }

  class RtMessageQueue {
    const msgSize: nat
    const maxMsgs: nat
    var next: Next
    var body: map<Node, Bytes>
    var head: Option<Node>
    var tail: Option<Node>
    var free: Option<Node>
    var entry: nat
    const receivers: WaitList
    const senders: WaitList
    ghost var queued: seq<Node>
    ghost var freed: seq<Node>
    ghost var hand: map<Node, Hand>

    ghost predicate Linked()
      reads this
    {
      && Stored(next, body, head, tail, free, queued, freed, hand, maxMsgs, msgSize)
      && entry == |queued| && maxMsgs <= MQ_ENTRY_MAX
    }

    ghost predicate Valid()
      reads this, receivers, senders
    {
      Linked() && receivers != senders && receivers.Serves(entry) && senders.Serves(|freed|)
    }

    /** The messages waiting, in the order in which they will be received. */
    ghost function Messages(): (r: seq<Bytes>)
      requires Linked()
      reads this
      ensures |r| == entry
    {
      Bodies(body, queued)
    }

    /** rt_mq_init: as many nodes as the pool holds, counted in 16 bits, go on the free list one by one. */
    constructor (size: nat, poolSize: nat)
      ensures Valid() && Messages() == [] && |freed| == maxMsgs && hand == map[]
      ensures msgSize == AlignUp(size) && maxMsgs == poolSize / (msgSize + 4) % 0x10000
      ensures receivers.queue == [] && senders.queue == []
      ensures fresh(receivers) && fresh(senders)
    {
      var msgSize, maxMsgs := AlignUp(size), NodesIn(poolSize, AlignUp(size) + 4);
      this.msgSize, this.maxMsgs := msgSize, maxMsgs;
      head, tail, free, entry := None, None, None, 0;
      body := EmptyBodies(msgSize, maxMsgs);
      queued, hand := [], map[];
      var next0, free0;
      ghost var freed0;
      next0, free0, freed0 := FirstFree(maxMsgs);
      next, free, freed := next0, free0, freed0;
      var r := new WaitList();
      var w := new WaitList();
      receivers, senders := r, w;
      new;
      assert Placed([], freed, {}, maxMsgs) && hand.Keys == {};
      assert Chains(next, None, None, free, [], freed);
      assert Bodied(body, map[], maxMsgs, msgSize);
    }

    // ----- Nodes and links; nobody is woken here -----

    /** A node off the free list. */
    method PopFree() returns (msg: Node)
      requires Linked() && free != None
      modifies this`next, this`free, this`freed, this`hand
      ensures Linked() && freed == old(freed)[1..] && Messages() == old(Messages())
      ensures old(free) == Some(msg) && msg !in old(hand) && hand == old(hand)[msg := Sending]
    {
      msg := free.value;
      PlacedTakeFree(queued, freed, hand.Keys, maxMsgs);
      ChainsTakeFree(next, head, tail, free, queued, freed);
      free := next[msg];
      next := next[msg := None];
      freed := freed[1..];
      hand := hand[msg := Sending];
      assert hand.Keys == old(hand.Keys) + {msg};
    }

    /** A node back on the free list. */
    method PushFree(msg: Node)
      requires Linked() && msg in hand
      modifies this`next, this`free, this`freed, this`hand
      ensures Linked() && freed == [msg] + old(freed) && Messages() == old(Messages())
      ensures hand == old(hand) - {msg}
    {
      PlacedReturn(queued, freed, hand.Keys, maxMsgs, msg);
      ChainsReturn(next, head, tail, free, queued, freed, msg);
      next := next[msg := free];
      free := Some(msg);
      assert (hand - {msg}).Keys == hand.Keys - {msg};
      freed := [msg] + freed;
      hand := hand - {msg};
    }

    /** The first message into the hands of a receiver. */
    method PopHead() returns (msg: Node)
      requires Linked() && entry > 0
      modifies this`head, this`tail, this`entry, this`queued, this`hand
      ensures Linked() && entry == old(entry) - 1 && msg in body && old(Messages()) == [body[msg]] + Messages()
      ensures msg !in old(hand) && hand == old(hand)[msg := Receiving(body[msg])]
    {
      msg := head.value;
      PopHeadOk(next, body, head, tail, free, queued, freed, hand, maxMsgs, msgSize, msg);
      if entry > 0 {
        entry := entry - 1;
      }
      head, tail := next[msg], if tail == Some(msg) then None else tail;
      queued, hand := queued[1..], hand[msg := Receiving(body[msg])];
    }

    /** The copy into a node, outside any lock. */
    method Fill(msg: Node, buffer: Bytes)
      requires Linked() && msg in hand && hand[msg] == Sending && |buffer| <= msgSize
      modifies this`body
      ensures Linked() && Messages() == old(Messages())
      ensures msg in old(body) && |old(body)[msg]| == msgSize && msg in body && body[msg] == Overwrite(old(body)[msg], buffer)
    {
      BodiesSame(body, queued, msg, Overwrite(body[msg], buffer));
      body := body[msg := Overwrite(body[msg], buffer)];
    }

    /** A message from the hands of its sender to the end of the queue; the overflow exit is unreachable. */
    method LinkLast(msg: Node) returns (ok: bool)
      requires Linked() && msg in hand && hand[msg] == Sending
      modifies this`next, this`head, this`tail, this`entry, this`queued, this`hand
      ensures Linked() && ok && msg in body && Messages() == old(Messages()) + [body[msg]]
      ensures hand == old(hand) - {msg}
    {
      LinkLastOk(next, body, head, tail, free, queued, freed, hand, maxMsgs, msgSize, msg);
      next := next[msg := None];
      if tail != None {
        next := next[tail.value := Some(msg)];
      }
      tail := Some(msg);
      if head == None {
        head := Some(msg);
      }
      if entry >= MQ_ENTRY_MAX {
        return false;
      }
      entry := entry + 1;
      queued, hand := queued + [msg], hand - {msg};
      ok := true;
    }

    /** A message from the hands of its sender to the front of the queue; the overflow exit is unreachable. */
    method LinkFirst(msg: Node) returns (ok: bool)
      requires Linked() && msg in hand && hand[msg] == Sending
      modifies this`next, this`head, this`tail, this`entry, this`queued, this`hand
      ensures Linked() && ok && msg in body && Messages() == [body[msg]] + old(Messages())
      ensures hand == old(hand) - {msg}
    {
      LinkFirstOk(next, body, head, tail, free, queued, freed, hand, maxMsgs, msgSize, msg);
      next := next[msg := head];
      head := Some(msg);
      if tail == None {
        tail := Some(msg);
      }
      if entry >= MQ_ENTRY_MAX {
        return false;
      }
      entry := entry + 1;
      queued, hand := [msg] + queued, hand - {msg};
      ok := true;
    }

    // ----- The locked sections -----

    /** rt_mq_send_wait up to the copy: a free node, or a place among the waiting senders. */
    method SendBegin(t: Tid, buffer: Bytes, timeout: int, place: nat) returns (r: Outcome, msg: Node)
      requires Valid() && t !in senders.queue && place <= |senders.queue|
      modifies this, senders
      ensures Valid() && Messages() == old(Messages())
      ensures r == if |buffer| > msgSize then ERROR
                   else if old(free) != None then OK
                   else if timeout == 0 then FULL else BLOCKED
      ensures senders.queue ==
        var q := old(senders.queue); if r == BLOCKED then q[..place] + [t] + q[place..] else q
      ensures r == OK ==> old(free) == Some(msg) && msg !in old(hand) && hand == old(hand)[msg := Sending]
      ensures r != OK ==> hand == old(hand) && freed == old(freed)
    {
      msg := 0;
      if |buffer| > msgSize {
        return ERROR, 0;
      }
      senders.Runs(t, |freed|);
      if free != None {
        msg := PopFree();
        return OK, msg;
      }
      if timeout == 0 {
        return FULL, 0;
      }
      senders.Join(t, place);
      r := BLOCKED;
    }

    /** rt_mq_send_wait from the copy on: the message goes last.  The entry overflow exit is unreachable. */
    method SendEnd(msg: Node, buffer: Bytes) returns (r: Outcome)
      requires Valid() && msg in hand && hand[msg] == Sending && |buffer| <= msgSize
      modifies this, receivers
      ensures Valid() && r == OK && msg in old(body) && |old(body)[msg]| == msgSize
      ensures Messages() == old(Messages()) + [Overwrite(old(body)[msg], buffer)]
      ensures hand == old(hand) - {msg}
      ensures receivers.queue == var q := old(receivers.queue); if q == [] then [] else q[1..]
    {
      Fill(msg, buffer);
      var ok := LinkLast(msg);
      if !ok {
        return FULL;
      }
      receivers.Wake(entry - 1);
      r := OK;
    }

    /** rt_mq_urgent from the copy on: the message goes first. */
    method UrgentEnd(msg: Node, buffer: Bytes) returns (r: Outcome)
      requires Valid() && msg in hand && hand[msg] == Sending && |buffer| <= msgSize
      modifies this, receivers
      ensures Valid() && r == OK && msg in old(body) && |old(body)[msg]| == msgSize
      ensures Messages() == [Overwrite(old(body)[msg], buffer)] + old(Messages())
      ensures hand == old(hand) - {msg}
      ensures receivers.queue == var q := old(receivers.queue); if q == [] then [] else q[1..]
    {
      Fill(msg, buffer);
      var ok := LinkFirst(msg);
      if !ok {
        return FULL;
      }
      receivers.Wake(entry - 1);
      r := OK;
    }

    /** rt_mq_recv up to the copy: the first message, or a place among the waiting receivers. */
    method RecvBegin(t: Tid, timeout: int, place: nat) returns (r: Outcome, msg: Node)
      requires Valid() && t !in receivers.queue && place <= |receivers.queue|
      modifies this, receivers
      ensures Valid()
      ensures r == if old(entry) > 0 then OK else if timeout == 0 then TIMEDOUT else BLOCKED
      ensures receivers.queue ==
        var q := old(receivers.queue); if r == BLOCKED then q[..place] + [t] + q[place..] else q
      ensures r == OK ==> msg !in old(hand) && hand == old(hand)[msg := Receiving(old(Messages())[0])]
      ensures r == OK ==> Messages() == old(Messages())[1..]
      ensures r != OK ==> hand == old(hand) && Messages() == old(Messages())
    {
      msg := 0;
      receivers.Runs(t, entry);
      if entry > 0 {
        msg := PopHead();
        return OK, msg;
      }
      if timeout == 0 {
        return TIMEDOUT, 0;
      }
      receivers.Join(t, place);
      r := BLOCKED;
    }

    /** rt_mq_recv from the copy on: the message is the one taken, whatever came between. */
    method RecvEnd(msg: Node, size: nat) returns (data: Bytes)
      requires Valid() && msg in hand && hand[msg].Receiving?
      modifies this, senders
      ensures Valid() && Messages() == old(Messages())
      ensures |old(hand)[msg].msg| == msgSize
      ensures data == if size > msgSize then old(hand)[msg].msg else old(hand)[msg].msg[..size]
      ensures hand == old(hand) - {msg} && freed == [msg] + old(freed)
      ensures senders.queue == var q := old(senders.queue); if q == [] then [] else q[1..]
    {
      data := if size > msgSize then body[msg] else body[msg][..size];
      PushFree(msg);
      senders.Wake(|freed| - 1);
    }

    /** The thread timer of a waiting sender or receiver expires. */
    method Expire(t: Tid)
      requires Valid()
      modifies senders, receivers
      ensures Valid() && Messages() == old(Messages())
      ensures senders.queue == Without(old(senders.queue), t) && receivers.queue == Without(old(receivers.queue), t)
    {
      senders.Leave(t, |freed|);
      receivers.Leave(t, entry);
    }

    /** The first message from the queue straight to the free list. */
    method DropHead()
      requires Linked() && head != None
      modifies this`next, this`head, this`tail, this`free, this`entry, this`queued, this`freed, this`hand
      ensures Linked() && hand == old(hand) && |queued| == |old(queued)| - 1 && |freed| == |old(freed)| + 1
    {
      var msg := PopHead();
      PushFree(msg);
    }

    /** rt_mq_control(mq, RT_IPC_CMD_RESET): every waiter leaves with an error, every message is dropped. */
    method Reset()
      requires Valid()
      modifies this, receivers, senders
      ensures Valid() && Messages() == [] && senders.queue == [] && receivers.queue == [] && hand == old(hand)
      ensures |freed| == old(|freed| + |queued|)
    {
      while head != None
        invariant Linked() && hand == old(hand)
        invariant |freed| + |queued| == old(|freed| + |queued|)
        decreases |queued|
      {
        DropHead();
      }
      entry := 0;
      receivers.Clear(entry);
      senders.Clear(|freed|);
    }
  }
}
