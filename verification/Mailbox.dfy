/**
  Mailboxes: rt-thread/kernel/src/ipc.c.  A ring buffer with two offsets behaves as a bounded FIFO,
  and no sender or receiver is left waiting for a slot or a mail that nobody is on the way to.
 */
module Mailbox {
  import opened Queues
  import opened WaitQueues

  const MB_ENTRY_MAX: nat := 65535

  datatype Outcome = OK | FULL | TIMEDOUT | BLOCKED

  /** The place i steps on from offset o in a ring of n slots. */
  function Slot(o: nat, i: nat, n: nat): (k: nat)
    requires o < n && i <= n
    ensures k < n
  {
    if o + i < n then o + i else o + i - n
  }

  lemma SlotInjective(o: nat, i: nat, j: nat, n: nat)
    requires o < n && i < j < n
    ensures Slot(o, i, n) != Slot(o, j, n)
  {
  }

  /** The entries of the ring from offset o on. */
  ghost function Ring(pool: seq<int>, o: nat, entry: nat): (r: seq<int>)
    requires entry <= |pool| && (o < |pool| || entry == 0)
    ensures |r| == entry && forall i :: 0 <= i < entry ==> r[i] == pool[Slot(o, i, |pool|)]
  {
    seq(entry, i requires 0 <= i < entry => pool[Slot(o, i, |pool|)])
  }

  /** Writing behind the last entry appends. */
  lemma RingSend(pool: seq<int>, o: nat, entry: nat, v: int)
    requires entry < |pool| && o < |pool|
    ensures Ring(pool[Slot(o, entry, |pool|) := v], o, entry + 1) == Ring(pool, o, entry) + [v]
  {
    var pool' := pool[Slot(o, entry, |pool|) := v];
    forall i | 0 <= i < entry ensures Ring(pool', o, entry + 1)[i] == Ring(pool, o, entry)[i] {
      SlotInjective(o, i, entry, |pool|);
    }
  }

  /** Moving on the read offset drops the first entry. */
  lemma RingRecv(pool: seq<int>, o: nat, entry: nat)
    requires 0 < entry <= |pool| && o < |pool|
    ensures Ring(pool, o, entry)[0] == pool[o]
    ensures Ring(pool, Slot(o, 1, |pool|), entry - 1) == Ring(pool, o, entry)[1..]
  {
    forall i | 0 <= i < entry - 1
      ensures Ring(pool, Slot(o, 1, |pool|), entry - 1)[i] == Ring(pool, o, entry)[1..][i]
    {
      assert Slot(Slot(o, 1, |pool|), i, |pool|) == Slot(o, i + 1, |pool|);
    }
  }

  class RtMailbox {
    const pool: array<int>
    var entry: nat
    var inOffset: nat
    var outOffset: nat
    const receivers: WaitList
    const senders: WaitList

    ghost predicate Stored()
      reads this
    {
      && entry <= pool.Length <= MB_ENTRY_MAX
      && (pool.Length == 0 ==> inOffset == 0 && outOffset == 0)
      && (pool.Length > 0 ==> outOffset < pool.Length && inOffset == Slot(outOffset, entry, pool.Length))
    }

    ghost predicate Valid()
      reads this, receivers, senders
    {
      && Stored() && receivers != senders
      && receivers.Serves(entry) && senders.Serves(pool.Length - entry)
    }

    /** The mails waiting, in the order in which they will be received. */
    ghost function Mails(): (r: seq<int>)
      requires Stored()
      reads this, pool
    {
      Ring(pool[..], outOffset, entry)
    }

    /** rt_mb_init */
    constructor (size: nat)
      requires size <= MB_ENTRY_MAX
      ensures Valid() && Mails() == [] && pool.Length == size && fresh(pool) && fresh(receivers) && fresh(senders)
      ensures receivers.queue == [] && senders.queue == []
    {
      pool := new int[size];
      entry, inOffset, outOffset := 0, 0, 0;
      var r := new WaitList();
      var w := new WaitList();
      receivers, senders := r, w;
    }

    /** Store a mail.  The entry overflow exit is unreachable. */
    method Put(value: int) returns (ok: bool)
      requires Stored() && entry < pool.Length
      modifies this, pool
      ensures Stored() && ok && Mails() == old(Mails()) + [value]
    {
      RingSend(pool[..], outOffset, entry, value);
      pool[inOffset] := value;
      assert pool[..] == old(pool[..])[Slot(outOffset, entry, pool.Length) := value];
      inOffset := inOffset + 1;
      if inOffset >= pool.Length {
        inOffset := 0;
      }
      if entry < MB_ENTRY_MAX {
        entry := entry + 1;
      } else {
        return false;
      }
      ok := true;
    }

    /** Fetch the first mail. */
    method Get() returns (value: int)
      requires Stored() && entry > 0
      modifies this
      ensures Stored() && Mails() == old(Mails())[1..] && value == old(Mails())[0]
    {
      RingRecv(pool[..], outOffset, entry);
      value := pool[outOffset];
      outOffset := outOffset + 1;
      if outOffset >= pool.Length {
        outOffset := 0;
      }
      if entry > 0 {
        entry := entry - 1;
      }
    }

    /** rt_mb_send_wait, from entry or from being resumed to the next suspension. */
    method Send(t: Tid, value: int, timeout: int, place: nat) returns (r: Outcome)
      requires Valid() && t !in senders.queue && place <= |senders.queue|
      modifies this, pool, receivers, senders
      ensures Valid()
      ensures r == if |old(Mails())| < pool.Length then OK else if timeout == 0 then FULL else BLOCKED
      ensures Mails() == if r == OK then old(Mails()) + [value] else old(Mails())
      ensures senders.queue == var q := old(senders.queue); if r == BLOCKED then q[..place] + [t] + q[place..] else q
      ensures receivers.queue == var q := old(receivers.queue); if r == OK && q != [] then q[1..] else q
    {
      senders.Runs(t, pool.Length - entry);
      if entry == pool.Length {
        if timeout == 0 {
          return FULL;
        }
        senders.Join(t, place);
        return BLOCKED;
      }
      var ok := Put(value);
      if !ok {
        return FULL;
      }
      receivers.Wake(entry - 1);
      r := OK;
    }

    /** rt_mb_recv, from entry or from being resumed to the next suspension. */
    method Recv(t: Tid, timeout: int, place: nat) returns (r: Outcome, value: int)
      requires Valid() && t !in receivers.queue && place <= |receivers.queue|
      modifies this, receivers, senders
      ensures Valid()
      ensures r == if old(Mails()) != [] then OK else if timeout == 0 then TIMEDOUT else BLOCKED
      ensures r == OK ==> value == old(Mails())[0] && Mails() == old(Mails())[1..]
      ensures r != OK ==> Mails() == old(Mails())
      ensures receivers.queue == var q := old(receivers.queue); if r == BLOCKED then q[..place] + [t] + q[place..] else q
      ensures senders.queue == var q := old(senders.queue); if r == OK && q != [] then q[1..] else q
    {
      value := 0;
      receivers.Runs(t, entry);
      if entry == 0 {
        if timeout == 0 {
          return TIMEDOUT, 0;
        }
        receivers.Join(t, place);
        return BLOCKED, 0;
      }
      value := Get();
      senders.Wake(pool.Length - entry - 1);
      r := OK;
    }

    /** The thread timer of a waiting sender or receiver expires. */
    method Expire(t: Tid)
      requires Valid()
      modifies senders, receivers
      ensures Valid() && Mails() == old(Mails())
      ensures senders.queue == Without(old(senders.queue), t) && receivers.queue == Without(old(receivers.queue), t)
    {
      senders.Leave(t, pool.Length - entry);
      receivers.Leave(t, entry);
    }

    /** rt_mb_control(mb, RT_IPC_CMD_RESET) */
    method Reset()
      requires Valid()
      modifies this, senders, receivers
      ensures Valid() && Mails() == [] && senders.queue == [] && receivers.queue == []
    {
      entry, inOffset, outOffset := 0, 0, 0;
      receivers.Clear(0);
      senders.Clear(pool.Length);
    }
  }
}
