/** The IPC system calls over the objects the kernel keeps: ring-buffered endpoints in a fixed
    pool, and the process table whose blocked slots are the wait queue. */
module IpcObjects {
  import opened Words
  import P = ProcessModel
  import opened IpcModel
  import opened ProcessTables

  /** An endpoint: a ring of 16 message slots and a few counters. */
  class Mailbox {
    const ring: array<Message>
    var head: nat
    var tail: nat
    var count: nat
    var nextSequence: u64
    var closed: bool
    var active: bool

    /** A zeroed pool slot. */
    constructor ()
      ensures Valid() && fresh(ring) && View() == Endpoint([], 0, false, false)
    {
      ring := new Message[CAPACITY](_ => Message(0, 0, 0));
      head, tail, count, nextSequence, closed, active := 0, 0, 0, 0, false, false;
    }

    ghost predicate Valid()
      reads this
    {
      ring.Length == CAPACITY && head < CAPACITY && count <= CAPACITY && tail == (head + count) % CAPACITY
    }

    ghost function Contents(): (s: seq<Message>)
      requires Valid()
      reads this, ring
      ensures |s| == count
    {
      Unrolled(ring[..], head, count)
    }

    ghost function View(): Endpoint
      requires Valid()
      reads this, ring
    {
      Endpoint(Contents(), nextSequence, closed, active)
    }

    method Open()
      requires Valid()
      modifies this, ring
      ensures Valid() && View() == Fresh()
    {
      head, tail, count, nextSequence, closed, active := 0, 0, 0, 1, false, true;
      for index := 0 to CAPACITY
        invariant Valid() && count == 0 && nextSequence == 1 && !closed && active
      {
        ring[index] := Message(0, 0, 0);
      }
      assert Contents() == [];
    }

    method Close() returns (status: Status)
      requires Valid()
      modifies this
      ensures Valid() && (status, View()) == CloseEndpoint(old(View()))
    {
      if !active {
        return Inval;
      }
      closed := true;
      assert Contents() == old(Contents());
      status := Ok;
    }

    method Destroy() returns (status: Status)
      requires Valid()
      modifies this
      ensures Valid() && (status, View()) == DestroyEndpoint(old(View()))
    {
      if !active {
        return Inval;
      }
      closed, active, head, tail, count := true, false, 0, 0, 0;
      assert Contents() == [];
      status := Ok;
    }

    method Put(message: Message) returns (status: Status)
      requires Valid()
      modifies this, ring
      ensures Valid() && (status, View()) == Send(old(View()), message)
    {
      if !active {
        return Inval;
      }
      if closed {
        return Closed;
      }
      if count >= CAPACITY {
        return Busy;
      }
      var copy := message;
      if copy.sequence == 0 {
        copy := Message(copy.opcode, nextSequence, copy.word);
      }
      if copy.sequence >= nextSequence {
        nextSequence := (copy.sequence + 1) % U64;
        if nextSequence == 0 {
          nextSequence := 1;
        }
      }
      assert Contents() == old(Contents());
      Push(copy);
      status := Ok;
    }

    /** The slot behind the last message, around the ring. */
    method Push(copy: Message)
      requires Valid() && count < CAPACITY
      modifies this`tail, this`count, ring
      ensures Valid() && Contents() == old(Contents()) + [copy]
    {
      UnrolledSnoc(ring[..], head, count, copy);
      RingAdvance(head, count);
      ring[tail] := copy;
      tail := (tail + 1) % CAPACITY;
      count := count + 1;
      assert ring[..] == old(ring[..])[old(tail) := copy];
    }

    method Get() returns (status: Status, message: Option<Message>)
      requires Valid()
      modifies this
      ensures Valid() && (status, View(), message) == Receive(old(View()))
    {
      if !active {
        return Inval, None;
      }
      if count == 0 {
        return if closed then Closed else Timeout, None;
      }
      var first := Pop();
      message := Some(first);
      status := Ok;
    }

    /** The slot of the oldest message, given up. */
    method Pop() returns (first: Message)
      requires Valid() && count > 0
      modifies this`head, this`count
      ensures Valid() && first == old(Contents())[0] && Contents() == old(Contents())[1..]
    {
      first := ring[head];
      UnrolledTail(ring[..], head, count);
      RingNext(head, count);
      head := (head + 1) % CAPACITY;
      count := count - 1;
    }
  }

  lemma RingAdvance(head: nat, count: nat)
    requires head < CAPACITY && count < CAPACITY
    ensures ((head + count) % CAPACITY + 1) % CAPACITY == (head + (count + 1)) % CAPACITY
  {
  }

  lemma RingApart(head: nat, i: nat, j: nat)
    requires head < CAPACITY && i < j < CAPACITY
    ensures (head + i) % CAPACITY != (head + j) % CAPACITY
  {
  }

  lemma RingNext(head: nat, i: nat)
    requires head < CAPACITY && 1 <= i <= CAPACITY
    ensures ((head + 1) % CAPACITY + (i - 1)) % CAPACITY == (head + i) % CAPACITY
  {
  }

  /** `count` slots from `head` on, around the ring. */
  function Unrolled(ring: seq<Message>, head: nat, count: nat): (s: seq<Message>)
    requires |ring| == CAPACITY
    ensures |s| == count
  {
    seq(count, i requires 0 <= i < count => ring[(head + i) % CAPACITY])
  }

  lemma UnrolledTail(ring: seq<Message>, head: nat, count: nat)
    requires |ring| == CAPACITY && head < CAPACITY && 0 < count <= CAPACITY
    ensures Unrolled(ring, head, count)[0] == ring[head]
    ensures Unrolled(ring, (head + 1) % CAPACITY, count - 1) == Unrolled(ring, head, count)[1..]
  {
    var rest := Unrolled(ring, head, count)[1..];
    forall i | 0 <= i < count - 1 ensures Unrolled(ring, (head + 1) % CAPACITY, count - 1)[i] == rest[i] {
      RingNext(head, i + 1);
    }
  }

  lemma UnrolledSnoc(ring: seq<Message>, head: nat, count: nat, m: Message)
    requires |ring| == CAPACITY && head < CAPACITY && count < CAPACITY
    ensures Unrolled(ring[(head + count) % CAPACITY := m], head, count + 1) == Unrolled(ring, head, count) + [m]
  {
    var more := Unrolled(ring[(head + count) % CAPACITY := m], head, count + 1);
    forall i | 0 <= i < count ensures more[i] == Unrolled(ring, head, count)[i] {
      RingApart(head, i, count);
    }
  }

  lemma EmptyStays(e: Endpoint)
    ensures Receive(e).0 == Timeout ==> Receive(e).1 == e
  {
  }

  class IpcKernel {
    const table: ProcessTable
    const boxes: seq<Mailbox>
    var waitSequence: nat

    constructor (table: ProcessTable, boxes: seq<Mailbox>)
      requires table.entries.Length == P.SLOTS && |boxes| == ENDPOINTS
      requires forall i | 0 <= i < ENDPOINTS :: boxes[i].Valid() && table.entries as object != boxes[i].ring
      requires forall i, j | 0 <= i < j < ENDPOINTS :: boxes[i] != boxes[j] && boxes[i].ring != boxes[j].ring
      ensures Valid() && this.table == table && this.boxes == boxes && waitSequence == 0
    {
      this.table := table;
      this.boxes := boxes;
      waitSequence := 0;
    }

    ghost function Rings(): set<object> {
      set i | 0 <= i < |boxes| :: boxes[i].ring as object
    }

    ghost predicate Valid()
      reads this, table, boxes
    {
      && table.entries.Length == P.SLOTS && |boxes| == ENDPOINTS
      && (forall i | 0 <= i < ENDPOINTS :: boxes[i].Valid() && table.entries as object != boxes[i].ring)
      && (forall i, j | 0 <= i < j < ENDPOINTS :: boxes[i] != boxes[j] && boxes[i].ring != boxes[j].ring)
    }

    ghost function Endpoints(): (es: seq<Endpoint>)
      requires Valid()
      reads this, table, boxes, Rings()
      ensures |es| == ENDPOINTS
    {
      [boxes[0].View(), boxes[1].View(), boxes[2].View(), boxes[3].View()]
    }

    ghost function View(): Kernel
      requires Valid()
      reads this, table, table.entries, boxes, Rings()
    {
      RawKernel(table.View(), Endpoints(), waitSequence)
    }

    /** A change confined to one mailbox changes one endpoint of the view. */
    twostate lemma OnlyBox(k: nat)
      requires old(Valid()) && Valid() && k < ENDPOINTS
      requires forall j | 0 <= j < ENDPOINTS && j != k :: unchanged(boxes[j]) && unchanged(boxes[j].ring)
      ensures Endpoints() == old(Endpoints())[k := boxes[k].View()]
    {
      forall j | 0 <= j < ENDPOINTS && j != k ensures boxes[j].View() == old(boxes[j].View()) {
        assert boxes[j].Contents() == old(boxes[j].Contents());
      }
    }

    /** The endpoint an object names, if it is an active one of the pool. */
    method Resolve(obj: Option<nat>) returns (live: bool)
      requires Valid()
      ensures live == Live(View(), obj)
    {
      live := false;
      if obj.Some? && obj.value < ENDPOINTS {
        live := boxes[obj.value].active;
      }
    }

    method WakeWaiters(endpoint: nat, result: int)
      requires Valid()
      modifies table.entries
      ensures Valid() && table.View() == WakeAll(old(table.View()), endpoint, result)
    {
      for index := 0 to P.SLOTS
        invariant forall k | 0 <= k < index :: table.entries[k] ==
                    if Waits(old(table.entries[k]), endpoint) then P.Woken(old(table.entries[k]), P.Ready, result)
                    else old(table.entries[k])
        invariant forall k | index <= k < P.SLOTS :: table.entries[k] == old(table.entries[k])
      {
        if Waits(table.entries[index], endpoint) {
          table.entries[index] := P.Woken(table.entries[index], P.Ready, result);
        }
      }
      assert table.View().entries == WakeAll(old(table.View()), endpoint, result).entries;
    }

    /** Scan for the oldest waiter, wake it, and go on until one takes the message. */
    method DeliverTo(endpoint: nat, verdicts: seq<Verdict>) returns (taker: Option<nat>)
      requires Valid() && |verdicts| == P.SLOTS
      modifies table.entries
      ensures Valid() && (table.View(), taker) == Deliver(old(table.View()), endpoint, verdicts, 0)
    {
      var skipped := 0;
      while true
        invariant Deliver(table.View(), endpoint, verdicts, skipped) ==
            Deliver(old(table.View()), endpoint, verdicts, 0)
        decreases |BlockedSlots(table.View())|
      {
        var waiter: Option<nat> := None;
        for index := 0 to P.SLOTS
          invariant waiter.Some? ==> waiter.value < P.SLOTS && Candidate(table.entries[waiter.value], endpoint, skipped)
          invariant Oldest(table.View(), endpoint, skipped, index, waiter) ==
              Oldest(table.View(), endpoint, skipped, 0, None)
        {
          if Candidate(table.entries[index], endpoint, skipped)
             && (waiter.None? || table.entries[index].wait.sequence < table.entries[waiter.value].wait.sequence) {
            waiter := Some(index);
          }
        }
        if waiter.None? {
          return None;
        }
        var w := waiter.value;
        ghost var t := table.View();
        skipped := table.entries[w].wait.sequence;
        WakingUnblocks(t, w, VerdictResult(verdicts[w]));
        table.entries[w] := P.Woken(table.entries[w], P.Ready, VerdictResult(verdicts[w]));
        assert table.View() == WakeSlot(t, w, VerdictResult(verdicts[w]));
        if verdicts[w] == Copied {
          return Some(w);
        }
      }
    }

    method SysCreate(authorised: bool, minted: bool) returns (a: Answer)
      requires Valid()
      modifies boxes, Rings()
      ensures Valid() && (View(), a) == IpcCreate(old(View()), authorised, minted)
    {
      if !authorised {
        return Said(NoMemory);
      }
      for index := 1 to ENDPOINTS
        invariant Valid() && View() == old(View()) && FreeEndpoint(View(), 1) == FreeEndpoint(View(), index)
      {
        if !boxes[index].active {
          boxes[index].Open();
          if !minted {
            var st := boxes[index].Destroy();
            OnlyBox(index);
            return Said(NoMemory);
          }
          OnlyBox(index);
          return Answer(Ok, None, None, Some(index));
        }
      }
      a := Said(NoMemory);
    }

    method SysDestroy(obj: Option<nat>) returns (a: Answer)
      requires Valid()
      modifies table.entries, boxes
      ensures Valid() && (View(), a) == IpcDestroy(old(View()), obj)
    {
      var live := Resolve(obj);
      if !live || obj.value == 0 {
        return Said(Denied);
      }
      var st := boxes[obj.value].Destroy();
      OnlyBox(obj.value);
      WakeWaiters(obj.value, P.E_CANCELED);
      a := Said(Ok);
    }

    method SysClose(obj: Option<nat>) returns (a: Answer)
      requires Valid()
      modifies table.entries, boxes
      ensures Valid() && (View(), a) == IpcClose(old(View()), obj)
    {
      var live := Resolve(obj);
      if !live {
        return Said(Denied);
      }
      var st := boxes[obj.value].Close();
      OnlyBox(obj.value);
      WakeWaiters(obj.value, P.E_CANCELED);
      a := Said(Ok);
    }

    /** A message into the ring of one mailbox. */
    method PutInto(i: nat, message: Message) returns (status: Status)
      requires Valid() && i < ENDPOINTS
      modifies boxes, Rings()
      ensures Valid() && table.View() == old(table.View()) && waitSequence == old(waitSequence)
      ensures var (st, e) := Send(old(Endpoints())[i], message);
              status == st && Endpoints() == old(Endpoints())[i := e]
    {
      status := boxes[i].Put(message);
      OnlyBox(i);
    }

    method SysCall(obj: Option<nat>, opcode: u32, word: u64, verdicts: seq<Verdict>) returns (a: Answer)
      requires Valid() && |verdicts| == P.SLOTS
      modifies table.entries, boxes, Rings()
      ensures Valid() && (View(), a) == IpcCall(old(View()), obj, opcode, word, verdicts)
    {
      var live := Resolve(obj);
      if !live {
        return Said(Denied);
      }
      var taker := DeliverTo(obj.value, verdicts);
      if taker.Some? {
        return Answer(Ok, taker, None, None);
      }
      var status := PutInto(obj.value, Message(opcode, word, word));
      a := Said(status);
    }

    /** The oldest message of one mailbox. */
    method TakeFrom(i: nat) returns (status: Status, message: Option<Message>)
      requires Valid() && i < ENDPOINTS
      modifies boxes
      ensures Valid() && table.View() == old(table.View()) && waitSequence == old(waitSequence)
      ensures var (st, e, m) := Receive(old(Endpoints())[i]);
              status == st && message == m && Endpoints() == old(Endpoints())[i := e]
    {
      status, message := boxes[i].Get();
      OnlyBox(i);
    }

    method SysReceive(obj: Option<nat>, writable: bool) returns (a: Answer)
      requires Valid()
      modifies boxes
      ensures Valid() && (View(), a) == IpcReceive(old(View()), obj, writable)
    {
      var live := Resolve(obj);
      if !live || !writable {
        return Said(Denied);
      }
      var status, message := TakeFrom(obj.value);
      a := Answer(status, None, message, None);
    }

    /** Put the running process to sleep, last in line. */
    method Sleep(endpoint: nat, buffer: u64)
      requires Valid() && table.current < P.SLOTS
      modifies this`waitSequence, table.entries
      ensures Valid() && Endpoints() == old(Endpoints()) && waitSequence == old(waitSequence) + 1
      ensures
        var t := old(table.View());
        var p := t.entries[t.current];
        table.View() == P.RawTable(t.entries[t.current :=
          P.Process(p.id, p.parent, p.group, P.Blocked, p.exitCode, p.generation, p.rip, p.rsp, p.emergency, 0,
                    P.Wait(buffer, waitSequence, endpoint))], t.current, t.live)
    {
      var p := table.entries[table.current];
      waitSequence := waitSequence + 1;
      table.entries[table.current] := P.Process(p.id, p.parent, p.group, P.Blocked, p.exitCode, p.generation,
                                                p.rip, p.rsp, p.emergency, 0, P.Wait(buffer, waitSequence, endpoint));
    }

    method SysReceiveWait(obj: Option<nat>, writable: bool, buffer: u64) returns (a: Answer)
      requires Valid()
      modifies this, table.entries, boxes
      ensures Valid() && (View(), a) == IpcReceiveWait(old(View()), obj, writable, buffer)
    {
      hide Receive;
      var live := Resolve(obj);
      if table.current >= P.SLOTS || table.entries[table.current].state != P.Running || !live || !writable {
        return Said(Denied);
      }
      var status, message := TakeFrom(obj.value);
      if status != Timeout {
        return Answer(status, None, message, None);
      }
      EmptyStays(old(View()).endpoints[obj.value]);
      assert Endpoints() == old(Endpoints());
      Sleep(obj.value, buffer);
      a := Said(Ok);
    }
  }
}
