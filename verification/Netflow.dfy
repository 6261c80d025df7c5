/** Per-process byte accounting: counters per pid that each roll-up turns into events. */
module Netflow {
  datatype Counter = Counter(sent: int, recv: int)

  /** A kernel network event: its id, its size and PID fields, and the pid of the thread that
      logged it. */
  datatype Packet = Packet(id: int, size: int, pidField: int, thread: nat)

  datatype Emitted = Emitted(pid: nat, sent: int, recv: int)

  predicate IsSend(id: int) { id == 10 || id == 26 || id == 42 || id == 58 }

  predicate IsRecv(id: int) { id == 11 || id == 27 || id == 43 || id == 59 }

  /** The PID field as an unsigned 32-bit number, or the logging thread's pid when it is zero. */
  function Pid(p: Packet): nat { if p.pidField % 0x1_0000_0000 == 0 then p.thread else p.pidField % 0x1_0000_0000 }

  /** TCP over IPv4 and IPv6 and UDP over both send under the ids 10, 26, 42 and 58 and receive
      under the next ones; no id does both. */
  lemma Directions(id: int)
    ensures IsSend(id) <==> id in {10, 26, 42, 58}
    ensures IsRecv(id) <==> id - 1 in {10, 26, 42, 58}
    ensures !(IsSend(id) && IsRecv(id))
  {
  }

  /** Bytes a packet adds to a pid in one direction. */
  function Bytes(p: Packet, pid: nat, sending: bool): int {
    if Pid(p) == pid && (if sending then IsSend(p.id) else IsRecv(p.id)) then p.size else 0
  }

  function Observed(ps: seq<Packet>, pid: nat, sending: bool): int {
    if ps == [] then 0 else Observed(ps[..|ps| - 1], pid, sending) + Bytes(ps[|ps| - 1], pid, sending)
  }

  function Reported(es: seq<Emitted>, pid: nat, sending: bool): int {
    if es == [] then 0
    else
      var last := es[|es| - 1];
      Reported(es[..|es| - 1], pid, sending) + if last.pid != pid then 0 else if sending then last.sent else last.recv
  }

  function Live(counters: map<nat, Counter>, pid: nat, sending: bool): int {
    if pid !in counters then 0 else if sending then counters[pid].sent else counters[pid].recv
  }

  /** Nothing is lost or counted twice, for any pid and direction. */
  ghost predicate Conserved(es: seq<Emitted>, counters: map<nat, Counter>, ps: seq<Packet>) {
    forall pid, sending :: Reported(es, pid, sending) + Live(counters, pid, sending) == Observed(ps, pid, sending)
  }

  lemma ObservedSnoc(ps: seq<Packet>, p: Packet, pid: nat, sending: bool)
    ensures Observed(ps + [p], pid, sending) == Observed(ps, pid, sending) + Bytes(p, pid, sending)
  {
    assert (ps + [p])[..|ps|] == ps;
  }

  lemma ReportedSnoc(es: seq<Emitted>, e: Emitted, pid: nat, sending: bool)
    ensures Reported(es + [e], pid, sending) ==
            Reported(es, pid, sending) + if e.pid != pid then 0 else if sending then e.sent else e.recv
  {
    assert (es + [e])[..|es|] == es;
  }

  /** Process 4 sends 100 bytes and process 9, known only by its thread, receives 7. */
  lemma OneEachWay()
    ensures var ps := [Packet(10, 100, 4, 9), Packet(43, 7, 0, 9)];
      && Observed(ps, 4, true) == 100 && Observed(ps, 4, false) == 0
      && Observed(ps, 9, true) == 0 && Observed(ps, 9, false) == 7
  {
    var ps := [Packet(10, 100, 4, 9), Packet(43, 7, 0, 9)];
    var none: seq<Packet> := [];
    assert ps[..1][..0] == none && ps[..1][0] == ps[0];
    forall pid, sending
      ensures Observed(ps, pid, sending) == Bytes(ps[0], pid, sending) + Bytes(ps[1], pid, sending)
    {
      assert Observed(ps[..1], pid, sending) == Observed(none, pid, sending) + Bytes(ps[0], pid, sending);
    }
  }

  datatype Input = Tick | Arrived(packet: Packet)

  function Packets(inputs: seq<Input>): seq<Packet> {
    if inputs == [] then []
    else
      var before, last := Packets(inputs[..|inputs| - 1]), inputs[|inputs| - 1];
      if last.Tick? then before else before + [last.packet]
  }

  /** The events that stand for these counters: one for each pid that moved bytes, in any order. */
  ghost predicate Emits(es: seq<Emitted>, counters: map<nat, Counter>) {
    && (forall i, j | 0 <= i < j < |es| :: es[i].pid != es[j].pid)
    && (forall i | 0 <= i < |es| :: es[i].pid in counters)
    && (forall i | 0 <= i < |es| :: counters[es[i].pid] == Counter(es[i].sent, es[i].recv))
    && (forall i | 0 <= i < |es| :: es[i].sent != 0 || es[i].recv != 0)
  }

  class Collector {
    var counters: map<nat, Counter>
    var events: seq<Emitted>
    ghost var packets: seq<Packet>  // everything received so far

    ghost predicate Valid()
      reads this
    {
      Conserved(events, counters, packets)
    }

    constructor ()
      ensures Valid() && packets == [] && events == [] && counters == map[]
    {
      counters, events, packets := map[], [], [];
    }

    /** Swaps the counters out and emits each pid that moved bytes, in any order. */
    method Flush()
      requires Valid()
      modifies this
      ensures Valid() && packets == old(packets) && counters == map[]
      ensures old(events) <= events && Emits(events[|old(events)|..], old(counters))
    {
      var snapshot := counters;
      counters := map[];
      ghost var out: seq<Emitted> := [];
      var todo := snapshot.Keys;
      while todo != {}
        invariant todo <= snapshot.Keys && counters == map[] && packets == old(packets)
        invariant events == old(events) + out && Emits(out, snapshot)
        invariant forall i | 0 <= i < |out| :: out[i].pid !in todo
        invariant forall pid, sending :: Reported(events, pid, sending) +
                    (if pid in todo then Live(snapshot, pid, sending) else 0) == Observed(packets, pid, sending)
        decreases todo
      {
        var pid :| pid in todo;
        var ct := snapshot[pid];
        if ct.sent != 0 || ct.recv != 0 {
          var e := Emitted(pid, ct.sent, ct.recv);
          forall q, sending ensures Reported(events + [e], q, sending) ==
            Reported(events, q, sending) + if q == pid then Live(snapshot, pid, sending) else 0
          {
            ReportedSnoc(events, e, q, sending);
          }
          events := events + [e];
          out := out + [e];
        }
        todo := todo - {pid};
      }
      assert events[|old(events)|..] == out;
    }

    /** One event from the kernel: other ids and empty packets are ignored. */
    method Observe(p: Packet)
      requires Valid()
      modifies this
      ensures Valid() && packets == old(packets) + [p] && events == old(events)
    {
      Count(p);
      forall pid, sending
        ensures Observed(packets + [p], pid, sending) == Observed(packets, pid, sending) + Bytes(p, pid, sending)
      {
        ObservedSnoc(packets, p, pid, sending);
      }
      packets := packets + [p];
    }

    method Count(p: Packet)
      modifies this`counters
      ensures forall pid, sending ::
        Live(counters, pid, sending) == Live(old(counters), pid, sending) + Bytes(p, pid, sending)
    {
      if !IsSend(p.id) && !IsRecv(p.id) {
        return;
      }
      if p.size == 0 {
        return;
      }
      var pid: nat := p.pidField % 0x1_0000_0000;
      if pid == 0 {
        pid := p.thread;
      }
      var ct := if pid in counters then counters[pid] else Counter(0, 0);
      if IsSend(p.id) {
        counters := counters[pid := ct.(sent := ct.sent + p.size)];
      } else {
        counters := counters[pid := ct.(recv := ct.recv + p.size)];
      }
    }

    /** The event loop, over the packets and roll-up ticks it sees before it is stopped; the
        last thing it does is flush. In the end every byte observed has been emitted. */
    method Run(inputs: seq<Input>)
      requires Valid() && packets == []
      modifies this
      ensures packets == Packets(inputs) && counters == map[]
      ensures forall pid, sending :: Reported(events, pid, sending) == Observed(Packets(inputs), pid, sending)
    {
      for i := 0 to |inputs|
        invariant Valid() && packets == Packets(inputs[..i])
      {
        assert inputs[..i + 1][..i] == inputs[..i];
        match inputs[i]
        case Tick => Flush();
        case Arrived(p) => Observe(p);
      }
      assert inputs[..|inputs|] == inputs;
      Flush();
    }
  }
}
