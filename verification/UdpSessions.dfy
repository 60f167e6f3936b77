/**
 pkg/udp/conn.go: the listener that turns datagrams into sessions, as a state machine over the
 steps of its read loop, of Shutdown calls, of each session's read loop and of Close calls. A step
 is what runs between two points where a goroutine can wait.
 */
module UdpSessions {

  type Byte = b: int | 0 <= b < 256

  type Datagram = seq<Byte>

  /** One successful Read: the length of its buffer and the bytes put into it. */
  datatype Delivery = Delivery(capacity: nat, data: Datagram)

  /**
   `routed` are the datagrams the listener chose the session for, `received` those its read loop took,
   `returned` what Read has given back. `done` is the closed doneCh.
   */
  datatype Session = Session(
    addr: string,
    done: bool,
    running: bool,
    routed: seq<Datagram>,
    received: seq<Datagram>,
    msgs: seq<Datagram>,
    returned: seq<Delivery>)

  /** Where the listener's read loop is; it holds the lock while it waits in `Sending`. */
  datatype Reader =
    | Idle
    | Got(addr: string, msg: Datagram)
    | Sending(id: nat, msg: Datagram)
    | Delivering(id: nat, msg: Datagram)
    | Stopped

  datatype State = State(
    accepting: bool,
    held: bool,
    conns: map<string, nat>,
    sessions: seq<Session>,
    accepted: seq<nat>,
    closes: nat,
    socketClosed: bool,
    reader: Reader,
    waiting: set<nat>)

  datatype Action =
    | Packet(addr: string, msg: Datagram)
    | Stop
    | GetConn
    | Accept
    | Deliver
    | Drop
    | Read(id: nat, capacity: nat)
    | MarkDone(id: nat)
    | Remove(id: nat)
    | Exit(id: nat)
    | Begin(caller: nat)
    | Close(caller: nat)

  function Init(): State {
    State(true, false, map[], [], [], 0, false, Idle, {})
  }

  /** As much of a datagram as the buffer holds. */
  function Truncated(msg: Datagram, capacity: nat): Datagram {
    if |msg| <= capacity then msg else msg[..capacity]
  }

  predicate Enabled(s: State, a: Action) {
    match a
    case Packet(_, _) => s.reader.Idle? && !s.socketClosed
    case Stop => s.reader.Idle? && s.socketClosed
    case GetConn => s.reader.Got? && !s.held && (s.reader.addr in s.conns ==> s.conns[s.reader.addr] < |s.sessions|)
    case Accept => s.reader.Sending? && s.reader.id < |s.sessions|
    case Deliver => s.reader.Delivering? && s.reader.id < |s.sessions| && s.sessions[s.reader.id].running
    case Drop => s.reader.Delivering? && s.reader.id < |s.sessions| && s.sessions[s.reader.id].done
    case Read(id, _) => id < |s.sessions| && s.sessions[id].running && s.sessions[id].msgs != []
    case MarkDone(id) => id < |s.sessions|
    case Remove(id) => id < |s.sessions| && s.sessions[id].done && !s.held
    case Exit(id) => id < |s.sessions| && s.sessions[id].done
    case Begin(_) => !s.held
    case Close(caller) => caller in s.waiting && !s.held
  }

  function NewSession(addr: string, msg: Datagram): Session {
    Session(addr, false, false, [msg], [], [], [])
  }

  function Update(s: State, id: nat, session: Session): State
    requires id < |s.sessions|
  {
    s.(sessions := s.sessions[id := session])
  }

  /** The session for the sender of a datagram: the one in the map, or a new one while accepting. */
  function FindSession(s: State, addr: string, msg: Datagram): State
    requires addr in s.conns ==> s.conns[addr] < |s.sessions|
  {
    if addr in s.conns then
      var id := s.conns[addr];
      Update(s, id, s.sessions[id].(routed := s.sessions[id].routed + [msg])).(reader := Delivering(id, msg))
    else if !s.accepting then s.(reader := Idle)
    else
      var id := |s.sessions|;
      s.(conns := s.conns[addr := id],
         sessions := s.sessions + [NewSession(addr, msg)],
         held := true,
         reader := Sending(id, msg))
  }

  function Taken(session: Session, msg: Datagram): Session {
    session.(received := session.received + [msg], msgs := session.msgs + [msg])
  }

  function Consumed(session: Session, capacity: nat): Session
    requires session.msgs != []
  {
    session.(msgs := session.msgs[1..],
             returned := session.returned + [Delivery(capacity, Truncated(session.msgs[0], capacity))])
  }

  /** The listener's close: all sessions of the map are closed, the map emptied, the channel closed. */
  function ClosedAll(s: State): seq<Session> {
    seq(|s.sessions|, i requires 0 <= i < |s.sessions| =>
      if s.sessions[i].addr in s.conns && s.conns[s.sessions[i].addr] == i
      then s.sessions[i].(done := true) else s.sessions[i])
  }

  function Next(s: State, a: Action): State
    requires Enabled(s, a)
  {
    match a
    case Packet(addr, msg) => s.(reader := Got(addr, msg))
    case Stop => s.(reader := Stopped)
    case GetConn => FindSession(s, s.reader.addr, s.reader.msg)
    case Accept =>
      var id := s.reader.id;
      Update(s, id, s.sessions[id].(running := true)).(
        accepted := s.accepted + [id], held := false, reader := Delivering(id, s.reader.msg))
    case Deliver =>
      var id := s.reader.id;
      Update(s, id, Taken(s.sessions[id], s.reader.msg)).(reader := Idle)
    case Drop => s.(reader := Idle)
    case Read(id, capacity) => Update(s, id, Consumed(s.sessions[id], capacity))
    case MarkDone(id) => Update(s, id, s.sessions[id].(done := true))
    case Remove(id) => s.(conns := s.conns - {s.sessions[id].addr})
    case Exit(id) => Update(s, id, s.sessions[id].(running := false))
    case Begin(caller) => if s.accepting then s.(accepting := false, waiting := s.waiting + {caller}) else s
    case Close(caller) =>
      s.(socketClosed := true,
         sessions := ClosedAll(s),
         conns := map[],
         closes := s.closes + 1,
         waiting := s.waiting - {caller})
  }

  /** The states a listener goes through. */
  predicate IsRun(states: seq<State>, actions: seq<Action>) {
    && |states| == |actions| + 1
    && states[0] == Init()
    && forall i :: 0 <= i < |actions| ==> StepAt(states, actions, i)
  }

  predicate StepAt(states: seq<State>, actions: seq<Action>, i: nat)
    requires i < |actions| && |states| == |actions| + 1
  {
    IsStep(states[i], actions[i], states[i + 1])
  }

  predicate IsStep(s: State, a: Action, t: State) {
    Enabled(s, a) && t == Next(s, a)
  }

  // ---------------------------------------------------------------------------
  // The accept channel
  // ---------------------------------------------------------------------------

  /** The lock is held exactly while a new session waits to be accepted, and then the listener accepts. */
  predicate LockOk(s: State) {
    (s.held <==> s.reader.Sending?) && (s.reader.Sending? ==> s.accepting)
  }

  /** At most one Shutdown goes on to close, and it does so once. */
  predicate ShutdownOk(s: State) {
    && (s.accepting ==> s.waiting == {} && s.closes == 0)
    && (s.closes > 0 ==> s.waiting == {})
    && s.closes <= 1
    && (forall a, b :: a in s.waiting && b in s.waiting ==> a == b)
  }

  lemma StepKeepsShutdown(s: State, a: Action, t: State)
    requires LockOk(s) && ShutdownOk(s) && IsStep(s, a, t)
    ensures LockOk(t) && ShutdownOk(t)
  {
  }

  /** Every session is handed to Accept once, in order; the last may still be waiting. */
  predicate AcceptedOk(s: State) {
    && |s.sessions| == |s.accepted| + (if s.reader.Sending? then 1 else 0)
    && (s.reader.Sending? ==> s.reader.id == |s.accepted|)
    && (forall k :: 0 <= k < |s.accepted| ==> s.accepted[k] == k)
  }

  lemma StepKeepsAccepted(s: State, a: Action, t: State)
    requires LockOk(s) && AcceptedOk(s) && IsStep(s, a, t)
    ensures AcceptedOk(t)
  {
  }

  /** Once Shutdown has begun no session is added, whatever is still under way. */
  lemma NothingIsAdded(s: State, a: Action, t: State)
    requires LockOk(s) && !s.accepting && IsStep(s, a, t)
    ensures !t.accepting && |t.sessions| == |s.sessions| && t.conns.Keys <= s.conns.Keys && t.accepted == s.accepted
  {
  }

  // ---------------------------------------------------------------------------
  // Sessions
  // ---------------------------------------------------------------------------

  /** What Read returned is the start of what came in, and what is queued is the rest. */
  predicate InOrder(c: Session) {
    && |c.returned| <= |c.received|
    && c.msgs == c.received[|c.returned|..]
    && forall k :: 0 <= k < |c.returned| ==> c.returned[k].data == Truncated(c.received[k], c.returned[k].capacity)
  }

  /** The datagram the read loop has in hand for a session. */
  function InHand(r: Reader, id: nat): seq<Datagram> {
    if (r.Sending? || r.Delivering?) && r.id == id then [r.msg] else []
  }

  /** An open session has received everything routed to it but what is in hand. */
  predicate SessionOk(c: Session, hand: seq<Datagram>) {
    InOrder(c) && (!c.done ==> c.routed == c.received + hand)
  }

  predicate SessionsOk(s: State) {
    forall id :: 0 <= id < |s.sessions| ==> SessionOk(s.sessions[id], InHand(s.reader, id))
  }

  /** The map leads to sessions of the right address, and is empty once the listener is closed. */
  predicate MapOk(s: State) {
    && (forall addr :: addr in s.conns ==> s.conns[addr] < |s.sessions| && s.sessions[s.conns[addr]].addr == addr)
    && ((s.reader.Sending? || s.reader.Delivering?) ==> s.reader.id < |s.sessions|)
    && (s.closes > 0 ==> s.conns == map[])
  }

  lemma StepKeepsMap(s: State, a: Action, t: State)
    requires LockOk(s) && ShutdownOk(s) && MapOk(s) && IsStep(s, a, t)
    ensures MapOk(t)
  {
  }

  lemma TakenKeeps(c: Session, msg: Datagram)
    requires SessionOk(c, [msg])
    ensures SessionOk(Taken(c, msg), [])
  {
    var t := Taken(c, msg);
    assert t.received[|c.returned|..] == c.received[|c.returned|..] + [msg];
    assert t.received + [] == t.received;
  }

  lemma ConsumedKeeps(c: Session, capacity: nat, hand: seq<Datagram>)
    requires SessionOk(c, hand) && c.msgs != []
    ensures SessionOk(Consumed(c, capacity), hand)
  {
  }

  lemma RoutedKeeps(c: Session, msg: Datagram)
    requires SessionOk(c, [])
    ensures SessionOk(c.(routed := c.routed + [msg]), [msg])
  {
    assert c.received + [] == c.received;
  }

  lemma FindKeepsSession(s: State, addr: string, msg: Datagram, id: nat)
    requires MapOk(s) && SessionsOk(s) && s.reader == Got(addr, msg) && id < |FindSession(s, addr, msg).sessions|
    ensures var t := FindSession(s, addr, msg);
            SessionOk(t.sessions[id], InHand(t.reader, id))
  {
    if id < |s.sessions| {
      assert SessionOk(s.sessions[id], InHand(s.reader, id));
      RoutedKeeps(s.sessions[id], msg);
    }
  }

  /** The data of a session, and what is in hand for it unless it is closed, are left alone. */
  predicate LeftAlone(c: Session, t: Session, before: seq<Datagram>, after: seq<Datagram>) {
    && t.routed == c.routed && t.received == c.received && t.msgs == c.msgs && t.returned == c.returned
    && (c.done ==> t.done) && (t.done || after == before)
  }

  lemma LeftAloneKeeps(c: Session, t: Session, before: seq<Datagram>, after: seq<Datagram>)
    requires SessionOk(c, before) && LeftAlone(c, t, before, after)
    ensures SessionOk(t, after)
  {
  }

  /** The listener's close marks sessions and leaves their data alone. */
  lemma CloseLeavesData(s: State, caller: nat, id: nat)
    requires Enabled(s, Close(caller)) && id < |s.sessions|
    ensures var t := Next(s, Close(caller));
            |t.sessions| == |s.sessions| && LeftAlone(s.sessions[id], t.sessions[id], InHand(s.reader, id), InHand(t.reader, id))
  {
  }

  lemma ReaderSteps(s: State, a: Action, id: nat)
    requires Enabled(s, a) && id < |s.sessions| && (a.Packet? || a.Stop? || a.Accept? || a.Deliver? || a.Drop?)
    requires a.Deliver? ==> s.reader.id != id
    ensures var t := Next(s, a);
            |t.sessions| == |s.sessions| && LeftAlone(s.sessions[id], t.sessions[id], InHand(s.reader, id), InHand(t.reader, id))
  {
  }

  lemma OtherSteps(s: State, a: Action, t: State, id: nat)
    requires IsStep(s, a, t) && id < |s.sessions| && !a.GetConn?
    requires (a.Deliver? ==> s.reader.id != id) && (a.Read? ==> a.id != id)
    ensures |t.sessions| == |s.sessions|
    ensures LeftAlone(s.sessions[id], t.sessions[id], InHand(s.reader, id), InHand(t.reader, id))
  {
    if a.Close? {
      CloseLeavesData(s, a.caller, id);
    } else if a.Packet? || a.Stop? || a.Accept? || a.Deliver? || a.Drop? {
      ReaderSteps(s, a, id);
    }
  }

  lemma StepKeepsSession(s: State, a: Action, t: State, id: nat)
    requires MapOk(s) && SessionsOk(s) && IsStep(s, a, t) && id < |t.sessions|
    ensures SessionOk(t.sessions[id], InHand(t.reader, id))
  {
    if a.GetConn? {
      FindKeepsSession(s, s.reader.addr, s.reader.msg, id);
    } else {
      assert |t.sessions| == |s.sessions|;
      var c := s.sessions[id];
      assert SessionOk(c, InHand(s.reader, id));
      if a.Deliver? && s.reader.id == id {
        TakenKeeps(c, s.reader.msg);
      } else if a.Read? && a.id == id {
        ConsumedKeeps(c, a.capacity, InHand(s.reader, id));
      } else {
        OtherSteps(s, a, t, id);
        LeftAloneKeeps(c, t.sessions[id], InHand(s.reader, id), InHand(t.reader, id));
      }
    }
  }

  // ---------------------------------------------------------------------------
  // Every run
  // ---------------------------------------------------------------------------

  predicate Inv(s: State) {
    LockOk(s) && ShutdownOk(s) && MapOk(s) && SessionsOk(s) && AcceptedOk(s)
  }

  lemma StepKeepsInv(s: State, a: Action, t: State)
    requires Inv(s) && IsStep(s, a, t)
    ensures Inv(t)
  {
    StepKeepsShutdown(s, a, t);
    StepKeepsMap(s, a, t);
    StepKeepsAccepted(s, a, t);
    forall id | 0 <= id < |t.sessions| ensures SessionOk(t.sessions[id], InHand(t.reader, id)) {
      StepKeepsSession(s, a, t, id);
    }
  }

  lemma {:induction false} RunKeepsInv(states: seq<State>, actions: seq<Action>, i: nat)
    requires IsRun(states, actions) && i < |states|
    ensures Inv(states[i])
  {
    if i > 0 {
      RunKeepsInv(states, actions, i - 1);
      assert StepAt(states, actions, i - 1);
      StepKeepsInv(states[i - 1], actions[i - 1], states[i]);
    }
  }

  lemma RunKeepsLock(states: seq<State>, actions: seq<Action>, i: nat)
    requires IsRun(states, actions) && i < |states|
    ensures LockOk(states[i])
  {
    RunKeepsInv(states, actions, i);
  }

  /**
   The accept channel is closed at most once, nothing is sent on it, or waits to be, once it is closed,
   and every session goes through it once, in the order of creation.
   */
  lemma ChannelIsSafe(states: seq<State>, actions: seq<Action>, i: nat)
    requires IsRun(states, actions) && i < |states|
    ensures states[i].closes <= 1
    ensures states[i].reader.Sending? ==> states[i].closes == 0 && states[i].waiting == {}
    ensures AcceptedOk(states[i])
  {
    RunKeepsInv(states, actions, i);
  }

  /** From the moment Shutdown has been called on, no session is added. */
  lemma {:induction false} NoSessionAfterShutdown(states: seq<State>, actions: seq<Action>, i: nat, j: nat)
    requires IsRun(states, actions) && i <= j < |states| && !states[i].accepting
    ensures !states[j].accepting && |states[j].sessions| == |states[i].sessions|
    ensures states[j].conns.Keys <= states[i].conns.Keys && states[j].accepted == states[i].accepted
  {
    if i < j {
      NoSessionAfterShutdown(states, actions, i, j - 1);
      RunKeepsLock(states, actions, j - 1);
      assert StepAt(states, actions, j - 1);
      NothingIsAdded(states[j - 1], actions[j - 1], states[j]);
    }
  }

  /**
   After k Reads a session has returned its first k datagrams, each cut to its buffer, and queues the
   rest; while it is open it has received all that was routed to it but the datagram in hand.
   */
  lemma ReadsAreInOrder(states: seq<State>, actions: seq<Action>, i: nat, id: nat)
    requires IsRun(states, actions) && i < |states| && id < |states[i].sessions|
    ensures var c := states[i].sessions[id];
            && |c.returned| + |c.msgs| == |c.received|
            && c.msgs == c.received[|c.returned|..]
            && (forall k :: 0 <= k < |c.returned| ==>
                  c.returned[k].data == Truncated(c.received[k], c.returned[k].capacity))
            && (!c.done ==> c.routed == c.received + InHand(states[i].reader, id))
  {
    RunKeepsInv(states, actions, i);
    assert SessionOk(states[i].sessions[id], InHand(states[i].reader, id));
  }

  // ---------------------------------------------------------------------------
  // Open sessions and the map
  // ---------------------------------------------------------------------------

  /** The map has the session under its address. */
  predicate Mapped(s: State, id: nat)
    requires id < |s.sessions|
  {
    s.sessions[id].addr in s.conns && s.conns[s.sessions[id].addr] == id
  }

  /** Every open session is the one that the map has for its address. */
  predicate OpenMapped(s: State) {
    forall id :: 0 <= id < |s.sessions| ==> s.sessions[id].done || Mapped(s, id)
  }

  /** The step deletes the address of the session while the map has the session there. */
  predicate Evicts(s: State, a: Action, id: nat)
    requires Enabled(s, a)
  {
    a.Remove? && id < |s.sessions| && Mapped(s, id) && s.sessions[a.id].addr == s.sessions[id].addr
  }

  /** The address that a Close deletes is free, or belongs to a closed session. */
  predicate Harmless(s: State, id: nat)
    requires id < |s.sessions|
  {
    var addr := s.sessions[id].addr;
    addr in s.conns && s.conns[addr] < |s.sessions| ==> s.sessions[s.conns[addr]].done
  }

  lemma FindMapped(s: State, addr: string, msg: Datagram, id: nat)
    requires MapOk(s) && id < |FindSession(s, addr, msg).sessions|
    ensures var t := FindSession(s, addr, msg);
            Mapped(t, id) <==> id == |s.sessions| || Mapped(s, id)
  {
  }

  lemma OtherMapped(s: State, a: Action, t: State, id: nat)
    requires IsStep(s, a, t) && id < |s.sessions| && !a.GetConn? && !a.Remove? && !a.Close?
    ensures t.conns == s.conns && |t.sessions| == |s.sessions|
    ensures t.sessions[id].addr == s.sessions[id].addr && (s.sessions[id].done ==> t.sessions[id].done)
  {
  }

  /** An open session stays mapped exactly when the step does not evict it. */
  lemma StepMapped(s: State, a: Action, t: State, id: nat)
    requires MapOk(s) && IsStep(s, a, t) && id < |t.sessions| && !t.sessions[id].done
    ensures Mapped(t, id) <==> id == |s.sessions| || (Mapped(s, id) && !Evicts(s, a, id))
    ensures id < |s.sessions| ==> !s.sessions[id].done
  {
    if a.GetConn? {
      FindMapped(s, s.reader.addr, s.reader.msg, id);
    } else if !a.Remove? && !a.Close? {
      OtherMapped(s, a, t, id);
    }
  }

  /** The session was evicted before the i-th state. */
  ghost predicate Evicted(states: seq<State>, actions: seq<Action>, i: nat, id: nat)
    requires IsRun(states, actions) && i < |states|
  {
    exists j :: 0 <= j < i && StepAt(states, actions, j) && Evicts(states[j], actions[j], id)
  }

  /**
   In every run an open session is the one that the map has for its address if and only if no Close
   has deleted that address since the session was put there.
   */
  lemma {:induction false} MappedUnlessEvicted(states: seq<State>, actions: seq<Action>, i: nat, id: nat)
    requires IsRun(states, actions) && i < |states|
    requires id < |states[i].sessions| && !states[i].sessions[id].done
    ensures Mapped(states[i], id) <==> !Evicted(states, actions, i, id)
  {
    if i > 0 {
      var s, a, t := states[i - 1], actions[i - 1], states[i];
      assert StepAt(states, actions, i - 1);
      RunKeepsInv(states, actions, i - 1);
      StepMapped(s, a, t, id);
      if id < |s.sessions| {
        MappedUnlessEvicted(states, actions, i - 1, id);
      } else {
        FewerBefore(states, actions, i - 1, id);
      }
    }
  }

  /** So all open sessions are mapped if and only if every session evicted so far has been closed. */
  lemma OpenMappedIffEvictedClosed(states: seq<State>, actions: seq<Action>, i: nat)
    requires IsRun(states, actions) && i < |states|
    ensures OpenMapped(states[i]) <==>
            forall id :: 0 <= id < |states[i].sessions| && Evicted(states, actions, i, id) ==> states[i].sessions[id].done
  {
    forall id | 0 <= id < |states[i].sessions| && !states[i].sessions[id].done
      ensures Mapped(states[i], id) <==> !Evicted(states, actions, i, id)
    {
      MappedUnlessEvicted(states, actions, i, id);
    }
  }

  /** A session that does not exist yet was not evicted. */
  lemma {:induction false} FewerBefore(states: seq<State>, actions: seq<Action>, i: nat, id: nat)
    requires IsRun(states, actions) && i < |states| && id >= |states[i].sessions|
    ensures forall j :: 0 <= j <= i ==> |states[j].sessions| <= id
  {
    if i > 0 {
      assert StepAt(states, actions, i - 1);
      SessionsGrow(states[i - 1], actions[i - 1], states[i]);
      FewerBefore(states, actions, i - 1, id);
    }
  }

  lemma SessionsGrow(s: State, a: Action, t: State)
    requires IsStep(s, a, t)
    ensures |s.sessions| <= |t.sessions|
  {
  }

  /** Once the listener is closed, the sessions still open are exactly open ones that a Close evicted. */
  lemma OpenAfterCloseWasEvicted(states: seq<State>, actions: seq<Action>, i: nat, id: nat)
    requires IsRun(states, actions) && i < |states| && states[i].closes > 0
    requires id < |states[i].sessions| && !states[i].sessions[id].done
    ensures Evicted(states, actions, i, id)
  {
    RunKeepsInv(states, actions, i);
    MappedUnlessEvicted(states, actions, i, id);
  }

  /** What one Close does: all open sessions stay mapped exactly when its deletion is harmless. */
  lemma RemoveKeepsMapped(s: State, id: nat)
    requires MapOk(s) && OpenMapped(s) && Enabled(s, Remove(id))
    ensures OpenMapped(Next(s, Remove(id))) <==> Harmless(s, id)
  {
    var t := Next(s, Remove(id));
    var addr := s.sessions[id].addr;
    if OpenMapped(t) && addr in s.conns {
      assert t.sessions[s.conns[addr]].done || Mapped(t, s.conns[addr]);
    }
    if Harmless(s, id) {
      forall x | 0 <= x < |t.sessions| ensures t.sessions[x].done || Mapped(t, x) {
        assert s.sessions[x].done || Mapped(s, x);
      }
    }
  }

  /** Every other step keeps open sessions mapped. */
  lemma StepKeepsMapped(s: State, a: Action, t: State)
    requires MapOk(s) && OpenMapped(s) && IsStep(s, a, t) && !a.Remove?
    ensures OpenMapped(t)
  {
    forall id | 0 <= id < |t.sessions| ensures t.sessions[id].done || Mapped(t, id) {
      if !t.sessions[id].done {
        StepMapped(s, a, t, id);
        NewIsNext(s, a, t, id);
      }
    }
  }

  lemma NewIsNext(s: State, a: Action, t: State, id: nat)
    requires IsStep(s, a, t) && id < |t.sessions|
    ensures id <= |s.sessions|
  {
  }

  predicate HarmlessAt(states: seq<State>, actions: seq<Action>, i: nat)
    requires i < |actions| && |states| == |actions| + 1
  {
    actions[i].Remove? && actions[i].id < |states[i].sessions| ==> Harmless(states[i], actions[i].id)
  }

  /** In a run, all open sessions are mapped all the time if and only if every deletion is harmless. */
  lemma AlwaysMappedIffHarmless(states: seq<State>, actions: seq<Action>)
    requires IsRun(states, actions)
    ensures (forall i :: 0 <= i < |states| ==> OpenMapped(states[i]))
       <==> forall i :: 0 <= i < |actions| ==> HarmlessAt(states, actions, i)
  {
    if forall i :: 0 <= i < |states| ==> OpenMapped(states[i]) {
      forall i | 0 <= i < |actions| ensures HarmlessAt(states, actions, i) {
        assert StepAt(states, actions, i) && OpenMapped(states[i]) && OpenMapped(states[i + 1]);
        RunKeepsInv(states, actions, i);
        if actions[i].Remove? {
          RemoveKeepsMapped(states[i], actions[i].id);
        }
      }
    }
    if forall i :: 0 <= i < |actions| ==> HarmlessAt(states, actions, i) {
      forall i | 0 <= i < |states| ensures OpenMapped(states[i]) {
        HarmlessRun(states, actions, i);
      }
    }
  }

  lemma {:induction false} HarmlessRun(states: seq<State>, actions: seq<Action>, i: nat)
    requires IsRun(states, actions) && i < |states|
    requires forall j :: 0 <= j < |actions| ==> HarmlessAt(states, actions, j)
    ensures OpenMapped(states[i])
  {
    if i > 0 {
      HarmlessRun(states, actions, i - 1);
      RunKeepsInv(states, actions, i - 1);
      assert StepAt(states, actions, i - 1) && HarmlessAt(states, actions, i - 1);
      if actions[i - 1].Remove? {
        RemoveKeepsMapped(states[i - 1], actions[i - 1].id);
      } else {
        StepKeepsMapped(states[i - 1], actions[i - 1], states[i]);
      }
    }
  }

  lemma ExtendRun(states: seq<State>, actions: seq<Action>, a: Action)
    requires IsRun(states, actions) && Enabled(states[|actions|], a)
    ensures IsRun(states + [Next(states[|actions|], a)], actions + [a])
  {
    var longer, all := states + [Next(states[|actions|], a)], actions + [a];
    forall i | 0 <= i < |all| ensures StepAt(longer, all, i) {
      if i < |actions| {
        assert StepAt(states, actions, i);
      }
    }
  }

  /**
   A second Close of a session deletes by address, so it takes a newer session of that address out of
   the map, and the listener's close then leaves the newer one open.
   */
  lemma SecondCloseOrphans(addr: string, msg: Datagram, caller: nat) returns (states: seq<State>, actions: seq<Action>)
    ensures IsRun(states, actions)
    ensures var s := states[|actions|];
            s.closes == 1 && s.conns == map[] && |s.sessions| == 2 && !s.sessions[1].done
  {
    states, actions := SecondSessionRun(addr, msg);
    states, actions := Then(states, actions, Remove(0));
    states, actions := Then(states, actions, Begin(caller));
    states, actions := Then(states, actions, Close(caller));
  }

  lemma SecondSessionRun(addr: string, msg: Datagram) returns (states: seq<State>, actions: seq<Action>)
    ensures IsRun(states, actions)
    ensures var s := states[|actions|];
            && s.accepting && !s.held && s.waiting == {} && s.closes == 0 && |s.sessions| == 2
            && s.sessions[0].done && !s.sessions[1].done && s.sessions[0].addr == addr && s.conns == map[addr := 1]
  {
    states, actions := FirstSessionRun(addr, msg);
    states, actions := Then(states, actions, Packet(addr, msg));
    states, actions := Then(states, actions, GetConn);
    states, actions := Then(states, actions, Accept);
  }

  lemma FirstSessionRun(addr: string, msg: Datagram) returns (states: seq<State>, actions: seq<Action>)
    ensures IsRun(states, actions)
    ensures var s := states[|actions|];
            && s.accepting && !s.held && s.waiting == {} && s.closes == 0
            && s.reader.Idle? && !s.socketClosed && s.conns == map[]
            && |s.sessions| == 1 && s.sessions[0].done && s.sessions[0].addr == addr
  {
    states, actions := [Init()], [];
    states, actions := Then(states, actions, Packet(addr, msg));
    states, actions := Then(states, actions, GetConn);
    states, actions := Then(states, actions, Accept);
    states, actions := Then(states, actions, Deliver);
    states, actions := Then(states, actions, MarkDone(0));
    states, actions := Then(states, actions, Remove(0));
  }

  lemma Then(states: seq<State>, actions: seq<Action>, a: Action) returns (longer: seq<State>, all: seq<Action>)
    requires IsRun(states, actions) && Enabled(states[|actions|], a)
    ensures IsRun(longer, all) && |all| == |actions| + 1 && longer[|all|] == Next(states[|actions|], a)
  {
    ExtendRun(states, actions, a);
    longer, all := states + [Next(states[|actions|], a)], actions + [a];
  }
}
