/** The event bus and the streaming handler: each method one step of the runs in `EventStream`. */
module EventBus {
  import opened Texts
  import opened EventStream

  /** One more listener has heard. */
  lemma BroadcastOne(connections: map<nat, Connection>, done: set<nat>, failing: set<nat>, e: StudioEvent, l: nat)
    requires l in connections && l !in done
    ensures Broadcast(connections, done + {l}, failing, e)
         == Broadcast(connections, done, failing, e)[l := Send(connections[l], e, l in failing)]
  {
  }

  lemma BroadcastNone(connections: map<nat, Connection>, failing: set<nat>, e: StudioEvent)
    ensures Broadcast(connections, {}, failing, e) == connections
  {
  }

  lemma TargetsExist(s: State, buildId: Text)
    requires SetsOk(s)
    ensures forall l | l in Targets(s, buildId) :: l in s.connections
  {
    forall l | l in Targets(s, buildId) ensures l in s.connections {
      assert MemberOk(s, s.listeners[buildId], l);
    }
  }

  class StudioEventBus {
    var rows: seq<StudioEvent>
    var listeners: map<Text, nat>
    var sets: seq<set<nat>>
    /** The handler's connections, by number. */
    var connections: map<nat, Connection>

    ghost function Snapshot(): State
      reads this
    {
      State(rows, listeners, sets, connections)
    }

    ghost predicate Valid()
      reads this
    {
      Inv(Snapshot())
    }

    constructor ()
      ensures Valid() && Snapshot() == INIT
    {
      rows, listeners, sets, connections := [], map[], [], map[];
      new;
      InvRun([]);
    }

    /** Persists the event, then hands it to each listener of its build; `failing` are those that throw. */
    method EmitEvent(buildId: Text, kind: Text, payload: Text, seqNo: nat, failing: set<nat>)
      returns (event: StudioEvent)
      requires Valid() && seqNo > 0 && AllBefore(rows, seqNo)
      modifies this`rows, this`connections
      ensures event == StudioEvent(seqNo, buildId, kind, payload)
      ensures Valid() && Snapshot() == Emit(old(Snapshot()), event, failing)
    {
      event := StudioEvent(seqNo, buildId, kind, payload);
      InvEmit(Snapshot(), event, failing);
      TargetsExist(Snapshot(), buildId);
      rows := rows + [event];
      Deliver(event, failing);
    }

    method Deliver(event: StudioEvent, failing: set<nat>)
      requires forall l | l in Targets(Snapshot(), event.buildId) :: l in connections
      modifies this`connections
      ensures connections == Broadcast(old(connections), Targets(old(Snapshot()), event.buildId), failing, event)
    {
      ghost var targets := Targets(Snapshot(), event.buildId);
      var todo := if event.buildId in listeners && listeners[event.buildId] < |sets|
        then sets[listeners[event.buildId]] else {};
      BroadcastNone(connections, failing, event);
      while todo != {}
        invariant todo <= targets && connections.Keys == old(connections).Keys
        invariant connections == Broadcast(old(connections), targets - todo, failing, event)
        decreases todo
      {
        var l :| l in todo;
        BroadcastOne(old(connections), targets - todo, failing, event, l);
        assert targets - (todo - {l}) == targets - todo + {l};
        connections := connections[l := Send(connections[l], event, l in failing)];
        todo := todo - {l};
      }
      assert targets - {} == targets;
    }

    /** What was persisted for the build after an event, oldest first. */
    method ReadHistory(buildId: Text, afterSeq: int) returns (events: seq<StudioEvent>)
      ensures events == History(rows, buildId, afterSeq)
    {
      events := [];
      for i := 0 to |rows|
        invariant events == History(rows[..i], buildId, afterSeq)
      {
        assert rows[..i + 1] == rows[..i] + [rows[i]];
        HistoryAdd(rows[..i], rows[i], buildId, afterSeq);
        if rows[i].buildId == buildId && rows[i].seqNo > afterSeq {
          events := events + [rows[i]];
        }
      }
      assert rows[..|rows|] == rows;
    }

    method AddListener(buildId: Text, c: nat) returns (setId: nat)
      modifies this`listeners, this`sets
      ensures Snapshot() == Subscribe(old(Snapshot()), buildId, c) && setId == SetJoined(old(Snapshot()), buildId)
    {
      if buildId in listeners && listeners[buildId] < |sets| {
        setId := listeners[buildId];
        sets := sets[setId := sets[setId] + {c}];
      } else {
        setId := |sets|;
        sets := sets + [{c}];
        listeners := listeners[buildId := setId];
      }
    }

    /** Replays, then subscribes, with no `await` between. */
    method OpenConnection(c: nat, buildId: Text, afterSeq: int)
      requires Valid() && c !in connections
      modifies this`listeners, this`sets, this`connections
      ensures Valid() && Snapshot() == Connect(old(Snapshot()), c, buildId, afterSeq)
    {
      InvConnect(Snapshot(), c, buildId, afterSeq);
      var replayed := ReadHistory(buildId, afterSeq);
      var setId := AddListener(buildId, c);
      connections := connections[c := Connection(buildId, afterSeq, setId, |rows|, replayed, false, None)];
    }

    /** The client has gone: its listener leaves the set that it joined. */
    method CloseConnection(c: nat)
      requires Valid() && c in connections && connections[c].closedAt.None?
      modifies this`listeners, this`sets, this`connections
      ensures Valid() && Snapshot() == Unsubscribe(old(Snapshot()), c)
    {
      InvClose(Snapshot(), c);
      assert Listening(Snapshot(), c);
      var conn := connections[c];
      sets := sets[conn.setId := sets[conn.setId] - {c}];
      if sets[conn.setId] == {} {
        listeners := listeners - {conn.buildId};
      }
      connections := connections[c := conn.(closedAt := Some(|rows|))];
    }
  }
}
