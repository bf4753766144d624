/** The event stream of a build: persisted first, broadcast second, and resumable from any event. */
module EventStream {
  import opened Texts

  /** `seqNo` is the row id that the table assigned. */
  datatype StudioEvent = StudioEvent(seqNo: nat, buildId: Text, kind: Text, payload: Text)

  /** One streaming connection: what it was asked for, the listener set it was put into, and what was
      sent to it. `openedAt` and `closedAt` are how many rows there were when it opened and closed. */
  datatype Connection = Connection(
    buildId: Text,
    afterSeq: int,
    setId: nat,
    openedAt: nat,
    received: seq<StudioEvent>,
    failed: bool,
    closedAt: Option<nat>)

  /** Listener sets have an identity: `listeners` maps a build to one of `sets`, and each connection
      remembers the set it joined. */
  datatype State = State(
    rows: seq<StudioEvent>,
    listeners: map<Text, nat>,
    sets: seq<set<nat>>,
    connections: map<nat, Connection>)

  const INIT := State([], map[], [], map[])

  function History(rows: seq<StudioEvent>, buildId: Text, afterSeq: int): seq<StudioEvent> {
    if rows == [] then [] else
      var e := rows[|rows| - 1];
      History(rows[..|rows| - 1], buildId, afterSeq) + (if e.buildId == buildId && e.seqNo > afterSeq then [e] else [])
  }

  function Targets(s: State, buildId: Text): set<nat> {
    if buildId in s.listeners && s.listeners[buildId] < |s.sets| then s.sets[s.listeners[buildId]] else {}
  }

  function Send(c: Connection, e: StudioEvent, fails: bool): Connection {
    if fails then c.(failed := true) else c.(received := c.received + [e])
  }

  function Broadcast(connections: map<nat, Connection>, targets: set<nat>, failing: set<nat>, e: StudioEvent)
    : map<nat, Connection>
  {
    map c | c in connections :: if c in targets then Send(connections[c], e, c in failing) else connections[c]
  }

  /** A listener that throws is ignored; the others still hear. */
  function Emit(s: State, e: StudioEvent, failing: set<nat>): State {
    s.(rows := s.rows + [e], connections := Broadcast(s.connections, Targets(s, e.buildId), failing, e))
  }

  /** Joins the set of the build, or a new one. */
  function Subscribe(s: State, buildId: Text, c: nat): State {
    if buildId in s.listeners && s.listeners[buildId] < |s.sets| then
      var i := s.listeners[buildId];
      s.(sets := s.sets[i := s.sets[i] + {c}])
    else
      s.(listeners := s.listeners[buildId := |s.sets|], sets := s.sets + [{c}])
  }

  function SetJoined(s: State, buildId: Text): nat {
    if buildId in s.listeners && s.listeners[buildId] < |s.sets| then s.listeners[buildId] else |s.sets|
  }

  /** Replay and subscription happen in one step. */
  function Connect(s: State, c: nat, buildId: Text, afterSeq: int): State {
    var conn := Connection(buildId, afterSeq, SetJoined(s, buildId), |s.rows|, History(s.rows, buildId, afterSeq),
                           false, None);
    var t := Subscribe(s, buildId, c);
    t.(connections := t.connections[c := conn])
  }

  /** Leaves the set it joined; when that is empty, the build has no listeners any more. */
  function Unsubscribe(s: State, c: nat): State {
    if c !in s.connections || s.connections[c].setId >= |s.sets| then s else
      var conn := s.connections[c];
      var left := s.sets[conn.setId] - {c};
      s.(sets := s.sets[conn.setId := left],
         listeners := if left == {} then s.listeners - {conn.buildId} else s.listeners,
         connections := s.connections[c := conn.(closedAt := Some(|s.rows|))])
  }

  // ----- runs -----

  datatype Event =
    | DoEmit(event: StudioEvent, failing: set<nat>)
    | DoConnect(c: nat, buildId: Text, afterSeq: int)
    | DoClose(c: nat)

  function Step(s: State, e: Event): State {
    match e
    case DoEmit(event, failing) => Emit(s, event, failing)
    case DoConnect(c, buildId, afterSeq) => Connect(s, c, buildId, afterSeq)
    case DoClose(c) => Unsubscribe(s, c)
  }

  function Run(es: seq<Event>): State {
    if es == [] then INIT else Step(Run(es[..|es| - 1]), es[|es| - 1])
  }

  predicate AllBefore(rows: seq<StudioEvent>, n: nat) {
    forall i | 0 <= i < |rows| :: rows[i].seqNo < n
  }

  /** Row ids grow, connections are new, and a connection closes once. */
  predicate Proper(s: State, e: Event) {
    match e
    case DoEmit(event, _) => event.seqNo > 0 && AllBefore(s.rows, event.seqNo)
    case DoConnect(c, _, _) => c !in s.connections
    case DoClose(c) => c in s.connections && s.connections[c].closedAt.None?
  }

  predicate ProperRun(es: seq<Event>) {
    es != [] ==> ProperRun(es[..|es| - 1]) && Proper(Run(es[..|es| - 1]), es[|es| - 1])
  }

  // ----- what every run keeps -----

  predicate OrderedRows(rows: seq<StudioEvent>, i: int, j: int) {
    0 <= i < j < |rows| ==> rows[i].seqNo < rows[j].seqNo
  }

  ghost predicate RowsInOrder(rows: seq<StudioEvent>) {
    forall i, j :: OrderedRows(rows, i, j)
  }

  predicate Open(c: Connection) {
    c.closedAt.None?
  }

  /** An open connection is in the set that its build's events go to. */
  predicate Listening(s: State, c: nat)
    requires c in s.connections
  {
    var conn := s.connections[c];
    && conn.setId < |s.sets|
    && (Open(conn) ==>
          conn.buildId in s.listeners && s.listeners[conn.buildId] == conn.setId && c in s.sets[conn.setId])
  }

  /** A set holds only open connections that joined it, so a closed one is in no set. */
  predicate MemberOk(s: State, i: nat, c: nat) {
    i < |s.sets| && c in s.sets[i] ==> c in s.connections && Open(s.connections[c]) && s.connections[c].setId == i
  }

  ghost predicate SetsOk(s: State) {
    && (forall b | b in s.listeners :: s.listeners[b] < |s.sets|)
    && (forall i: nat, c: nat :: MemberOk(s, i, c))
    && (forall c | c in s.connections :: Listening(s, c))
  }

  /** Different builds have different sets. */
  predicate SetsApart(s: State) {
    forall a, b | a in s.listeners && b in s.listeners && s.listeners[a] == s.listeners[b] :: a == b
  }

  function UpTo(rows: seq<StudioEvent>, conn: Connection): nat {
    if conn.closedAt.Some? then conn.closedAt.value else |rows|
  }

  /** The events of its build persisted before it opened, after the one it named, and all of them from
      then to its closing. */
  function Expected(rows: seq<StudioEvent>, conn: Connection): seq<StudioEvent>
    requires conn.openedAt <= UpTo(rows, conn) <= |rows|
  {
    History(rows[..conn.openedAt], conn.buildId, conn.afterSeq)
    + History(rows[conn.openedAt..UpTo(rows, conn)], conn.buildId, -1)
  }

  /** A connection whose writes succeeded has received exactly that. */
  predicate Complete(rows: seq<StudioEvent>, conn: Connection) {
    && conn.openedAt <= UpTo(rows, conn) <= |rows|
    && (!conn.failed ==> conn.received == Expected(rows, conn))
  }

  ghost predicate AllComplete(rows: seq<StudioEvent>, connections: map<nat, Connection>) {
    forall c | c in connections :: Complete(rows, connections[c])
  }

  /** A set that events go to has members. */
  predicate SetsLive(s: State) {
    forall b | b in s.listeners :: s.listeners[b] < |s.sets| && s.sets[s.listeners[b]] != {}
  }

  /** A set is joined by connections of one build only. */
  ghost predicate SetsOwned(s: State) {
    && (forall c, d | c in s.connections && d in s.connections && s.connections[c].setId == s.connections[d].setId ::
          s.connections[c].buildId == s.connections[d].buildId)
    && (forall c, b | c in s.connections && b in s.listeners && s.listeners[b] == s.connections[c].setId ::
          b == s.connections[c].buildId)
  }

  ghost predicate Inv(s: State) {
    && RowsInOrder(s.rows) && SetsOk(s) && SetsApart(s) && SetsLive(s) && SetsOwned(s)
    && AllComplete(s.rows, s.connections)
  }

  // --- an event ---

  lemma HistoryAdd(rows: seq<StudioEvent>, e: StudioEvent, buildId: Text, afterSeq: int)
    ensures History(rows + [e], buildId, afterSeq)
         == History(rows, buildId, afterSeq) + (if e.buildId == buildId && e.seqNo > afterSeq then [e] else [])
  {
    assert (rows + [e])[..|rows|] == rows;
  }

  /** One more row adds the event to what an open connection of its build expects, and to no other. */
  lemma ExpectedAdd(rows: seq<StudioEvent>, e: StudioEvent, conn: Connection)
    requires conn.openedAt <= UpTo(rows, conn) <= |rows|
    ensures Expected(rows + [e], conn)
         == Expected(rows, conn) + (if Open(conn) && e.buildId == conn.buildId then [e] else [])
  {
    var k := conn.openedAt;
    assert (rows + [e])[..k] == rows[..k];
    if Open(conn) {
      assert rows[k..|rows|] == rows[k..];
      assert (rows + [e])[k..|rows + [e]|] == rows[k..] + [e];
      HistoryAdd(rows[k..], e, conn.buildId, -1);
    } else {
      assert (rows + [e])[k..conn.closedAt.value] == rows[k..conn.closedAt.value];
    }
  }

  /** An event goes exactly to the open connections of its build. */
  lemma TargetsExact(s: State, buildId: Text, c: nat)
    requires SetsOk(s) && SetsApart(s) && c in s.connections
    ensures c in Targets(s, buildId) <==> Open(s.connections[c]) && s.connections[c].buildId == buildId
  {
    assert Listening(s, c);
    if buildId in s.listeners {
      assert MemberOk(s, s.listeners[buildId], c);
    }
  }

  lemma InvEmit(s: State, e: StudioEvent, failing: set<nat>)
    requires Inv(s) && e.seqNo > 0 && AllBefore(s.rows, e.seqNo)
    ensures Inv(Emit(s, e, failing))
  {
    var t := Emit(s, e, failing);
    EmitSets(s, e, failing);
    EmitOwned(s, e, failing);
    forall c | c in t.connections ensures Complete(t.rows, t.connections[c]) {
      assert Complete(s.rows, s.connections[c]);
      TargetsExact(s, e.buildId, c);
      ExpectedAdd(s.rows, e, s.connections[c]);
    }
    forall i, j ensures OrderedRows(t.rows, i, j) {
      assert OrderedRows(s.rows, i, j);
    }
  }

  lemma EmitOwned(s: State, e: StudioEvent, failing: set<nat>)
    requires SetsLive(s) && SetsOwned(s)
    ensures SetsLive(Emit(s, e, failing)) && SetsOwned(Emit(s, e, failing))
  {
    var t := Emit(s, e, failing);
    assert forall c | c in t.connections ::
        t.connections[c].setId == s.connections[c].setId && t.connections[c].buildId == s.connections[c].buildId;
  }

  lemma EmitSets(s: State, e: StudioEvent, failing: set<nat>)
    requires SetsOk(s)
    ensures SetsOk(Emit(s, e, failing))
  {
    var t := Emit(s, e, failing);
    forall i: nat, c: nat ensures MemberOk(t, i, c) {
      assert MemberOk(s, i, c);
    }
    forall c | c in t.connections ensures Listening(t, c) {
      assert Listening(s, c);
    }
  }

  // --- a connection opens ---

  lemma ConnectSets(s: State, c: nat, buildId: Text, afterSeq: int)
    requires SetsOk(s) && SetsApart(s) && c !in s.connections
    ensures SetsOk(Connect(s, c, buildId, afterSeq)) && SetsApart(Connect(s, c, buildId, afterSeq))
  {
    var t := Connect(s, c, buildId, afterSeq);
    forall i: nat, k: nat ensures MemberOk(t, i, k) {
      assert MemberOk(s, i, k);
    }
    forall k | k in t.connections ensures Listening(t, k) {
      if k != c { assert Listening(s, k); }
    }
  }

  lemma ConnectLive(s: State, c: nat, buildId: Text, afterSeq: int)
    requires SetsLive(s)
    ensures SetsLive(Connect(s, c, buildId, afterSeq))
  {
    var t := Connect(s, c, buildId, afterSeq);
    forall b | b in t.listeners ensures t.listeners[b] < |t.sets| && t.sets[t.listeners[b]] != {} {
      assert t.listeners[b] == SetJoined(s, buildId) ==> c in t.sets[t.listeners[b]];
    }
  }

  /** Those who joined the set before are of the same build. */
  lemma JoinsOwn(s: State, buildId: Text, d: nat)
    requires SetsOk(s) && SetsOwned(s) && d in s.connections && s.connections[d].setId == SetJoined(s, buildId)
    ensures s.connections[d].buildId == buildId
  {
    assert Listening(s, d);
  }

  lemma ConnectOwned(s: State, c: nat, buildId: Text, afterSeq: int)
    requires SetsOk(s) && SetsApart(s) && SetsOwned(s) && c !in s.connections
    ensures SetsOwned(Connect(s, c, buildId, afterSeq))
  {
    var t := Connect(s, c, buildId, afterSeq);
    forall d | d in s.connections ensures s.connections[d].setId < |s.sets| {
      assert Listening(s, d);
    }
    forall d | d in s.connections && s.connections[d].setId == SetJoined(s, buildId)
      ensures s.connections[d].buildId == buildId {
      JoinsOwn(s, buildId, d);
    }
  }

  lemma InvConnect(s: State, c: nat, buildId: Text, afterSeq: int)
    requires Inv(s) && c !in s.connections
    ensures Inv(Connect(s, c, buildId, afterSeq))
  {
    ConnectSets(s, c, buildId, afterSeq);
    ConnectLive(s, c, buildId, afterSeq);
    ConnectOwned(s, c, buildId, afterSeq);
    var t := Connect(s, c, buildId, afterSeq);
    forall k | k in t.connections ensures Complete(t.rows, t.connections[k]) {
      if k != c {
        assert Complete(s.rows, s.connections[k]);
      } else {
        assert s.rows[..|s.rows|] == s.rows && s.rows[|s.rows|..|s.rows|] == [];
        var h := History(s.rows, buildId, afterSeq);
        assert h + [] == h;
      }
    }
  }

  // --- a connection closes ---

  lemma CloseSets(s: State, c: nat)
    requires SetsOk(s) && SetsApart(s) && c in s.connections && Open(s.connections[c])
    ensures SetsOk(Unsubscribe(s, c)) && SetsApart(Unsubscribe(s, c))
  {
    var t := Unsubscribe(s, c);
    var conn := s.connections[c];
    assert Listening(s, c);
    forall i: nat, k: nat ensures MemberOk(t, i, k) {
      assert MemberOk(s, i, k);
    }
    forall k | k in t.connections ensures Listening(t, k) {
      assert Listening(s, k);
      if k != c && Open(s.connections[k]) && s.connections[k].buildId == conn.buildId {
        assert k in t.sets[conn.setId];
      }
    }
  }

  lemma CloseLive(s: State, c: nat)
    requires SetsOk(s) && SetsApart(s) && SetsLive(s) && SetsOwned(s) && c in s.connections && Open(s.connections[c])
    ensures SetsLive(Unsubscribe(s, c)) && SetsOwned(Unsubscribe(s, c))
  {
    assert Listening(s, c);
  }

  lemma InvClose(s: State, c: nat)
    requires Inv(s) && c in s.connections && Open(s.connections[c])
    ensures Inv(Unsubscribe(s, c))
  {
    CloseSets(s, c);
    CloseLive(s, c);
    var t := Unsubscribe(s, c);
    forall k | k in t.connections ensures Complete(t.rows, t.connections[k]) {
      assert Complete(s.rows, s.connections[k]);
    }
  }

  lemma InvStep(s: State, e: Event)
    requires Inv(s) && Proper(s, e)
    ensures Inv(Step(s, e))
  {
    match e {
      case DoEmit(event, failing) => InvEmit(s, event, failing);
      case DoConnect(c, buildId, afterSeq) => InvConnect(s, c, buildId, afterSeq);
      case DoClose(c) => InvClose(s, c);
    }
  }

  lemma {:induction false} InvRun(es: seq<Event>)
    requires ProperRun(es)
    ensures Inv(Run(es))
  {
    if es != [] {
      InvRun(es[..|es| - 1]);
      InvStep(Run(es[..|es| - 1]), es[|es| - 1]);
    } else {
      forall i: nat, c: nat ensures MemberOk(INIT, i, c) {
      }
      forall i, j ensures OrderedRows(INIT.rows, i, j) {
      }
    }
  }

  // ----- what a client has -----

  lemma SplitLast<T>(xs: seq<T>, k: nat)
    requires k < |xs|
    ensures var n := |xs| - 1; xs[..n][..k] == xs[..k] && xs[k..] == xs[..n][k..] + [xs[n]]
  {
  }

  lemma {:induction false} HistorySplit(rows: seq<StudioEvent>, k: nat, buildId: Text, afterSeq: int)
    requires k <= |rows|
    ensures History(rows, buildId, afterSeq)
            == History(rows[..k], buildId, afterSeq) + History(rows[k..], buildId, afterSeq)
  {
    if k == |rows| {
      assert rows[..k] == rows && rows[k..] == [];
      assert History(rows, buildId, afterSeq) + [] == History(rows, buildId, afterSeq);
    } else {
      var n := |rows| - 1;
      HistorySplit(rows[..n], k, buildId, afterSeq);
      SplitLast(rows, k);
      HistoryAdd(rows[..n][k..], rows[n], buildId, afterSeq);
      var tail := if rows[n].buildId == buildId && rows[n].seqNo > afterSeq then [rows[n]] else [];
      Assoc(History(rows[..k], buildId, afterSeq), History(rows[..n][k..], buildId, afterSeq), tail);
    }
  }

  predicate AllAfter(rows: seq<StudioEvent>, buildId: Text, afterSeq: int) {
    forall i | 0 <= i < |rows| && rows[i].buildId == buildId :: rows[i].seqNo > afterSeq
  }

  lemma {:induction false} HistoryShrinks(rows: seq<StudioEvent>, buildId: Text, afterSeq: int)
    ensures |History(rows, buildId, afterSeq)| <= |History(rows, buildId, -1)|
    ensures History(rows, buildId, afterSeq) == History(rows, buildId, -1) <==> AllAfter(rows, buildId, afterSeq)
    ensures |History(rows, buildId, afterSeq)| == |History(rows, buildId, -1)| <==> AllAfter(rows, buildId, afterSeq)
  {
    if rows != [] {
      var n := |rows| - 1;
      HistoryShrinks(rows[..n], buildId, afterSeq);
      assert AllAfter(rows, buildId, afterSeq) <==>
             AllAfter(rows[..n], buildId, afterSeq) && (rows[n].buildId == buildId ==> rows[n].seqNo > afterSeq);
    }
  }

  /** At every later moment a client has received exactly what was persisted for its build before it
      connected and after the event it named, followed by everything persisted since, in order and once;
      and that is the history after the event it named exactly when no later event of the build has an
      id at or below it. */
  lemma StreamExact(es: seq<Event>, c: nat)
    requires ProperRun(es) && c in Run(es).connections && !Run(es).connections[c].failed
    ensures var s := Run(es);
            var conn := s.connections[c];
            && conn.openedAt <= UpTo(s.rows, conn) <= |s.rows|
            && conn.received == Expected(s.rows, conn)
            && (conn.received == History(s.rows[..UpTo(s.rows, conn)], conn.buildId, conn.afterSeq) <==>
                AllAfter(s.rows[conn.openedAt..UpTo(s.rows, conn)], conn.buildId, conn.afterSeq))
  {
    InvRun(es);
    var s := Run(es);
    var conn := s.connections[c];
    assert Complete(s.rows, conn);
    ExpectedExact(s.rows, conn);
  }

  /** A run in which a client names an event that is not there yet, and is sent one with a smaller id. */
  lemma SmallerIsSent(e: StudioEvent, afterSeq: int) returns (es: seq<Event>)
    requires 0 < e.seqNo <= afterSeq
    ensures ProperRun(es) && 1 in Run(es).connections
    ensures var conn := Run(es).connections[1];
            conn.afterSeq == afterSeq && conn.received == [e] && History(Run(es).rows, e.buildId, afterSeq) == []
  {
    var first := DoConnect(1, e.buildId, afterSeq);
    es := [first] + [DoEmit(e, {})];
    assert es[..1] == [first] && [first][..0] == [];
    var s := Connect(INIT, 1, e.buildId, afterSeq);
    assert Run([first]) == s && ProperRun([first]);
    assert s.sets == [{1}] && s.listeners == map[e.buildId := 0] && Targets(s, e.buildId) == {1};
    assert s.connections[1].received == [] && [] + [e] == [e];
    HistoryAdd([], e, e.buildId, afterSeq);
  }

  lemma ExpectedExact(rows: seq<StudioEvent>, conn: Connection)
    requires conn.openedAt <= UpTo(rows, conn) <= |rows|
    ensures Expected(rows, conn) == History(rows[..UpTo(rows, conn)], conn.buildId, conn.afterSeq) <==>
            AllAfter(rows[conn.openedAt..UpTo(rows, conn)], conn.buildId, conn.afterSeq)
  {
    var u, k := UpTo(rows, conn), conn.openedAt;
    HistorySplit(rows[..u], k, conn.buildId, conn.afterSeq);
    assert rows[..u][..k] == rows[..k] && rows[..u][k..] == rows[k..u];
    HistoryShrinks(rows[k..u], conn.buildId, conn.afterSeq);
  }

  /** The client asked for everything, or for what follows an event that was there when it connected. */
  predicate Resumable(rows: seq<StudioEvent>, conn: Connection) {
    conn.afterSeq == 0 || exists i :: 0 <= i < conn.openedAt && i < |rows| && rows[i].seqNo >= conn.afterSeq >= 0
  }

  lemma ResumableAfter(rows: seq<StudioEvent>, conn: Connection)
    requires RowsInOrder(rows) && conn.openedAt <= UpTo(rows, conn) <= |rows| && Resumable(rows, conn)
    requires forall i | 0 <= i < |rows| :: rows[i].seqNo > 0
    ensures conn.afterSeq >= 0 && AllAfter(rows[conn.openedAt..UpTo(rows, conn)], conn.buildId, conn.afterSeq)
  {
    if conn.afterSeq != 0 {
      var i :| 0 <= i < conn.openedAt && i < |rows| && rows[i].seqNo >= conn.afterSeq >= 0;
      var tail := rows[conn.openedAt..UpTo(rows, conn)];
      forall j | 0 <= j < |tail| ensures tail[j].seqNo > conn.afterSeq {
        assert OrderedRows(rows, i, conn.openedAt + j);
      }
    }
  }

  /** Such a client has, at every moment, the history of its build after that event. */
  lemma StreamComplete(es: seq<Event>, c: nat)
    requires ProperRun(es) && c in Run(es).connections && !Run(es).connections[c].failed
    requires Resumable(Run(es).rows, Run(es).connections[c])
    ensures var s := Run(es);
            var conn := s.connections[c];
            UpTo(s.rows, conn) <= |s.rows|
            && conn.received == History(s.rows[..UpTo(s.rows, conn)], conn.buildId, conn.afterSeq)
  {
    InvRun(es);
    var s := Run(es);
    assert Complete(s.rows, s.connections[c]);
    SeqsPositive(es);
    ResumableAfter(s.rows, s.connections[c]);
    ExpectedExact(s.rows, s.connections[c]);
  }

  lemma {:induction false} SeqsPositive(es: seq<Event>)
    requires ProperRun(es)
    ensures forall i | 0 <= i < |Run(es).rows| :: Run(es).rows[i].seqNo > 0
  {
    if es != [] { SeqsPositive(es[..|es| - 1]); }
  }

  // ----- reconnecting -----

  /** Where a client that has received `received` after `afterSeq` resumes. */
  function ResumeAt(received: seq<StudioEvent>, afterSeq: int): int {
    if received == [] then afterSeq else received[|received| - 1].seqNo
  }

  lemma {:induction false} HistoryMember(rows: seq<StudioEvent>, buildId: Text, afterSeq: int, e: StudioEvent)
    ensures e in History(rows, buildId, afterSeq) <==> e in rows && e.buildId == buildId && e.seqNo > afterSeq
  {
    if rows != [] {
      HistoryMember(rows[..|rows| - 1], buildId, afterSeq, e);
      assert e in rows <==> e in rows[..|rows| - 1] || e == rows[|rows| - 1];
    }
  }

  lemma {:induction false} HistoryInOrder(rows: seq<StudioEvent>, buildId: Text, afterSeq: int, e: StudioEvent)
    requires RowsInOrder(rows) && e in History(rows, buildId, afterSeq)
    ensures e.seqNo <= ResumeAt(History(rows, buildId, afterSeq), afterSeq)
  {
    var n := |rows| - 1;
    var h := History(rows[..n], buildId, afterSeq);
    forall i, j ensures OrderedRows(rows[..n], i, j) {
      assert OrderedRows(rows, i, j);
    }
    if e in h {
      HistoryInOrder(rows[..n], buildId, afterSeq, e);
      HistoryMember(rows[..n], buildId, afterSeq, h[|h| - 1]);
      var i :| 0 <= i < n && rows[..n][i] == h[|h| - 1];
      assert OrderedRows(rows, i, n);
    }
  }

  lemma {:induction false} NoneAfter(rows: seq<StudioEvent>, buildId: Text, afterSeq: int)
    requires forall i | 0 <= i < |rows| && rows[i].buildId == buildId :: rows[i].seqNo <= afterSeq
    ensures History(rows, buildId, afterSeq) == []
  {
    if rows != [] { NoneAfter(rows[..|rows| - 1], buildId, afterSeq); }
  }

  lemma {:induction false} SameAfter(rows: seq<StudioEvent>, buildId: Text, a: int, b: int)
    requires AllAfter(rows, buildId, a) && AllAfter(rows, buildId, b)
    ensures History(rows, buildId, a) == History(rows, buildId, b)
  {
    if rows != [] { SameAfter(rows[..|rows| - 1], buildId, a, b); }
  }

  /** What was received up to some moment, followed by the history after the last of it, is the whole. */
  lemma ResumedIsWhole(rows: seq<StudioEvent>, k: nat, buildId: Text, afterSeq: int)
    requires RowsInOrder(rows) && k <= |rows|
    ensures var first := History(rows[..k], buildId, afterSeq);
            first + History(rows, buildId, ResumeAt(first, afterSeq)) == History(rows, buildId, afterSeq)
  {
    var first := History(rows[..k], buildId, afterSeq);
    var next := ResumeAt(first, afterSeq);
    if first == [] {
      assert [] + History(rows, buildId, afterSeq) == History(rows, buildId, afterSeq);
    } else {
      NothingBetween(rows, k, buildId, afterSeq);
      HistorySplit(rows, k, buildId, next);
      HistorySplit(rows, k, buildId, afterSeq);
      assert [] + History(rows[k..], buildId, next) == History(rows[k..], buildId, next);
    }
  }

  lemma NothingBetween(rows: seq<StudioEvent>, k: nat, buildId: Text, afterSeq: int)
    requires RowsInOrder(rows) && k <= |rows| && History(rows[..k], buildId, afterSeq) != []
    ensures var next := ResumeAt(History(rows[..k], buildId, afterSeq), afterSeq);
            && History(rows[..k], buildId, next) == []
            && History(rows[k..], buildId, next) == History(rows[k..], buildId, afterSeq)
  {
    var first := History(rows[..k], buildId, afterSeq);
    var next, last := ResumeAt(first, afterSeq), first[|first| - 1];
    HistoryMember(rows[..k], buildId, afterSeq, last);
    var m :| 0 <= m < k && rows[..k][m] == last;
    forall i, j ensures OrderedRows(rows[..k], i, j) {
      assert OrderedRows(rows, i, j);
    }
    forall i | 0 <= i < k && rows[i].buildId == buildId ensures rows[i].seqNo <= next {
      if rows[i].seqNo > afterSeq {
        assert rows[..k][i] in rows[..k];
        HistoryMember(rows[..k], buildId, afterSeq, rows[i]);
        HistoryInOrder(rows[..k], buildId, afterSeq, rows[i]);
      }
    }
    NoneAfter(rows[..k], buildId, next);
    forall i | 0 <= i < |rows[k..]| ensures rows[k..][i].seqNo > next {
      assert OrderedRows(rows, m, k + i);
    }
    SameAfter(rows[k..], buildId, next, afterSeq);
  }

  lemma {:induction false} HistoryPrefix(rows: seq<StudioEvent>, n: nat, buildId: Text, afterSeq: int) returns (k: nat)
    requires n <= |History(rows, buildId, afterSeq)|
    ensures k <= |rows| && History(rows[..k], buildId, afterSeq) == History(rows, buildId, afterSeq)[..n]
  {
    var h := History(rows, buildId, afterSeq);
    if n == |h| {
      k := |rows|;
      assert rows[..k] == rows && h[..n] == h;
    } else {
      var m := |rows| - 1;
      k := HistoryPrefix(rows[..m], n, buildId, afterSeq);
      assert rows[..m][..k] == rows[..k];
    }
  }

  /** What a client got of a connection: the first `n` of what the server sent on it. */
  function Delivered(s: State, c: nat, n: nat): seq<StudioEvent> {
    if c in s.connections && n <= |s.connections[c].received| then s.connections[c].received[..n] else []
  }

  /** The connections of one client, one after the other, of which it got so much each; it resumes after the last
      event it got, and an event is got before one resumes after it. */
  predicate Chain(s: State, cs: seq<nat>, ns: seq<nat>, buildId: Text, afterSeq: int) {
    && cs != [] && |ns| == |cs| && cs[0] in s.connections
    && var conn := s.connections[cs[0]];
       && conn.buildId == buildId && conn.afterSeq == afterSeq && !conn.failed && ns[0] <= |conn.received|
       && (|cs| > 1 ==>
             && cs[1] in s.connections && conn.openedAt <= s.connections[cs[1]].openedAt
             && GotBefore(s, Delivered(s, cs[0], ns[0]), s.connections[cs[1]])
             && Chain(s, cs[1..], ns[1..], buildId, ResumeAt(Delivered(s, cs[0], ns[0]), afterSeq)))
  }

  predicate GotBefore(s: State, got: seq<StudioEvent>, next: Connection) {
    next.openedAt <= |s.rows| && forall i | 0 <= i < |got| :: got[i] in s.rows[..next.openedAt]
  }

  function DeliveredOver(s: State, cs: seq<nat>, ns: seq<nat>): seq<StudioEvent>
    requires |ns| == |cs|
  {
    if cs == [] then [] else Delivered(s, cs[0], ns[0]) + DeliveredOver(s, cs[1..], ns[1..])
  }

  /** The last connection is open, and all that was sent on it has been got. */
  predicate UpToDate(s: State, cs: seq<nat>, ns: seq<nat>)
    requires |ns| == |cs| && cs != []
  {
    var c := cs[|cs| - 1];
    c in s.connections && Open(s.connections[c]) && ns[|cs| - 1] == |s.connections[c].received|
  }

  lemma NextResumable(rows: seq<StudioEvent>, got: seq<StudioEvent>, afterSeq: int, next: Connection)
    requires next.openedAt <= |rows| && forall i | 0 <= i < |got| :: got[i] in rows[..next.openedAt]
    requires forall i | 0 <= i < |rows| :: rows[i].seqNo > 0
    requires next.afterSeq == ResumeAt(got, afterSeq)
    requires got == [] ==> Resumable(rows, next)
    ensures Resumable(rows, next)
  {
    if got != [] {
      var i :| 0 <= i < next.openedAt && rows[..next.openedAt][i] == got[|got| - 1];
      assert rows[i].seqNo >= next.afterSeq >= 0;
    }
  }

  /** What a client got of one connection is the history up to some moment. */
  lemma GotIsHistory(es: seq<Event>, c: nat, n: nat) returns (k: nat)
    requires ProperRun(es) && c in Run(es).connections && !Run(es).connections[c].failed
    requires Resumable(Run(es).rows, Run(es).connections[c]) && n <= |Run(es).connections[c].received|
    ensures var s, conn := Run(es), Run(es).connections[c];
            && k <= |s.rows| && Delivered(s, c, n) == History(s.rows[..k], conn.buildId, conn.afterSeq)
            && (Open(conn) && n == |conn.received| ==>
                  Delivered(s, c, n) == History(s.rows, conn.buildId, conn.afterSeq))
  {
    var s, conn := Run(es), Run(es).connections[c];
    StreamComplete(es, c);
    var u := UpTo(s.rows, conn);
    k := HistoryPrefix(s.rows[..u], n, conn.buildId, conn.afterSeq);
    assert s.rows[..u][..k] == s.rows[..k];
    if Open(conn) && n == |conn.received| {
      assert s.rows[..u] == s.rows && conn.received[..n] == conn.received;
    }
  }

  /** Of connections in a row: the ones that follow start where they may. */
  lemma ChainResumes(es: seq<Event>, cs: seq<nat>, ns: seq<nat>, buildId: Text, afterSeq: int)
    requires ProperRun(es) && Chain(Run(es), cs, ns, buildId, afterSeq) && |cs| > 1
    requires Resumable(Run(es).rows, Run(es).connections[cs[0]])
    ensures Resumable(Run(es).rows, Run(es).connections[cs[1]])
  {
    var s := Run(es);
    var conn, next := s.connections[cs[0]], s.connections[cs[1]];
    SeqsPositive(es);
    if Delivered(s, cs[0], ns[0]) == [] && afterSeq != 0 {
      var i :| 0 <= i < conn.openedAt && i < |s.rows| && s.rows[i].seqNo >= conn.afterSeq >= 0;
      assert i < next.openedAt && s.rows[i].seqNo >= next.afterSeq >= 0;
    }
    NextResumable(s.rows, Delivered(s, cs[0], ns[0]), afterSeq, next);
  }

  /** Across any number of disconnections and reconnections from the last event it got, however much of each
      connection was lost, what a client has got is, put together, a beginning of the history of its build, with
      nothing missed and nothing repeated; and all of it once it has caught up. */
  lemma {:induction false} ReconnectionsMissNothing(es: seq<Event>, cs: seq<nat>, ns: seq<nat>, buildId: Text,
                                                    afterSeq: int)
    requires ProperRun(es) && Chain(Run(es), cs, ns, buildId, afterSeq)
    requires Resumable(Run(es).rows, Run(es).connections[cs[0]])
    ensures DeliveredOver(Run(es), cs, ns) <= History(Run(es).rows, buildId, afterSeq)
    ensures UpToDate(Run(es), cs, ns) ==> DeliveredOver(Run(es), cs, ns) == History(Run(es).rows, buildId, afterSeq)
    decreases |cs|
  {
    var s := Run(es);
    var got := Delivered(s, cs[0], ns[0]);
    InvRun(es);
    var k := GotIsHistory(es, cs[0], ns[0]);
    HistorySplit(s.rows, k, buildId, afterSeq);
    if |cs| == 1 {
      assert DeliveredOver(s, cs[1..], ns[1..]) == [] && got + [] == got;
    } else {
      ChainResumes(es, cs, ns, buildId, afterSeq);
      ReconnectionsMissNothing(es, cs[1..], ns[1..], buildId, ResumeAt(got, afterSeq));
      UpToDateRest(s, cs, ns);
      ResumedIsWhole(s.rows, k, buildId, afterSeq);
      PrefixOfSum(got, DeliveredOver(s, cs[1..], ns[1..]), History(s.rows, buildId, ResumeAt(got, afterSeq)));
    }
  }

  lemma UpToDateRest(s: State, cs: seq<nat>, ns: seq<nat>)
    requires |ns| == |cs| && |cs| > 1
    ensures UpToDate(s, cs[1..], ns[1..]) <==> UpToDate(s, cs, ns)
  {
  }

  lemma PrefixOfSum<T>(a: seq<T>, b: seq<T>, c: seq<T>)
    requires b <= c
    ensures a + b <= a + c
  {
  }

  // ----- why each unsubscribe must be called once -----

  /** A second unsubscription of a closed connection silences a client that connected since. */
  lemma SecondUnsubscribeSilences(buildId: Text, e: StudioEvent)
    requires e.buildId == buildId && e.seqNo > 0
    ensures var before := Connect(Unsubscribe(Connect(INIT, 1, buildId, 0), 1), 2, buildId, 0);
            var s := Emit(Unsubscribe(before, 1), e, {});
            && Open(s.connections[2]) && !s.connections[2].failed && s.connections[2].received == []
            && History(s.rows, buildId, 0) == [e]
            && Emit(before, e, {}).connections[2].received == [e]
  {
    var one := Connect(INIT, 1, buildId, 0);
    assert one.sets == [{1}];
    var none := Unsubscribe(one, 1);
    assert {1} - {1} == {} && none.sets == [{}] && none.listeners == map[];
    var two := Connect(none, 2, buildId, 0);
    assert two.sets == [{}, {2}] && two.listeners == map[buildId := 1];
    var gone := Unsubscribe(two, 1);
    var empty: set<nat> := {};
    assert empty - {1} == empty && gone.listeners == map[];
    HistoryAdd([], e, buildId, 0);
    assert [] + [e] == [e];
  }

  /** A second unsubscription of a closed connection changes nothing for anybody exactly when its build has no
      listeners or still has the set that it had joined; otherwise it silences all listeners of the build. */
  lemma SecondUnsubscribeExactly(es: seq<Event>, c: nat)
    requires ProperRun(es) && c in Run(es).connections && !Open(Run(es).connections[c])
    ensures var s, conn := Run(es), Run(es).connections[c];
            var t := Unsubscribe(s, c);
            var harmless := conn.buildId !in s.listeners || s.listeners[conn.buildId] == conn.setId;
            && ((forall b: Text :: Targets(t, b) == Targets(s, b)) <==> harmless)
            && (!harmless ==> Targets(t, conn.buildId) == {} != Targets(s, conn.buildId))
  {
    InvRun(es);
    SecondUnsubscribe(Run(es), c);
  }

  /** Whoever is in a set is of the build of all who joined it, and listens through it. */
  lemma MemberListens(s: State, c: nat, k: nat)
    requires SetsOk(s) && SetsOwned(s) && c in s.connections && s.connections[c].setId < |s.sets|
    requires k in s.sets[s.connections[c].setId]
    ensures var conn := s.connections[c];
            conn.buildId in s.listeners && s.listeners[conn.buildId] == conn.setId
  {
    assert MemberOk(s, s.connections[c].setId, k);
    assert Listening(s, k);
  }

  lemma SecondUnsubscribe(s: State, c: nat)
    requires Inv(s) && c in s.connections && !Open(s.connections[c])
    ensures var t, conn := Unsubscribe(s, c), s.connections[c];
            var harmless := conn.buildId !in s.listeners || s.listeners[conn.buildId] == conn.setId;
            && (harmless ==> forall b: Text :: Targets(t, b) == Targets(s, b))
            && (!harmless ==> Targets(t, conn.buildId) == {} != Targets(s, conn.buildId))
  {
    var t, conn := Unsubscribe(s, c), s.connections[c];
    assert Listening(s, c);
    assert MemberOk(s, conn.setId, c);
    assert s.sets[conn.setId] - {c} == s.sets[conn.setId];
    assert t.sets == s.sets;
    if s.sets[conn.setId] != {} {
      var k :| k in s.sets[conn.setId];
      MemberListens(s, c, k);
    }
  }
}
