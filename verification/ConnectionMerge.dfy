/** `mergeConnectionSnapshot`: active connections with per-step deltas and a capped history of closed ones. */
module ConnectionMerge {
  import opened Options

  const MAX_CLOSED_CONNS_NUM: nat := 500

  /** A field that is missing or empty reads as the empty string. */
  function FieldValue(field: Option<string>): string { if field.Some? then field.value else "" }

  datatype Metadata = Metadata(
    network: Option<string>,
    kind: Option<string>,
    host: Option<string>,
    sourceIP: Option<string>,
    sourcePort: Option<string>,
    destinationPort: Option<string>,
    destinationIP: Option<string>,
    remoteDestination: Option<string>,
    process: Option<string>,
    processPath: Option<string>)

  /** A connection as the core reports it. */
  datatype Reported = Reported(
    id: string,
    metadata: Metadata,
    upload: Option<int>,
    download: Option<int>,
    start: Option<string>,
    chains: Option<seq<string>>,
    rule: Option<string>,
    rulePayload: Option<string>)

  /** A connection as it is kept. */
  datatype Connection = Connection(
    id: string,
    metadata: Metadata,
    upload: int,
    download: int,
    start: string,
    chains: seq<string>,
    rule: string,
    rulePayload: string,
    curUpload: int,
    curDownload: int)

  datatype Payload = Payload(uploadTotal: Option<int>, downloadTotal: Option<int>, connections: Option<seq<Reported>>)

  datatype Data = Data(uploadTotal: int, downloadTotal: int, active: seq<Connection>, closed: seq<Connection>)

  const INIT_DATA := Data(0, 0, [], [])

  // ----- Normalizing one connection -----

  function Fields(m: Metadata): seq<string> {
    [FieldValue(m.network), FieldValue(m.kind), FieldValue(m.host), FieldValue(m.sourceIP), FieldValue(m.sourcePort),
     FieldValue(m.destinationPort), FieldValue(m.destinationIP), FieldValue(m.remoteDestination),
     FieldValue(m.process), FieldValue(m.processPath)]
  }

  /** `sameMetadata`. */
  predicate SameMetadata(left: Metadata, right: Metadata) { Fields(left) == Fields(right) }

  function Filled(m: Metadata): Metadata {
    Metadata(
      Some(FieldValue(m.network)), Some(FieldValue(m.kind)), Some(FieldValue(m.host)), Some(FieldValue(m.sourceIP)),
      Some(FieldValue(m.sourcePort)), Some(FieldValue(m.destinationPort)), Some(FieldValue(m.destinationIP)),
      Some(FieldValue(m.remoteDestination)), Some(FieldValue(m.process)), Some(FieldValue(m.processPath)))
  }

  /** `normalizeMetadata`; the second result says whether the previous object itself was returned. */
  function NormalizeMetadata(metadata: Metadata, previous: Option<Metadata>): (Metadata, bool) {
    if previous.Some? && SameMetadata(previous.value, metadata) then (previous.value, true)
    else (Filled(metadata), false)
  }

  /** `normalizeChains`, likewise. */
  function NormalizeChains(chains: seq<string>, previous: Option<seq<string>>): (seq<string>, bool) {
    if previous.Some? && previous.value == chains then (previous.value, true) else (chains, false)
  }

  /** `normalizeConnection`, likewise. */
  function NormalizeConnection(c: Reported, previous: Option<Connection>): (Connection, bool) {
    var p := previous;
    var (metadata, sameMetadata) := NormalizeMetadata(c.metadata, if p.Some? then Some(p.value.metadata) else None);
    var (chains, sameChains) :=
      NormalizeChains(if c.chains.Some? then c.chains.value else [], if p.Some? then Some(p.value.chains) else None);
    var upload := if c.upload.Some? then c.upload.value else 0;
    var download := if c.download.Some? then c.download.value else 0;
    var curUpload := if p.Some? then upload - p.value.upload else 0;
    var curDownload := if p.Some? then download - p.value.download else 0;
    var rule, rulePayload, start := FieldValue(c.rule), FieldValue(c.rulePayload), FieldValue(c.start);
    if p.Some? && sameMetadata && sameChains && p.value.upload == upload && p.value.download == download
       && p.value.curUpload == curUpload && p.value.curDownload == curDownload
       && p.value.rule == rule && p.value.rulePayload == rulePayload && p.value.start == start
    then (p.value, true)
    else (Connection(c.id, metadata, upload, download, start, chains, rule, rulePayload, curUpload, curDownload), false)
  }

  /** The connection rebuilt from the report alone, whatever objects could be reused. */
  function Rebuilt(c: Reported, previous: Option<Connection>): Connection {
    var upload := if c.upload.Some? then c.upload.value else 0;
    var download := if c.download.Some? then c.download.value else 0;
    Connection(
      c.id, Filled(c.metadata), upload, download, FieldValue(c.start),
      if c.chains.Some? then c.chains.value else [], FieldValue(c.rule), FieldValue(c.rulePayload),
      if previous.Some? then upload - previous.value.upload else 0,
      if previous.Some? then download - previous.value.download else 0)
  }

  /** Kept connections have every metadata field filled. */
  predicate Kept(c: Connection) { Filled(c.metadata) == c.metadata }

  lemma SameMetadataIsEqual(previous: Metadata, m: Metadata)
    requires Filled(previous) == previous
    ensures SameMetadata(previous, m) <==> previous == Filled(m)
  {
    var a, b := Fields(previous), Fields(m);
    if a == b {
      assert a[0] == b[0] && a[1] == b[1] && a[2] == b[2] && a[3] == b[3] && a[4] == b[4];
      assert a[5] == b[5] && a[6] == b[6] && a[7] == b[7] && a[8] == b[8] && a[9] == b[9];
    }
  }

  /**
   * Reusing objects cannot be seen: the result equals the rebuilt one, and it is the old object just when they
   * are equal.
   */
  lemma ReuseIsInvisible(c: Reported, previous: Option<Connection>)
    requires previous.Some? ==> Kept(previous.value) && previous.value.id == c.id
    ensures NormalizeConnection(c, previous).0 == Rebuilt(c, previous)
    ensures NormalizeConnection(c, previous).1 <==> previous == Some(Rebuilt(c, previous))
    ensures Kept(NormalizeConnection(c, previous).0)
  {
    if previous.Some? {
      SameMetadataIsEqual(previous.value.metadata, c.metadata);
    }
  }

  // ----- The merge -----

  /** `previousActiveById`: a later connection with the same id replaces an earlier one. */
  function ById(connections: seq<Connection>): map<string, Connection> {
    if connections == [] then map[]
    else
      var last := connections[|connections| - 1];
      ById(connections[..|connections| - 1])[last.id := last]
  }

  function Ids(next: seq<Reported>): set<string> { set c | c in next :: c.id }

  lemma IdsOneMore(next: seq<Reported>, i: nat)
    requires i < |next|
    ensures next[..i + 1][..i] == next[..i] && next[..i + 1] == next[..i] + [next[i]]
    ensures Ids(next[..i + 1]) == Ids(next[..i]) + {next[i].id}
  {
    assert next[..i + 1] == next[..i] + [next[i]];
  }

  /** Each reported connection continues the kept one with its id, the first time that id is reported. */
  function Continued(known: map<string, Connection>, next: seq<Reported>): seq<Connection> {
    if next == [] then []
    else
      var earlier, c := next[..|next| - 1], next[|next| - 1];
      var previous := if c.id in known && c.id !in Ids(earlier) then Some(known[c.id]) else None;
      Continued(known, earlier) + [NormalizeConnection(c, previous).0]
  }

  lemma ContinuedOneMore(known: map<string, Connection>, next: seq<Reported>, i: nat)
    requires i < |next|
    ensures var left, id := known - Ids(next[..i]), next[i].id;
            && left - {id} == known - Ids(next[..i + 1])
            && Continued(known, next[..i + 1]) == Continued(known, next[..i])
                 + [NormalizeConnection(next[i], if id in left then Some(left[id]) else None).0]
  {
    IdsOneMore(next, i);
  }

  /** The connections that are no longer reported, in their order. */
  function Departed(connections: seq<Connection>, ids: set<string>): seq<Connection> {
    if connections == [] then []
    else
      var last := connections[|connections| - 1];
      Departed(connections[..|connections| - 1], ids) + if last.id in ids then [] else [last]
  }

  function LastOf<T>(s: seq<T>, n: nat): seq<T> { if |s| <= n then s else s[|s| - n..] }

  function NextOf(payload: Payload): seq<Reported> {
    if payload.connections.Some? then payload.connections.value else []
  }

  /** The head of the closed list that is kept when `removed` more come. */
  function KeptClosed(closed: seq<Connection>, removed: nat): (kept: seq<Connection>)
    ensures |kept| <= MAX_CLOSED_CONNS_NUM
  {
    var excess := |closed| + removed - MAX_CLOSED_CONNS_NUM;
    if excess <= 0 then closed else if excess >= |closed| then [] else closed[excess..]
  }

  /** How many of `removed` departures are left out. */
  function Skipped(closed: seq<Connection>, removed: nat): (skip: nat)
    ensures skip <= removed
  {
    var room := MAX_CLOSED_CONNS_NUM - |KeptClosed(closed, removed)|;
    if removed > room then removed - room else 0
  }

  function ClosedAfter(active: seq<Connection>, closed: seq<Connection>, ids: set<string>): seq<Connection> {
    var removed := |ById(active).Keys - ids|;
    if removed == 0 then closed
    else
      DepartedAtLeast(active, ids);
      KeptClosed(closed, removed) + Departed(active, ids)[Skipped(closed, removed)..]
  }

  /** The merge on values. */
  function Merged(payload: Payload, previous: Data): Data {
    var next := NextOf(payload);
    Data(
      if payload.uploadTotal.Some? then payload.uploadTotal.value else 0,
      if payload.downloadTotal.Some? then payload.downloadTotal.value else 0,
      Continued(ById(previous.active), next),
      ClosedAfter(previous.active, previous.closed, Ids(next)))
  }

  predicate DistinctIds(connections: seq<Connection>) {
    forall i, j :: 0 <= i < j < |connections| ==> connections[i].id != connections[j].id
  }

  predicate DistinctReports(next: seq<Reported>) {
    forall i, j :: 0 <= i < j < |next| ==> next[i].id != next[j].id
  }

  lemma {:induction false} ByIdKeys(connections: seq<Connection>)
    ensures forall id :: id in ById(connections) <==> exists i :: 0 <= i < |connections| && connections[i].id == id
    ensures DistinctIds(connections) ==>
      forall i :: 0 <= i < |connections| ==>
        connections[i].id in ById(connections) && ById(connections)[connections[i].id] == connections[i]
  {
    if connections != [] {
      var shorter, last := connections[..|connections| - 1], connections[|connections| - 1];
      ByIdKeys(shorter);
      forall id | id in ById(connections) ensures exists i :: 0 <= i < |connections| && connections[i].id == id {
        if id == last.id {
          assert connections[|connections| - 1].id == id;
        } else {
          assert id in ById(shorter);
          var i :| 0 <= i < |shorter| && shorter[i].id == id;
          assert connections[i].id == id;
        }
      }
      forall i | 0 <= i < |connections| ensures connections[i].id in ById(connections) {
        if i < |shorter| { assert shorter[i].id in ById(shorter); }
      }
      if DistinctIds(connections) {
        forall i | 0 <= i < |shorter| ensures ById(connections)[connections[i].id] == connections[i] {
          assert shorter[i].id in ById(shorter);
        }
      }
    }
  }

  lemma ActiveIsKnown(connections: seq<Connection>)
    ensures forall i :: 0 <= i < |connections| ==> connections[i].id in ById(connections)
  {
    ByIdKeys(connections);
  }

  lemma LastIsNew(connections: seq<Connection>)
    requires DistinctIds(connections) && connections != []
    ensures connections[|connections| - 1].id !in ById(connections[..|connections| - 1])
  {
    ByIdKeys(connections[..|connections| - 1]);
  }

  /** With distinct ids the entries left in the map are as many as the departures. */
  lemma {:induction false} DepartedCount(connections: seq<Connection>, ids: set<string>)
    requires DistinctIds(connections)
    ensures |ById(connections).Keys - ids| == |Departed(connections, ids)|
  {
    if connections != [] {
      var shorter, last := connections[..|connections| - 1], connections[|connections| - 1];
      DepartedCount(shorter, ids);
      LastIsNew(connections);
      if last.id in ids {
        assert ById(connections).Keys - ids == ById(shorter).Keys - ids;
      } else {
        assert ById(connections).Keys - ids == (ById(shorter).Keys - ids) + {last.id};
      }
    }
  }

  lemma {:induction false} DepartedIfUnlisted(connections: seq<Connection>, ids: set<string>)
    requires ById(connections).Keys <= ids
    ensures Departed(connections, ids) == []
  {
    if connections != [] {
      DepartedIfUnlisted(connections[..|connections| - 1], ids);
      assert connections[|connections| - 1].id in ById(connections);
    }
  }

  /** An id with no report left takes at least one connection with it. */
  lemma {:induction false} DepartedAtLeast(connections: seq<Connection>, ids: set<string>)
    ensures |ById(connections).Keys - ids| <= |Departed(connections, ids)|
  {
    if connections != [] {
      var shorter, last := connections[..|connections| - 1], connections[|connections| - 1];
      DepartedAtLeast(shorter, ids);
      if last.id in ids || last.id in ById(shorter) {
        assert ById(connections).Keys - ids == ById(shorter).Keys - ids;
      } else {
        assert ById(connections).Keys - ids == (ById(shorter).Keys - ids) + {last.id};
      }
    }
  }

  /**
   * The drop arithmetic counts ids and not connections: it leaves the last 500 of the closed and the departed
   * if and only if everything fits, or some id departed and none of those that did was active twice.
   * Otherwise it leaves more than 500.
   */
  lemma ClosedIsLastIff(active: seq<Connection>, closed: seq<Connection>, ids: set<string>)
    ensures var departed := Departed(active, ids);
            var removed := |ById(active).Keys - ids|;
            var kept := |closed| + |departed| <= MAX_CLOSED_CONNS_NUM || 0 < removed == |departed|;
            && (ClosedAfter(active, closed, ids) == LastOf(closed + departed, MAX_CLOSED_CONNS_NUM) <==> kept)
            && (|ClosedAfter(active, closed, ids)| <= MAX_CLOSED_CONNS_NUM <==> kept)
  {
    var departed, removed := Departed(active, ids), |ById(active).Keys - ids|;
    DepartedAtLeast(active, ids);
    if removed == 0 {
      NoIdDeparted(active, ids);
      assert closed + departed == closed;
    } else {
      LastIff(closed, departed, removed);
    }
  }

  lemma LastIff(closed: seq<Connection>, departed: seq<Connection>, removed: nat)
    requires 0 < removed <= |departed|
    ensures var after := KeptClosed(closed, removed) + departed[Skipped(closed, removed)..];
            var kept := |closed| + |departed| <= MAX_CLOSED_CONNS_NUM || removed == |departed|;
            && (after == LastOf(closed + departed, MAX_CLOSED_CONNS_NUM) <==> kept)
            && (|after| <= MAX_CLOSED_CONNS_NUM <==> kept)
  {
    var after := KeptClosed(closed, removed) + departed[Skipped(closed, removed)..];
    assert |after| == |KeptClosed(closed, removed)| + |departed| - Skipped(closed, removed);
    if |closed| + removed <= MAX_CLOSED_CONNS_NUM {
      assert after == closed + departed;
    }
  }

  lemma NoIdDeparted(connections: seq<Connection>, ids: set<string>)
    requires |ById(connections).Keys - ids| == 0
    ensures Departed(connections, ids) == []
  {
    assert ById(connections).Keys - ids == {};
    forall id | id in ById(connections) ensures id in ids {
      assert id !in ById(connections).Keys - ids;
    }
    DepartedIfUnlisted(connections, ids);
  }

  /** The module-level `connectionData`. */
  class ConnectionMonitor {
    var data: Data

    constructor ()
      ensures data == INIT_DATA
    {
      data := INIT_DATA;
    }

    /** `mergeConnectionSnapshot`, stored as `flushPendingMessage` does. */
    method MergeSnapshot(payload: Payload)
      modifies this
      ensures data == Merged(payload, old(data))
      ensures data.uploadTotal == if payload.uploadTotal.Some? then payload.uploadTotal.value else 0
      ensures data.downloadTotal == if payload.downloadTotal.Some? then payload.downloadTotal.value else 0
    {
      var next, active, closed := NextOf(payload), data.active, data.closed;
      var known := IndexById(active);
      var activeConnections, byId := ContinueAll(known, next);
      assert byId.Keys == known.Keys - Ids(next);
      var uploadTotal := if payload.uploadTotal.Some? then payload.uploadTotal.value else 0;
      var downloadTotal := if payload.downloadTotal.Some? then payload.downloadTotal.value else 0;
      if |byId| == 0 {
        assert |byId.Keys| == 0;
        data := Data(uploadTotal, downloadTotal, activeConnections, closed);
        return;
      }
      var newClosed := MergeClosed(active, closed, byId, Ids(next));
      data := Data(uploadTotal, downloadTotal, activeConnections, newClosed);
    }

    /** The drop counts and the loop they steer; `byId` is what was not reported. */
    static method MergeClosed(
      active: seq<Connection>, closed: seq<Connection>, byId: map<string, Connection>, ghost ids: set<string>)
      returns (newClosed: seq<Connection>)
      requires byId.Keys == ById(active).Keys - ids && byId != map[]
      ensures newClosed == ClosedAfter(active, closed, ids)
    {
      var removedCount := |byId|;
      assert |byId.Keys| == removedCount;
      DepartedAtLeast(active, ids);
      var excess := |closed| + removedCount - MAX_CLOSED_CONNS_NUM;
      var dropFromClosed := if excess > 0 then excess else 0;
      var kept := if dropFromClosed >= |closed| then [] else closed[dropFromClosed..];
      assert kept == KeptClosed(closed, removedCount);
      var keepFromRemoved := MAX_CLOSED_CONNS_NUM - |kept|;
      var skip := if removedCount > keepFromRemoved then removedCount - keepFromRemoved else 0;
      ActiveIsKnown(active);
      newClosed := PushDeparted(active, byId, ids, kept, skip);
    }

    /** The loop that fills `previousActiveById`. */
    static method IndexById(active: seq<Connection>) returns (byId: map<string, Connection>)
      ensures byId == ById(active)
    {
      byId := map[];
      assert active[..0] == [];
      for i := 0 to |active|
        invariant byId == ById(active[..i])
      {
        assert active[..i + 1][..i] == active[..i];
        byId := byId[active[i].id := active[i]];
      }
      assert active[..|active|] == active;
    }

    /** The loop over the reported connections; what it leaves in the map was not reported. */
    static method ContinueAll(known: map<string, Connection>, next: seq<Reported>)
      returns (activeConnections: seq<Connection>, byId: map<string, Connection>)
      ensures activeConnections == Continued(known, next)
      ensures byId == known - Ids(next)
    {
      activeConnections, byId := [], known;
      assert next[..0] == [];
      for i := 0 to |next|
        invariant activeConnections == Continued(known, next[..i])
        invariant byId == known - Ids(next[..i])
      {
        ContinuedOneMore(known, next, i);
        var previous := if next[i].id in byId then Some(byId[next[i].id]) else None;
        byId := byId - {next[i].id};
        activeConnections := activeConnections + [NormalizeConnection(next[i], previous).0];
      }
      assert next[..|next|] == next;
    }

    /** The loop that appends the departures, the first `skip` of them left out. */
    static method PushDeparted(
      active: seq<Connection>, byId: map<string, Connection>, ghost ids: set<string>, kept: seq<Connection>, skip: nat)
      returns (closed: seq<Connection>)
      requires forall i :: 0 <= i < |active| ==> (active[i].id in byId <==> active[i].id !in ids)
      requires skip <= |Departed(active, ids)|
      ensures closed == kept + Departed(active, ids)[skip..]
    {
      closed := kept;
      var skipRemoved := skip;
      assert active[..0] == [];
      for i := 0 to |active|
        invariant var departed := Departed(active[..i], ids);
          if |departed| <= skip then skipRemoved == skip - |departed| && closed == kept
          else skipRemoved == 0 && closed == kept + departed[skip..]
      {
        assert active[..i + 1][..i] == active[..i];
        if active[i].id !in byId {
          continue;
        }
        if skipRemoved > 0 {
          skipRemoved := skipRemoved - 1;
          continue;
        }
        closed := closed + [active[i]];
      }
      assert active[..|active|] == active;
    }

    /** `clearClosedConnectionData`. */
    method ClearClosed()
      modifies this
      ensures data == old(data).(closed := [])
    {
      if |data.closed| == 0 {
        return;
      }
      data := data.(closed := []);
    }
  }

  // ----- Whole runs -----

  datatype Event = Snapshot(payload: Payload) | Clear

  function After(d: Data, e: Event): Data {
    match e
    case Snapshot(payload) => Merged(payload, d)
    case Clear => d.(closed := [])
  }

  function Final(d: Data, events: seq<Event>): Data
    decreases |events|
  {
    if events == [] then d else Final(After(d, events[0]), events[1..])
  }

  /** Every connection that departed since the last clear, in order of departure, `past` being known already. */
  function History(d: Data, past: seq<Connection>, events: seq<Event>): seq<Connection>
    decreases |events|
  {
    if events == [] then past
    else
      match events[0]
      case Snapshot(payload) =>
        History(After(d, events[0]), past + Departed(d.active, Ids(NextOf(payload))), events[1..])
      case Clear => History(After(d, events[0]), [], events[1..])
  }

  /** The core never reports an id twice in one snapshot. */
  predicate DistinctEvents(events: seq<Event>) {
    forall i :: 0 <= i < |events| && events[i].Snapshot? ==> DistinctReports(NextOf(events[i].payload))
  }

  ghost predicate KeyedById(known: map<string, Connection>) {
    forall id :: id in known ==> known[id].id == id && Kept(known[id])
  }

  lemma {:induction false} ByIdIsKeyed(connections: seq<Connection>)
    requires forall i :: 0 <= i < |connections| ==> Kept(connections[i])
    ensures KeyedById(ById(connections))
  {
    if connections != [] {
      ByIdIsKeyed(connections[..|connections| - 1]);
    }
  }

  /** What a report continues. */
  function PreviousOf(known: map<string, Connection>, c: Reported): Option<Connection> {
    if c.id in known then Some(known[c.id]) else None
  }

  lemma FirstReport(next: seq<Reported>, i: nat)
    requires i < |next| && DistinctReports(next)
    ensures next[i].id !in Ids(next[..i])
  {
    forall r | r in next[..i] ensures r.id != next[i].id {
      var k :| 0 <= k < i && next[k] == r;
      assert next[k].id != next[i].id;
    }
  }

  /** The connection that report `i` continues: the known one of its id, the first time that id is reported. */
  function ContinuedBy(known: map<string, Connection>, next: seq<Reported>, i: nat): Option<Connection>
    requires i < |next|
  {
    if next[i].id in known && next[i].id !in Ids(next[..i]) then Some(known[next[i].id]) else None
  }

  lemma {:induction false} ContinuedEach(known: map<string, Connection>, next: seq<Reported>, i: nat)
    requires i < |next|
    ensures |Continued(known, next)| == |next|
    ensures Continued(known, next)[i] == NormalizeConnection(next[i], ContinuedBy(known, next, i)).0
  {
    var earlier := next[..|next| - 1];
    ContinuedLength(known, earlier);
    if i < |earlier| {
      assert earlier[..i] == next[..i];
      ContinuedEach(known, earlier, i);
    }
  }

  lemma ContinuedOne(known: map<string, Connection>, next: seq<Reported>, i: nat)
    requires i < |next| && DistinctReports(next)
    ensures |Continued(known, next)| == |next|
    ensures Continued(known, next)[i] == NormalizeConnection(next[i], PreviousOf(known, next[i])).0
  {
    ContinuedEach(known, next, i);
    FirstReport(next, i);
  }

  lemma {:induction false} ContinuedLength(known: map<string, Connection>, next: seq<Reported>)
    ensures |Continued(known, next)| == |next|
  {
    if next != [] {
      ContinuedLength(known, next[..|next| - 1]);
    }
  }

  /** Each reported connection appears at its place, rebuilt against the kept connection of its id. */
  lemma ContinuedAt(known: map<string, Connection>, next: seq<Reported>)
    requires KeyedById(known) && DistinctReports(next)
    ensures |Continued(known, next)| == |next|
    ensures forall i :: 0 <= i < |next| ==> Continued(known, next)[i] == Rebuilt(next[i], PreviousOf(known, next[i]))
    ensures forall i :: 0 <= i < |next| ==>
        Continued(known, next)[i].id == next[i].id && Kept(Continued(known, next)[i])
  {
    ContinuedLength(known, next);
    forall i | 0 <= i < |next|
      ensures Continued(known, next)[i] == Rebuilt(next[i], PreviousOf(known, next[i]))
      ensures Continued(known, next)[i].id == next[i].id && Kept(Continued(known, next)[i])
    {
      ContinuedOne(known, next, i);
      ReuseIsInvisible(next[i], PreviousOf(known, next[i]));
    }
  }

  ghost predicate Sound(d: Data) {
    && DistinctIds(d.active)
    && (forall i :: 0 <= i < |d.active| ==> Kept(d.active[i]))
    && |d.closed| <= MAX_CLOSED_CONNS_NUM
  }

  lemma MergedIsSound(payload: Payload, d: Data)
    requires Sound(d) && DistinctReports(NextOf(payload))
    ensures Sound(Merged(payload, d))
  {
    ByIdIsKeyed(d.active);
    ContinuedAt(ById(d.active), NextOf(payload));
    DepartedCount(d.active, Ids(NextOf(payload)));
    ClosedIsLastIff(d.active, d.closed, Ids(NextOf(payload)));
  }

  lemma LastOfLast<T>(a: seq<T>, b: seq<T>, n: nat)
    ensures LastOf(LastOf(a, n) + b, n) == LastOf(a + b, n)
  {
  }

  /**
   * Over any run of snapshots and clears the closed list is exactly the last 500 departures since the
   * last clear, in order, and the preconditions of the merge hold throughout.
   */
  lemma {:induction false} ClosedIsLastDepartures(d: Data, past: seq<Connection>, events: seq<Event>)
    requires Sound(d) && d.closed == LastOf(past, MAX_CLOSED_CONNS_NUM) && DistinctEvents(events)
    ensures Sound(Final(d, events))
    ensures Final(d, events).closed == LastOf(History(d, past, events), 500)
    decreases |events|
  {
    if events != [] {
      if events[0].Snapshot? {
        var departed := Departed(d.active, Ids(NextOf(events[0].payload)));
        MergedIsSound(events[0].payload, d);
        DepartedCount(d.active, Ids(NextOf(events[0].payload)));
        ClosedIsLastIff(d.active, d.closed, Ids(NextOf(events[0].payload)));
        LastOfLast(past, departed, MAX_CLOSED_CONNS_NUM);
        ClosedIsLastDepartures(After(d, events[0]), past + departed, events[1..]);
      } else {
        ClosedIsLastDepartures(After(d, events[0]), [], events[1..]);
      }
    }
  }

  // What the shown data says

  /** A field that is missing or empty is shown as the empty string. */
  ghost predicate ShowsField(shown: string, field: Option<string>) { shown == if field.Some? then field.value else "" }

  ghost predicate ShowsMetadata(shown: Metadata, m: Metadata) {
    && shown.network.Some? && ShowsField(shown.network.value, m.network)
    && shown.kind.Some? && ShowsField(shown.kind.value, m.kind)
    && shown.host.Some? && ShowsField(shown.host.value, m.host)
    && shown.sourceIP.Some? && ShowsField(shown.sourceIP.value, m.sourceIP)
    && shown.sourcePort.Some? && ShowsField(shown.sourcePort.value, m.sourcePort)
    && shown.destinationPort.Some? && ShowsField(shown.destinationPort.value, m.destinationPort)
    && shown.destinationIP.Some? && ShowsField(shown.destinationIP.value, m.destinationIP)
    && shown.remoteDestination.Some? && ShowsField(shown.remoteDestination.value, m.remoteDestination)
    && shown.process.Some? && ShowsField(shown.process.value, m.process)
    && shown.processPath.Some? && ShowsField(shown.processPath.value, m.processPath)
  }

  /** All of a shown connection but its deltas comes from the report. */
  ghost predicate Shows(shown: Connection, c: Reported) {
    && shown.id == c.id
    && ShowsMetadata(shown.metadata, c.metadata)
    && shown.upload == (if c.upload.Some? then c.upload.value else 0)
    && shown.download == (if c.download.Some? then c.download.value else 0)
    && ShowsField(shown.start, c.start)
    && shown.chains == (if c.chains.Some? then c.chains.value else [])
    && ShowsField(shown.rule, c.rule)
    && ShowsField(shown.rulePayload, c.rulePayload)
  }

  /** The totals are the reported ones, and the active connections the reported ones in their order. */
  ghost predicate ShowsPayload(d: Data, payload: Payload) {
    var reports := if payload.connections.Some? then payload.connections.value else [];
    && d.uploadTotal == (if payload.uploadTotal.Some? then payload.uploadTotal.value else 0)
    && d.downloadTotal == (if payload.downloadTotal.Some? then payload.downloadTotal.value else 0)
    && |d.active| == |reports|
    && (forall i :: 0 <= i < |reports| ==> Shows(d.active[i], reports[i]))
  }

  ghost predicate AllKept(connections: seq<Connection>) {
    forall i :: 0 <= i < |connections| ==> Kept(connections[i])
  }

  lemma ContinuedShows(known: map<string, Connection>, next: seq<Reported>, i: nat)
    requires KeyedById(known) && i < |next|
    ensures |Continued(known, next)| == |next|
    ensures Shows(Continued(known, next)[i], next[i]) && Kept(Continued(known, next)[i])
  {
    ContinuedEach(known, next, i);
    ReuseIsInvisible(next[i], ContinuedBy(known, next, i));
  }

  lemma MergedShows(d: Data, payload: Payload)
    requires AllKept(d.active)
    ensures ShowsPayload(Merged(payload, d), payload) && AllKept(Merged(payload, d).active)
  {
    var known, next := ById(d.active), NextOf(payload);
    ByIdIsKeyed(d.active);
    ContinuedLength(known, next);
    forall i | 0 <= i < |next|
      ensures Shows(Continued(known, next)[i], next[i]) && Kept(Continued(known, next)[i])
    {
      ContinuedShows(known, next, i);
    }
  }

  /**
   * Over any run, with or without repeated ids: from the last snapshot on, whatever is cleared, the totals
   * and the active connections shown are those it reported, and a missing value reads as zero or empty.
   */
  lemma {:induction false} LastSnapshotIsShown(d: Data, events: seq<Event>, last: nat)
    requires AllKept(d.active) && last < |events| && events[last].Snapshot?
    requires forall k :: last < k < |events| ==> events[k].Clear?
    ensures ShowsPayload(Final(d, events), events[last].payload)
    decreases |events|
  {
    var after, rest := After(d, events[0]), events[1..];
    if events[0].Snapshot? {
      MergedShows(d, events[0].payload);
    }
    if last == 0 {
      ClearsKeepShown(after, rest, events[0].payload);
    } else {
      LastSnapshotIsShown(after, rest, last - 1);
    }
  }

  lemma {:induction false} ClearsKeepShown(d: Data, clears: seq<Event>, payload: Payload)
    requires ShowsPayload(d, payload) && forall k :: 0 <= k < |clears| ==> clears[k].Clear?
    ensures ShowsPayload(Final(d, clears), payload)
    decreases |clears|
  {
    if clears != [] {
      ClearsKeepShown(After(d, clears[0]), clears[1..], payload);
    }
  }

  /** The last of the connections with this id. */
  ghost predicate LastWithId(connections: seq<Connection>, id: string, m: nat) {
    && m < |connections|
    && connections[m].id == id
    && forall k :: m < k < |connections| ==> connections[k].id != id
  }

  lemma {:induction false} ByIdIsLast(connections: seq<Connection>, id: string, m: nat)
    requires LastWithId(connections, id, m)
    ensures id in ById(connections) && ById(connections)[id] == connections[m]
  {
    if m < |connections| - 1 {
      ByIdIsLast(connections[..|connections| - 1], id, m);
    }
  }

  function DeltaTo(shown: Connection, previous: Option<Connection>): (int, int) {
    if previous.Some? then (shown.upload - previous.value.upload, shown.download - previous.value.download) else (0, 0)
  }

  lemma DeltaOfOne(c: Reported, previous: Option<Connection>)
    requires previous.Some? ==> Kept(previous.value) && previous.value.id == c.id
    ensures var shown := NormalizeConnection(c, previous).0;
            (shown.curUpload, shown.curDownload) == DeltaTo(shown, previous)
  {
    ReuseIsInvisible(c, previous);
  }

  /**
   * The deltas of a snapshot are against the last active connection with the id, the first time the id is
   * reported; without such a connection, and when the id is repeated, they are zero.
   */
  lemma DeltasShown(d: Data, payload: Payload, i: nat)
    requires AllKept(d.active) && payload.connections.Some? && i < |payload.connections.value|
    ensures var reports, after := payload.connections.value, Merged(payload, d).active;
            var id := reports[i].id;
            var first := forall k :: 0 <= k < i ==> reports[k].id != id;
            && |after| == |reports|
            && (!first || (forall m :: 0 <= m < |d.active| ==> d.active[m].id != id) ==>
                  after[i].curUpload == 0 && after[i].curDownload == 0)
            && (forall m: nat :: first && LastWithId(d.active, id, m) ==>
                  && after[i].curUpload == after[i].upload - d.active[m].upload
                  && after[i].curDownload == after[i].download - d.active[m].download)
  {
    var known, next := ById(d.active), payload.connections.value;
    var id := next[i].id;
    ByIdIsKeyed(d.active);
    ByIdKeys(d.active);
    ContinuedEach(known, next, i);
    DeltaOfOne(next[i], ContinuedBy(known, next, i));
    assert id in Ids(next[..i]) <==> exists k :: 0 <= k < i && next[k].id == id by {
      forall k | 0 <= k < i && next[k].id == id ensures id in Ids(next[..i]) {
        assert next[k] in next[..i];
      }
    }
    forall m: nat | LastWithId(d.active, id, m) ensures id in known && known[id] == d.active[m] {
      ByIdIsLast(d.active, id, m);
    }
  }

  /** Departures are found one connection at a time, in order: those whose id is not reported. */
  lemma {:induction false} DepartedInOrder(a: seq<Connection>, b: seq<Connection>, c: Connection, ids: set<string>)
    ensures Departed(a + b, ids) == Departed(a, ids) + Departed(b, ids)
    ensures Departed([c], ids) == if c.id in ids then [] else [c]
  {
    if b == [] {
      assert a + b == a;
    } else {
      DepartedInOrder(a, b[..|b| - 1], c, ids);
      assert (a + b)[..|a + b| - 1] == a + b[..|b| - 1];
    }
  }

  /** What departs fits, or as many connections depart as ids. */
  predicate CapKept(d: Data, payload: Payload) {
    var departed := Departed(d.active, Ids(NextOf(payload)));
    |d.closed| + |departed| <= MAX_CLOSED_CONNS_NUM || |departed| == |ById(d.active).Keys - Ids(NextOf(payload))|
  }

  predicate CapKeptThroughout(d: Data, events: seq<Event>)
    decreases |events|
  {
    events == [] ||
    ((events[0].Snapshot? ==> CapKept(d, events[0].payload)) && CapKeptThroughout(After(d, events[0]), events[1..]))
  }

  /** After every event the closed list is the last 500 departures since the last clear. */
  predicate LastThroughout(d: Data, past: seq<Connection>, events: seq<Event>)
    decreases |events|
  {
    && d.closed == LastOf(past, MAX_CLOSED_CONNS_NUM)
    && (events == [] ||
        LastThroughout(After(d, events[0]),
                       if events[0].Clear? then [] else past + Departed(d.active, Ids(NextOf(events[0].payload))),
                       events[1..]))
  }

  /**
   * For every run of snapshots and clears, with or without repeated ids: the closed list is the last 500
   * departures all along if and only if at every snapshot what departs fits or is counted right.
   */
  lemma {:induction false} LastThroughoutIff(d: Data, past: seq<Connection>, events: seq<Event>)
    requires d.closed == LastOf(past, MAX_CLOSED_CONNS_NUM)
    ensures LastThroughout(d, past, events) <==> CapKeptThroughout(d, events)
    decreases |events|
  {
    if events != [] {
      var after := After(d, events[0]);
      if events[0].Snapshot? {
        var ids := Ids(NextOf(events[0].payload));
        var departed := Departed(d.active, ids);
        ClosedIsLastIff(d.active, d.closed, ids);
        DepartedAtLeast(d.active, ids);
        LastOfLast(past, departed, MAX_CLOSED_CONNS_NUM);
        if CapKept(d, events[0].payload) {
          LastThroughoutIff(after, past + departed, events[1..]);
        }
      } else {
        LastThroughoutIff(after, [], events[1..]);
      }
    }
  }

  // A snapshot that repeats an id

  const NOTHING := Payload(None, None, None)

  function Copies(c: Reported, n: nat): (r: seq<Reported>)
    ensures |r| == n && forall i :: 0 <= i < n ==> r[i] == c
  {
    if n == 0 then [] else Copies(c, n - 1) + [c]
  }

  /** What is kept of reports that continue nothing. */
  function Begun(next: seq<Reported>): seq<Connection> { Continued(map[], next) }

  lemma BegunAppend(next: seq<Reported>, c: Reported)
    ensures Begun(next + [c]) == Begun(next) + [NormalizeConnection(c, None).0]
  {
    assert (next + [c])[..|next|] == next;
  }

  lemma {:induction false} CopiesHaveOneId(c: Reported, n: nat)
    requires n > 0
    ensures ById(Begun(Copies(c, n))).Keys == {c.id}
  {
    BegunAppend(Copies(c, n - 1), c);
    ByIdAppend(Begun(Copies(c, n - 1)), NormalizeConnection(c, None).0);
    if n > 1 {
      CopiesHaveOneId(c, n - 1);
    } else {
      assert ById(Begun([])).Keys == {};
    }
  }

  lemma ByIdAppend(shorter: seq<Connection>, last: Connection)
    ensures ById(shorter + [last]).Keys == ById(shorter).Keys + {last.id}
  {
    assert (shorter + [last])[..|shorter|] == shorter;
  }

  lemma {:induction false} AllDepart(active: seq<Connection>)
    ensures Departed(active, {}) == active
  {
    if active != [] {
      AllDepart(active[..|active| - 1]);
    }
  }

  /**
   * The cap is broken by one snapshot that reports an id more than 500 times and one that reports nothing:
   * all copies are closed, and no later snapshot repairs that while nothing departs.
   */
  lemma RepeatedIdOverflows(c: Reported, n: nat)
    requires n > MAX_CLOSED_CONNS_NUM
    ensures var filled := Snapshot(Payload(None, None, Some(Copies(c, n))));
            && |Final(INIT_DATA, [filled, Snapshot(NOTHING)]).closed| == n
            && |Final(INIT_DATA, [filled, Snapshot(NOTHING), Snapshot(NOTHING)]).closed| == n
  {
    var filled := Snapshot(Payload(None, None, Some(Copies(c, n))));
    var one := After(INIT_DATA, filled);
    CopiesHaveOneId(c, n);
    ContinuedLength(map[], Copies(c, n));
    assert one.active == Begun(Copies(c, n)) && one.closed == [];
    OneIdDeparts(one, c.id);
    var two := After(one, Snapshot(NOTHING));
    NothingDeparts(two);
    TwoEvents(INIT_DATA, filled, Snapshot(NOTHING));
    ThreeEvents(INIT_DATA, filled, Snapshot(NOTHING), Snapshot(NOTHING));
  }

  lemma OneIdDeparts(d: Data, id: string)
    requires ById(d.active).Keys == {id} && d.closed == []
    ensures After(d, Snapshot(NOTHING)).active == [] && After(d, Snapshot(NOTHING)).closed == d.active
  {
    assert Ids([]) == {};
    assert ById(d.active).Keys - {} == {id};
    AllDepart(d.active);
  }

  lemma NothingDeparts(d: Data)
    requires d.active == []
    ensures After(d, Snapshot(NOTHING)).closed == d.closed
  {
    assert ById(d.active).Keys - Ids([]) == {};
  }

  lemma TwoEvents(d: Data, e: Event, f: Event)
    ensures Final(d, [e, f]) == After(After(d, e), f)
  {
    assert [e, f][1..] == [f] && [f][1..] == [];
    assert Final(After(d, e), [f]) == Final(After(After(d, e), f), []);
  }

  lemma ThreeEvents(d: Data, e: Event, f: Event, g: Event)
    ensures Final(d, [e, f, g]) == After(After(After(d, e), f), g)
  {
    assert [e, f, g][1..] == [f, g];
    TwoEvents(After(d, e), f, g);
  }

  predicate Reports(next: seq<Reported>, id: string) { exists i :: 0 <= i < |next| && next[i].id == id }

  /** The deltas shown for `id`. */
  function Delta(active: seq<Connection>, id: string): (int, int)
    requires id in ById(active)
  {
    (ById(active)[id].curUpload, ById(active)[id].curDownload)
  }

  /** How far the totals of a connection moved between two lists. */
  function Moved(before: seq<Connection>, after: seq<Connection>, id: string): (int, int)
    requires id in ById(before) && id in ById(after)
  {
    var was, now := ById(before)[id], ById(after)[id];
    (now.upload - was.upload, now.download - was.download)
  }

  lemma StaysListed(known: map<string, Connection>, next: seq<Reported>, id: string) returns (c: Reported)
    requires KeyedById(known) && DistinctReports(next) && id in known && Reports(next, id)
    ensures id in ById(Continued(known, next)) && ById(Continued(known, next))[id] == Rebuilt(c, Some(known[id]))
  {
    ContinuedAt(known, next);
    var now := Continued(known, next);
    ByIdKeys(now);
    assert DistinctIds(now);
    var i :| 0 <= i < |next| && next[i].id == id;
    assert now[i].id in ById(now) && ById(now)[now[i].id] == now[i];
    c := next[i];
  }

  lemma RebuiltDeltas(before: seq<Connection>, after: seq<Connection>, id: string, c: Reported)
    requires id in ById(before) && id in ById(after) && ById(after)[id] == Rebuilt(c, Some(ById(before)[id]))
    ensures Delta(after, id) == Moved(before, after, id)
  {
  }

  /** One snapshot moves a connection that stays by exactly its deltas. */
  lemma DeltaOfStep(active: seq<Connection>, next: seq<Reported>, id: string)
    requires KeyedById(ById(active)) && DistinctReports(next) && id in ById(active) && Reports(next, id)
    ensures id in ById(Continued(ById(active), next))
    ensures Delta(Continued(ById(active), next), id) == Moved(active, Continued(ById(active), next), id)
  {
    var c := StaysListed(ById(active), next, id);
    RebuiltDeltas(active, Continued(ById(active), next), id, c);
  }

  /** The deltas that the list after an event shows for `id`; a clear moves nothing. */
  function Deltas(e: Event, active: seq<Connection>, id: string): (int, int) {
    if e.Snapshot? && id in ById(active) then Delta(active, id) else (0, 0)
  }

  function DeltaSum(d: Data, events: seq<Event>, id: string): (int, int)
    decreases |events|
  {
    if events == [] then (0, 0)
    else
      Plus(Deltas(events[0], After(d, events[0]).active, id), DeltaSum(After(d, events[0]), events[1..], id))
  }

  function Plus(a: (int, int), b: (int, int)): (int, int) { (a.0 + b.0, a.1 + b.1) }

  predicate AlwaysReported(events: seq<Event>, id: string) {
    forall i :: 0 <= i < |events| && events[i].Snapshot? ==> Reports(NextOf(events[i].payload), id)
  }

  lemma DeltasOfStep(before: Data, e: Event, id: string)
    requires Sound(before) && id in ById(before.active)
    requires e.Snapshot? ==> DistinctReports(NextOf(e.payload)) && Reports(NextOf(e.payload), id)
    ensures id in ById(After(before, e).active)
    ensures Deltas(e, After(before, e).active, id) == Moved(before.active, After(before, e).active, id)
  {
    if e.Snapshot? {
      ByIdIsKeyed(before.active);
      DeltaOfStep(before.active, NextOf(e.payload), id);
      assert After(before, e).active == Continued(ById(before.active), NextOf(e.payload));
    } else {
      assert After(before, e).active == before.active;
    }
  }

  lemma SumsCompose(
    a: seq<Connection>, b: seq<Connection>, c: seq<Connection>, id: string, first: (int, int), second: (int, int))
    requires id in ById(a) && id in ById(b) && id in ById(c)
    requires first == Moved(a, b, id) && second == Moved(b, c, id)
    ensures Plus(first, second) == Moved(a, c, id)
  {
  }

  /** The deltas of a connection that every snapshot reports sum to last minus first, reuse or not. */
  lemma {:induction false} DeltasTelescope(d: Data, events: seq<Event>, id: string)
    requires Sound(d) && DistinctEvents(events) && id in ById(d.active) && AlwaysReported(events, id)
    ensures id in ById(Final(d, events).active)
    ensures DeltaSum(d, events, id) == Moved(d.active, Final(d, events).active, id)
    decreases |events|
  {
    if events != [] {
      var after := After(d, events[0]);
      if events[0].Snapshot? {
        MergedIsSound(events[0].payload, d);
      }
      DeltasOfStep(d, events[0], id);
      DeltasTelescope(after, events[1..], id);
      SumsCompose(d.active, after.active, Final(after, events[1..]).active, id,
                  Deltas(events[0], after.active, id), DeltaSum(after, events[1..], id));
    }
  }
}
