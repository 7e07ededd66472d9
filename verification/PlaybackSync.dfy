/** The playback room: one lock-protected object that many sockets change and broadcast from. */
module PlaybackSync {
  import opened Sequences

  datatype DeviceInfo = DeviceInfo(deviceId: string, name: string, platform: string)

  /** Snapshots and command data are opaque JSON texts; a device list has no order of its own. */
  datatype ServerMessage =
    | RoomState(active: Option<string>, devices: set<DeviceInfo>, snapshot: Option<string>)
    | StateUpdated(active: Option<string>, update: string)
    | ExecuteCommand(action: string, data: Option<string>)

  datatype Room = Room(
    devices: map<string, DeviceInfo>, connections: map<string, nat>,
    active: Option<string>, snapshot: Option<string>)

  const EMPTY_ROOM := Room(map[], map[], None, None)

  predicate Owns(room: Room, device: string, connection: nat) {
    device in room.connections && room.connections[device] == connection
  }

  /** Removes a device only for the connection that owns it. */
  function Removed(room: Room, device: string, connection: nat): Room {
    if Owns(room, device, connection) then
      room.(connections := room.connections - {device}, devices := room.devices - {device})
    else room
  }

  function AfterHello(room: Room, mine: Option<string>, connection: nat, info: DeviceInfo): Room {
    var r := if mine.Some? && mine.value != info.deviceId then Removed(room, mine.value, connection) else room;
    Room(r.devices[info.deviceId := info], r.connections[info.deviceId := connection],
         if r.active == None then Some(info.deviceId) else r.active, r.snapshot)
  }

  predicate MayReport(room: Room, mine: Option<string>) {
    mine.Some? && mine == room.active
  }

  function AfterReport(room: Room, mine: Option<string>, snapshot: string): Room {
    if MayReport(room, mine) then room.(snapshot := Some(snapshot)) else room
  }

  function AfterTransfer(room: Room, target: string): Room {
    room.(active := Some(target))
  }

  /** After a disconnect the active role goes to `heir`, any device that is still there. */
  function AfterClose(room: Room, device: string, connection: nat, heir: Option<string>): Room {
    var r := Removed(room, device, connection);
    if Owns(room, device, connection) && device in room.devices && room.active == Some(device) then r.(active := heir)
    else r
  }

  predicate IsHeir(room: Room, device: string, connection: nat, heir: Option<string>) {
    var left := Removed(room, device, connection).devices;
    if heir.Some? then heir.value in left else left == map[]
  }

  function Broadcast(room: Room): ServerMessage {
    RoomState(room.active, room.devices.Values, room.snapshot)
  }

  class SyncRoom {
    var devices: map<string, DeviceInfo>
    var connections: map<string, nat>
    var active: Option<string>
    var snapshot: Option<string>
    var sent: seq<ServerMessage>

    function State(): Room
      reads this
    {
      Room(devices, connections, active, snapshot)
    }

    constructor ()
      ensures State() == EMPTY_ROOM && sent == []
    {
      devices, connections, active, snapshot, sent := map[], map[], None, None, [];
    }

    method RemoveDeviceConnection(device: string, connection: nat) returns (removed: bool)
      modifies this`devices, this`connections
      ensures State() == Removed(old(State()), device, connection)
      ensures removed == (Owns(old(State()), device, connection) && device in old(devices))
    {
      if device !in connections || connections[device] != connection {
        return false;
      }
      connections := connections - {device};
      removed := device in devices;
      devices := devices - {device};
    }

    method Hello(mine: Option<string>, connection: nat, info: DeviceInfo) returns (mine': Option<string>)
      modifies this
      ensures mine' == Some(info.deviceId)
      ensures State() == AfterHello(old(State()), mine, connection, info)
      ensures sent == old(sent) + [Broadcast(State())]
    {
      mine' := Some(info.deviceId);
      if mine.Some? && mine.value != info.deviceId {
        var _ := RemoveDeviceConnection(mine.value, connection);
      }
      devices := devices[info.deviceId := info];
      connections := connections[info.deviceId := connection];
      if active == None {
        active := Some(info.deviceId);
      }
      sent := sent + [RoomState(active, devices.Values, snapshot)];
    }

    method ReportState(mine: Option<string>, update: string)
      modifies this`snapshot, this`sent
      ensures State() == AfterReport(old(State()), mine, update)
      ensures sent == old(sent) + if MayReport(old(State()), mine) then [StateUpdated(active, update)] else []
    {
      var isActive := mine.Some? && active.Some? && mine.value == active.value;
      if isActive {
        snapshot := Some(update);
        sent := sent + [StateUpdated(active, update)];
      }
    }

    method Command(action: string, data: Option<string>)
      modifies this`sent
      ensures sent == old(sent) + [ExecuteCommand(action, data)]
    {
      sent := sent + [ExecuteCommand(action, data)];
    }

    method TransferPlayback(target: string)
      modifies this`active, this`sent
      ensures State() == AfterTransfer(old(State()), target)
      ensures sent == old(sent) + [Broadcast(State())]
    {
      active := Some(target);
      sent := sent + [RoomState(active, devices.Values, snapshot)];
    }

    /** The clean-up when a socket ends; a socket that never said hello changes nothing. */
    method Disconnect(mine: Option<string>, connection: nat) returns (ghost heir: Option<string>)
      modifies this
      ensures mine == None ==> State() == old(State()) && sent == old(sent)
      ensures mine.Some? ==>
        && IsHeir(old(State()), mine.value, connection, heir)
        && State() == AfterClose(old(State()), mine.value, connection, heir)
        && sent == old(sent) + [Broadcast(State())]
    {
      heir := None;
      if mine.Some? {
        var removed := RemoveDeviceConnection(mine.value, connection);
        var first: Option<string> := None;
        if devices.Keys != {} {
          var device :| device in devices.Keys;
          first := Some(device);
        }
        heir := first;
        if removed && active == Some(mine.value) {
          active := first;
        }
        sent := sent + [RoomState(active, devices.Values, snapshot)];
      }
    }
  }
}

/** Every interleaving of sockets over one room. */
module PlaybackSyncSystem {
  import opened Sequences
  import opened PlaybackSync

  /** `sockets` maps the open connections to the device each announced last; ids are never reused. */
  datatype Hub = Hub(room: Room, sockets: map<nat, Option<string>>, used: set<nat>, sent: seq<ServerMessage>)

  const START := Hub(EMPTY_ROOM, map[], {}, [])

  datatype Step =
    | Open(c: nat)
    | Hello(c: nat, info: DeviceInfo)
    | Report(c: nat, snapshot: string)
    | Command(c: nat, action: string, data: Option<string>)
    | Transfer(c: nat, target: string)
    | Close(c: nat, heir: Option<string>)

  predicate Enabled(s: Hub, step: Step) {
    match step
    case Open(c) => c !in s.used
    case Close(c, heir) =>
      c in s.sockets && (s.sockets[c].Some? ==> IsHeir(s.room, s.sockets[c].value, c, heir))
    case _ => step.c in s.sockets
  }

  function Apply(s: Hub, step: Step): Hub
    requires Enabled(s, step)
  {
    match step
    case Open(c) => s.(sockets := s.sockets[c := None], used := s.used + {c})
    case Hello(c, info) =>
      var room := AfterHello(s.room, s.sockets[c], c, info);
      s.(room := room, sockets := s.sockets[c := Some(info.deviceId)], sent := s.sent + [Broadcast(room)])
    case Report(c, snapshot) =>
      s.(room := AfterReport(s.room, s.sockets[c], snapshot),
         sent := s.sent + if MayReport(s.room, s.sockets[c]) then [StateUpdated(s.room.active, snapshot)] else [])
    case Command(_, action, data) => s.(sent := s.sent + [ExecuteCommand(action, data)])
    case Transfer(_, target) =>
      var room := AfterTransfer(s.room, target);
      s.(room := room, sent := s.sent + [Broadcast(room)])
    case Close(c, heir) =>
      var closed := s.(sockets := s.sockets - {c});
      if s.sockets[c] == None then closed
      else
        var room := AfterClose(s.room, s.sockets[c].value, c, heir);
        closed.(room := room, sent := s.sent + [Broadcast(room)])
  }

  // ----- Ownership -----

  /** Both maps know the same devices, and the owner of a device is open and announced it last. */
  predicate OwnerInv(s: Hub) {
    && s.room.devices.Keys == s.room.connections.Keys
    && s.sockets.Keys <= s.used
    && (forall d :: d in s.room.devices ==> s.room.devices[d].deviceId == d)
    && (forall d :: d in s.room.connections ==>
          var c := s.room.connections[d]; c in s.sockets && s.sockets[c] == Some(d))
  }

  lemma HelloKeepsOwners(s: Hub, c: nat, info: DeviceInfo)
    requires OwnerInv(s) && Enabled(s, Hello(c, info))
    ensures OwnerInv(Apply(s, Hello(c, info)))
  {
    hide Broadcast;
  }

  lemma CloseKeepsOwners(s: Hub, c: nat, heir: Option<string>)
    requires OwnerInv(s) && Enabled(s, Close(c, heir))
    ensures OwnerInv(Apply(s, Close(c, heir)))
  {
    hide Broadcast;
  }

  lemma OwnerPreserved(s: Hub, step: Step)
    requires OwnerInv(s) && Enabled(s, step)
    ensures OwnerInv(Apply(s, step))
  {
    hide AfterHello, AfterClose, Removed, Broadcast;
    match step
    case Hello(c, info) => HelloKeepsOwners(s, c, info);
    case Close(c, heir) => CloseKeepsOwners(s, c, heir);
    case _ =>
  }

  /** A connection owns at most one device. */
  lemma OneDevicePerConnection(s: Hub, d: string, e: string)
    requires OwnerInv(s) && d in s.room.connections && e in s.room.connections
    requires s.room.connections[d] == s.room.connections[e]
    ensures d == e
  {
  }

  /** Whatever a connection does, it never removes or takes a device that another one owns, except by announcing it. */
  lemma OthersKeepTheirDevices(s: Hub, step: Step, d: string)
    requires OwnerInv(s) && Enabled(s, step)
    requires d in s.room.connections && s.room.connections[d] != step.c
    requires step.Hello? ==> step.info.deviceId != d
    ensures var room := Apply(s, step).room;
      && d in room.connections && room.connections[d] == s.room.connections[d]
      && d in room.devices && room.devices[d] == s.room.devices[d]
  {
  }

  // ----- The active device -----

  /** The snapshot changes only by a report, and only when the reporting socket announced the active device. */
  lemma SnapshotComesFromTheActive(s: Hub, step: Step)
    requires Enabled(s, step)
    ensures Apply(s, step).room.snapshot ==
      if step.Report? && s.room.active.Some? && s.sockets[step.c] == s.room.active then Some(step.snapshot)
      else s.room.snapshot
  {
  }

  /** There is an active device exactly when one is connected, and it is a connected one. */
  predicate ActiveIsConnected(s: Hub) {
    if s.room.active.Some? then s.room.active.value in s.room.devices else s.room.devices == map[]
  }

  /**
    The two ways to lose the active device: a transfer to a device that is not connected, and an
    announcement under a new id by the owner of the active device.
  */
  predicate Strays(s: Hub, step: Step)
    requires Enabled(s, step)
  {
    match step
    case Transfer(_, target) => target !in s.room.devices
    case Hello(c, info) =>
      var mine := s.sockets[c];
      mine.Some? && mine.value != info.deviceId && mine == s.room.active && Owns(s.room, mine.value, c)
    case _ => false
  }

  /** From a good state exactly those two steps break it. */
  lemma ActiveKeptIff(s: Hub, step: Step)
    requires OwnerInv(s) && ActiveIsConnected(s) && Enabled(s, step)
    ensures ActiveIsConnected(Apply(s, step)) <==> !Strays(s, step)
  {
    if step.Hello? {
      assert step.info.deviceId in Apply(s, step).room.devices;
    }
  }

  /** Who plays after each step: the target, the first to announce itself, the heir of its owner, or as before. */
  lemma ActiveAfterStep(s: Hub, step: Step)
    requires OwnerInv(s) && Enabled(s, step)
    ensures Apply(s, step).room.active ==
      match step
      case Transfer(_, target) => Some(target)
      case Hello(_, info) => if s.room.active == None then Some(info.deviceId) else s.room.active
      case Close(c, heir) =>
        if s.room.active.Some? && s.room.active.value in s.room.connections
           && s.room.connections[s.room.active.value] == c then heir
        else s.room.active
      case _ => s.room.active
  {
  }

  /**
    Who is listed after each step: an announcement lists its device and drops what else its connection owned,
    the end of a connection drops what it owned, and nothing else changes an entry.
  */
  lemma DevicesAfterStep(s: Hub, step: Step, d: string)
    requires OwnerInv(s) && Enabled(s, step)
    ensures var before, room := s.room, Apply(s, step).room;
      && (step.Hello? && d == step.info.deviceId ==>
            d in room.devices && room.devices[d] == step.info && room.connections[d] == step.c)
      && (!(step.Hello? && d == step.info.deviceId) ==>
            && (d in room.devices <==>
                  d in before.devices && ((step.Hello? || step.Close?) ==> before.connections[d] != step.c))
            && (d in room.devices ==>
                  room.devices[d] == before.devices[d] && room.connections[d] == before.connections[d]))
  {
    hide Broadcast;
    OwnerPreserved(s, step);
  }

  // ----- What the clients see -----

  datatype View = View(active: Option<string>, devices: set<DeviceInfo>, snapshot: Option<string>)

  const NO_VIEW := View(None, {}, None)

  function Seen(view: View, message: ServerMessage): View {
    match message
    case RoomState(active, devices, snapshot) => View(active, devices, snapshot)
    case StateUpdated(active, update) => view.(active := active, snapshot := Some(update))
    case ExecuteCommand(_, _) => view
  }

  /** The view of a client that received these messages in order. */
  function Replay(view: View, messages: seq<ServerMessage>): View {
    if messages == [] then view
    else Seen(Replay(view, messages[..|messages| - 1]), messages[|messages| - 1])
  }

  function RoomView(room: Room): View {
    View(room.active, room.devices.Values, room.snapshot)
  }

  lemma ReplaySnoc(view: View, messages: seq<ServerMessage>, message: ServerMessage)
    ensures Replay(view, messages + [message]) == Seen(Replay(view, messages), message)
  {
    assert (messages + [message])[..|messages|] == messages;
  }

  predicate ReplicaInv(s: Hub) {
    Replay(NO_VIEW, s.sent) == RoomView(s.room)
  }

  lemma ReplicaPreserved(s: Hub, step: Step)
    requires ReplicaInv(s) && Enabled(s, step)
    ensures ReplicaInv(Apply(s, step))
  {
    hide Replay, AfterHello, AfterClose;
    var s' := Apply(s, step);
    if |s'.sent| > |s.sent| {
      ReplaySnoc(NO_VIEW, s.sent, s'.sent[|s.sent|]);
      assert s'.sent == s.sent + [s'.sent[|s.sent|]];
    } else {
      assert s'.sent == s.sent;
    }
  }

  /** One room state makes a client forget what it believed before. */
  lemma {:induction false} RoomStateResets(a: View, b: View, messages: seq<ServerMessage>)
    requires exists i :: 0 <= i < |messages| && messages[i].RoomState?
    ensures Replay(a, messages) == Replay(b, messages)
  {
    var n := |messages| - 1;
    if !messages[n].RoomState? {
      RoomStateResets(a, b, messages[..n]);
    }
  }

  lemma {:induction false} ReplayConcat(view: View, a: seq<ServerMessage>, b: seq<ServerMessage>)
    ensures Replay(view, a + b) == Replay(Replay(view, a), b)
  {
    if b == [] {
      assert a + b == a;
    } else {
      var n := |b| - 1;
      assert (a + b)[..|a + b| - 1] == a + b[..n];
      ReplayConcat(view, a, b[..n]);
    }
  }

  // ----- Runs -----

  predicate ValidRun(s: Hub, steps: seq<Step>)
    decreases |steps|
  {
    steps != [] ==> Enabled(s, steps[0]) && ValidRun(Apply(s, steps[0]), steps[1..])
  }

  function Run(s: Hub, steps: seq<Step>): Hub
    requires ValidRun(s, steps)
    decreases |steps|
  {
    if steps == [] then s else Run(Apply(s, steps[0]), steps[1..])
  }

  /** No step of the run strays. */
  predicate KeepsCourse(s: Hub, steps: seq<Step>)
    requires ValidRun(s, steps)
    decreases |steps|
  {
    steps != [] ==> !Strays(s, steps[0]) && KeepsCourse(Apply(s, steps[0]), steps[1..])
  }

  lemma {:induction false} RunKeepsInv(s: Hub, steps: seq<Step>)
    requires OwnerInv(s) && ReplicaInv(s) && ValidRun(s, steps)
    ensures OwnerInv(Run(s, steps)) && ReplicaInv(Run(s, steps))
    ensures ActiveIsConnected(s) && KeepsCourse(s, steps) ==> ActiveIsConnected(Run(s, steps))
    decreases |steps|
  {
    if steps != [] {
      hide OwnerInv, ReplicaInv, ActiveIsConnected, Apply, Enabled;
      OwnerPreserved(s, steps[0]);
      ReplicaPreserved(s, steps[0]);
      if ActiveIsConnected(s) {
        ActiveKeptIff(s, steps[0]);
      }
      RunKeepsInv(Apply(s, steps[0]), steps[1..]);
    }
  }

  /** In every run both maps agree and every owner is open; when all sockets are closed nothing is left. */
  lemma RoomsNeverLeak(steps: seq<Step>)
    requires ValidRun(START, steps)
    ensures var s := Run(START, steps);
      && OwnerInv(s)
      && (s.sockets == map[] ==> s.room.devices == map[] && s.room.connections == map[])
  {
    RunKeepsInv(START, steps);
    var s := Run(START, steps);
    if s.sockets == map[] {
      assert s.room.connections.Keys == {};
    }
  }

  /** In every run that keeps course, the active device is absent exactly when no device is connected. */
  lemma ActiveFollowsDevices(steps: seq<Step>)
    requires ValidRun(START, steps) && KeepsCourse(START, steps)
    ensures ActiveIsConnected(Run(START, steps))
  {
    RunKeepsInv(START, steps);
  }

  /** Nobody transfers, and the owner of `target` does not leave. */
  predicate LeavesRole(s: Hub, steps: seq<Step>, target: string)
    requires ValidRun(s, steps)
    decreases |steps|
  {
    steps != [] ==>
      && !steps[0].Transfer?
      && !(steps[0].Close? && Owns(s.room, target, steps[0].c))
      && LeavesRole(Apply(s, steps[0]), steps[1..], target)
  }

  lemma {:induction false} RoleStays(s: Hub, steps: seq<Step>, target: string)
    requires OwnerInv(s) && s.room.active == Some(target) && ValidRun(s, steps) && LeavesRole(s, steps, target)
    ensures Run(s, steps).room.active == Some(target)
    decreases |steps|
  {
    if steps != [] {
      hide OwnerInv, Apply, Enabled;
      OwnerPreserved(s, steps[0]);
      ActiveAfterStep(s, steps[0]);
      RoleStays(Apply(s, steps[0]), steps[1..], target);
    }
  }

  /** In every run a transfer decides who plays until the next transfer or until the owner of the target leaves. */
  lemma TransferLasts(before: seq<Step>, c: nat, target: string, after: seq<Step>)
    requires ValidRun(START, before) && Enabled(Run(START, before), Transfer(c, target))
    requires
      var s := Apply(Run(START, before), Transfer(c, target));
      ValidRun(s, after) && LeavesRole(s, after, target)
    ensures Run(Apply(Run(START, before), Transfer(c, target)), after).room.active == Some(target)
  {
    RunKeepsInv(START, before);
    OwnerPreserved(Run(START, before), Transfer(c, target));
    RoleStays(Apply(Run(START, before), Transfer(c, target)), after, target);
  }

  lemma {:induction false} RunSnoc(s: Hub, steps: seq<Step>)
    requires ValidRun(s, steps) && steps != []
    ensures var front := steps[..|steps| - 1];
      && ValidRun(s, front) && Enabled(Run(s, front), steps[|steps| - 1])
      && Run(s, steps) == Apply(Run(s, front), steps[|steps| - 1])
    decreases |steps|
  {
    hide Apply, Enabled;
    if |steps| > 1 {
      RunSnoc(Apply(s, steps[0]), steps[1..]);
      assert steps[1..][..|steps| - 2] == steps[..|steps| - 1][1..];
    }
  }

  /** The step ends what `Hello(c, info)` announced. */
  predicate Revokes(step: Step, c: nat, info: DeviceInfo) {
    || (step.Hello? && (step.c == c || step.info.deviceId == info.deviceId))
    || (step.Close? && step.c == c)
  }

  /** Step `i` announced it and no later step of the run revoked it. */
  predicate Announced(steps: seq<Step>, i: nat, c: nat, info: DeviceInfo) {
    && i < |steps| && steps[i] == Hello(c, info)
    && forall j :: i < j < |steps| ==> !Revokes(steps[j], c, info)
  }

  predicate Listed(room: Room, c: nat, info: DeviceInfo) {
    && info.deviceId in room.devices && room.devices[info.deviceId] == info
    && Owns(room, info.deviceId, c)
  }

  /**
    A device is listed for a connection exactly when that connection announced it, is still open, announced
    nothing since, and nobody else announced the same id since.
  */
  lemma {:induction false} ListedIff(steps: seq<Step>, c: nat, info: DeviceInfo)
    requires ValidRun(START, steps)
    ensures Listed(Run(START, steps).room, c, info) <==> exists i: nat :: Announced(steps, i, c, info)
    decreases |steps|
  {
    if steps != [] {
      hide Apply, Enabled, OwnerInv, Revokes;
      var n: nat := |steps| - 1;
      var front, last := steps[..n], steps[n];
      RunSnoc(START, steps);
      RunKeepsInv(START, front);
      ListedIff(front, c, info);
      var s := Run(START, front);
      ListedAfterStep(s, last, c, info);
      if last == Hello(c, info) {
        assert Announced(steps, n, c, info);
      } else if Revokes(last, c, info) {
        assert forall i: nat :: !Announced(steps, i, c, info);
      } else {
        assert forall i: nat :: Announced(front, i, c, info) <==> Announced(steps, i, c, info);
      }
    }
  }

  lemma ListedAfterStep(s: Hub, step: Step, c: nat, info: DeviceInfo)
    requires OwnerInv(s) && Enabled(s, step)
    ensures Listed(Apply(s, step).room, c, info) <==>
      step == Hello(c, info) || (Listed(s.room, c, info) && !Revokes(step, c, info))
  {
    hide Apply, Enabled;
    OwnerPreserved(s, step);
    DevicesAfterStep(s, step, info.deviceId);
  }

  /** A transfer to a device that is not there really leaves it active. */
  lemma TransferStrays()
    ensures var steps := [Open(7), Hello(7, DeviceInfo("a", "", "")), Transfer(7, "b")];
      ValidRun(START, steps) && !ActiveIsConnected(Run(START, steps))
  {
    var one, two, three := Open(7), Hello(7, DeviceInfo("a", "", "")), Transfer(7, "b");
    var s1 := Apply(START, one);
    var s2 := Apply(s1, two);
    var s3 := Apply(s2, three);
    assert [one, two, three][1..] == [two, three] && [two, three][1..] == [three] && [three][1..] == [];
    assert "a" != "b";
    assert "b" !in s3.room.devices && s3.room.active == Some("b");
  }

  /** Announcing a second id really leaves the room with an active device that is gone. */
  lemma ReannouncingStrays()
    ensures var steps := [Open(7), Hello(7, DeviceInfo("a", "", "")), Hello(7, DeviceInfo("b", "", ""))];
      ValidRun(START, steps) && !ActiveIsConnected(Run(START, steps))
  {
    var one, two, three := Open(7), Hello(7, DeviceInfo("a", "", "")), Hello(7, DeviceInfo("b", "", ""));
    var s1 := Apply(START, one);
    var s2 := Apply(s1, two);
    var s3 := Apply(s2, three);
    assert [one, two, three][1..] == [two, three] && [two, three][1..] == [three] && [three][1..] == [];
    assert "a" != "b";
    assert "a" !in s3.room.devices && s3.room.active == Some("a");
  }

  /**
    A client that received every broadcast since some point, at least one of them a room state,
    sees exactly the room, whatever it believed before.
  */
  lemma ClientsConverge(steps: seq<Step>, joined: nat, view: View)
    requires ValidRun(START, steps) && joined <= |Run(START, steps).sent|
    requires exists i :: joined <= i < |Run(START, steps).sent| && Run(START, steps).sent[i].RoomState?
    ensures Replay(view, Run(START, steps).sent[joined..]) == RoomView(Run(START, steps).room)
  {
    RunKeepsInv(START, steps);
    var sent := Run(START, steps).sent;
    assert sent == sent[..joined] + sent[joined..];
    ReplayConcat(NO_VIEW, sent[..joined], sent[joined..]);
    var i :| joined <= i < |sent| && sent[i].RoomState?;
    assert sent[joined..][i - joined].RoomState?;
    RoomStateResets(view, Replay(NO_VIEW, sent[..joined]), sent[joined..]);
  }
}
