/**
 Several rooms on one server: room creation in internal/server/server.go, idle
 removal and the search of handleRebind in internal/server/keepalive_server.go.
 */
module MultiRoom {
  import opened Base
  import opened RoomModel
  import opened RoomInvariant
  import opened RoomHistory
  import opened Subnets
  import opened RoomPersist

  const MAX_ROOM_ID := 32

  /** What does not change while the server runs; local networks are read once at the start. */
  datatype Settings = Settings(
    base: Option<Ip4>,
    locals: seq<Cidr>,
    password: Bytes,
    mac: (Bytes, Bytes, Bytes, string, Addr) -> Bytes,
    maxRooms: int)

  datatype Server = Server(settings: Settings, rooms: map<Bytes, RoomState>)

  ghost predicate SettingsOk(settings: Settings) { forall i :: 0 <= i < |settings.locals| ==> IsCidr(settings.locals[i]) }

  ghost function Nets(rooms: map<Bytes, RoomState>): set<Net24> { set id | id in rooms :: rooms[id].cfg.net }

  /** Auto-created rooms: 254 players, 3 connections per IP, the server's password. */
  function RoomConfig(settings: Settings, net: Net24): Config { Config(net, settings.password, 254, 3, settings.mac) }

  datatype Event =
    | Join(id: Bytes, net: Option<Net24>, now: int)
    | InRoom(id: Bytes, e: RoomModel.Event)
    | Cleanup(idle: set<Bytes>)

  predicate MayCreate(s: Server, id: Bytes) {
    0 < |id| <= MAX_ROOM_ID && id !in s.rooms && !(s.settings.maxRooms > 0 && |s.rooms| >= s.settings.maxRooms)
  }

  /** A joining client's room is allocated as allocateSubnet does; a room's steps come in time order. */
  ghost predicate Enabled(s: Server, e: Event) {
    match e
    case Join(id, net, _) => MayCreate(s, id) ==> SettingsOk(s.settings) && Allocates(s.settings.base, Nets(s.rooms), s.settings.locals, net)
    case InRoom(id, e) => id in s.rooms ==> Timely(s.rooms[id], e)
    case Cleanup(_) => true
  }

  predicate Removable(s: Server, idle: set<Bytes>, id: Bytes) {
    id in s.rooms && id != DEFAULT_ROOM && |s.rooms[id].clients| == 0 && id in idle
  }

  ghost function Next(s: Server, e: Event): Server {
    match e
    case Join(id, net, now) =>
      if MayCreate(s, id) && net.Some?
      then s.(rooms := s.rooms[id := EmptyRoom(RoomConfig(s.settings, net.value), now)]) else s
    case InRoom(id, e) => if id in s.rooms then s.(rooms := s.rooms[id := Step(s.rooms[id], e)]) else s
    case Cleanup(idle) => s.(rooms := map id | id in s.rooms && !Removable(s, idle, id) :: s.rooms[id])
  }

  // ── What every run keeps ───────────────────────────────────────

  ghost predicate RoomsOk(s: Server) { forall id :: id in s.rooms ==> Inv(s.rooms[id]) }

  ghost predicate NetsApart(s: Server) {
    forall i, j :: i in s.rooms && j in s.rooms && i != j ==> s.rooms[i].cfg.net != s.rooms[j].cfg.net
  }

  ghost predicate ClearOfLocals(s: Server) {
    SettingsOk(s.settings) && forall id, i :: id in s.rooms && 0 <= i < |s.settings.locals| ==> NetClear(s, id, i)
  }

  ghost predicate NetClear(s: Server, id: Bytes, i: nat)
    requires SettingsOk(s.settings) && id in s.rooms && i < |s.settings.locals|
  {
    !Intersect(Net24Cidr(s.rooms[id].cfg.net), s.settings.locals[i])
  }

  ghost predicate FewEnough(s: Server) { s.settings.maxRooms > 0 ==> |s.rooms| <= s.settings.maxRooms }

  ghost predicate Consistent(s: Server) { RoomsOk(s) && NetsApart(s) && ClearOfLocals(s) && FewEnough(s) }

  lemma EmptyRoomInv(cfg: Config, now: int)
    ensures Inv(EmptyRoom(cfg, now))
  {
  }

  lemma StepConfig(s: RoomState, e: RoomModel.Event)
    requires Inv(s) && Timely(s, e)
    ensures Step(s, e).cfg == s.cfg
  {
    ClockKeeps(s, e.now);
    HandleSize(s.(clock := e.now), e);
  }

  lemma JoinKeeps(s: Server, id: Bytes, net: Net24, now: int)
    requires Consistent(s) && MayCreate(s, id) && Enabled(s, Join(id, Some(net), now))
    ensures Consistent(Next(s, Join(id, Some(net), now)))
  {
    var t := Next(s, Join(id, Some(net), now));
    AllocatedIsApart(s.settings.base.value, Nets(s.rooms), s.settings.locals, net);
    JoinKeepsRooms(s, id, net, now);
    JoinKeepsNets(s, id, net, now);
    JoinKeepsClear(s, id, net, now);
    assert t.rooms.Keys == s.rooms.Keys + {id};
  }

  lemma JoinKeepsRooms(s: Server, id: Bytes, net: Net24, now: int)
    requires RoomsOk(s) && MayCreate(s, id)
    ensures RoomsOk(Next(s, Join(id, Some(net), now)))
  {
    EmptyRoomInv(RoomConfig(s.settings, net), now);
  }

  lemma JoinKeepsNets(s: Server, id: Bytes, net: Net24, now: int)
    requires NetsApart(s) && MayCreate(s, id) && net !in Nets(s.rooms)
    ensures NetsApart(Next(s, Join(id, Some(net), now)))
  {
    forall i | i in s.rooms ensures s.rooms[i].cfg.net != net { assert s.rooms[i].cfg.net in Nets(s.rooms); }
  }

  lemma JoinKeepsClear(s: Server, id: Bytes, net: Net24, now: int)
    requires ClearOfLocals(s) && MayCreate(s, id)
    requires forall i :: 0 <= i < |s.settings.locals| ==> !Intersect(Net24Cidr(net), s.settings.locals[i])
    ensures ClearOfLocals(Next(s, Join(id, Some(net), now)))
  {
    var t := Next(s, Join(id, Some(net), now));
    forall i, k | i in t.rooms && 0 <= k < |t.settings.locals| ensures NetClear(t, i, k) {
      if i != id { assert NetClear(s, i, k); }
    }
  }

  lemma InRoomKeeps(s: Server, id: Bytes, e: RoomModel.Event)
    requires Consistent(s) && id in s.rooms && Timely(s.rooms[id], e)
    ensures Consistent(Next(s, InRoom(id, e)))
  {
    StepKeeps(s.rooms[id], e);
    StepConfig(s.rooms[id], e);
    ReplaceKeeps(s, id, Step(s.rooms[id], e));
  }

  lemma ReplaceKeeps(s: Server, id: Bytes, r: RoomState)
    requires Consistent(s) && id in s.rooms && Inv(r) && r.cfg == s.rooms[id].cfg
    ensures Consistent(s.(rooms := s.rooms[id := r]))
  {
    var t := s.(rooms := s.rooms[id := r]);
    forall i, k | i in t.rooms && 0 <= k < |t.settings.locals| ensures NetClear(t, i, k) { assert NetClear(s, i, k); }
    assert t.rooms.Keys == s.rooms.Keys;
  }

  lemma CleanupKeeps(s: Server, idle: set<Bytes>)
    requires Consistent(s)
    ensures Consistent(Next(s, Cleanup(idle)))
  {
    var t := Next(s, Cleanup(idle));
    forall i, k | i in t.rooms && 0 <= k < |t.settings.locals| ensures NetClear(t, i, k) { assert NetClear(s, i, k); }
    SubsetSize(t.rooms.Keys, s.rooms.Keys);
  }

  lemma NextKeeps(s: Server, e: Event)
    requires Consistent(s) && Enabled(s, e)
    ensures Consistent(Next(s, e)) && Next(s, e).settings == s.settings
  {
    match e
    case Join(id, net, now) => if MayCreate(s, id) && net.Some? { JoinKeeps(s, id, net.value, now); }
    case InRoom(id, e) => if id in s.rooms { InRoomKeeps(s, id, e); }
    case Cleanup(idle) => CleanupKeeps(s, idle);
  }

  ghost predicate Runs(s: Server, es: seq<Event>, t: Server)
    decreases |es|
  {
    if es == [] then s == t else Enabled(s, es[0]) && Runs(Next(s, es[0]), es[1..], t)
  }

  lemma {:induction false} RunsKeep(s: Server, es: seq<Event>, t: Server)
    requires Consistent(s) && Runs(s, es, t)
    ensures Consistent(t) && t.settings == s.settings
    decreases |es|
  {
    if es != [] {
      NextKeeps(s, es[0]);
      RunsKeep(Next(s, es[0]), es[1..], t);
    }
  }

  /** A virtual IP belongs to at most one room. */
  lemma OneHolder(s: Server, v: Ip4, i: Bytes, j: Bytes)
    requires Consistent(s) && i in s.rooms && j in s.rooms && v in s.rooms[i].clients && v in s.rooms[j].clients
    ensures i == j
  {
    assert SeatOk(s.rooms[i], v) && SeatOk(s.rooms[j], v);
  }

  /** Main theorem: over every run of joins, room steps and idle removals from an empty server, live
      /24s share no address with each other or with a local network, every virtual IP is held by
      at most one client server-wide, and the room limit holds. */
  lemma LiveRoomsDisjoint(settings: Settings, es: seq<Event>, t: Server)
    requires SettingsOk(settings) && Runs(Server(settings, map[]), es, t)
    ensures forall i, j :: i in t.rooms && j in t.rooms && i != j ==> !Intersect(Net24Cidr(t.rooms[i].cfg.net), Net24Cidr(t.rooms[j].cfg.net))
    ensures forall i, k :: i in t.rooms && 0 <= k < |settings.locals| ==> !Intersect(Net24Cidr(t.rooms[i].cfg.net), settings.locals[k])
    ensures forall i, j, v :: i in t.rooms && j in t.rooms && v in t.rooms[i].clients && v in t.rooms[j].clients ==> i == j
    ensures settings.maxRooms > 0 ==> |t.rooms| <= settings.maxRooms
  {
    var s := Server(settings, map[]);
    RunsKeep(s, es, t);
    forall i, j | i in t.rooms && j in t.rooms && i != j ensures !Intersect(Net24Cidr(t.rooms[i].cfg.net), Net24Cidr(t.rooms[j].cfg.net)) {
      Net24sApart(t.rooms[i].cfg.net, t.rooms[j].cfg.net);
    }
    forall i, j, v | i in t.rooms && j in t.rooms && v in t.rooms[i].clients && v in t.rooms[j].clients ensures i == j {
      OneHolder(t, v, i, j);
    }
    forall i, k | i in t.rooms && 0 <= k < |settings.locals| ensures !Intersect(Net24Cidr(t.rooms[i].cfg.net), settings.locals[k]) {
      assert NetClear(t, i, k);
    }
  }

  /** Rooms are made with the server's password, for 254 players and 3 connections per IP. */
  ghost predicate AsConfigured(s: Server) {
    forall id :: id in s.rooms ==>
      var c := s.rooms[id].cfg;
      c.password == s.settings.password && c.mac == s.settings.mac && c.maxPlayers == 254 && c.maxPerIP == 3
  }

  lemma {:induction false} RunsConfigured(s: Server, es: seq<Event>, t: Server)
    requires Consistent(s) && AsConfigured(s) && Runs(s, es, t)
    ensures AsConfigured(t)
    decreases |es|
  {
    if es != [] {
      NextKeeps(s, es[0]);
      NextConfigured(s, es[0]);
      RunsConfigured(Next(s, es[0]), es[1..], t);
    }
  }

  lemma NextConfigured(s: Server, e: Event)
    requires Consistent(s) && AsConfigured(s) && Enabled(s, e)
    ensures AsConfigured(Next(s, e)) && Next(s, e).settings == s.settings
  {
    if e.InRoom? && e.id in s.rooms { StepConfig(s.rooms[e.id], e.e); }
  }

  /** Over every run from an empty server no room lacks the server's password or its limits. */
  lemma LiveRoomsConfigured(settings: Settings, es: seq<Event>, t: Server)
    requires SettingsOk(settings) && Runs(Server(settings, map[]), es, t)
    ensures forall id :: id in t.rooms ==> t.rooms[id].cfg.password == settings.password && t.rooms[id].cfg.maxPlayers == 254
                                           && t.rooms[id].cfg.maxPerIP == 3 && t.rooms[id].cfg.mac == settings.mac
  {
    RunsConfigured(Server(settings, map[]), es, t);
    RunsKeep(Server(settings, map[]), es, t);
  }

  /** A join makes an empty room under a fit name when there is none, the server has a place and a
      network is free; otherwise it changes nothing. Other rooms are left alone. */
  lemma JoinMakesRoom(s: Server, id: Bytes, net: Option<Net24>, now: int)
    ensures var t := Next(s, Join(id, net, now));
            var fits := 1 <= |id| <= 32 && id !in s.rooms && (s.settings.maxRooms <= 0 || |s.rooms| < s.settings.maxRooms) && net.Some?;
            && (!fits ==> t == s)
            && (fits ==> id in t.rooms && t.rooms[id].clients == map[] && t.rooms[id].addrMap == map[] && t.rooms[id].cfg.net == net.value)
            && forall j :: j in s.rooms ==> j in t.rooms && t.rooms[j] == s.rooms[j]
  {
  }

  /** Idle removal spares rooms with clients, the room "default", and rooms that were active. */
  lemma CleanupSpares(s: Server, idle: set<Bytes>, id: Bytes)
    requires id in s.rooms
    ensures var t := Next(s, Cleanup(idle));
            && (id in t.rooms <==> |s.rooms[id].clients| > 0 || id == [100, 101, 102, 97, 117, 108, 116] || id !in idle)
            && (id in t.rooms ==> t.rooms[id] == s.rooms[id])
  {
  }

  // ── The code ───────────────────────────────────────────────────

  /** The search loop of handleRebind, in whatever order the rooms come: it finds the room that
      holds the virtual IP, and there is only one it could find. */
  method FindHolder(s: Server, v: Ip4, order: seq<Bytes>) returns (found: Option<Bytes>)
    requires forall id :: id in s.rooms <==> id in order
    ensures found.None? <==> forall id :: id in s.rooms ==> v !in s.rooms[id].clients
    ensures found.Some? ==> found.value in s.rooms && v in s.rooms[found.value].clients
    ensures Consistent(s) && found.Some? ==> forall id :: id in s.rooms && v in s.rooms[id].clients ==> id == found.value
  {
    for i := 0 to |order|
      invariant forall j :: 0 <= j < i ==> v !in s.rooms[order[j]].clients
    {
      if v in s.rooms[order[i]].clients {
        if Consistent(s) {
          forall id | id in s.rooms && v in s.rooms[id].clients ensures id == order[i] { OneHolder(s, v, id, order[i]); }
        }
        return Some(order[i]);
      }
    }
    found := None;
  }

  function Without(rooms: map<Bytes, RoomState>, ids: set<Bytes>): map<Bytes, RoomState> {
    map id | id in rooms && id !in ids :: rooms[id]
  }

  lemma WithoutOne(rooms: map<Bytes, RoomState>, gone: set<Bytes>, todo: set<Bytes>, id: Bytes)
    requires id in todo
    ensures Without(rooms, gone - (todo - {id})) == if id in gone then Without(rooms, gone - todo) - {id} else Without(rooms, gone - todo)
  {
    assert gone - (todo - {id}) == if id in gone then (gone - todo) + {id} else gone - todo;
  }

  class Rooms {
    const settings: Settings
    var rooms: map<Bytes, RoomState>

    ghost function Model(): Server
      reads this
    {
      Server(settings, rooms)
    }

    constructor (settings: Settings)
      ensures Model() == Server(settings, map[])
    {
      this.settings, rooms := settings, map[];
    }

    /** The find-or-create part of handleRegisterMultiRoom. */
    method FindOrCreate(id: Bytes, now: int) returns (ok: bool, ghost net: Option<Net24>)
      requires SettingsOk(settings)
      modifies this`rooms
      ensures Enabled(old(Model()), Join(id, net, now))
      ensures Model() == Next(old(Model()), Join(id, net, now))
      ensures ok <==> 0 < |id| <= MAX_ROOM_ID && id in rooms
    {
      net := None;
      if |id| == 0 || |id| > MAX_ROOM_ID { return false, net; }
      if id !in rooms {
        if settings.maxRooms > 0 && |rooms| >= settings.maxRooms { return false, net; }
        var nets := RoomNets();
        var subnet := AllocateSubnet(settings.base, nets, settings.locals);
        net := subnet;
        if subnet.None? { return false, net; }
        rooms := rooms[id := EmptyRoom(RoomConfig(settings, subnet.value), now)];
      }
      ok := true;
    }

    method RoomNets() returns (nets: seq<Net24>)
      ensures (set n | n in nets) == Nets(rooms)
    {
      nets := [];
      var todo := rooms.Keys;
      while todo != {}
        invariant todo <= rooms.Keys
        invariant forall id :: id in rooms && id !in todo ==> rooms[id].cfg.net in nets
        invariant forall n :: n in nets ==> n in Nets(rooms)
        decreases |todo|
      {
        var id :| id in todo;
        nets := nets + [rooms[id].cfg.net];
        todo := todo - {id};
      }
    }

    /** cleanupIdleRooms; `idle` are the rooms without activity for more than five minutes. */
    method CleanupIdleRooms(idle: set<Bytes>)
      modifies this`rooms
      ensures Model() == Next(old(Model()), Cleanup(idle))
    {
      ghost var s := Model();
      ghost var gone := set id | id in rooms && Removable(s, idle, id);
      var todo := rooms.Keys;
      while todo != {}
        invariant todo <= s.rooms.Keys
        invariant rooms == Without(s.rooms, gone - todo)
        decreases |todo|
      {
        var id :| id in todo;
        if id != DEFAULT_ROOM && |rooms[id].clients| == 0 && id in idle { rooms := rooms - {id}; }
        WithoutOne(s.rooms, gone, todo, id);
        todo := todo - {id};
      }
      assert gone - {} == gone;
    }
  }
}
