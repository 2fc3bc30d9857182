/**
 State persistence: what SnapshotState saves, loadState rebuilds in a fresh room,
 and a returning player gets the virtual IP it had.
 */
module RoomPersist {
  import opened Base
  import opened DataFormat
  import opened RoomModel
  import opened RoomInvariant

  /** `vip` is the saved text after parsing: None when it is not an IPv4 address. */
  datatype Entry = Entry(name: string, vip: Option<Ip4>, lastSeen: int)
  datatype Snapshot = Snapshot(version: int, net: Net24, updatedAt: int, used: set<int>, entries: map<Ip4, Entry>)

  const STATE_VERSION := 1

  ghost function SnapshotState(s: RoomState, now: int): Snapshot {
    Snapshot(STATE_VERSION, s.cfg.net, now, s.used,
             map v | v in s.clients && s.clients[v] in s.store && s.store[s.clients[v]].auth != ChallengeSent
                   :: Entry(s.store[s.clients[v]].name, s.store[s.clients[v]].vip, s.store[s.clients[v]].lastSeen))
  }

  /** "default", the room id of every restored client. */
  const DEFAULT_ROOM: Bytes := [100, 101, 102, 97, 117, 108, 116]

  function Placeholder(e: Entry, v: Ip4): Client {
    Client(e.name, DEFAULT_ROOM, 0, Some(v), None, e.lastSeen, ZERO_TOKEN, AuthNone, [], 0)
  }

  function Reserve(s: RoomState, c: Client, v: Ip4): RoomState {
    s.(store := s.store[s.next := c], next := s.next + 1, clients := s.clients[v := s.next], used := s.used + {v.d})
  }

  predicate Restorable(s: RoomState, e: Entry, updatedAt: int, now: int) {
    && e.vip.Some?
    && (now - e.lastSeen <= 30 * SECOND || now - updatedAt <= 60 * SECOND)
    && e.vip.value == HostIn(s.cfg.net, e.vip.value.d)
    && 2 <= e.vip.value.d < 255
    && e.vip.value.d !in s.used
  }

  function RestoreOne(s: RoomState, e: Entry, updatedAt: int, now: int): RoomState {
    if Restorable(s, e, updatedAt, now) then Reserve(s, Placeholder(e, e.vip.value), e.vip.value) else s
  }

  /** `order` is the order in which the saved map is walked. */
  function RestoreAll(s: RoomState, order: seq<Entry>, updatedAt: int, now: int): RoomState
    decreases |order|
  {
    if order == [] then s else RestoreAll(RestoreOne(s, order[0], updatedAt, now), order[1..], updatedAt, now)
  }

  function LoadState(s: RoomState, snap: Snapshot, order: seq<Entry>, now: int): RoomState {
    if snap.version != STATE_VERSION || snap.net != s.cfg.net then s else RestoreAll(s, order, snap.updatedAt, now)
  }

  // ── Restoring keeps the room consistent ────────────────────────

  lemma ReserveEntries(s: RoomState, c: Client, v: Ip4)
    requires AddrOk(s) && FreshOk(s) && ScanOk(s) && v !in s.clients
    ensures AddrOk(Reserve(s, c, v)) && FreshOk(Reserve(s, c, v)) && ScanOk(Reserve(s, c, v))
  {
    var t := Reserve(s, c, v);
    forall j | j in t.addrMap ensures EntryOk(t, j) { assert EntryOk(s, j); }
    if s.scan.Some? {
      assert forall r :: r in s.scan.value.members ==> RecordOk(s, s.scan.value.at, r);
      assert forall r :: r in s.scan.value.auths ==> AuthRecordOk(s, r);
    }
  }

  lemma ReserveKeeps(s: RoomState, c: Client, v: Ip4)
    requires Inv(s) && v == HostIn(s.cfg.net, v.d) && 2 <= v.d < 255 && v.d !in s.used
    requires c.vip == Some(v) && c.auth == AuthNone
    ensures Inv(Reserve(s, c, v))
  {
    var t := Reserve(s, c, v);
    assert v !in s.clients by { assert !OctetHeld(s, v.d); }
    ReserveEntries(s, c, v);
    assert forall w :: w in t.clients && w != v ==> SeatOk(s, w);
    forall p ensures p in t.used <==> OctetHeld(t, p) {
      assert p in s.used <==> OctetHeld(s, p);
    }
  }

  lemma {:induction false} RestoreKeeps(s: RoomState, order: seq<Entry>, updatedAt: int, now: int)
    requires Inv(s)
    ensures Inv(RestoreAll(s, order, updatedAt, now))
    decreases |order|
  {
    if order != [] {
      if Restorable(s, order[0], updatedAt, now) {
        ReserveKeeps(s, Placeholder(order[0], order[0].vip.value), order[0].vip.value);
      }
      RestoreKeeps(RestoreOne(s, order[0], updatedAt, now), order[1..], updatedAt, now);
    }
  }

  // ── Snapshot then restore ──────────────────────────────────────

  /** `order` walks the saved map: every entry exactly once. */
  ghost predicate Walks(order: seq<Entry>, entries: map<Ip4, Entry>) {
    && (forall i :: 0 <= i < |order| ==> order[i].vip.Some? && order[i].vip.value in entries && entries[order[i].vip.value] == order[i])
    && (forall v :: v in entries ==> exists i :: 0 <= i < |order| && order[i] == entries[v])
    && (forall i, j :: 0 <= i < j < |order| ==> order[i].vip != order[j].vip)
  }

  /** A room holding exactly placeholders for the entries `order`. */
  ghost predicate Holds(s: RoomState, order: seq<Entry>) {
    && s.addrMap == map[] && s.conns == map[] && s.pending == 0
    && (forall i :: 0 <= i < |order| ==> HoldsEntry(s, order[i]))
    && (forall v :: v in s.clients ==> exists i :: 0 <= i < |order| && order[i].vip == Some(v))
  }

  predicate HoldsEntry(s: RoomState, e: Entry) {
    e.vip.Some? && e.vip.value in s.clients && s.clients[e.vip.value] in s.store
    && s.store[s.clients[e.vip.value]] == Placeholder(e, e.vip.value)
  }

  /** An entry for a seat nobody holds yet is reserved. */
  lemma FreeReserves(s: RoomState, done: seq<Entry>, e: Entry, updatedAt: int, now: int)
    requires Inv(s) && Holds(s, done) && now - updatedAt <= 60 * SECOND && e.vip.Some?
    requires e.vip.value == HostIn(s.cfg.net, e.vip.value.d) && 2 <= e.vip.value.d < 255
    requires forall i :: 0 <= i < |done| ==> done[i].vip != e.vip
    ensures var v := e.vip.value;
            RestoreOne(s, e, updatedAt, now) == Reserve(s, Placeholder(e, v), v) && Inv(Reserve(s, Placeholder(e, v), v)) && v.d !in s.used
  {
    var v := e.vip.value;
    assert !OctetHeld(s, v.d);
    ReserveKeeps(s, Placeholder(e, v), v);
  }

  /** Distinct, well placed entries all fit, in any order. */
  lemma {:induction false} RestoreHolds(s: RoomState, done: seq<Entry>, todo: seq<Entry>, updatedAt: int, now: int)
    requires Inv(s) && Holds(s, done) && now - updatedAt <= 60 * SECOND
    requires forall i :: 0 <= i < |todo| ==>
               todo[i].vip.Some? && todo[i].vip.value == HostIn(s.cfg.net, todo[i].vip.value.d) && 2 <= todo[i].vip.value.d < 255
    requires forall i, j :: 0 <= i < j < |done + todo| ==> (done + todo)[i].vip != (done + todo)[j].vip
    ensures Holds(RestoreAll(s, todo, updatedAt, now), done + todo)
    ensures RestoreAll(s, todo, updatedAt, now).cfg == s.cfg
    decreases |todo|
  {
    if todo == [] {
      assert done + todo == done;
    } else {
      var e := todo[0];
      var v := e.vip.value;
      var t := Reserve(s, Placeholder(e, v), v);
      NextIsNew(done, todo);
      FreeReserves(s, done, e, updatedAt, now);
      assert Holds(t, done + [e]) by { ReserveHolds(s, done, e); }
      assert (done + [e]) + todo[1..] == done + todo;
      RestoreHolds(t, done + [e], todo[1..], updatedAt, now);
    }
  }

  lemma NextIsNew(done: seq<Entry>, todo: seq<Entry>)
    requires todo != [] && forall i, j :: 0 <= i < j < |done + todo| ==> (done + todo)[i].vip != (done + todo)[j].vip
    ensures forall i :: 0 <= i < |done| ==> done[i].vip != todo[0].vip
  {
    assert (done + todo)[|done|] == todo[0];
    assert forall i :: 0 <= i < |done| ==> (done + todo)[i] == done[i];
  }

  lemma ReserveHolds(s: RoomState, done: seq<Entry>, e: Entry)
    requires Inv(s) && Holds(s, done) && e.vip.Some? && e.vip.value !in s.clients
    ensures Holds(Reserve(s, Placeholder(e, e.vip.value), e.vip.value), done + [e])
  {
    var t := Reserve(s, Placeholder(e, e.vip.value), e.vip.value);
    forall i | 0 <= i < |done + [e]| ensures HoldsEntry(t, (done + [e])[i]) {
      if i < |done| { assert HoldsEntry(s, done[i]); }
    }
    forall v | v in t.clients ensures exists i :: 0 <= i < |done + [e]| && (done + [e])[i].vip == Some(v) {
      if v == e.vip.value {
        assert (done + [e])[|done|].vip == Some(v);
      } else {
        var i :| 0 <= i < |done| && done[i].vip == Some(v);
        assert (done + [e])[i].vip == Some(v);
      }
    }
  }

  /** Table of virtual IPs and names. */
  ghost function Names(s: RoomState): map<Ip4, string> {
    map v | v in s.clients && s.clients[v] in s.store :: s.store[s.clients[v]].name
  }

  /** Main theorem: saved within the last 60 s, a consistent room comes back with the same
      virtual-IP-to-name table and the octets of the saved bitmap, which is never read. */
  lemma RestoreUndoesSnapshot(s: RoomState, cfg: Config, saved: int, order: seq<Entry>, now: int)
    requires Inv(s) && cfg.net == s.cfg.net && now - saved <= 60 * SECOND
    requires Walks(order, SnapshotState(s, saved).entries)
    ensures var t := LoadState(EmptyRoom(cfg, now), SnapshotState(s, saved), order, now);
            && Inv(t)
            && Names(t) == Names(s)
            && t.used == SnapshotState(s, saved).used
            && Holds(t, order)
  {
    var empty := EmptyRoom(cfg, now);
    var snap := SnapshotState(s, saved);
    assert Inv(empty);
    assert forall v :: v in s.clients ==> SeatOk(s, v);
    RestoreHolds(empty, [], order, saved, now);
    assert [] + order == order;
    RestoreKeeps(empty, order, saved, now);
    var t := LoadState(empty, snap, order, now);
    SameTable(s, t, order, saved);
    SameOctets(s, t);
  }

  lemma SavedEntry(s: RoomState, order: seq<Entry>, saved: int, t: RoomState, v: Ip4)
    requires SeatsOk(s) && Holds(t, order) && Walks(order, SnapshotState(s, saved).entries) && v in s.clients
    ensures v in t.clients && t.clients[v] in t.store && t.store[t.clients[v]].name == s.store[s.clients[v]].name
  {
    var es := SnapshotState(s, saved).entries;
    assert SeatOk(s, v);
    assert v in es;
    var i :| 0 <= i < |order| && order[i] == es[v];
    assert HoldsEntry(t, order[i]);
  }

  lemma OnlySaved(s: RoomState, order: seq<Entry>, saved: int, t: RoomState, v: Ip4)
    requires Holds(t, order) && Walks(order, SnapshotState(s, saved).entries) && v in t.clients
    ensures v in s.clients
  {
    var i :| 0 <= i < |order| && order[i].vip == Some(v);
    assert order[i].vip.value in SnapshotState(s, saved).entries;
  }

  lemma SavedComeBack(s: RoomState, t: RoomState, order: seq<Entry>, saved: int)
    requires SeatsOk(s) && Holds(t, order) && Walks(order, SnapshotState(s, saved).entries)
    ensures forall v :: v in s.clients ==> v in Names(s) && v in Names(t) && Names(t)[v] == Names(s)[v]
  {
    forall v | v in s.clients ensures v in Names(s) && v in Names(t) && Names(t)[v] == Names(s)[v] {
      assert SeatOk(s, v);
      SavedEntry(s, order, saved, t, v);
    }
  }

  lemma OnlySavedComeBack(s: RoomState, t: RoomState, order: seq<Entry>, saved: int)
    requires Holds(t, order) && Walks(order, SnapshotState(s, saved).entries)
    ensures forall v :: v in t.clients ==> v in s.clients
  {
    forall v | v in t.clients ensures v in s.clients { OnlySaved(s, order, saved, t, v); }
  }

  lemma SameTable(s: RoomState, t: RoomState, order: seq<Entry>, saved: int)
    requires SeatsOk(s) && SeatsOk(t) && Holds(t, order) && Walks(order, SnapshotState(s, saved).entries)
    ensures Names(t) == Names(s) && t.clients.Keys == s.clients.Keys
  {
    SavedComeBack(s, t, order, saved);
    OnlySavedComeBack(s, t, order, saved);
  }

  lemma SameOctets(s: RoomState, t: RoomState)
    requires Inv(s) && Inv(t) && t.cfg.net == s.cfg.net && t.clients.Keys == s.clients.Keys
    ensures t.used == s.used
  {
    forall o ensures o in t.used <==> o in s.used {
      assert OctetHeld(s, o) <==> OctetHeld(t, o);
    }
  }

  /** Whoever waits alone under a name and room gets its placeholder's virtual IP back,
      in any consistent room, passworded or not. */
  lemma PlaceholderReturns(s: RoomState, v: Ip4, reg: RegisterMsg, from: Addr, now: int, rnd: Random, pick: Ip4)
    requires Inv(s) && RegisterError(reg, true).None?
    requires v in s.clients && IsPlaceholder(s.store[s.clients[v]], reg.name, reg.roomId)
    requires Placeholders(s, reg.name, reg.roomId) <= {v}
    requires from !in s.addrMap && ConnsOf(s, from.ip) < s.cfg.maxPerIP
    ensures Answer(s, EvRegister(reg, from, now, true, rnd, pick)) == Assigned(Some(v))
    ensures var t := Step(s, EvRegister(reg, from, now, true, rnd, pick));
            from in t.addrMap && v in t.clients && t.addrMap[from] == t.clients[v] == s.clients[v]
  {
    var s0 := s.(clock := now);
    assert SeatOk(s, v);
    assert Placeholders(s0, reg.name, reg.roomId) == {v} by { assert Placeholders(s0, reg.name, reg.roomId) == Placeholders(s, reg.name, reg.roomId); }
  }

  lemma OtherNames(s: RoomState, t: RoomState, v: Ip4)
    requires SeatsOk(s) && SeatsOk(t) && Names(t) == Names(s) && v in s.clients
    requires forall w :: w in s.clients && w != v ==> s.store[s.clients[w]].name != s.store[s.clients[v]].name
    ensures forall w :: w in t.clients && w != v ==> t.store[t.clients[w]].name != s.store[s.clients[v]].name
  {
    forall w | w in t.clients && w != v ensures t.store[t.clients[w]].name != s.store[s.clients[v]].name {
      assert SeatOk(t, w);
      assert w in Names(t) && w in Names(s);
      assert SeatOk(s, w);
      assert Names(t)[w] == Names(s)[w];
    }
  }

  lemma RestoredPlaceholder(s: RoomState, t: RoomState, order: seq<Entry>, saved: int, v: Ip4)
    requires SeatsOk(s) && Holds(t, order) && Walks(order, SnapshotState(s, saved).entries) && v in s.clients
    ensures v in t.clients && t.clients[v] in t.store
    ensures IsPlaceholder(t.store[t.clients[v]], s.store[s.clients[v]].name, DEFAULT_ROOM)
  {
    var es := SnapshotState(s, saved).entries;
    assert SeatOk(s, v);
    var i :| 0 <= i < |order| && order[i] == es[v];
    assert HoldsEntry(t, order[i]);
  }

  lemma {:induction false} RestoreMapsNothing(s: RoomState, todo: seq<Entry>, updatedAt: int, now: int)
    ensures var t := RestoreAll(s, todo, updatedAt, now); t.addrMap == s.addrMap && t.conns == s.conns && t.cfg == s.cfg
    decreases |todo|
  {
    if todo != [] { RestoreMapsNothing(RestoreOne(s, todo[0], updatedAt, now), todo[1..], updatedAt, now); }
  }

  /** Crash, restart within 60 s, come back under the old name: same virtual IP. */
  lemma ReturningPlayerKeepsIp(s: RoomState, cfg: Config, saved: int, order: seq<Entry>, now: int,
                               v: Ip4, version: nat, from: Addr, later: int, rnd: Random, pick: Ip4)
    requires Inv(s) && cfg.net == s.cfg.net && now - saved <= 60 * SECOND && cfg.maxPerIP > 0
    requires Walks(order, SnapshotState(s, saved).entries)
    requires v in s.clients
    requires forall w :: w in s.clients && w != v ==> s.store[s.clients[w]].name != s.store[s.clients[v]].name
    requires RegisterError(RegisterMsg(DEFAULT_ROOM, s.store[s.clients[v]].name, version), true).None?
    ensures var t := LoadState(EmptyRoom(cfg, now), SnapshotState(s, saved), order, now);
            var reg := RegisterMsg(DEFAULT_ROOM, s.store[s.clients[v]].name, version);
            Answer(t, EvRegister(reg, from, later, true, rnd, pick)) == Assigned(Some(v))
  {
    var t := LoadState(EmptyRoom(cfg, now), SnapshotState(s, saved), order, now);
    RestoreUndoesSnapshot(s, cfg, saved, order, now);
    RestoredPlaceholder(s, t, order, saved, v);
    OtherNames(s, t, v);
    assert t.addrMap == map[] && t.conns == map[] && t.cfg == cfg by { RestoreMapsNothing(EmptyRoom(cfg, now), order, saved, now); }
    PlaceholderReturns(t, v, RegisterMsg(DEFAULT_ROOM, s.store[s.clients[v]].name, version), from, later, rnd, pick);
  }

  // ── Exactly what is saved and restored ─────────────────────────

  /** Every member is saved under its IP, with its name and the time it was last seen. */
  lemma SnapshotHolds(s: RoomState, now: int)
    requires SeatsOk(s)
    ensures var snap := SnapshotState(s, now);
            && snap.version == 1 && snap.net == s.cfg.net && snap.updatedAt == now && snap.used == s.used
            && snap.entries.Keys == s.clients.Keys
            && forall v :: v in s.clients ==> SavedUnder(s, snap, v)
  {
    forall v | v in s.clients ensures v in SnapshotState(s, now).entries && SavedUnder(s, SnapshotState(s, now), v) { assert SeatOk(s, v); }
  }

  predicate SavedUnder(s: RoomState, snap: Snapshot, v: Ip4) {
    && v in s.clients && s.clients[v] in s.store && v in snap.entries
    && snap.entries[v] == Entry(s.store[s.clients[v]].name, Some(v), s.store[s.clients[v]].lastSeen)
  }

  /** A state of another version or subnet is not restored. */
  lemma OtherStateIgnored(s: RoomState, snap: Snapshot, order: seq<Entry>, now: int)
    requires snap.version != 1 || snap.net != s.cfg.net
    ensures LoadState(s, snap, order, now) == s
  {
  }

  /** An entry inside the subnet, off the reserved octets, and either seen within 30 s or saved within 60 s. */
  predicate Eligible(net: Net24, e: Entry, v: Ip4, updatedAt: int, now: int) {
    && e.vip == Some(v) && v.a == net.a && v.b == net.b && v.c == net.c && 2 <= v.d <= 254
    && (now - e.lastSeen <= 30 * SECOND || now - updatedAt <= 60 * SECOND)
  }

  /** The first eligible entry for `v`. */
  predicate FirstFor(net: Net24, order: seq<Entry>, i: nat, v: Ip4, updatedAt: int, now: int) {
    i < |order| && Eligible(net, order[i], v, updatedAt, now) && forall j :: 0 <= j < i ==> !Eligible(net, order[j], v, updatedAt, now)
  }

  /** The waiting client an entry turns into: its name and time, in room "default", without address, version or token. */
  predicate WaitsAs(t: RoomState, v: Ip4, e: Entry) {
    && v in t.clients && t.clients[v] in t.store
    && t.store[t.clients[v]] == Client(e.name, [100, 101, 102, 97, 117, 108, 116], 0, Some(v), None, e.lastSeen,
                                       [0, 0, 0, 0, 0, 0, 0, 0, 0, 0, 0, 0, 0, 0, 0, 0], AuthNone, [], 0)
  }

  /** The seat is held by the same object as before, unchanged. */
  predicate SameSeat(s: RoomState, t: RoomState, v: Ip4) {
    && v in s.clients && s.clients[v] in s.store && v in t.clients && t.clients[v] == s.clients[v]
    && s.clients[v] in t.store && t.store[s.clients[v]] == s.store[s.clients[v]]
  }

  /** A seat that is held stays what it is; a free one goes to the first eligible entry, and to nobody without one. */
  lemma {:induction false} RestoreAt(s: RoomState, order: seq<Entry>, updatedAt: int, now: int, v: Ip4)
    requires Inv(s)
    ensures var t := RestoreAll(s, order, updatedAt, now);
            && (v in s.clients ==> SameSeat(s, t, v))
            && (v !in s.clients ==> forall i: nat :: FirstFor(s.cfg.net, order, i, v, updatedAt, now) ==> WaitsAs(t, v, order[i]))
            && (v !in s.clients && v in t.clients ==> exists i: nat :: FirstFor(s.cfg.net, order, i, v, updatedAt, now))
    decreases |order|
  {
    if order != [] {
      var u := RestoreOne(s, order[0], updatedAt, now);
      RestoreOneAt(s, order[0], updatedAt, now, v);
      RestoreAt(u, order[1..], updatedAt, now, v);
      var net := s.cfg.net;
      forall i: nat | FirstFor(net, order, i, v, updatedAt, now) && v !in s.clients ensures WaitsAs(RestoreAll(s, order, updatedAt, now), v, order[i]) {
        if i > 0 {
          assert !Eligible(net, order[0], v, updatedAt, now);
          assert FirstFor(net, order[1..], i - 1, v, updatedAt, now);
        }
      }
      if v !in s.clients && v in RestoreAll(s, order, updatedAt, now).clients {
        if v in u.clients {
          assert FirstFor(net, order, 0, v, updatedAt, now);
        } else {
          var i: nat :| FirstFor(net, order[1..], i, v, updatedAt, now);
          assert FirstFor(net, order, i + 1, v, updatedAt, now);
        }
      }
    }
  }

  lemma RestoreOneAt(s: RoomState, e: Entry, updatedAt: int, now: int, v: Ip4)
    requires Inv(s)
    ensures var u := RestoreOne(s, e, updatedAt, now);
            && Inv(u) && u.cfg == s.cfg
            && (v in s.clients ==> SameSeat(s, u, v))
            && (v !in s.clients ==> (v in u.clients <==> Eligible(s.cfg.net, e, v, updatedAt, now)))
            && (v !in s.clients && v in u.clients ==> WaitsAs(u, v, e))
  {
    if Restorable(s, e, updatedAt, now) {
      ReserveKeeps(s, Placeholder(e, e.vip.value), e.vip.value);
      assert !OctetHeld(s, e.vip.value.d);
    }
    if v in s.clients { assert SeatOk(s, v); }
    if v !in s.clients && Eligible(s.cfg.net, e, v, updatedAt, now) {
      assert HostIn(s.cfg.net, v.d) == v;
      assert !OctetHeld(s, v.d);
    }
  }

  /** Main theorem: starting from an empty room, exactly the IPs with an eligible entry are held again,
      each by the first such entry. */
  lemma RestoredExactly(cfg: Config, snap: Snapshot, order: seq<Entry>, now: int, v: Ip4)
    requires snap.version == 1 && snap.net == cfg.net
    ensures var t := LoadState(EmptyRoom(cfg, now), snap, order, now);
            && (v in t.clients <==> exists i: nat :: FirstFor(cfg.net, order, i, v, snap.updatedAt, now))
            && forall i: nat :: FirstFor(cfg.net, order, i, v, snap.updatedAt, now) ==> WaitsAs(t, v, order[i])
  {
    assert Inv(EmptyRoom(cfg, now));
    RestoreAt(EmptyRoom(cfg, now), order, snap.updatedAt, now, v);
  }
}
