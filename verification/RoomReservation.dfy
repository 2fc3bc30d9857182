/**
 How long a restored player's seat is kept. The placeholder that loadState of
 internal/server/persist.go leaves behind is a client like any other: until its
 player comes back, another packet can take it or a sweep can remove it.
 */
module RoomReservation {
  import opened Base
  import opened RoomModel
  import opened RoomInvariant
  import opened RoomHistory
  import opened RoomPersist
  import opened RoomTheorems
  import opened RoomAdmission

  /** Seat `v` is still held by the placeholder `c`, object `id`. */
  predicate Waits(s: RoomState, v: Ip4, id: Id, c: Client) {
    v in s.clients && s.clients[v] == id && id in s.store && s.store[id] == c && c.addr.None? && c.auth == AuthNone
  }

  /** Object `id` no longer waits in seat `v`: it lost the seat, or it has an address now. */
  predicate Ended(s: RoomState, v: Ip4, id: Id) {
    id in s.store && (s.store[id].addr.Some? || !(v in s.clients && s.clients[v] == id))
  }

  predicate WaitsUnless(ends: bool, s: RoomState, v: Ip4, id: Id, c: Client) {
    if ends then Ended(s, v, id) else Waits(s, v, id, c)
  }

  ghost predicate ScannedAs(s: RoomState, v: Ip4, id: Id) {
    s.scan.Some? && exists r :: r in s.scan.value.members && r.vip == v && r.id == id
  }

  /** A registration that gets as far as looking for a placeholder, and finds this one first. */
  ghost predicate ClaimedBy(s: RoomState, reg: RegisterMsg, from: Addr, rateOk: bool, pick: Ip4, v: Ip4) {
    && RegisterError(reg, rateOk).None?
    && var s1 := if PendingAt(s, from) then Forget(s, from, s.store[s.addrMap[from]]) else s;
       && from !in s1.addrMap && ConnsOf(s1, from.ip) < s.cfg.maxPerIP
       && Placeholders(s1, reg.name, reg.roomId) != {} && Choose(Placeholders(s1, reg.name, reg.roomId), pick) == v
  }

  /** The steps that end a reservation: its player registers, a packet claiming its IP comes from an
      unmapped address, it is rebound, or a sweep finds it unseen for more than 30 s. */
  ghost predicate Ends(s: RoomState, e: Event, v: Ip4)
    requires v in s.clients && s.clients[v] in s.store
  {
    match e
    case EvRegister(reg, from, now, rateOk, rnd, pick) => ClaimedBy(s, reg, from, rateOk, pick, v)
    case EvRelay(payload, from, now) => |payload| >= 8 && from !in s.addrMap && Ip4At(payload, 0) == v && MigrateAllowed(s, payload)
    case EvRebind(w, hmac, from, now) => w == v && RebindAllowed(s, v, hmac, now)
    case EvStaleSweep(now) => ScannedAs(s, v, s.clients[v]) && now - s.store[s.clients[v]].lastSeen > 30 * SECOND
    case _ => false
  }

  // ── One step ───────────────────────────────────────────────────

  /** A placeholder is not in the address map, and nobody else sits in its seat. */
  lemma Apart(s: RoomState, v: Ip4, id: Id, c: Client)
    requires AddrOk(s) && SeatsOk(s) && Waits(s, v, id, c)
    ensures forall k :: k in s.addrMap ==> s.addrMap[k] != id
    ensures forall w :: w in s.clients && w != v ==> s.clients[w] != id
  {
    forall k | k in s.addrMap ensures s.addrMap[k] != id { assert EntryOk(s, k); }
    forall w | w in s.clients && w != v ensures s.clients[w] != id { assert SeatOk(s, w); }
  }

  lemma MoveWaits(s: RoomState, w: Ip4, k: Addr, seen: int, v: Ip4, id: Id, c: Client)
    requires AddrOk(s) && SeatsOk(s) && Waits(s, v, id, c) && w in s.clients && s.clients[w] in s.store
    ensures WaitsUnless(w == v, MoveTo(s, s.clients[w], k, seen), v, id, c)
  {
    Apart(s, v, id, c);
  }

  /** A new seat goes to a free octet. */
  lemma AdmitWaits(s: RoomState, reg: RegisterMsg, k: Addr, now: int, rnd: Random, v: Ip4, id: Id, c: Client)
    requires FreshOk(s) && UsedOk(s) && SeatsOk(s) && Waits(s, v, id, c)
    ensures Waits(Admit(s, reg, k, now, rnd).0, v, id, c)
  {
    var o := FirstFree(s.used, 2);
    if o.Some? {
      assert SeatOk(s, v);
      assert !OctetHeld(s, o.value);
    }
  }

  lemma RegisterAtWaits(s: RoomState, reg: RegisterMsg, from: Addr, now: int, rnd: Random, pick: Ip4, v: Ip4, id: Id, c: Client)
    requires Inv(s) && Waits(s, v, id, c)
    ensures var claimed := ConnsOf(s, from.ip) < s.cfg.maxPerIP && Placeholders(s, reg.name, reg.roomId) != {}
                           && Choose(Placeholders(s, reg.name, reg.roomId), pick) == v;
            WaitsUnless(claimed, RegisterAt(s, reg, from, now, rnd, pick).0, v, id, c)
  {
    var s1 := AddConn(s, from.ip);
    if ConnsOf(s, from.ip) < s.cfg.maxPerIP {
      CountersBounded(s, from.ip, DEAD);
      var waiting := Placeholders(s, reg.name, reg.roomId);
      if waiting != {} {
        MoveWaits(s1, Choose(waiting, pick), from, now, v, id, c);
      } else {
        AdmitWaits(s1, reg, from, now, rnd, v, id, c);
      }
    }
  }

  lemma RegisterWaits(s: RoomState, reg: RegisterMsg, from: Addr, now: int, rateOk: bool, rnd: Random, pick: Ip4, v: Ip4, id: Id, c: Client)
    requires Inv(s) && Waits(s, v, id, c)
    ensures WaitsUnless(ClaimedBy(s, reg, from, rateOk, pick, v), Register(s, reg, from, now, rateOk, rnd, pick).0, v, id, c)
  {
    if RegisterError(reg, rateOk).None? {
      var s1 := if PendingAt(s, from) then Forget(s, from, s.store[s.addrMap[from]]) else s;
      if PendingAt(s, from) { ForgetKeeps(s, from, s.store[s.addrMap[from]]); }
      assert Waits(s1, v, id, c);
      if from in s1.addrMap {
        assert EntryOk(s1, from);
        Apart(s1, v, id, c);
      } else {
        RegisterAtWaits(s1, reg, from, now, rnd, pick, v, id, c);
      }
    }
  }

  lemma AuthenticatedWaits(s: RoomState, from: Addr, now: int, rnd: Random, k: Addr, v: Ip4, id: Id, c: Client)
    requires Inv(s) && Waits(s, v, id, c) && PendingAt(s, k)
    ensures Waits(Authenticated(s, from, now, rnd, k).0, v, id, c)
  {
    var p := s.store[s.addrMap[k]];
    var q := Vacated(s, from, k);
    assert EntryOk(s, k);
    Apart(s, v, id, c);
    assert Waits(q, v, id, c);
    var o := FirstFree(q.used, 2);
    if o.Some? {
      assert SeatOk(s, v);
      assert !OctetHeld(s, o.value);
    }
  }

  lemma AuthResponseWaits(s: RoomState, resp: AuthMsg, from: Addr, now: int, rnd: Random, pick: Addr, v: Ip4, id: Id, c: Client)
    requires Inv(s) && Waits(s, v, id, c)
    ensures Waits(AuthResponse(s, resp, from, now, rnd, pick).0, v, id, c)
  {
    var at := PendingFor(s, resp, from, pick);
    if |resp.hmac| == 32 && at.Some? { AuthPendingWaits(s, resp, from, now, rnd, at.value, v, id, c); }
  }

  lemma AuthPendingWaits(s: RoomState, resp: AuthMsg, from: Addr, now: int, rnd: Random, k: Addr, v: Ip4, id: Id, c: Client)
    requires Inv(s) && Waits(s, v, id, c) && PendingAt(s, k)
    ensures Waits(AuthPending(s, resp, from, now, rnd, k).0, v, id, c)
  {
    var p := s.store[s.addrMap[k]];
    if Accepted(s, resp, now, k) {
      AuthenticatedWaits(s, from, now, rnd, k, v, id, c);
    } else {
      RefusedWaits(s, k, p, v, id, c);
    }
  }

  lemma RefusedWaits(s: RoomState, k: Addr, p: Client, v: Ip4, id: Id, c: Client)
    requires Waits(s, v, id, c)
    ensures Waits(Forget(s, k, p), v, id, c) && Waits(DropConnOf(s, p), v, id, c)
  {
  }

  lemma DisconnectWaits(s: RoomState, from: Addr, v: Ip4, id: Id, c: Client)
    requires AddrOk(s) && SeatsOk(s) && Waits(s, v, id, c)
    ensures Waits(Disconnect(s, from), v, id, c)
  {
    Apart(s, v, id, c);
    if from in s.addrMap { assert EntryOk(s, from); }
  }

  lemma {:induction false} SweepWaits(s: RoomState, rs: seq<StaleClient>, now: int, v: Ip4, id: Id, c: Client)
    requires Waits(s, v, id, c)
    ensures var swept := (exists r :: r in rs && r.vip == v && r.id == id) && now - c.lastSeen > 30 * SECOND;
            WaitsUnless(swept, SweepMembers(s, rs, now), v, id, c)
    decreases |rs|
  {
    if rs != [] {
      var r, t := rs[0], SweepMember(s, rs[0], now);
      assert forall q :: q in rs <==> q == r || q in rs[1..];
      if r.vip == v && r.id == id && now - c.lastSeen > 30 * SECOND {
        assert r in rs && v !in t.clients;
        SweptStays(t, rs[1..], now, v);
      } else {
        SweepWaits(t, rs[1..], now, v, id, c);
      }
    }
  }

  lemma {:induction false} SweptStays(s: RoomState, rs: seq<StaleClient>, now: int, v: Ip4)
    requires v !in s.clients
    ensures v !in SweepMembers(s, rs, now).clients && SweepMembers(s, rs, now).store == s.store
    decreases |rs|
  {
    if rs != [] { SweptStays(SweepMember(s, rs[0], now), rs[1..], now, v); }
  }

  lemma StaleSweepWaits(s: RoomState, now: int, v: Ip4, id: Id, c: Client)
    requires Waits(s, v, id, c)
    ensures WaitsUnless(ScannedAs(s, v, id) && now - c.lastSeen > 30 * SECOND, StaleSweep(s, now), v, id, c)
  {
    if s.scan.Some? {
      var t := s.(scan := None);
      SweepWaits(t, s.scan.value.members, now, v, id, c);
      SweepAuthsFrame(SweepMembers(t, s.scan.value.members, now), s.scan.value.auths);
    }
  }

  /** Exactly these steps end a reservation. */
  lemma HandleWaits(s: RoomState, e: Event, v: Ip4, id: Id, c: Client)
    requires Inv(s) && Waits(s, v, id, c)
    ensures WaitsUnless(Ends(s, e, v), Handle(s, e).0, v, id, c)
  {
    match e
    case EvRegister(reg, from, now, rateOk, rnd, pick) => RegisterWaits(s, reg, from, now, rateOk, rnd, pick, v, id, c);
    case EvAuthResponse(resp, from, now, rnd, pick) => AuthResponseWaits(s, resp, from, now, rnd, pick, v, id, c);
    case EvKeepAlive(from, now) => Apart(s, v, id, c);
    case EvDisconnect(from, now) => DisconnectWaits(s, from, v, id, c);
    case EvRelay(payload, from, now) =>
      if |payload| >= 8 && from !in s.addrMap && MigrateAllowed(s, payload) { MoveWaits(s, Ip4At(payload, 0), from, now, v, id, c); }
    case EvRebind(w, hmac, from, now) => if RebindAllowed(s, w, hmac, now) { MoveWaits(s, w, from, now, v, id, c); }
    case EvStaleScan(_, _, _) =>
    case EvStaleSweep(now) => StaleSweepWaits(s, now, v, id, c);
  }

  // ── Whole runs ─────────────────────────────────────────────────

  /** Objects keep their names and, once they have one, an address; new objects and seats are addressed. */
  ghost predicate Descends(s: RoomState, t: RoomState) {
    && SameObjects(s, t)
    && (forall id :: id in t.store && id !in s.store ==> t.store[id].addr.Some? && id >= s.next)
    && (forall v :: v in t.clients ==> (v in s.clients && t.clients[v] == s.clients[v]) || t.clients[v] >= s.next)
  }

  lemma DescendsTrans(s: RoomState, t: RoomState, u: RoomState)
    requires FreshOk(s) && FreshOk(t) && Descends(s, t) && Descends(t, u)
    ensures Descends(s, u)
  {
    forall id | id in u.store && id !in s.store ensures u.store[id].addr.Some? && id >= s.next {
      if id in t.store { assert ObjectKept(t.store[id], u.store[id]); }
    }
  }

  lemma CalmDescends(s: RoomState, t: RoomState)
    requires Calm(s, t)
    ensures Descends(s, t)
  {
  }

  lemma AdmitDescends(s: RoomState, q: RoomState, reg: RegisterMsg, k: Addr, now: int, rnd: Random)
    requires FreshOk(s) && Calm(s, q)
    ensures Descends(s, Admit(q, reg, k, now, rnd).0)
  {
  }

  lemma IssueDescends(s: RoomState, q: RoomState, reg: RegisterMsg, k: Addr, now: int, ch: Bytes)
    requires FreshOk(s) && Calm(s, q)
    ensures Descends(s, Issue(q, reg, k, now, ch))
  {
  }

  lemma RegisterAtDescends(s: RoomState, reg: RegisterMsg, from: Addr, now: int, rnd: Random, pick: Ip4)
    requires Inv(s)
    ensures Descends(s, RegisterAt(s, reg, from, now, rnd, pick).0)
  {
    var s1 := AddConn(s, from.ip);
    var waiting := Placeholders(s, reg.name, reg.roomId);
    CalmDescends(s, s) by { ShrinkQuiet(s, s); }
    if ConnsOf(s, from.ip) < s.cfg.maxPerIP {
      if waiting != {} {
        ResumeDescends(s, from, now, Choose(waiting, pick));
      } else if |s.clients| < s.cfg.maxPlayers && !Taken(s, reg.name, reg.roomId) {
        AddConnCalm(s, from);
        if s.cfg.password == [] {
          AdmitDescends(s, s1, reg, from, now, rnd);
        } else if s.pending < s.cfg.MaxPending() && rnd.challenge.Some? {
          IssueDescends(s, s1, reg, from, now, rnd.challenge.value);
        }
      }
    }
  }

  lemma ResumeDescends(s: RoomState, from: Addr, now: int, v: Ip4)
    requires Inv(s) && v in s.clients
    ensures Descends(s, MoveTo(AddConn(s, from.ip), s.clients[v], from, now))
  {
    ResumeCalm(s, from, now, v);
    CalmDescends(s, MoveTo(AddConn(s, from.ip), s.clients[v], from, now));
  }

  lemma AddConnCalm(s: RoomState, from: Addr)
    requires Inv(s)
    ensures Calm(s, AddConn(s, from.ip))
  {
    CountersQuiet(s, from.ip, DEAD, from);
  }

  lemma RegisterDescends(s: RoomState, reg: RegisterMsg, from: Addr, now: int, rateOk: bool, rnd: Random, pick: Ip4)
    requires Inv(s)
    ensures Descends(s, Register(s, reg, from, now, rateOk, rnd, pick).0)
  {
    var s1 := Cleared(s, from);
    ClearedQuiet(s, from);
    if RegisterError(reg, rateOk).Some? {
      CalmDescends(s, s) by { ShrinkQuiet(s, s); }
    } else {
      if from in s1.addrMap && s1.addrMap[from] in s1.store {
        RefreshQuiet(s1, from, now, reg.version);
        CalmDescends(s1, Register(s, reg, from, now, rateOk, rnd, pick).0);
      } else {
        RegisterAtDescends(s1, reg, from, now, rnd, pick);
      }
      CalmDescends(s, s1);
      DescendsTrans(s, s1, Register(s, reg, from, now, rateOk, rnd, pick).0);
    }
  }

  lemma WinDescends(s: RoomState, e: Event)
    requires Inv(s) && Winner(s, e).Some?
    ensures Descends(s, Handle(s, e).0)
  {
    var k := Winner(s, e).value;
    var c := s.store[s.addrMap[k]];
    AcceptedAdmits(s, e.resp, e.from, e.now, e.rnd, k);
    VacatedCloses(s, e.from, k);
    AdmitDescends(s, Vacated(s, e.from, k), RegisterMsg(c.roomId, c.name, c.version), e.from, e.now, e.rnd);
  }

  lemma StepDescends(s: RoomState, e: Event)
    requires Inv(s) && Timely(s, e)
    ensures Descends(s, Step(s, e))
  {
    var s0 := s.(clock := e.now);
    ClockKeeps(s, e.now);
    if e.EvRegister? {
      RegisterDescends(s0, e.reg, e.from, e.now, e.rateOk, e.rnd, e.pickVip);
    } else if Winner(s0, e).Some? {
      WinDescends(s0, e);
    } else {
      if e.EvAuthResponse? { AuthResponseCalm(s0, e); } else { OtherCalm(s0, e); }
      CalmDescends(s0, Handle(s0, e).0);
    }
    SameButClock(s, s0, Step(s, e));
  }

  lemma SameButClock(s: RoomState, s0: RoomState, t: RoomState)
    requires s0 == s.(clock := s0.clock) && Descends(s0, t)
    ensures Descends(s, t)
  {
  }

  lemma {:induction false} RunDescends(s: RoomState, es: seq<Event>)
    requires Inv(s) && TimelyRun(s, es)
    ensures Descends(s, Run(s, es))
    decreases |es|
  {
    if es == [] {
      CalmDescends(s, s) by { ShrinkQuiet(s, s); }
    } else {
      StepDescends(s, es[0]);
      StepKeeps(s, es[0]);
      RunKeeps(Step(s, es[0]), es[1..]);
      RunDescends(Step(s, es[0]), es[1..]);
      DescendsTrans(s, Step(s, es[0]), Run(s, es));
    }
  }

  /** What has ended does not begin again. */
  lemma EndedStays(s: RoomState, t: RoomState, v: Ip4, id: Id)
    requires FreshOk(s) && Descends(s, t) && Ended(s, v, id)
    ensures Ended(t, v, id)
  {
    assert ObjectKept(s.store[id], t.store[id]);
  }

  ghost predicate Undisturbed(s: RoomState, es: seq<Event>, v: Ip4)
    decreases |es|
  {
    es == [] || (v in s.clients && s.clients[v] in s.store && !Ends(s.(clock := es[0].now), es[0], v)
                 && Undisturbed(Step(s, es[0]), es[1..], v))
  }

  /** Main theorem: over every run the placeholder still waits exactly when no step ended it. */
  lemma {:induction false} WaitsIffUndisturbed(s: RoomState, es: seq<Event>, v: Ip4, id: Id, c: Client)
    requires Inv(s) && TimelyRun(s, es) && Waits(s, v, id, c)
    ensures Waits(Run(s, es), v, id, c) <==> Undisturbed(s, es, v)
    decreases |es|
  {
    if es != [] {
      var s0, t := s.(clock := es[0].now), Step(s, es[0]);
      ClockKeeps(s, es[0].now);
      HandleWaits(s0, es[0], v, id, c);
      StepKeeps(s, es[0]);
      if Ends(s0, es[0], v) {
        RunDescends(t, es[1..]);
        EndedStays(t, Run(t, es[1..]), v, id);
      } else {
        WaitsIffUndisturbed(t, es[1..], v, id, c);
      }
    }
  }

  /** Nobody becomes a placeholder during a run. */
  lemma NoNewPlaceholder(s: RoomState, t: RoomState, name: string, roomId: Bytes)
    requires SeatsOk(s) && FreshOk(s) && Descends(s, t)
    ensures Placeholders(t, name, roomId) <= Placeholders(s, name, roomId)
  {
    forall w | w in Placeholders(t, name, roomId) ensures w in Placeholders(s, name, roomId) {
      var id := t.clients[w];
      if w in s.clients && s.clients[w] == id {
        assert SeatOk(s, w);
        assert ObjectKept(s.store[id], t.store[id]);
      }
    }
  }

  /** Restart, then any run that leaves the reservation alone: the player gets its old IP back. */
  lemma ReservationHonoured(s: RoomState, cfg: Config, saved: int, order: seq<Entry>, now: int, es: seq<Event>,
                            v: Ip4, version: nat, from: Addr, later: int, rnd: Random, pick: Ip4)
    requires Inv(s) && cfg.net == s.cfg.net && now - saved <= 60 * SECOND
    requires Walks(order, SnapshotState(s, saved).entries) && v in s.clients
    requires forall w :: w in s.clients && w != v ==> s.store[s.clients[w]].name != s.store[s.clients[v]].name
    requires var t := LoadState(EmptyRoom(cfg, now), SnapshotState(s, saved), order, now);
             && TimelyRun(t, es) && Undisturbed(t, es, v)
             && from !in Run(t, es).addrMap && ConnsOf(Run(t, es), from.ip) < cfg.maxPerIP
    requires RegisterError(RegisterMsg(DEFAULT_ROOM, s.store[s.clients[v]].name, version), true).None?
    ensures var t := LoadState(EmptyRoom(cfg, now), SnapshotState(s, saved), order, now);
            var reg := RegisterMsg(DEFAULT_ROOM, s.store[s.clients[v]].name, version);
            Answer(Run(t, es), EvRegister(reg, from, later, true, rnd, pick)) == Assigned(Some(v))
  {
    var t := LoadState(EmptyRoom(cfg, now), SnapshotState(s, saved), order, now);
    var name := s.store[s.clients[v]].name;
    RestoreUndoesSnapshot(s, cfg, saved, order, now);
    RestoredPlaceholder(s, t, order, saved, v);
    RestoredAlone(s, t, v);
    assert t.cfg == cfg by { RestoreMapsNothing(EmptyRoom(cfg, now), order, saved, now); }
    HonouredAfter(t, es, v, RegisterMsg(DEFAULT_ROOM, name, version), from, later, rnd, pick);
  }

  lemma RestoredAlone(s: RoomState, t: RoomState, v: Ip4)
    requires SeatsOk(s) && SeatsOk(t) && Names(t) == Names(s) && v in s.clients
    requires forall w :: w in s.clients && w != v ==> s.store[s.clients[w]].name != s.store[s.clients[v]].name
    ensures Placeholders(t, s.store[s.clients[v]].name, DEFAULT_ROOM) <= {v}
  {
    OtherNames(s, t, v);
  }

  lemma HonouredAfter(t: RoomState, es: seq<Event>, v: Ip4, reg: RegisterMsg, from: Addr, later: int, rnd: Random, pick: Ip4)
    requires Inv(t) && TimelyRun(t, es) && v in t.clients && t.clients[v] in t.store
    requires IsPlaceholder(t.store[t.clients[v]], reg.name, reg.roomId) && Placeholders(t, reg.name, reg.roomId) <= {v}
    requires Undisturbed(t, es, v)
    requires from !in Run(t, es).addrMap && ConnsOf(Run(t, es), from.ip) < t.cfg.maxPerIP && RegisterError(reg, true).None?
    ensures Answer(Run(t, es), EvRegister(reg, from, later, true, rnd, pick)) == Assigned(Some(v))
  {
    var u := Run(t, es);
    WaitsIffUndisturbed(t, es, v, t.clients[v], t.store[t.clients[v]]);
    RunKeeps(t, es);
    RunDescends(t, es);
    NoNewPlaceholder(t, u, reg.name, reg.roomId);
    PlaceholderReturns(u, v, reg, from, later, rnd, pick);
  }

  /** The grace period is not kept: a sweep whose scan meets a placeholder last seen more than 30 s
      ago removes it, however recent the restart. */
  lemma StaleReservationSwept(s: RoomState, v: Ip4, vips: seq<Ip4>, keys: seq<Addr>, at: int, now: int)
    requires Inv(s) && v in s.clients && v in vips && s.store[s.clients[v]].addr.None? && s.clock <= at <= now
    requires at - s.store[s.clients[v]].lastSeen > 30 * SECOND
    ensures v !in StaleSweep(Step(s, EvStaleScan(vips, keys, at)), now).clients
  {
    assert SeatOk(s, v);
    var id := s.clients[v];
    var s0 := s.(clock := at);
    var t := Step(s, EvStaleScan(vips, keys, at));
    var r := StaleClient(v, id, None);
    ScanFindsStale(s0, vips, at, v);
    assert r in t.scan.value.members && r.vip == v && r.id == id;
    StaleSweepWaits(t, now, v, id, s.store[id]);
    StaleSweepStore(t, now, v, id);
  }

  /** A sweep seats nobody and changes no object. */
  lemma StaleSweepStore(s: RoomState, now: int, v: Ip4, id: Id)
    requires v in s.clients && s.clients[v] == id
    ensures StaleSweep(s, now).store == s.store && (v in StaleSweep(s, now).clients ==> StaleSweep(s, now).clients[v] == id)
  {
    if s.scan.Some? {
      var t := s.(scan := None);
      SweepMembersFrame(t, s.scan.value.members, now);
      SweepAuthsFrame(SweepMembers(t, s.scan.value.members, now), s.scan.value.auths);
      var u := StaleSweep(s, now);
      if v in u.clients { assert (v, u.clients[v]) in u.clients.Items; }
    }
  }
}
