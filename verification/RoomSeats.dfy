/**
 How a seat is lost: a member leaves only by a disconnect from its own address, or
 by a sweep that recorded it and still finds it unseen for more than 30 s.
 */
module RoomSeats {
  import opened Base
  import opened RoomModel
  import opened RoomInvariant
  import opened RoomHistory
  import opened RoomEffects
  import opened RoomOutcomes
  import opened RoomSweeps

  /** The two steps that take `v`'s seat. */
  ghost predicate Ends(s: RoomState, e: Event, v: Ip4) {
    || (e.EvDisconnect? && MappedTo(s, e.from, v))
    || (e.EvStaleSweep? && s.scan.Some? && Goes(s, s.scan.value.members, v, e.now))
  }

  predicate HeldBy(s: RoomState, v: Ip4, id: Id) { v in s.clients && s.clients[v] == id && id in s.store }

  /** Object `id` still holds `v`, last seen as before or just now. */
  predicate SeatKept(s: RoomState, t: RoomState, v: Ip4, id: Id, now: int) {
    HeldBy(s, v, id) && HeldBy(t, v, id) && (t.store[id].lastSeen == s.store[id].lastSeen || t.store[id].lastSeen == now)
  }

  lemma MoveHolds(s: RoomState, w: Id, k: Addr, seen: int, v: Ip4, id: Id, now: int)
    requires HeldBy(s, v, id) && w in s.store && (seen == now || w != id)
    ensures SeatKept(s, MoveTo(s, w, k, seen), v, id, now)
  {
  }

  /** A new seat is at a free octet, so nobody's. */
  lemma AdmitHolds(s: RoomState, reg: RegisterMsg, k: Addr, now: int, rnd: Random, v: Ip4, id: Id)
    requires HeldBy(s, v, id) && id < s.next && v.d in s.used
    ensures SeatKept(s, Admit(s, reg, k, now, rnd).0, v, id, now)
  {
  }

  lemma SeatedIsUsed(s: RoomState, v: Ip4)
    requires SeatsOk(s) && UsedOk(s) && v in s.clients
    ensures v.d in s.used
  {
    assert SeatOk(s, v) && OctetHeld(s, v.d);
  }

  lemma RegisterHolds(s: RoomState, reg: RegisterMsg, from: Addr, now: int, rateOk: bool, rnd: Random, pick: Ip4, v: Ip4, id: Id)
    requires Inv(s) && HeldBy(s, v, id)
    ensures SeatKept(s, Register(s, reg, from, now, rateOk, rnd, pick).0, v, id, now)
  {
    var s1 := Cleared(s, from);
    ClearedQuiet(s, from);
    if RegisterError(reg, rateOk).None? && !(from in s1.addrMap && s1.addrMap[from] in s1.store) {
      RegisterAtHolds(s1, reg, from, now, rnd, pick, v, id);
    }
  }

  lemma RegisterAtHolds(s: RoomState, reg: RegisterMsg, from: Addr, now: int, rnd: Random, pick: Ip4, v: Ip4, id: Id)
    requires SeatsOk(s) && UsedOk(s) && FreshOk(s) && HeldBy(s, v, id)
    ensures SeatKept(s, RegisterAt(s, reg, from, now, rnd, pick).0, v, id, now)
  {
    var waiting := Placeholders(s, reg.name, reg.roomId);
    SeatedIsUsed(s, v);
    var s1 := AddConn(s, from.ip);
    AdmitHolds(s1, reg, from, now, rnd, v, id);
    if waiting != {} { MoveHolds(s1, s.clients[Choose(waiting, pick)], from, now, v, id, now); }
  }

  lemma AuthHolds(s: RoomState, resp: AuthMsg, from: Addr, now: int, rnd: Random, pick: Addr, v: Ip4, id: Id)
    requires Inv(s) && HeldBy(s, v, id)
    ensures SeatKept(s, AuthResponse(s, resp, from, now, rnd, pick).0, v, id, now)
  {
    var at := PendingFor(s, resp, from, pick);
    if |resp.hmac| == 32 && at.Some? { AuthPendingHolds(s, resp, from, now, rnd, at.value, v, id); }
  }

  lemma AuthPendingHolds(s: RoomState, resp: AuthMsg, from: Addr, now: int, rnd: Random, k: Addr, v: Ip4, id: Id)
    requires SeatsOk(s) && UsedOk(s) && FreshOk(s) && HeldBy(s, v, id) && PendingAt(s, k)
    ensures SeatKept(s, AuthPending(s, resp, from, now, rnd, k).0, v, id, now)
  {
    var p := s.store[s.addrMap[k]];
    if Accepted(s, resp, now, k) {
      assert SeatOk(s, v);
      SeatedIsUsed(s, v);
      VacatedHolds(s, from, k, v, id, now);
      AcceptedAdmits(s, resp, from, now, rnd, k);
      AdmitHolds(Vacated(s, from, k), RegisterMsg(p.roomId, p.name, p.version), from, now, rnd, v, id);
    } else {
      RefusedHolds(s, resp, from, now, rnd, k);
    }
  }

  lemma VacatedHolds(s: RoomState, from: Addr, k: Addr, v: Ip4, id: Id, now: int)
    requires HeldBy(s, v, id) && PendingAt(s, k) && s.store[id].auth == AuthNone
    ensures SeatKept(s, Vacated(s, from, k), v, id, now) && Vacated(s, from, k).next == s.next && Vacated(s, from, k).used == s.used
    ensures Vacated(s, from, k).store[id] == s.store[id]
  {
  }

  lemma RefusedHolds(s: RoomState, resp: AuthMsg, from: Addr, now: int, rnd: Random, k: Addr)
    requires PendingAt(s, k) && !Accepted(s, resp, now, k)
    ensures var t := AuthPending(s, resp, from, now, rnd, k).0; t.store == s.store && t.clients == s.clients && t.clock == s.clock
  {
    RefusedIs(s, resp, from, now, rnd, k);
  }

  lemma RelayHolds(s: RoomState, payload: Bytes, from: Addr, now: int, v: Ip4, id: Id)
    requires Inv(s) && HeldBy(s, v, id)
    ensures SeatKept(s, Step(s, EvRelay(payload, from, now)), v, id, now)
  {
    if Spoofed(s, payload, from) { SpoofedIsIgnored(s, payload, from, now); } else { HonestIsForwarded(s, payload, from, now); }
  }

  lemma RebindHolds(s: RoomState, w: Ip4, hmac: Bytes, from: Addr, now: int, v: Ip4, id: Id)
    requires Inv(s) && HeldBy(s, v, id)
    ensures SeatKept(s, Step(s, EvRebind(w, hmac, from, now)), v, id, now)
  {
    RebindIffEntitled(s, w, hmac, from, now);
  }

  lemma DisconnectHolds(s: RoomState, from: Addr, now: int, v: Ip4, id: Id)
    requires Inv(s) && HeldBy(s, v, id)
    ensures var t := Step(s, EvDisconnect(from, now));
            if MappedTo(s, from, v) then v !in t.clients else SeatKept(s, t, v, id, now)
  {
    if from !in s.addrMap {
      DisconnectOfStranger(s, from, now);
    } else {
      assert EntryOk(s, from) && SeatOk(s, v);
      if s.store[s.addrMap[from]].auth == ChallengeSent {
        DisconnectForgetsPending(s, from, now);
      } else {
        DisconnectFreesSeat(s, s.store[s.addrMap[from]].vip.value, from, now);
      }
    }
  }

  lemma SweepHolds(s: RoomState, now: int, v: Ip4, id: Id)
    requires Inv(s) && HeldBy(s, v, id) && s.scan.Some? && now - s.scan.value.at <= 30 * SECOND
    ensures var t := StaleSweep(s, now);
            if Goes(s, s.scan.value.members, v, now) then v !in t.clients else SeatKept(s, t, v, id, now)
  {
    SweepExactly(s, now);
  }

  lemma SweepStep(s: RoomState, e: Event, v: Ip4, id: Id)
    requires Inv(s) && Timely(s, e) && HeldBy(s, v, id) && e.EvStaleSweep?
    ensures if Ends(s, e, v) then v !in Step(s, e).clients else SeatKept(s, Step(s, e), v, id, e.now)
  {
    var s0 := s.(clock := e.now);
    if s.scan.Some? {
      ClockKeeps(s, e.now);
      SweepHolds(s0, e.now, v, id);
      assert Goes(s0, s.scan.value.members, v, e.now) == Goes(s, s.scan.value.members, v, e.now);
    }
  }

  /** Main theorem, one step: a seat is lost exactly by those two steps, and otherwise stays with its object. */
  lemma StepSeats(s: RoomState, e: Event, v: Ip4, id: Id)
    requires Inv(s) && Timely(s, e) && HeldBy(s, v, id)
    ensures if Ends(s, e, v) then v !in Step(s, e).clients else SeatKept(s, Step(s, e), v, id, e.now)
  {
    var s0 := s.(clock := e.now);
    ClockKeeps(s, e.now);
    match e
    case EvRegister(reg, from, now, rateOk, rnd, pick) => RegisterHolds(s0, reg, from, now, rateOk, rnd, pick, v, id);
    case EvAuthResponse(resp, from, now, rnd, pick) => AuthHolds(s0, resp, from, now, rnd, pick, v, id);
    case EvKeepAlive(from, now) => KeepAliveRefreshes(s, from, now);
    case EvDisconnect(from, now) => DisconnectHolds(s, from, now, v, id);
    case EvRelay(payload, from, now) => RelayHolds(s, payload, from, now, v, id);
    case EvRebind(w, hmac, from, now) => RebindHolds(s, w, hmac, from, now, v, id);
    case EvStaleScan(_, _, _) =>
    case EvStaleSweep(_) => SweepStep(s, e, v, id);
  }

  lemma {:induction false} SweepClock(s: RoomState, rs: seq<StaleClient>, now: int)
    ensures SweepMembers(s, rs, now).clock == s.clock
    decreases |rs|
  {
    if rs != [] { SweepClock(SweepMember(s, rs[0], now), rs[1..], now); }
  }

  lemma {:induction false} SweepAuthsClock(s: RoomState, rs: seq<StaleAuth>)
    ensures SweepAuths(s, rs).clock == s.clock
    decreases |rs|
  {
    if rs != [] { SweepAuthsClock(SweepAuth(s, rs[0]), rs[1..]); }
  }

  lemma RegisterClock(s: RoomState, reg: RegisterMsg, from: Addr, now: int, rateOk: bool, rnd: Random, pick: Ip4)
    ensures Register(s, reg, from, now, rateOk, rnd, pick).0.clock == s.clock
  {
    var s1 := Cleared(s, from);
    assert s1.clock == s.clock;
    RegisterAtClock(s1, reg, from, now, rnd, pick);
  }

  lemma RegisterAtClock(s: RoomState, reg: RegisterMsg, from: Addr, now: int, rnd: Random, pick: Ip4)
    ensures RegisterAt(s, reg, from, now, rnd, pick).0.clock == s.clock
  {
    AdmitClock(AddConn(s, from.ip), reg, from, now, rnd);
  }

  lemma AdmitClock(s: RoomState, reg: RegisterMsg, k: Addr, now: int, rnd: Random)
    ensures Admit(s, reg, k, now, rnd).0.clock == s.clock
  {
  }

  lemma AuthClock(s: RoomState, resp: AuthMsg, from: Addr, now: int, rnd: Random, pick: Addr)
    ensures AuthResponse(s, resp, from, now, rnd, pick).0.clock == s.clock
  {
    var at := PendingFor(s, resp, from, pick);
    if |resp.hmac| == 32 && at.Some? { AuthPendingClock(s, resp, from, now, rnd, at.value); }
  }

  lemma AuthPendingClock(s: RoomState, resp: AuthMsg, from: Addr, now: int, rnd: Random, k: Addr)
    requires PendingAt(s, k)
    ensures AuthPending(s, resp, from, now, rnd, k).0.clock == s.clock
  {
    var p := s.store[s.addrMap[k]];
    if Accepted(s, resp, now, k) {
      AcceptedAdmits(s, resp, from, now, rnd, k);
      AdmitClock(Vacated(s, from, k), RegisterMsg(p.roomId, p.name, p.version), from, now, rnd);
    } else {
      RefusedHolds(s, resp, from, now, rnd, k);
    }
  }

  lemma StepClock(s: RoomState, e: Event)
    ensures Step(s, e).clock == e.now
  {
    var s0 := s.(clock := e.now);
    match e
    case EvRegister(reg, from, now, rateOk, rnd, pick) => RegisterClock(s0, reg, from, now, rateOk, rnd, pick);
    case EvAuthResponse(resp, from, now, rnd, pick) => AuthClock(s0, resp, from, now, rnd, pick);
    case EvStaleSweep(now) =>
      if s.scan.Some? {
        SweepClock(s0.(scan := None), s.scan.value.members, now);
        SweepAuthsClock(SweepMembers(s0.(scan := None), s.scan.value.members, now), s.scan.value.auths);
      }
    case _ =>
  }

  /** Step `i` of a run is a disconnect from `v`'s own address. */
  ghost predicate LeavesAt(s: RoomState, es: seq<Event>, i: nat, v: Ip4) {
    i < |es| && es[i].EvDisconnect? && MappedTo(Run(s, es[..i]), es[i].from, v)
  }

  /** Main theorem, whole runs: who was seen at `seen` keeps its seat through every run of the next 30 s, whatever
      is sent, scanned and swept in it, unless it leaves by a disconnect from its own address. */
  lemma {:induction false} SeatOutlasts(s: RoomState, es: seq<Event>, v: Ip4, id: Id, seen: int)
    requires Inv(s) && TimelyRun(s, es) && HeldBy(s, v, id) && s.store[id].lastSeen >= seen && s.clock >= seen
    requires forall i :: 0 <= i < |es| ==> es[i].now <= seen + 30 * SECOND
    requires forall i: nat :: !LeavesAt(s, es, i, v)
    ensures HeldBy(Run(s, es), v, id) && Run(s, es).store[id].lastSeen >= seen
    decreases |es|
  {
    if es != [] {
      var e, t, rest := es[0], Step(s, es[0]), es[1..];
      assert es[..0] == [] && !LeavesAt(s, es, 0, v);
      StepSeats(s, e, v, id);
      StepKeeps(s, e);
      assert t.clock == e.now by { StepClock(s, e); }
      forall i: nat ensures !LeavesAt(t, rest, i, v) {
        if i < |rest| { assert es[..i + 1][1..] == rest[..i] && !LeavesAt(s, es, i + 1, v); }
      }
      SeatOutlasts(t, rest, v, id, seen);
    }
  }

  /** Whoever is assigned an IP keeps it through every run of the next 30 s that it does not leave in. */
  lemma AssignedOutlasts(s: RoomState, e: Event, es: seq<Event>, v: Ip4)
    requires Inv(s) && TimelyRun(s, [e] + es) && (e.EvRegister? || e.EvAuthResponse?) && Answer(s, e) == Assigned(Some(v))
    requires forall i :: 0 <= i < |es| ==> es[i].now <= e.now + 30 * SECOND
    requires forall i: nat :: !LeavesAt(Step(s, e), es, i, v)
    ensures v in Step(s, e).clients && HeldBy(Run(s, [e] + es), v, Step(s, e).clients[v])
  {
    assert ([e] + es)[1..] == es;
    AssignedIsCurrent(s, e, v);
    StepKeeps(s, e);
    StepClock(s, e);
    SeatOutlasts(Step(s, e), es, v, Step(s, e).clients[v], e.now);
  }
}
