/**
 How a member's address can change: the address of an admitted client is moved by
 its own player coming back, by a packet that bears its token, or by an entitled
 rebind, over every step and every run, and by nothing else.
 */
module RoomMoves {
  import opened Base
  import opened RoomModel
  import opened RoomInvariant
  import opened RoomHistory
  import opened RoomAdmission
  import opened RoomReservation
  import opened RoomEffects

  /** The three steps that may move member `v`, on what was sent and what the room knew. */
  ghost predicate MovedBy(s: RoomState, e: Event, v: Ip4)
    requires v in s.clients && s.clients[v] in s.store
  {
    var c := s.store[s.clients[v]];
    match e
    case EvRegister(reg, from, now, rateOk, rnd, pick) =>
      WellFormed(reg, rateOk) && c.addr.None? && c.name == reg.name && c.roomId == reg.roomId
    case EvRelay(payload, from, now) => |payload| >= 8 && Ip4At(payload, 0) == v && from !in s.addrMap && TokenFits(c, payload)
    case EvRebind(w, hmac, from, now) => w == v && Entitles(s, v, hmac, now)
    case _ => false
  }

  /** An admitted client's object under the virtual IP it was given. */
  predicate Admitted(s: RoomState, id: Id, v: Ip4) { id in s.store && s.store[id].auth == AuthNone && s.store[id].vip == Some(v) }

  predicate Holds(s: RoomState, id: Id, v: Ip4) { v in s.clients && s.clients[v] == id }

  /** The object's address is as before, or `v` holds it and it is now at `k`. */
  predicate StaysOr(s: RoomState, t: RoomState, id: Id, v: Ip4, k: Addr) {
    id in s.store && id in t.store && (t.store[id].addr == s.store[id].addr || (Holds(s, id, v) && t.store[id].addr == Some(k)))
  }

  predicate Stays(s: RoomState, t: RoomState, id: Id) { id in s.store && id in t.store && t.store[id].addr == s.store[id].addr }

  lemma MoveMoves(s: RoomState, w: Ip4, k: Addr, seen: int, id: Id, v: Ip4)
    requires SeatsOk(s) && Admitted(s, id, v) && w in s.clients && s.clients[w] in s.store
    ensures var t := MoveTo(s, s.clients[w], k, seen);
            if w == v then StaysOr(s, t, id, v, k) else Stays(s, t, id)
  {
    assert SeatOk(s, w);
  }

  lemma RegisterMoves(s: RoomState, reg: RegisterMsg, from: Addr, now: int, rateOk: bool, rnd: Random, pick: Ip4, id: Id, v: Ip4)
    requires Inv(s) && Admitted(s, id, v)
    ensures var e := EvRegister(reg, from, now, rateOk, rnd, pick);
            var t := Register(s, reg, from, now, rateOk, rnd, pick).0;
            Stays(s, t, id) || (StaysOr(s, t, id, v, from) && Holds(s, id, v) && MovedBy(s, e, v))
  {
    var s1 := Cleared(s, from);
    ClearedQuiet(s, from);
    if RegisterError(reg, rateOk).None? && !(from in s1.addrMap && s1.addrMap[from] in s1.store) {
      RegisterAtMoves(s1, reg, from, now, rnd, pick, id, v);
    }
  }

  lemma RegisterAtMoves(s: RoomState, reg: RegisterMsg, from: Addr, now: int, rnd: Random, pick: Ip4, id: Id, v: Ip4)
    requires SeatsOk(s) && FreshOk(s) && Admitted(s, id, v)
    ensures var t := RegisterAt(s, reg, from, now, rnd, pick).0;
            Stays(s, t, id) || (StaysOr(s, t, id, v, from) && Holds(s, id, v) && s.store[id].addr.None?
                                && s.store[id].name == reg.name && s.store[id].roomId == reg.roomId)
  {
    var waiting := Placeholders(s, reg.name, reg.roomId);
    if waiting != {} {
      var w := Choose(waiting, pick);
      var s1 := AddConn(s, from.ip);
      assert SeatsOk(s1) by { forall x | x in s1.clients ensures SeatOk(s1, x) { assert SeatOk(s, x); } }
      MoveMoves(s1, w, from, now, id, v);
    }
  }

  lemma AuthMoves(s: RoomState, resp: AuthMsg, from: Addr, now: int, rnd: Random, pick: Addr, id: Id, v: Ip4)
    requires FreshOk(s) && Admitted(s, id, v)
    ensures Stays(s, AuthResponse(s, resp, from, now, rnd, pick).0, id)
  {
    var at := PendingFor(s, resp, from, pick);
    if |resp.hmac| == 32 && at.Some? { AuthPendingMoves(s, resp, from, now, rnd, at.value, id, v); }
  }

  lemma AuthPendingMoves(s: RoomState, resp: AuthMsg, from: Addr, now: int, rnd: Random, k: Addr, id: Id, v: Ip4)
    requires FreshOk(s) && Admitted(s, id, v) && PendingAt(s, k)
    ensures Stays(s, AuthPending(s, resp, from, now, rnd, k).0, id)
  {
    var p := s.store[s.addrMap[k]];
    if Accepted(s, resp, now, k) {
      VacatedMoves(s, from, k, id, v);
      AdmitMoves(Vacated(s, from, k), RegisterMsg(p.roomId, p.name, p.version), from, now, rnd, id);
    } else {
      RefusalMoves(s, resp, from, now, rnd, k, id);
    }
  }

  lemma RefusalMoves(s: RoomState, resp: AuthMsg, from: Addr, now: int, rnd: Random, k: Addr, id: Id)
    requires PendingAt(s, k) && !Accepted(s, resp, now, k) && id in s.store
    ensures Stays(s, AuthPending(s, resp, from, now, rnd, k).0, id)
  {
    RefusedIs(s, resp, from, now, rnd, k);
  }

  lemma VacatedMoves(s: RoomState, from: Addr, k: Addr, id: Id, v: Ip4)
    requires Admitted(s, id, v) && PendingAt(s, k)
    ensures Stays(s, Vacated(s, from, k), id) && Vacated(s, from, k).next == s.next
  {
  }

  lemma AdmitMoves(s: RoomState, reg: RegisterMsg, from: Addr, now: int, rnd: Random, id: Id)
    requires id in s.store && id < s.next
    ensures Stays(s, Admit(s, reg, from, now, rnd).0, id)
  {
  }

  lemma RelayMoves(s: RoomState, payload: Bytes, from: Addr, now: int, id: Id, v: Ip4)
    requires Inv(s) && Admitted(s, id, v) && s.clock <= now
    ensures var e := EvRelay(payload, from, now);
            var t := Step(s, e);
            Stays(s, t, id) || (StaysOr(s, t, id, v, from) && Holds(s, id, v) && MovedBy(s, e, v))
  {
    if Spoofed(s, payload, from) {
      SpoofedIsIgnored(s, payload, from, now);
    } else {
      HonestIsForwarded(s, payload, from, now);
      assert SeatOk(s, Ip4At(payload, 0));
    }
  }

  lemma RebindMoves(s: RoomState, w: Ip4, hmac: Bytes, from: Addr, now: int, id: Id, v: Ip4)
    requires Inv(s) && Admitted(s, id, v)
    ensures var e := EvRebind(w, hmac, from, now);
            var t := Step(s, e);
            Stays(s, t, id) || (StaysOr(s, t, id, v, from) && Holds(s, id, v) && MovedBy(s, e, v))
  {
    RebindIffEntitled(s, w, hmac, from, now);
    if w in s.clients { assert SeatOk(s, w); }
  }

  lemma OtherMoves(s: RoomState, e: Event, id: Id, v: Ip4)
    requires AddrOk(s) && Admitted(s, id, v) && (e.EvKeepAlive? || e.EvDisconnect? || e.EvStaleScan? || e.EvStaleSweep?)
    ensures Stays(s, Handle(s, e).0, id)
  {
    if e.EvStaleSweep? && s.scan.Some? {
      SweepMembersFrame(s.(scan := None), s.scan.value.members, e.now);
      SweepAuthsFrame(SweepMembers(s.(scan := None), s.scan.value.members, e.now), s.scan.value.auths);
    }
  }

  /** Main theorem, one step: an admitted client's address changes only under MovedBy, to where the packet came from. */
  lemma StepMoves(s: RoomState, e: Event, id: Id, v: Ip4)
    requires Inv(s) && Timely(s, e) && Admitted(s, id, v)
    ensures var t := Step(s, e);
            Stays(s, t, id) || (Holds(s, id, v) && MovedBy(s, e, v) && id in t.store && t.store[id].addr == Some(e.from))
  {
    var s0 := s.(clock := e.now);
    ClockKeeps(s, e.now);
    match e
    case EvRegister(reg, from, now, rateOk, rnd, pick) => RegisterMoves(s0, reg, from, now, rateOk, rnd, pick, id, v);
    case EvAuthResponse(resp, from, now, rnd, pick) => AuthMoves(s0, resp, from, now, rnd, pick, id, v);
    case EvRelay(payload, from, now) => RelayMoves(s, payload, from, now, id, v);
    case EvRebind(w, hmac, from, now) => RebindMoves(s, w, hmac, from, now, id, v);
    case _ => OtherMoves(s0, e, id, v);
  }

  /** Step `i` of a run moved object `id`, and was entitled to. */
  ghost predicate MovedAt(s: RoomState, es: seq<Event>, i: nat, id: Id, v: Ip4) {
    i < |es| && var u := Run(s, es[..i]); Holds(u, id, v) && id in u.store && MovedBy(u, es[i], v)
  }

  lemma MovedLater(s: RoomState, es: seq<Event>, i: nat, id: Id, v: Ip4)
    requires es != [] && MovedAt(Step(s, es[0]), es[1..], i, id, v)
    ensures MovedAt(s, es, i + 1, id, v)
  {
    assert es[..i + 1][1..] == es[1..][..i];
  }

  /** Main theorem, whole runs: if a client's address differs at the end, some step of the run was entitled to move it. */
  lemma {:induction false} RunMoves(s: RoomState, es: seq<Event>, id: Id, v: Ip4)
    requires Inv(s) && TimelyRun(s, es) && Admitted(s, id, v)
    ensures Stays(s, Run(s, es), id) || exists i: nat :: MovedAt(s, es, i, id, v)
    decreases |es|
  {
    if es != [] {
      var t := Step(s, es[0]);
      StepMoves(s, es[0], id, v);
      StepKeeps(s, es[0]);
      StepDescends(s, es[0]);
      assert ObjectKept(s.store[id], t.store[id]);
      RunMoves(t, es[1..], id, v);
      if !Stays(s, t, id) {
        assert es[..0] == [];
        assert MovedAt(s, es, 0, id, v);
      } else if i: nat :| MovedAt(t, es[1..], i, id, v) {
        MovedLater(s, es, i, id, v);
      }
    }
  }
}
