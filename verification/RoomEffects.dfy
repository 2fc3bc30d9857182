/**
 What each packet does to a room and what the room answers, on the values of the
 packet and the room alone: nothing here is said through the handlers' own guards.
 */
module RoomEffects {
  import opened Base
  import opened DataFormat
  import opened RoomModel
  import opened RoomInvariant
  import opened RoomHistory
  import opened RoomTheorems

  // ── Session tokens and destinations, on bytes ──────────────────

  predicate Flagged(b: byte) { b / 2 % 2 == 1 }

  /** A payload that carries a token carries this one: after the format version and flags, or, in the
      old format, after the flags. */
  predicate BearsOnly(payload: Bytes, token: Bytes) {
    && |payload| > 8
    && (payload[8] == 1 && |payload| > 9 && Flagged(payload[9]) ==> |payload| >= 26 && payload[10..26] == token)
    && (payload[8] != 1 && Flagged(payload[8]) ==> |payload| >= 25 && payload[9..25] == token)
  }

  /** Clients from version 1.7 on that were given a token are held to it. */
  predicate TokenFits(c: Client, payload: Bytes) {
    c.version >= 0x0107 && c.token != [0, 0, 0, 0, 0, 0, 0, 0, 0, 0, 0, 0, 0, 0, 0, 0] ==> BearsOnly(payload, c.token)
  }

  lemma TokenOnBytes(c: Client, payload: Bytes)
    ensures TokenAccepted(c, payload) <==> TokenFits(c, payload)
  {
  }

  /** Addresses that everyone in the room hears. */
  predicate ToAll(dst: Ip4, net: Net24) {
    || dst == Ip4(255, 255, 255, 255)
    || (dst.a == net.a && dst.b == net.b && dst.c == net.c && dst.d == 255)
    || 224 <= dst.a <= 239
  }

  /** Everyone else who has an address, or the holder of the destination if it has one. */
  ghost function Hearers(s: RoomState, src: Ip4, dst: Ip4): set<Ip4> {
    set w | w in s.clients && s.clients[w] in s.store && s.store[s.clients[w]].addr.Some? && (if ToAll(dst, s.cfg.net) then w != src else w == dst)
  }

  /** Member `v` now answers at `k`, and nowhere else. */
  ghost predicate MovedTo(s: RoomState, t: RoomState, v: Ip4, k: Addr, now: int)
    requires v in s.clients && s.clients[v] in s.store
  {
    var id := s.clients[v];
    var c := s.store[id];
    && t == s.(store := t.store, addrMap := t.addrMap, conns := t.conns, clock := now)
    && t.store == s.store[id := c.(addr := Some(k), lastSeen := now)]
    && t.addrMap == (if c.addr.Some? then s.addrMap - {c.addr.value} else s.addrMap)[k := id]
  }

  // ── Relay ──────────────────────────────────────────────────────

  /** The packet claims no seated client, or lacks its token, or comes from another client's address. */
  ghost predicate Spoofed(s: RoomState, payload: Bytes, from: Addr) {
    || |payload| < 8
    || Ip4At(payload, 0) !in s.clients
    || s.clients[Ip4At(payload, 0)] !in s.store
    || !TokenFits(s.store[s.clients[Ip4At(payload, 0)]], payload)
    || (from in s.addrMap && s.addrMap[from] != s.clients[Ip4At(payload, 0)])
  }

  /** A spoofed packet is neither answered nor does it change anything. */
  lemma SpoofedIsIgnored(s: RoomState, payload: Bytes, from: Addr, now: int)
    requires Inv(s) && Spoofed(s, payload, from)
    ensures Step(s, EvRelay(payload, from, now)) == s.(clock := now) && Answer(s, EvRelay(payload, from, now)) == Silent
  {
    if |payload| >= 8 {
      var src := Ip4At(payload, 0);
      if src in s.clients {
        assert SeatOk(s, src);
        TokenOnBytes(s.store[s.clients[src]], payload);
      }
      if from in s.addrMap { assert EntryOk(s, from); }
    }
  }

  lemma TargetsAreHearers(s: RoomState, src: Ip4, dst: Ip4)
    requires SeatsOk(s) && src in s.clients
    ensures Targets(s, s.clients[src], dst) == Hearers(s, src, dst)
  {
    OthersBySeat(s, src);
  }

  /** Any other packet is heard by exactly its hearers; from a new address it also moves its sender there. */
  lemma HonestIsForwarded(s: RoomState, payload: Bytes, from: Addr, now: int)
    requires Inv(s) && !Spoofed(s, payload, from)
    ensures var e := EvRelay(payload, from, now);
            var src := Ip4At(payload, 0);
            var t := Step(s, e);
            var to := Hearers(t, src, Ip4At(payload, 4));
            && (if from in s.addrMap then t == s.(clock := now) else MovedTo(s, t, src, from, now) && t.conns == s.conns)
            && Answer(s, e) == if to == {} then Silent else Forward(src, to, payload)
  {
    if from in s.addrMap { KnownIsForwarded(s, payload, from, now); } else { NewcomerIsMoved(s, payload, from, now); }
  }

  lemma KnownIsForwarded(s: RoomState, payload: Bytes, from: Addr, now: int)
    requires Inv(s) && !Spoofed(s, payload, from) && from in s.addrMap
    ensures var e := EvRelay(payload, from, now);
            var to := Hearers(s, Ip4At(payload, 0), Ip4At(payload, 4));
            Step(s, e) == s.(clock := now) && Answer(s, e) == if to == {} then Silent else Forward(Ip4At(payload, 0), to, payload)
  {
    var src := Ip4At(payload, 0);
    assert SeatOk(s, src);
    TokenOnBytes(s.store[s.clients[src]], payload);
    TargetsAreHearers(s.(clock := now), src, Ip4At(payload, 4));
  }

  lemma MovedSeats(s: RoomState, id: Id, from: Addr, now: int)
    requires SeatsOk(s) && UsedOk(s) && id in s.store
    ensures SeatsOk(MoveTo(s.(clock := now), id, from, now))
  {
    assert forall w :: w in s.clients ==> SeatOk(s, w);
    MoveSeats(s, id, from, now);
    assert forall w :: w in s.clients ==> SeatOk(MoveTo(s, id, from, now), w);
  }

  lemma MoveShows(s: RoomState, v: Ip4, from: Addr, now: int)
    requires SeatsOk(s) && v in s.clients && s.clients[v] in s.store
    ensures var t := MoveTo(s.(clock := now), s.clients[v], from, now); MovedTo(s, t, v, from, now) && t.conns == s.conns
  {
  }

  /** The token is asked for again once the sender has moved. */
  lemma NewcomerIsJudged(s: RoomState, payload: Bytes, from: Addr, now: int)
    requires SeatsOk(s) && !Spoofed(s, payload, from) && from !in s.addrMap
    ensures var e := EvRelay(payload, from, now);
            var src := Ip4At(payload, 0);
            var t := MoveTo(s.(clock := now), s.clients[src], from, now);
            var to := Targets(t, s.clients[src], Ip4At(payload, 4));
            Step(s, e) == t && Answer(s, e) == if to == {} then Silent else Forward(src, to, payload)
  {
    var src := Ip4At(payload, 0);
    assert SeatOk(s, src);
    TokenOnBytes(s.store[s.clients[src]], payload);
    TokenOnBytes(MoveTo(s.(clock := now), s.clients[src], from, now).store[s.clients[src]], payload);
  }

  lemma NewcomerIsMoved(s: RoomState, payload: Bytes, from: Addr, now: int)
    requires Inv(s) && !Spoofed(s, payload, from) && from !in s.addrMap
    ensures var e := EvRelay(payload, from, now);
            var src := Ip4At(payload, 0);
            var t := Step(s, e);
            var to := Hearers(t, src, Ip4At(payload, 4));
            && MovedTo(s, t, src, from, now) && t.conns == s.conns
            && Answer(s, e) == if to == {} then Silent else Forward(src, to, payload)
  {
    var src := Ip4At(payload, 0);
    NewcomerIsJudged(s, payload, from, now);
    MoveShows(s, src, from, now);
    MovedSeats(s, s.clients[src], from, now);
    TargetsAreHearers(MoveTo(s.(clock := now), s.clients[src], from, now), src, Ip4At(payload, 4));
  }

  // ── Rebind ─────────────────────────────────────────────────────

  /** The member's HMAC over its own virtual IP; without a password, seen within the last 30 s. */
  ghost predicate Entitles(s: RoomState, v: Ip4, hmac: Bytes, now: int) {
    && v in s.clients && s.clients[v] in s.store
    && var c := s.store[s.clients[v]];
       && (s.cfg.password != [] ==> hmac != [] && hmac == s.cfg.mac(c.roomId, [], c.roomId, c.name, Addr(MappedIp(v), 0)))
       && (s.cfg.password == [] ==> now - c.lastSeen <= 30 * SECOND)
  }

  /** A rebind is granted, and moves the member to the sender's address, exactly when it is entitled to. */
  lemma RebindIffEntitled(s: RoomState, v: Ip4, hmac: Bytes, from: Addr, now: int)
    requires Inv(s)
    ensures var e := EvRebind(v, hmac, from, now);
            var t := Step(s, e);
            && (Answer(s, e) == RebindAck(true) <==> Entitles(s, v, hmac, now))
            && (Answer(s, e) == RebindAck(true) ==> MovedTo(s, t, v, from, now) && t.conns == s.conns
                                                    && from in t.addrMap && t.addrMap[from] == s.clients[v])
            && (Answer(s, e) != RebindAck(true) ==> Answer(s, e) == RebindAck(false) && t == s.(clock := now))
  {
    if v in s.clients { assert SeatOk(s, v); }
  }

  /** The address `k` is mapped to the member at `v`. */
  predicate MappedTo(s: RoomState, k: Addr, v: Ip4) { v in s.clients && k in s.addrMap && s.addrMap[k] == s.clients[v] }

  /** The grant can be read off the address map exactly unless a member asks in vain from its own address:
      refused, it stays mapped there. */
  lemma RebindReadOff(s: RoomState, v: Ip4, hmac: Bytes, from: Addr, now: int)
    requires Inv(s)
    ensures var e := EvRebind(v, hmac, from, now);
            (Answer(s, e) == RebindAck(true) <==> MappedTo(Step(s, e), from, v))
            <==> Entitles(s, v, hmac, now) || !MappedTo(s, from, v)
  {
    RebindIffEntitled(s, v, hmac, from, now);
  }

  // ── Keepalive and disconnect ───────────────────────────────────

  /** A keepalive refreshes its sender's time and nothing else. */
  lemma KeepAliveRefreshes(s: RoomState, from: Addr, now: int)
    requires Inv(s)
    ensures var t := Step(s, EvKeepAlive(from, now));
            if from in s.addrMap
            then s.addrMap[from] in s.store
                 && t == s.(clock := now, store := s.store[s.addrMap[from] := s.store[s.addrMap[from]].(lastSeen := now)])
            else t == s.(clock := now)
  {
    if from in s.addrMap { assert EntryOk(s, from); }
  }

  /** One connection less from `ip`, if any were counted, and no other count touched. */
  ghost predicate OneLess(s: RoomState, t: RoomState, ip: nat) {
    forall j: nat :: ConnsOf(t, j) == ConnsOf(s, j) - if j == ip && ConnsOf(s, j) > 0 then 1 else 0
  }

  /** Entry, seat, octet and connection of a departing member all go. */
  lemma DisconnectFreesSeat(s: RoomState, v: Ip4, from: Addr, now: int)
    requires Inv(s) && v in s.clients && from in s.addrMap && s.addrMap[from] == s.clients[v]
    ensures var t := Step(s, EvDisconnect(from, now));
            && t.clients == s.clients - {v} && t.addrMap == s.addrMap - {from} && t.used == s.used - {v.d}
            && OneLess(s, t, from.ip)
            && t == s.(clients := t.clients, addrMap := t.addrMap, used := t.used, conns := t.conns, clock := now)
  {
    assert EntryOk(s, from) && SeatOk(s, v);
  }

  /** A pending client's entry, count and connection go. */
  lemma DisconnectForgetsPending(s: RoomState, from: Addr, now: int)
    requires Inv(s) && from in s.addrMap && s.store[s.addrMap[from]].auth == ChallengeSent
    ensures var t := Step(s, EvDisconnect(from, now));
            && t.addrMap == s.addrMap - {from} && t.pending == (if s.pending > 0 then s.pending - 1 else 0)
            && OneLess(s, t, from.ip)
            && t == s.(addrMap := t.addrMap, pending := t.pending, conns := t.conns, clock := now)
  {
    assert EntryOk(s, from);
  }

  lemma DisconnectOfStranger(s: RoomState, from: Addr, now: int)
    requires Inv(s) && from !in s.addrMap
    ensures Step(s, EvDisconnect(from, now)) == s.(clock := now)
  {
  }

  // ── Registration ───────────────────────────────────────────────

  /** Version 0 or 1.x up to 1.16, names of 1 to 32 characters, and within the rate. */
  predicate WellFormed(reg: RegisterMsg, rateOk: bool) {
    && (reg.version == 0 || 0x0100 <= reg.version <= 0x0110)
    && 1 <= |reg.name| <= 32 && 1 <= |reg.roomId| <= 32 && rateOk
  }

  lemma MalformedIsRefused(s: RoomState, reg: RegisterMsg, from: Addr, now: int, rateOk: bool, rnd: Random, pick: Ip4)
    requires !WellFormed(reg, rateOk)
    ensures var e := EvRegister(reg, from, now, rateOk, rnd, pick);
            Answer(s, e).Kick? && Step(s, e) == s.(clock := now)
  {
    PassesIffWellFormed(reg, rateOk);
  }

  lemma PassesIffWellFormed(reg: RegisterMsg, rateOk: bool)
    ensures RegisterError(reg, rateOk).None? <==> WellFormed(reg, rateOk)
  {
  }

  lemma WellFormedPasses(reg: RegisterMsg)
    requires WellFormed(reg, true)
    ensures RegisterError(reg, true).None?
  {
    PassesIffWellFormed(reg, true);
  }

  /** A pending client that registers again gives up its challenge first. */
  lemma ReRegisterDisconnectsFirst(s: RoomState, reg: RegisterMsg, from: Addr, now: int, rnd: Random, pick: Ip4)
    requires Inv(s) && s.clock <= now && WellFormed(reg, true) && from in s.addrMap && s.store[s.addrMap[from]].auth == ChallengeSent
    ensures var e := EvRegister(reg, from, now, true, rnd, pick);
            var u := Step(s, EvDisconnect(from, now));
            from !in u.addrMap && Step(s, e) == Step(u, e) && Answer(s, e) == Answer(u, e)
  {
    WellFormedPasses(reg);
    assert EntryOk(s, from);
    var u := Step(s, EvDisconnect(from, now));
    assert u == Forget(s.(clock := now), from, s.store[s.addrMap[from]]);
    assert u.(clock := now) == u;
  }

  /** A member that registers again keeps its seat; its time and version are renewed. */
  lemma MemberReRegisters(s: RoomState, reg: RegisterMsg, v: Ip4, from: Addr, now: int, rnd: Random, pick: Ip4)
    requires Inv(s) && WellFormed(reg, true) && v in s.clients && from in s.addrMap && s.addrMap[from] == s.clients[v]
    ensures var e := EvRegister(reg, from, now, true, rnd, pick);
            var id := s.clients[v];
            && Answer(s, e) == Assigned(Some(v)) && id in s.store
            && Step(s, e) == s.(clock := now, store := s.store[id := s.store[id].(lastSeen := now, version := reg.version)])
  {
    WellFormedPasses(reg);
    assert SeatOk(s, v);
  }

  predicate NamedAs(s: RoomState, w: Ip4, reg: RegisterMsg) {
    w in s.clients && s.clients[w] in s.store && s.store[s.clients[w]].name == reg.name && s.store[s.clients[w]].roomId == reg.roomId
  }

  predicate WaitingAs(s: RoomState, w: Ip4, reg: RegisterMsg) { NamedAs(s, w, reg) && s.store[s.clients[w]].addr.None? }

  /** Nothing keeps a registration from an address that is not mapped from a new seat or a challenge. */
  ghost predicate MayJoin(s: RoomState, reg: RegisterMsg, from: Addr) {
    && from !in s.addrMap && ConnsOf(s, from.ip) < s.cfg.maxPerIP && |s.clients| < s.cfg.maxPlayers
    && forall w :: w in s.clients ==> !NamedAs(s, w, reg)
  }

  lemma TakenIffNamed(s: RoomState, reg: RegisterMsg)
    requires SeatsOk(s)
    ensures Taken(s, reg.name, reg.roomId) <==> exists w :: w in s.clients && NamedAs(s, w, reg)
    ensures Placeholders(s, reg.name, reg.roomId) == set w | w in s.clients && WaitingAs(s, w, reg)
  {
    forall w | w in s.clients ensures s.store[s.clients[w]].auth == AuthNone && s.clients[w] in s.store { assert SeatOk(s, w); }
    if exists w :: w in s.clients && NamedAs(s, w, reg) {
      var w :| w in s.clients && NamedAs(s, w, reg);
      assert Taken(s, reg.name, reg.roomId);
    }
  }

  lemma UnmappedRegisters(s: RoomState, reg: RegisterMsg, from: Addr, now: int, rnd: Random, pick: Ip4)
    requires WellFormed(reg, true) && from !in s.addrMap
    ensures var e := EvRegister(reg, from, now, true, rnd, pick);
            (Step(s, e), Answer(s, e)) == RegisterAt(s.(clock := now), reg, from, now, rnd, pick)
  {
    WellFormedPasses(reg);
  }

  /** Refusals change nothing: too many connections from the address, no place, or the name is taken. */
  lemma RegisterRefusals(s: RoomState, reg: RegisterMsg, from: Addr, now: int, rnd: Random, pick: Ip4)
    requires SeatsOk(s) && WellFormed(reg, true) && from !in s.addrMap
    requires ConnsOf(s, from.ip) < s.cfg.maxPerIP ==> forall w :: w in s.clients ==> !WaitingAs(s, w, reg)
    ensures var e := EvRegister(reg, from, now, true, rnd, pick);
            && (!MayJoin(s, reg, from) ==> Step(s, e) == s.(clock := now))
            && (ConnsOf(s, from.ip) >= s.cfg.maxPerIP ==> Answer(s, e) == Kick(IPLimit))
            && (ConnsOf(s, from.ip) < s.cfg.maxPerIP && |s.clients| >= s.cfg.maxPlayers ==> Answer(s, e) == Kick(RoomFull))
            && (ConnsOf(s, from.ip) < s.cfg.maxPerIP && |s.clients| < s.cfg.maxPlayers && !MayJoin(s, reg, from)
                ==> Answer(s, e) == Kick(DuplicateName))
  {
    var s0 := s.(clock := now);
    WellFormedPasses(reg);
    TakenIffNamed(s0, reg);
    assert forall w :: NamedAs(s0, w, reg) == NamedAs(s, w, reg);
    assert forall w :: WaitingAs(s0, w, reg) == WaitingAs(s, w, reg);
  }

  /** A restored player is moved from its waiting seat to its address, and counted. */
  lemma PlaceholderIsResumed(s: RoomState, reg: RegisterMsg, from: Addr, now: int, rnd: Random, pick: Ip4) returns (v: Ip4)
    requires SeatsOk(s) && WellFormed(reg, true) && from !in s.addrMap && ConnsOf(s, from.ip) < s.cfg.maxPerIP
    requires exists w :: w in s.clients && WaitingAs(s, w, reg)
    ensures var e := EvRegister(reg, from, now, true, rnd, pick);
            var t := Step(s, e);
            && WaitingAs(s, v, reg) && (pick in s.clients && WaitingAs(s, pick, reg) ==> v == pick)
            && Answer(s, e) == Assigned(Some(v)) && MovedTo(s, t, v, from, now) && t.conns == s.conns[from.ip := ConnsOf(s, from.ip) + 1]
  {
    var e := EvRegister(reg, from, now, true, rnd, pick);
    UnmappedRegisters(s, reg, from, now, rnd, pick);
    v := WaitingIsResumed(s, Step(s, e), Answer(s, e), reg, from, now, rnd, pick);
  }

  lemma WaitingIsResumed(s: RoomState, t: RoomState, r: Reply, reg: RegisterMsg, from: Addr, now: int, rnd: Random, pick: Ip4) returns (v: Ip4)
    requires SeatsOk(s) && ConnsOf(s, from.ip) < s.cfg.maxPerIP && exists w :: w in s.clients && WaitingAs(s, w, reg)
    requires (t, r) == RegisterAt(s.(clock := now), reg, from, now, rnd, pick)
    ensures WaitingAs(s, v, reg) && (pick in s.clients && WaitingAs(s, pick, reg) ==> v == pick)
    ensures r == Assigned(Some(v)) && MovedTo(s, t, v, from, now) && t.conns == s.conns[from.ip := ConnsOf(s, from.ip) + 1]
  {
    TakenIffNamed(s, reg);
    SameNames(s, now, reg.name, reg.roomId);
    var w :| w in s.clients && WaitingAs(s, w, reg);
    assert w in Placeholders(s, reg.name, reg.roomId);
    v := Choose(Placeholders(s, reg.name, reg.roomId), pick);
    assert SeatOk(s, v);
  }

  /** A new member: object `s.next`, seated at `v` and mapped at `from`, with what it registered and the drawn token. */
  ghost predicate Entered(s: RoomState, t: RoomState, v: Ip4, name: string, roomId: Bytes, version: nat, from: Addr, now: int, token: Bytes) {
    && t.store == s.store[s.next := Client(name, roomId, version, Some(v), Some(from), now, token, AuthNone, [], 0)]
    && t.next == s.next + 1 && t.clients == s.clients[v := s.next] && t.addrMap == s.addrMap[from := s.next] && t.used == s.used + {v.d}
  }

  /** The least octet from 2 to 254 that is free. */
  predicate LeastFree(used: set<int>, o: int) { 2 <= o <= 254 && o !in used && forall p :: 2 <= p < o ==> p in used }

  lemma FirstIsLeast(used: set<int>)
    ensures FirstFree(used, 2).Some? ==> LeastFree(used, FirstFree(used, 2).value)
    ensures FirstFree(used, 2).None? ==> forall o :: !LeastFree(used, o)
  {
  }

  lemma AdmitEnters(s: RoomState, reg: RegisterMsg, from: Addr, now: int, rnd: Random)
    ensures var (t, r) := Admit(s, reg, from, now, rnd);
            && (forall o :: LeastFree(s.used, o) && rnd.token.Some? ==>
                  var v := HostIn(s.cfg.net, o);
                  && r == Some(v) && Entered(s, t, v, reg.name, reg.roomId, reg.version, from, now, rnd.token.value)
                  && t == s.(store := t.store, next := t.next, clients := t.clients, addrMap := t.addrMap, used := t.used))
            && ((forall o :: !LeastFree(s.used, o)) || rnd.token.None? ==> r == None && t == s)
  {
    FirstIsLeast(s.used);
  }

  lemma OpenRegisterAdmits(s: RoomState, reg: RegisterMsg, from: Addr, now: int, rnd: Random, pick: Ip4)
    requires SeatsOk(s) && WellFormed(reg, true) && MayJoin(s, reg, from) && s.cfg.password == []
    ensures var e := EvRegister(reg, from, now, true, rnd, pick);
            var (t, r) := Admit(AddConn(s.(clock := now), from.ip), reg, from, now, rnd);
            Step(s, e) == t && Answer(s, e) == if r.Some? then Assigned(r) else Kick(IPExhausted)
  {
    var s0 := s.(clock := now);
    WellFormedPasses(reg);
    NoneNamed(s0, reg) by { assert forall w :: NamedAs(s0, w, reg) == NamedAs(s, w, reg); }
  }

  /** An open room seats whoever may join at the least free IP, when there is one and a token can be drawn. */
  lemma OpenRoomSeats(s: RoomState, reg: RegisterMsg, from: Addr, now: int, rnd: Random, pick: Ip4)
    requires SeatsOk(s) && WellFormed(reg, true) && MayJoin(s, reg, from) && s.cfg.password == []
    ensures var e := EvRegister(reg, from, now, true, rnd, pick);
            var t := Step(s, e);
            && t.conns == s.conns[from.ip := ConnsOf(s, from.ip) + 1] && t.pending == s.pending
            && (forall o :: LeastFree(s.used, o) && rnd.token.Some? ==>
                  var v := HostIn(s.cfg.net, o);
                  Answer(s, e) == Assigned(Some(v)) && Entered(s, t, v, reg.name, reg.roomId, reg.version, from, now, rnd.token.value))
            && ((forall o :: !LeastFree(s.used, o)) || rnd.token.None? ==>
                  Answer(s, e) == Kick(IPExhausted) && t == s.(clock := now, conns := t.conns))
  {
    OpenRegisterAdmits(s, reg, from, now, rnd, pick);
    AdmitEnters(AddConn(s.(clock := now), from.ip), reg, from, now, rnd);
    FirstIsLeast(s.used);
  }

  lemma NoneNamed(s: RoomState, reg: RegisterMsg)
    requires SeatsOk(s) && forall w :: w in s.clients ==> !NamedAs(s, w, reg)
    ensures Placeholders(s, reg.name, reg.roomId) == {} && !Taken(s, reg.name, reg.roomId)
  {
    TakenIffNamed(s, reg);
  }

  /** Too many pending clients, no challenge drawn, or a pending client at `from` that was sent the challenge drawn. */
  ghost predicate ChallengeOutcome(s: RoomState, t: RoomState, r: Reply, reg: RegisterMsg, from: Addr, now: int, drawn: Option<Bytes>) {
    if s.pending >= 512 || s.pending >= 3 * s.cfg.maxPlayers then r == Kick(ServerBusy) && t == s.(clock := now)
    else if drawn.None? then r == Kick(InternalError) && t == s.(clock := now)
    else
      var c := Client(reg.name, reg.roomId, reg.version, None, Some(from), now, ZERO_TOKEN, ChallengeSent, drawn.value, now);
      && r == Challenged(drawn.value)
      && t == s.(clock := now, store := s.store[s.next := c], next := s.next + 1, addrMap := s.addrMap[from := s.next],
                 pending := s.pending + 1, conns := s.conns[from.ip := ConnsOf(s, from.ip) + 1])
  }

  /** A room with a password challenges whoever may join, unless too many are pending or no challenge can be drawn. */
  lemma PasswordRoomChallenges(s: RoomState, reg: RegisterMsg, from: Addr, now: int, rnd: Random, pick: Ip4)
    requires SeatsOk(s) && WellFormed(reg, true) && MayJoin(s, reg, from) && s.cfg.password != []
    ensures var e := EvRegister(reg, from, now, true, rnd, pick);
            ChallengeOutcome(s, Step(s, e), Answer(s, e), reg, from, now, rnd.challenge)
  {
    var e := EvRegister(reg, from, now, true, rnd, pick);
    UnmappedRegisters(s, reg, from, now, rnd, pick);
    PasswordAt(s, Step(s, e), Answer(s, e), reg, from, now, rnd, pick);
  }

  lemma PasswordAt(s: RoomState, t: RoomState, r: Reply, reg: RegisterMsg, from: Addr, now: int, rnd: Random, pick: Ip4)
    requires SeatsOk(s) && MayJoin(s, reg, from) && s.cfg.password != []
    requires (t, r) == RegisterAt(s.(clock := now), reg, from, now, rnd, pick)
    ensures ChallengeOutcome(s, t, r, reg, from, now, rnd.challenge)
  {
    NoneNamed(s, reg);
    SameNames(s, now, reg.name, reg.roomId);
  }

  lemma SameNames(s: RoomState, now: int, name: string, roomId: Bytes)
    ensures var u := s.(clock := now); Placeholders(u, name, roomId) == Placeholders(s, name, roomId) && Taken(u, name, roomId) == Taken(s, name, roomId)
  {
  }
}
