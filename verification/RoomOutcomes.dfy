/**
 What an auth response does to a room, and what a seat just given is worth, on the
 values of packets and room alone.
 */
module RoomOutcomes {
  import opened Base
  import opened RoomModel
  import opened RoomInvariant
  import opened RoomHistory
  import opened RoomTheorems
  import opened RoomEffects

  // ── Auth responses ─────────────────────────────────────────────

  /** An open challenge at `k`. */
  predicate OpenAt(s: RoomState, k: Addr) { k in s.addrMap && s.addrMap[k] in s.store && s.store[s.addrMap[k]].auth == ChallengeSent }

  /** An open challenge at `k` under the response's names. */
  predicate WaitingUnder(s: RoomState, k: Addr, resp: AuthMsg) {
    OpenAt(s, k) && s.store[s.addrMap[k]].name == resp.name && s.store[s.addrMap[k]].roomId == resp.roomId
  }

  /** The challenge a response answers: its sender's own, else one under its names. */
  predicate Answers(s: RoomState, resp: AuthMsg, from: Addr, k: Addr) {
    if OpenAt(s, from) then k == from else WaitingUnder(s, k, resp)
  }

  /** In time, in a room with a password, and with the right HMAC over challenge, names and the address challenged. */
  ghost predicate Correct(s: RoomState, resp: AuthMsg, k: Addr, now: int)
    requires OpenAt(s, k)
  {
    var c := s.store[s.addrMap[k]];
    && now - c.challengeAt <= 15 * SECOND && s.cfg.password != []
    && resp.hmac == s.cfg.mac(c.roomId, c.challenge, resp.roomId, resp.name, k)
  }

  /** An HMAC of the wrong length is not looked at. */
  lemma MisshapenIsIgnored(s: RoomState, resp: AuthMsg, from: Addr, now: int, rnd: Random, pick: Addr)
    requires |resp.hmac| != 32
    ensures var e := EvAuthResponse(resp, from, now, rnd, pick);
            Step(s, e) == s.(clock := now) && Answer(s, e) == Silent
  {
  }

  /** Without a challenge to answer, an entry at the sender's own address is dropped with its connection. */
  lemma UnaskedAnswer(s: RoomState, resp: AuthMsg, from: Addr, now: int, rnd: Random, pick: Addr)
    requires Inv(s) && |resp.hmac| == 32 && !OpenAt(s, from) && forall k :: k in s.addrMap ==> !WaitingUnder(s, k, resp)
    ensures var e := EvAuthResponse(resp, from, now, rnd, pick);
            var t := Step(s, e);
            && Answer(s, e) == Kick(AuthAbnormal)
            && (from !in s.addrMap ==> t == s.(clock := now))
            && (from in s.addrMap ==> Dropped(s, t, from, now))
  {
    var s0 := s.(clock := now);
    assert PendingNamed(s0, resp.name, resp.roomId) == {} by {
      assert forall k :: k in s.addrMap ==> !WaitingUnder(s, k, resp);
    }
    if from in s.addrMap { assert EntryOk(s, from); }
  }

  /** The entry at `k` is gone, with one pending client and one connection less, and nothing else. */
  ghost predicate Dropped(s: RoomState, t: RoomState, k: Addr, now: int) {
    && t.addrMap == s.addrMap - {k} && t.pending == (if s.pending > 0 then s.pending - 1 else 0) && OneLess(s, t, k.ip)
    && t == s.(addrMap := t.addrMap, pending := t.pending, conns := t.conns, clock := now)
  }

  predicate Asked(s: RoomState, resp: AuthMsg, from: Addr) { OpenAt(s, from) || exists j :: j in s.addrMap && WaitingUnder(s, j, resp) }

  /** A well-shaped response with a challenge to answer is judged at that challenge. */
  lemma AnsweredIsPending(s: RoomState, resp: AuthMsg, from: Addr, now: int, rnd: Random, pick: Addr) returns (k: Addr)
    requires AddrOk(s) && |resp.hmac| == 32 && Asked(s, resp, from)
    ensures Answers(s, resp, from, k) && OpenAt(s, k) && s.store[s.addrMap[k]].addr == Some(k)
    ensures !OpenAt(s, from) && WaitingUnder(s, pick, resp) ==> k == pick
    ensures var e := EvAuthResponse(resp, from, now, rnd, pick);
            var s0 := s.(clock := now);
            (Step(s, e), Answer(s, e)) == AuthPending(s0, resp, from, now, rnd, k)
  {
    var s0 := s.(clock := now);
    if !OpenAt(s, from) {
      var j :| j in s.addrMap && WaitingUnder(s, j, resp);
      assert j in PendingNamed(s0, resp.name, resp.roomId);
    }
    k := PendingFor(s0, resp, from, pick).value;
    assert EntryOk(s, k);
  }

  lemma WrongPending(s: RoomState, resp: AuthMsg, from: Addr, now: int, rnd: Random, k: Addr)
    requires OpenAt(s, k) && s.store[s.addrMap[k]].addr == Some(k) && !Correct(s, resp, k, now)
    ensures var (t, r) := AuthPending(s, resp, from, now, rnd, k);
            r.Kick? && Dropped(s, t, k, s.clock)
  {
  }

  /** A wrong or late answer ends its challenge. */
  lemma WrongAnswerIsForgotten(s: RoomState, resp: AuthMsg, from: Addr, now: int, rnd: Random, pick: Addr) returns (k: Addr)
    requires AddrOk(s) && |resp.hmac| == 32 && Asked(s, resp, from)
    ensures Answers(s, resp, from, k) && OpenAt(s, k)
    ensures var e := EvAuthResponse(resp, from, now, rnd, pick);
            !Correct(s, resp, k, now) ==> Answer(s, e).Kick? && Dropped(s, Step(s, e), k, now)
  {
    k := AnsweredIsPending(s, resp, from, now, rnd, pick);
    if !Correct(s, resp, k, now) { WrongPending(s.(clock := now), resp, from, now, rnd, k); }
  }

  /** No place, or a member already has the response's names. */
  ghost predicate TooLate(s: RoomState, resp: AuthMsg) {
    |s.clients| >= s.cfg.maxPlayers || exists w :: w in s.clients && NamedAs(s, w, RegisterMsg(resp.roomId, resp.name, 0))
  }

  lemma TooLateIff(s: RoomState, resp: AuthMsg, now: int)
    requires SeatsOk(s)
    ensures TooLate(s, resp) <==> |s.clients| >= s.cfg.maxPlayers || Taken(s.(clock := now), resp.name, resp.roomId)
  {
    var reg := RegisterMsg(resp.roomId, resp.name, 0);
    TakenIffNamed(s, reg);
    assert Taken(s.(clock := now), resp.name, resp.roomId) == Taken(s, resp.name, resp.roomId);
  }

  lemma LatePending(s: RoomState, resp: AuthMsg, from: Addr, now: int, rnd: Random, k: Addr)
    requires OpenAt(s, k) && s.store[s.addrMap[k]].addr == Some(k) && Correct(s, resp, k, now)
    requires |s.clients| >= s.cfg.maxPlayers || Taken(s, resp.name, resp.roomId)
    ensures var (t, r) := AuthPending(s, resp, from, now, rnd, k);
            && r == Kick(if |s.clients| >= s.cfg.maxPlayers then RoomFull else DuplicateName)
            && OneLess(s, t, k.ip) && t == s.(conns := t.conns)
  {
  }

  /** A right answer in a full room, or under a member's names, loses its connection from the count and
      nothing else: the challenge stays open. */
  lemma LateRefusal(s: RoomState, resp: AuthMsg, from: Addr, now: int, rnd: Random, pick: Addr) returns (k: Addr)
    requires AddrOk(s) && SeatsOk(s) && |resp.hmac| == 32 && Asked(s, resp, from) && TooLate(s, resp)
    ensures Answers(s, resp, from, k) && OpenAt(s, k)
    ensures var e := EvAuthResponse(resp, from, now, rnd, pick);
            var t := Step(s, e);
            Correct(s, resp, k, now) ==>
              && Answer(s, e) == Kick(if |s.clients| >= s.cfg.maxPlayers then RoomFull else DuplicateName)
              && OneLess(s, t, k.ip) && t == s.(conns := t.conns, clock := now)
  {
    k := AnsweredIsPending(s, resp, from, now, rnd, pick);
    TooLateIff(s, resp, now);
    if Correct(s, resp, k, now) { LatePending(s.(clock := now), resp, from, now, rnd, k); }
  }

  /** The challenge at `k` has become a member at octet `o`, with what was registered, mapped at `from`;
      the pending entry and its count are gone. */
  predicate SeatedFor(s: RoomState, t: RoomState, k: Addr, from: Addr, now: int, o: byte, token: Bytes)
    requires OpenAt(s, k)
  {
    var p := s.store[s.addrMap[k]];
    var v := HostIn(s.cfg.net, o);
    && t.clients == s.clients[v := s.next] && t.used == s.used + {o as int} && t.conns == s.conns
    && t.addrMap == (s.addrMap - {k})[from := s.next] && t.pending == (if s.pending > 0 then s.pending - 1 else 0)
    && s.next in t.store
    && t.store[s.next] == Client(p.name, p.roomId, p.version, Some(v), Some(from), now, token, AuthNone, [], 0)
  }

  lemma PendingIsSeated(s: RoomState, resp: AuthMsg, from: Addr, now: int, rnd: Random, k: Addr, o: byte)
    requires OpenAt(s, k) && s.store[s.addrMap[k]].addr == Some(k)
    requires Correct(s, resp, k, now) && |s.clients| < s.cfg.maxPlayers && !Taken(s, resp.name, resp.roomId)
    requires LeastFree(s.used, o) && rnd.token.Some?
    ensures var (t, r) := AuthPending(s, resp, from, now, rnd, k);
            r == Assigned(Some(HostIn(s.cfg.net, o))) && SeatedFor(s, t, k, from, now, o, rnd.token.value)
  {
    AnswerAdmits(s, resp, from, now, rnd, k, o);
    var q := Vacated(s, from, k);
    assert q.addrMap[from := s.next] == (s.addrMap - {k})[from := s.next];
  }

  /** A right answer with a place free is seated. */
  lemma RightAnswerEnters(s: RoomState, resp: AuthMsg, from: Addr, now: int, rnd: Random, pick: Addr, o: byte) returns (k: Addr)
    requires AddrOk(s) && SeatsOk(s) && |resp.hmac| == 32 && Asked(s, resp, from) && !TooLate(s, resp)
    requires LeastFree(s.used, o) && rnd.token.Some?
    ensures Answers(s, resp, from, k) && OpenAt(s, k)
    ensures var e := EvAuthResponse(resp, from, now, rnd, pick);
            Correct(s, resp, k, now) ==>
              Answer(s, e) == Assigned(Some(HostIn(s.cfg.net, o))) && SeatedFor(s, Step(s, e), k, from, now, o, rnd.token.value)
  {
    k := AnsweredIsPending(s, resp, from, now, rnd, pick);
    TooLateIff(s, resp, now);
    if Correct(s, resp, k, now) { PendingIsSeated(s.(clock := now), resp, from, now, rnd, k, o); }
  }

  lemma AnswerAdmits(s: RoomState, resp: AuthMsg, from: Addr, now: int, rnd: Random, k: Addr, o: byte)
    requires OpenAt(s, k) && s.store[s.addrMap[k]].addr == Some(k)
    requires Correct(s, resp, k, now) && |s.clients| < s.cfg.maxPlayers && !Taken(s, resp.name, resp.roomId)
    requires LeastFree(s.used, o) && rnd.token.Some?
    ensures var p := s.store[s.addrMap[k]];
            var q := Vacated(s, from, k);
            var v := HostIn(s.cfg.net, o);
            var (t, r) := AuthPending(s, resp, from, now, rnd, k);
            && r == Assigned(Some(v)) && Entered(q, t, v, p.name, p.roomId, p.version, from, now, rnd.token.value)
            && t == q.(store := t.store, next := t.next, clients := t.clients, addrMap := t.addrMap, used := t.used)
            && q.used == s.used && q.next == s.next && q.clients == s.clients && q.conns == s.conns && q.cfg == s.cfg
            && q.pending == (if s.pending > 0 then s.pending - 1 else 0)
            && q.addrMap == (if k == from then s.addrMap - {k} else (s.addrMap - {k})[from := s.addrMap[k]])
  {
    var p := s.store[s.addrMap[k]];
    AdmitEnters(Vacated(s, from, k), RegisterMsg(p.roomId, p.name, p.version), from, now, rnd);
  }

  // ── A seat just given ──────────────────────────────────────────

  /** Whoever is assigned an IP holds it, is mapped where it spoke from, and was seen just then. */
  lemma AssignedIsCurrent(s: RoomState, e: Event, v: Ip4)
    requires Inv(s) && Timely(s, e) && (e.EvRegister? || e.EvAuthResponse?) && Answer(s, e) == Assigned(Some(v))
    ensures var t := Step(s, e);
            && v in t.clients && t.clients[v] in t.store && t.store[t.clients[v]].lastSeen == e.now
            && t.store[t.clients[v]].addr == Some(e.from) && e.from in t.addrMap && t.addrMap[e.from] == t.clients[v]
  {
    var s0 := s.(clock := e.now);
    ClockKeeps(s, e.now);
    if e.EvRegister? {
      RegisterCurrent(s0, e.reg, e.from, e.now, e.rateOk, e.rnd, e.pickVip, v);
    } else {
      AuthCurrent(s0, e.resp, e.from, e.now, e.rnd, e.pickAddr, v);
    }
  }

  ghost predicate Current(t: RoomState, v: Ip4, from: Addr, now: int) {
    && v in t.clients && t.clients[v] in t.store && t.store[t.clients[v]].lastSeen == now
    && t.store[t.clients[v]].addr == Some(from) && from in t.addrMap && t.addrMap[from] == t.clients[v]
  }

  lemma RegisterCurrent(s: RoomState, reg: RegisterMsg, from: Addr, now: int, rateOk: bool, rnd: Random, pick: Ip4, v: Ip4)
    requires Inv(s) && Register(s, reg, from, now, rateOk, rnd, pick).1 == Assigned(Some(v))
    ensures Current(Register(s, reg, from, now, rateOk, rnd, pick).0, v, from, now)
  {
    var s1 := Cleared(s, from);
    ClearedQuiet(s, from);
    if from in s1.addrMap && s1.addrMap[from] in s1.store {
      assert EntryOk(s1, from);
    } else {
      RegisterAtCurrent(s1, reg, from, now, rnd, pick, v);
    }
  }

  lemma RegisterAtCurrent(s: RoomState, reg: RegisterMsg, from: Addr, now: int, rnd: Random, pick: Ip4, v: Ip4)
    requires Inv(s) && RegisterAt(s, reg, from, now, rnd, pick).1 == Assigned(Some(v))
    ensures Current(RegisterAt(s, reg, from, now, rnd, pick).0, v, from, now)
  {
    var waiting := Placeholders(s, reg.name, reg.roomId);
    if waiting != {} { assert SeatOk(s, Choose(waiting, pick)); }
  }

  lemma AuthCurrent(s: RoomState, resp: AuthMsg, from: Addr, now: int, rnd: Random, pick: Addr, v: Ip4)
    requires Inv(s) && AuthResponse(s, resp, from, now, rnd, pick).1 == Assigned(Some(v))
    ensures Current(AuthResponse(s, resp, from, now, rnd, pick).0, v, from, now)
  {
    AuthPendingCurrent(s, resp, from, now, rnd, PendingFor(s, resp, from, pick).value, v);
  }

  lemma AuthPendingCurrent(s: RoomState, resp: AuthMsg, from: Addr, now: int, rnd: Random, k: Addr, v: Ip4)
    requires PendingAt(s, k) && AuthPending(s, resp, from, now, rnd, k).1 == Assigned(Some(v))
    ensures Current(AuthPending(s, resp, from, now, rnd, k).0, v, from, now)
  {
  }

  /** A seat just given survives every sweep in the next 30 s. */
  lemma AssignedSurvivesSweep(s: RoomState, e: Event, v: Ip4, now: int)
    requires Inv(s) && Timely(s, e) && (e.EvRegister? || e.EvAuthResponse?) && Answer(s, e) == Assigned(Some(v))
    requires now - e.now <= 30 * SECOND
    ensures var t := Step(s, e);
            var u := StaleSweep(t, now);
            v in t.clients && v in u.clients && u.clients[v] == t.clients[v]
  {
    AssignedIsCurrent(s, e, v);
    var t := Step(s, e);
    if t.scan.Some? {
      RecentlySeenStays(t.(scan := None), t.scan.value.members, now, v);
      SweepAuthsFrame(SweepMembers(t.(scan := None), t.scan.value.members, now), t.scan.value.auths);
    }
  }
}
