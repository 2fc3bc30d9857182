/** Runs on which the room's counters drift: leaking steps are reached from an empty room. */
module RoomDrift {
  import opened Base
  import opened DataFormat
  import opened RoomModel
  import opened RoomInvariant
  import opened RoomPersist
  import opened RoomAccounting
  import opened RoomTheorems

  lemma EmptyBalanced(cfg: Config, now: int)
    ensures Inv(EmptyRoom(cfg, now)) && Balanced(EmptyRoom(cfg, now))
  {
    var s := EmptyRoom(cfg, now);
    assert forall ip: nat :: EntriesFrom(s.addrMap, ip) == {};
    assert PendingKeys(s) == {};
  }

  /** A member whose network changes: joined from `a`, then relaying from `b` under another IP. */
  lemma RoamingDrifts(cfg: Config, a: Addr, b: Addr)
    requires cfg.password == [] && cfg.maxPlayers > 0 && cfg.maxPerIP > 0 && a.ip != b.ip
    ensures var v := HostIn(cfg.net, 2);
            var s0 := EmptyRoom(cfg, 0);
            var es := [Join(cfg, a), EvRelay(Ip4Bytes(v) + Ip4Bytes(v), b, 0)];
            TimelyRun(s0, es) && Balanced(Run(s0, es[..1])) && !Exact(Run(s0, es))
  {
    var v, s0, s1 := HostIn(cfg.net, 2), EmptyRoom(cfg, 0), Joined(cfg, a);
    var payload := Ip4Bytes(v) + Ip4Bytes(v);
    var move := EvRelay(payload, b, 0);
    EmptyBalanced(cfg, 0);
    JoinStep(cfg, a);
    JoinedBalanced(cfg, a);
    assert Ip4At(payload, 0) == v;
    assert s1.(clock := 0) == s1 && Drifts(s1, move);
    StepExact(s1, move);
    OneMore(s1, move, []);
    OneMore(s0, Join(cfg, a), [move]);
    OneMore(s0, Join(cfg, a), []);
    assert [Join(cfg, a)] + [move] == [Join(cfg, a), move] && [move] + [] == [move] && [Join(cfg, a)] + [] == [Join(cfg, a)];
    assert [Join(cfg, a), move][..1] == [Join(cfg, a)];
  }

  lemma JoinedBalanced(cfg: Config, a: Addr)
    requires cfg.password == [] && cfg.maxPlayers > 0 && cfg.maxPerIP > 0
    ensures Inv(Joined(cfg, a)) && Balanced(Joined(cfg, a))
  {
    var s0 := EmptyRoom(cfg, 0);
    EmptyBalanced(cfg, 0);
    JoinStep(cfg, a);
    StepKeeps(s0, Join(cfg, a));
    assert FirstFree(s0.used, 2) == Some(2);
    StepBalanced(s0, Join(cfg, a));
  }

  // ── Two pending clients, one seat ──────────────────────────────

  const ROOM: Bytes := [1]
  const CHALLENGE: Bytes := [7]

  function Waiter(name: string, k: Addr): Client {
    Client(name, ROOM, 0, None, Some(k), 0, ZERO_TOKEN, ChallengeSent, CHALLENGE, 0)
  }

  ghost function Ask(cfg: Config, name: string, k: Addr): Event {
    EvRegister(RegisterMsg(ROOM, name, 0), k, 0, true, Random(None, Some(CHALLENGE)), HostIn(cfg.net, 2))
  }

  ghost function Reply(cfg: Config, name: string, k: Addr): Event {
    EvAuthResponse(AuthMsg(ROOM, name, cfg.mac(ROOM, CHALLENGE, ROOM, name, k)), k, 0, Random(Some([]), None), k)
  }

  /** A passworded room with one seat, and an HMAC of 32 bytes. */
  ghost predicate OneSeat(cfg: Config, a: Addr, b: Addr) {
    && cfg.password != [] && cfg.maxPlayers == 1 && cfg.maxPerIP > 0 && a.ip != b.ip
    && |cfg.mac(ROOM, CHALLENGE, ROOM, "p", a)| == 32 && |cfg.mac(ROOM, CHALLENGE, ROOM, "q", b)| == 32
  }

  ghost function Asked1(cfg: Config, a: Addr): RoomState {
    RoomState(cfg, map[0 := Waiter("p", a)], 1, map[], map[a := 0], RESERVED, 1, map[a.ip := 1], None, 0)
  }

  ghost function Asked2(cfg: Config, a: Addr, b: Addr): RoomState {
    RoomState(cfg, map[0 := Waiter("p", a), 1 := Waiter("q", b)], 2, map[], map[a := 0, b := 1], RESERVED, 2,
              map[a.ip := 1, b.ip := 1], None, 0)
  }

  ghost function Seated1(cfg: Config, a: Addr, b: Addr): RoomState {
    var v := HostIn(cfg.net, 2);
    var m := Client("p", ROOM, 0, Some(v), Some(a), 0, [], AuthNone, [], 0);
    RoomState(cfg, map[0 := Waiter("p", a), 1 := Waiter("q", b), 2 := m], 3, map[v := 2], map[b := 1, a := 2], RESERVED + {2}, 1,
              map[a.ip := 1, b.ip := 1], None, 0)
  }

  lemma AskStep(s: RoomState, name: string, k: Addr)
    requires s.clients == map[] && k !in s.addrMap && s.clock == 0 && (name == "p" || name == "q")
    requires s.cfg.password != [] && s.cfg.maxPlayers == 1 && s.pending < 3 && ConnsOf(s, k.ip) < s.cfg.maxPerIP
    ensures Step(s, Ask(s.cfg, name, k)) == Issue(AddConn(s, k.ip), RegisterMsg(ROOM, name, 0), k, 0, CHALLENGE)
    ensures !Leaky(s, Ask(s.cfg, name, k))
  {
    var reg := RegisterMsg(ROOM, name, 0);
    assert RegisterError(reg, true).None?;
    assert Placeholders(s, name, ROOM) == {};
    assert !Taken(s, name, ROOM);
    assert s.(clock := 0) == s;
    assert s.cfg.MaxPending() == 3;
  }

  lemma Ask1(cfg: Config, a: Addr, b: Addr)
    requires OneSeat(cfg, a, b)
    ensures Step(EmptyRoom(cfg, 0), Ask(cfg, "p", a)) == Asked1(cfg, a)
    ensures !Leaky(EmptyRoom(cfg, 0), Ask(cfg, "p", a))
  {
    AskStep(EmptyRoom(cfg, 0), "p", a);
  }

  lemma Ask2(cfg: Config, a: Addr, b: Addr)
    requires OneSeat(cfg, a, b)
    ensures Step(Asked1(cfg, a), Ask(cfg, "q", b)) == Asked2(cfg, a, b)
    ensures !Leaky(Asked1(cfg, a), Ask(cfg, "q", b))
  {
    AskStep(Asked1(cfg, a), "q", b);
  }

  lemma Answer1(cfg: Config, a: Addr, b: Addr)
    requires OneSeat(cfg, a, b)
    ensures Step(Asked2(cfg, a, b), Reply(cfg, "p", a)) == Seated1(cfg, a, b)
    ensures !Leaky(Asked2(cfg, a, b), Reply(cfg, "p", a))
  {
    var s := Asked2(cfg, a, b);
    assert s.(clock := 0) == s;
    assert PendingAt(s, a) && !Taken(s, "p", ROOM);
    assert FirstFree(s.used, 2) == Some(2);
    var s1 := DecPending(Unmap(s, a));
    assert s1.addrMap == map[b := 1];
    assert Step(s, Reply(cfg, "p", a)) == Authenticated(s, a, 0, Random(Some([]), None), a).0;
  }

  lemma Answer2(cfg: Config, a: Addr, b: Addr)
    requires OneSeat(cfg, a, b)
    ensures Drifts(Seated1(cfg, a, b), Reply(cfg, "q", b))
  {
    var s := Seated1(cfg, a, b);
    assert PendingAt(s, b) && |s.clients| == 1;
  }

  /** Two clients are challenged, both answer rightly, one seat: the second's refusal takes its
      connection from the count and leaves its entry. */
  lemma LateRefusalDrifts(cfg: Config, a: Addr, b: Addr)
    requires OneSeat(cfg, a, b)
    ensures var s0 := EmptyRoom(cfg, 0);
            var es := [Ask(cfg, "p", a), Ask(cfg, "q", b), Reply(cfg, "p", a)];
            && TimelyRun(s0, es + [Reply(cfg, "q", b)])
            && Balanced(Run(s0, es)) && !Exact(Run(s0, es + [Reply(cfg, "q", b)]))
  {
    var s0, s1, s2, s3 := EmptyRoom(cfg, 0), Asked1(cfg, a), Asked2(cfg, a, b), Seated1(cfg, a, b);
    var e1, e2, e3, e4 := Ask(cfg, "p", a), Ask(cfg, "q", b), Reply(cfg, "p", a), Reply(cfg, "q", b);
    EmptyBalanced(cfg, 0);
    Ask1(cfg, a, b);
    BalancedStep(s0, e1);
    Ask2(cfg, a, b);
    BalancedStep(s1, e2);
    Answer1(cfg, a, b);
    BalancedStep(s2, e3);
    Answer2(cfg, a, b);
    StepExact(s3, e4) by { assert s3.(clock := 0) == s3; }
    assert s3.(clock := 0) == s3;
    FourSteps(s0, e1, e2, e3, e4);
  }

  lemma BalancedStep(s: RoomState, e: Event)
    requires Inv(s) && Balanced(s) && Timely(s, e) && e.now == s.clock && !Leaky(s, e)
    ensures Inv(Step(s, e)) && Balanced(Step(s, e))
  {
    assert s.(clock := e.now) == s;
    StepKeeps(s, e);
    StepBalanced(s, e);
  }

  lemma FourSteps(s: RoomState, e1: Event, e2: Event, e3: Event, e4: Event)
    ensures var s1 := Step(s, e1);
            var s2 := Step(s1, e2);
            var s3 := Step(s2, e3);
            && Run(s, [e1, e2, e3]) == s3 && Run(s, [e1, e2, e3] + [e4]) == Step(s3, e4)
            && (TimelyRun(s, [e1, e2, e3] + [e4]) <==> Timely(s, e1) && Timely(s1, e2) && Timely(s2, e3) && Timely(s3, e4))
  {
    var s1 := Step(s, e1);
    var s2 := Step(s1, e2);
    var s3 := Step(s2, e3);
    OneMore(s3, e4, []);
    OneMore(s2, e3, [e4]);
    OneMore(s2, e3, []);
    OneMore(s1, e2, [e3, e4]);
    OneMore(s1, e2, [e3]);
    OneMore(s, e1, [e2, e3, e4]);
    OneMore(s, e1, [e2, e3]);
    assert [e4] + [] == [e4] && [e3] + [e4] == [e3, e4] && [e3] + [] == [e3];
    assert [e2] + [e3, e4] == [e2, e3, e4] && [e2] + [e3] == [e2, e3] && [e1] + [e2, e3] == [e1, e2, e3];
    assert [e1] + [e2, e3, e4] == [e1, e2, e3] + [e4];
  }
}
