/**
 The room's promises, read off the invariant for every reachable state: who may
 relay and to whom, what a departed client leaves behind, how long the two
 phases of the stale sweep may be apart.
 */
module RoomTheorems {
  import opened Base
  import opened RoomModel
  import opened RoomInvariant
  import opened RoomHistory
  import opened RoomPersist
  import opened RoomAccounting

  /** A room as the server starts it: empty, then whatever the saved state gives back. */
  ghost function Started(cfg: Config, snap: Snapshot, order: seq<Entry>, now: int): RoomState {
    LoadState(EmptyRoom(cfg, now), snap, order, now)
  }

  lemma StartedOk(cfg: Config, snap: Snapshot, order: seq<Entry>, now: int)
    ensures Inv(Started(cfg, snap, order, now)) && Balanced(Started(cfg, snap, order, now))
    ensures Started(cfg, snap, order, now).cfg == cfg
  {
    var s0 := EmptyRoom(cfg, now);
    assert Inv(s0);
    assert PendingKeys(s0) == {};
    assert forall ip: nat :: EntriesFrom(s0.addrMap, ip) == {};
    assert Balanced(s0) && Offline(s0);
    if snap.version == STATE_VERSION && snap.net == cfg.net {
      RestoreKeeps(s0, order, snap.updatedAt, now);
      RestoreBalanced(s0, order, snap.updatedAt, now);
    }
  }

  /** Nobody has an address yet. */
  ghost predicate Offline(s: RoomState) {
    s.addrMap == map[] && forall v :: v in s.clients ==> s.clients[v] in s.store && s.store[s.clients[v]].addr.None?
  }

  lemma {:induction false} RestoreBalanced(s: RoomState, order: seq<Entry>, updatedAt: int, now: int)
    requires Inv(s) && Balanced(s) && Offline(s)
    ensures Balanced(RestoreAll(s, order, updatedAt, now)) && RestoreAll(s, order, updatedAt, now).cfg == s.cfg
    decreases |order|
  {
    if order != [] {
      var t := RestoreOne(s, order[0], updatedAt, now);
      if Restorable(s, order[0], updatedAt, now) {
        ReserveKeeps(s, Placeholder(order[0], order[0].vip.value), order[0].vip.value);
        assert Offline(t);
        assert PendingKeys(t) == PendingKeys(s);
        assert forall ip: nat :: Debt(t, ip) == Debt(s, ip);
      }
      RestoreBalanced(t, order[1..], updatedAt, now);
    }
  }

  // ── Address map, octets, limits ────────────────────────────────

  /** In every reachable state: each address entry is its object's own address, an
      admitted one is in its seat, no object has two entries, and seats are exactly
      the non-reserved octets in use. */
  lemma ReachableRoom(cfg: Config, snap: Snapshot, order: seq<Entry>, now: int, es: seq<Event>)
    requires TimelyRun(Started(cfg, snap, order, now), es)
    ensures var s := Run(Started(cfg, snap, order, now), es);
            && (forall k :: k in s.addrMap ==>
                  var id := s.addrMap[k];
                  && id in s.store && s.store[id].addr == Some(k)
                  && (s.store[id].auth != ChallengeSent ==> Seated(s, id)))
            && (forall j, k :: j in s.addrMap && k in s.addrMap && s.addrMap[j] == s.addrMap[k] ==> j == k)
            && (forall o :: 0 <= o < 256 ==> (o in s.used <==> o in RESERVED || HostIn(cfg.net, o) in s.clients))
            && (forall v :: v in s.clients ==> v == HostIn(cfg.net, v.d) && 2 <= v.d <= 254)
  {
    var s0 := Started(cfg, snap, order, now);
    StartedOk(cfg, snap, order, now);
    RunKeeps(s0, es);
    RunSize(s0, es);
    var s := Run(s0, es);
    forall k | k in s.addrMap
      ensures var id := s.addrMap[k];
              && id in s.store && s.store[id].addr == Some(k)
              && (s.store[id].auth != ChallengeSent ==> Seated(s, id))
    {
      assert EntryOk(s, k);
    }
    forall o | 0 <= o < 256 ensures o in s.used <==> o in RESERVED || HostIn(cfg.net, o) in s.clients {
      assert o in s.used <==> OctetHeld(s, o);
    }
    assert forall v :: v in s.clients ==> SeatOk(s, v);
  }

  /** Limits over every run. */
  lemma ReachableLimits(cfg: Config, snap: Snapshot, order: seq<Entry>, now: int, es: seq<Event>)
    requires TimelyRun(Started(cfg, snap, order, now), es)
    ensures var s0 := Started(cfg, snap, order, now);
            var s := Run(s0, es);
            && |s.clients| <= Max(cfg.maxPlayers, |s0.clients|) && |s.clients| <= 253
            && s.pending <= Max(0, cfg.MaxPending())
            && (forall ip :: ip in s.conns ==> 1 <= s.conns[ip] <= cfg.maxPerIP)
            && (LeakFree(s0, es) ==> Balanced(s))
  {
    var s0 := Started(cfg, snap, order, now);
    StartedOk(cfg, snap, order, now);
    RunKeeps(s0, es);
    RunSize(s0, es);
    AtMost253(Run(s0, es));
    if LeakFree(s0, es) { RunBalanced(s0, es); }
  }

  // ── Relay ──────────────────────────────────────────────────────

  /** A forwarded packet names as its source the one client now mapped at the sending
      address, and reaches exactly the other addressed clients (broadcast, multicast)
      or exactly the addressed holder of the destination. */
  lemma ForwardIsHonest(s: RoomState, e: Event)
    requires Inv(s) && Timely(s, e) && e.EvRelay? && Answer(s, e).Forward?
    ensures var t := Step(s, e);
            var f := Answer(s, e);
            var dst := Ip4At(e.payload, 4);
            && |e.payload| >= 8 && f.payload == e.payload && f.source == Ip4At(e.payload, 0)
            && e.from in t.addrMap && f.source in t.clients && t.addrMap[e.from] == t.clients[f.source]
            && t.store[t.clients[f.source]].auth == AuthNone
            && (forall k :: k in t.addrMap && t.addrMap[k] == t.clients[f.source] ==> k == e.from)
            && f.to == if IsRelayTarget(dst, t.cfg.net)
                       then (set v | v in t.clients && Addressed(t, v) && v != f.source)
                       else (set v | v in t.clients && Addressed(t, v) && v == dst)
  {
    var t := Step(s, e);
    var f := Answer(s, e);
    StepKeeps(s, e);
    ForwardShape(s, e);
    SeatOfEntry(t, e.from, f.source);
    OthersBySeat(t, f.source);
  }

  lemma ForwardShape(s: RoomState, e: Event)
    requires e.EvRelay? && Answer(s, e).Forward? && AddrOk(Step(s, e))
    ensures var t := Step(s, e);
            var f := Answer(s, e);
            && |e.payload| >= 8 && f.payload == e.payload && f.source == Ip4At(e.payload, 0)
            && e.from in t.addrMap && t.addrMap[e.from] in t.store && t.store[t.addrMap[e.from]].vip == Some(f.source)
            && f.to == Targets(t, t.addrMap[e.from], Ip4At(e.payload, 4))
  {
  }

  lemma SeatOfEntry(t: RoomState, from: Addr, v: Ip4)
    requires AddrOk(t) && from in t.addrMap && t.addrMap[from] in t.store && t.store[t.addrMap[from]].vip == Some(v)
    ensures v in t.clients && t.clients[v] == t.addrMap[from] && t.store[t.addrMap[from]].auth == AuthNone
    ensures forall k :: k in t.addrMap && t.addrMap[k] == t.clients[v] ==> k == from
  {
    assert EntryOk(t, from);
    forall k | k in t.addrMap && t.addrMap[k] == t.clients[v] ensures k == from { OneEntry(t, k, t.clients[v]); }
  }

  lemma OthersBySeat(t: RoomState, src: Ip4)
    requires SeatsOk(t) && src in t.clients
    ensures forall v :: v in t.clients ==> (t.clients[v] != t.clients[src] <==> v != src)
  {
    forall v | v in t.clients ensures t.clients[v] != t.clients[src] <==> v != src { assert SeatOk(t, v) && SeatOk(t, src); }
  }

  /** A client still in challenge state never relays, and its packet changes nothing. */
  lemma PendingNeverRelays(s: RoomState, payload: Bytes, from: Addr, now: int)
    requires Inv(s) && PendingAt(s, from)
    ensures Relay(s, payload, from, now) == (s, Silent)
  {
    assert EntryOk(s, from);
  }

  /** A member's packet under its own virtual IP and token is forwarded whenever anyone can receive it. */
  lemma MemberIsRelayed(s: RoomState, payload: Bytes, from: Addr, now: int)
    requires Inv(s) && from in s.addrMap && |payload| >= 8
    requires Ip4At(payload, 0) in s.clients && s.clients[Ip4At(payload, 0)] == s.addrMap[from]
    requires s.addrMap[from] in s.store && TokenAccepted(s.store[s.addrMap[from]], payload)
    ensures var to := Targets(s, s.addrMap[from], Ip4At(payload, 4));
            Relay(s, payload, from, now) == (s, if to == {} then Silent else Forward(Ip4At(payload, 0), to, payload))
  {
    assert SeatOk(s, Ip4At(payload, 0));
  }

  // ── How far apart the two phases of the sweep may be ───────────

  /** The scan that walks both maps records everyone who is stale. */
  lemma {:induction false} ScanFindsStale(s: RoomState, vips: seq<Ip4>, now: int, v: Ip4)
    requires v in vips && StaleMember(s, v, now)
    ensures StaleClient(v, s.clients[v], s.store[s.clients[v]].addr) in ScanMembers(s, vips, now)
  {
    if vips[0] != v || !StaleMember(s, vips[0], now) {
      assert v in vips[1..];
      ScanFindsStale(s, vips[1..], now, v);
    }
  }

  /** Nobody seen within the last 30 s loses the seat, whatever the scan recorded. */
  lemma {:induction false} RecentlySeenStays(s: RoomState, rs: seq<StaleClient>, now: int, v: Ip4)
    requires v in s.clients && s.clients[v] in s.store && now - s.store[s.clients[v]].lastSeen <= 30 * SECOND
    ensures var t := SweepMembers(s, rs, now); v in t.clients && t.clients[v] == s.clients[v]
    decreases |rs|
  {
    if rs != [] { RecentlySeenStays(SweepMember(s, rs[0], now), rs[1..], now, v); }
  }

  /** A keepalive from a member's address saves its seat from every sweep in the next 30 s, also one
      whose scan had already found it stale. */
  lemma KeepAliveSavesSeat(s: RoomState, v: Ip4, from: Addr, at: int, now: int)
    requires Inv(s) && v in s.clients && from in s.addrMap && s.addrMap[from] == s.clients[v]
    requires now - at <= 30 * SECOND
    ensures var t := StaleSweep(Step(s, EvKeepAlive(from, at)), now);
            v in t.clients && t.clients[v] == s.clients[v]
  {
    assert SeatOk(s, v);
    var u := Step(s, EvKeepAlive(from, at));
    if u.scan.Some? {
      RecentlySeenStays(u.(scan := None), u.scan.value.members, now, v);
      SweepAuthsFrame(SweepMembers(u.(scan := None), u.scan.value.members, now), u.scan.value.auths);
    }
  }

  /** The right answer to a challenge, in time and from anywhere, gets the least free IP when there
      is a place, and the answering address is mapped to the new member. */
  lemma RightAnswerIsSeated(s: RoomState, resp: AuthMsg, from: Addr, now: int, rnd: Random, pick: Addr)
    requires Inv(s) && |resp.hmac| == 32 && PendingFor(s, resp, from, pick).Some?
    requires Accepted(s, resp, now, PendingFor(s, resp, from, pick).value)
    requires FirstFree(s.used, 2).Some? && rnd.token.Some?
    ensures var v := HostIn(s.cfg.net, FirstFree(s.used, 2).value);
            var (t, reply) := AuthResponse(s, resp, from, now, rnd, pick);
            && reply == Assigned(Some(v)) && v !in s.clients && v in t.clients
            && from in t.addrMap && t.addrMap[from] == t.clients[v] && !PendingAt(t, from)
  {
    var k := PendingFor(s, resp, from, pick).value;
    AcceptedAdmits(s, resp, from, now, rnd, k);
    var o := FirstFree(s.used, 2).value;
    assert !OctetHeld(s, o);
    assert Vacated(s, from, k).used == s.used && Vacated(s, from, k).cfg == s.cfg;
  }

  const NET: Net24 := Net24(10, 10, 0)

  /** A room with one member that moved to address `b` right after the scan at 31 s had noted `a`. */
  ghost function MovedAfterScan(cfg: Config, a: Addr, b: Addr): RoomState {
    var v := HostIn(cfg.net, 2);
    var c := Client("p", [1], 0, Some(v), Some(b), 31 * SECOND, [], AuthNone, [], 0);
    RoomState(cfg, map[0 := c], 1, map[v := 0], map[b := 0], {0, 1, 2, 255}, 0, map[a.ip := 1],
              Some(Scan(31 * SECOND, [StaleClient(v, 0, Some(a))], [])), 31 * SECOND)
  }

  ghost function Joined(cfg: Config, a: Addr): RoomState {
    var v := HostIn(cfg.net, 2);
    var c := Client("p", [1], 0, Some(v), Some(a), 0, [], AuthNone, [], 0);
    RoomState(cfg, map[0 := c], 1, map[v := 0], map[a := 0], {0, 1, 2, 255}, 0, map[a.ip := 1], None, 0)
  }

  ghost function Join(cfg: Config, a: Addr): Event {
    EvRegister(RegisterMsg([1], "p", 0), a, 0, true, Random(Some([]), None), HostIn(cfg.net, 2))
  }

  lemma JoinStep(cfg: Config, a: Addr)
    requires cfg.password == [] && cfg.maxPlayers > 0 && cfg.maxPerIP > 0
    ensures Step(EmptyRoom(cfg, 0), Join(cfg, a)) == Joined(cfg, a)
  {
    var s0 := EmptyRoom(cfg, 0);
    var reg := RegisterMsg([1], "p", 0);
    var s1 := AddConn(s0, a.ip);
    assert Placeholders(s0, "p", [1]) == {};
    assert FirstFree(s1.used, 2) == Some(2);
    assert !Taken(s0, "p", [1]);
    assert RegisterError(reg, true).None?;
    assert Step(s0, Join(cfg, a)) == RegisterAt(s0, reg, a, 0, Random(Some([]), None), HostIn(cfg.net, 2)).0;
  }

  lemma ScanStep(cfg: Config, a: Addr, b: Addr)
    ensures Step(Joined(cfg, a), EvStaleScan([HostIn(cfg.net, 2)], [], 31 * SECOND))
         == Joined(cfg, a).(scan := MovedAfterScan(cfg, a, b).scan, clock := 31 * SECOND)
  {
    var v := HostIn(cfg.net, 2);
    var s := Joined(cfg, a).(clock := 31 * SECOND);
    assert [v][1..] == [];
    assert ScanMembers(s, [v], 31 * SECOND) == [StaleClient(v, 0, Some(a))];
  }

  lemma MoveStep(cfg: Config, a: Addr, b: Addr)
    requires a != b
    ensures var v := HostIn(cfg.net, 2);
            Step(Joined(cfg, a).(scan := MovedAfterScan(cfg, a, b).scan, clock := 31 * SECOND),
                 EvRelay(Ip4Bytes(v) + Ip4Bytes(v), b, 31 * SECOND))
            == MovedAfterScan(cfg, a, b)
  {
    var v := HostIn(cfg.net, 2);
    var s := Joined(cfg, a).(scan := MovedAfterScan(cfg, a, b).scan, clock := 31 * SECOND);
    var payload := Ip4Bytes(v) + Ip4Bytes(v);
    assert Ip4At(payload, 0) == v;
    assert MoveTo(s, 0, b, 31 * SECOND).addrMap == map[b := 0];
    assert MoveTo(s, 0, b, 31 * SECOND).store == MovedAfterScan(cfg, a, b).store;
    assert Migrate(s, payload, b, 31 * SECOND) == (MovedAfterScan(cfg, a, b), Some(0));
  }

  lemma MovedAfterScanIsReachable(cfg: Config, a: Addr, b: Addr)
    requires cfg.password == [] && cfg.maxPlayers > 0 && cfg.maxPerIP > 0 && a != b
    ensures var v := HostIn(cfg.net, 2);
            var es := [Join(cfg, a), EvStaleScan([v], [], 31 * SECOND), EvRelay(Ip4Bytes(v) + Ip4Bytes(v), b, 31 * SECOND)];
            TimelyRun(EmptyRoom(cfg, 0), es) && Run(EmptyRoom(cfg, 0), es) == MovedAfterScan(cfg, a, b)
  {
    var s0, s1, s3 := EmptyRoom(cfg, 0), Joined(cfg, a), MovedAfterScan(cfg, a, b);
    var s2 := s1.(scan := s3.scan, clock := 31 * SECOND);
    var v := HostIn(cfg.net, 2);
    var scan, move := EvStaleScan([v], [], 31 * SECOND), EvRelay(Ip4Bytes(v) + Ip4Bytes(v), b, 31 * SECOND);
    JoinStep(cfg, a);
    ScanStep(cfg, a, b);
    MoveStep(cfg, a, b);
    OneMore(s2, move, []);
    OneMore(s1, scan, [move]);
    OneMore(s0, Join(cfg, a), [scan, move]);
    assert [Join(cfg, a)] + [scan, move] == [Join(cfg, a), scan, move] && [scan] + [move] == [scan, move] && [move] + [] == [move];
  }

  lemma OneMore(s: RoomState, e: Event, es: seq<Event>)
    ensures Run(s, [e] + es) == Run(Step(s, e), es)
    ensures TimelyRun(s, [e] + es) <==> Timely(s, e) && TimelyRun(Step(s, e), es)
  {
    assert ([e] + es)[1..] == es;
  }

  /** Whether every sweep `gap` after its scan leaves the address map consistent. */
  ghost predicate GapIsSafe(gap: int) {
    forall s: RoomState, now: int ::
      Inv(s) && s.scan.Some? && now - s.scan.value.at == gap && s.clock <= now ==> AddrOk(StaleSweep(s, now))
  }

  /** The window of 30 s is exact: a longer one lets a swept client keep an address entry. */
  lemma GapSafeIffWithinWindow(gap: int)
    requires gap >= 0
    ensures GapIsSafe(gap) <==> gap <= 30 * SECOND
  {
    if gap <= 30 * SECOND {
      forall s: RoomState, now: int | Inv(s) && s.scan.Some? && now - s.scan.value.at == gap && s.clock <= now
        ensures AddrOk(StaleSweep(s, now))
      {
        SweepIsAtomic(s, now);
      }
    } else {
      var cfg := Config(NET, [], 8, 3, (_, _, _, _, _) => []);
      var a, b := Addr(1, 1), Addr(2, 2);
      var s := MovedAfterScan(cfg, a, b);
      var v := HostIn(NET, 2);
      assert Inv(s) by {
        assert SeatOk(s, v) && EntryOk(s, b);
        assert forall r :: r in s.scan.value.members ==> r == StaleClient(v, 0, Some(a));
      }
      var now := 31 * SECOND + gap;
      var r := StaleClient(v, 0, Some(a));
      var t := SweepMember(s.(scan := None), r, now);
      assert [r][1..] == [];
      assert StaleSweep(s, now) == t;
      assert !EntryOk(t, b) && b in t.addrMap;
      assert !AddrOk(t);
    }
  }
}
