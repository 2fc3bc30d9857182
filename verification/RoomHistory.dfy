/**
 Who gets a seat. Apart from an admission, no step seats anyone, so the table
 cannot outgrow its limit, and in a passworded room that started empty every
 member answers for one challenge and every challenge for at most one member.
 */
module RoomHistory {
  import opened Base
  import opened RoomModel
  import opened RoomInvariant

  // ── Steps that seat nobody ─────────────────────────────────────

  /** Name, room, virtual IP, auth state and challenge of an object never change. */
  predicate ObjectKept(c: Client, d: Client) {
    d == c.(addr := d.addr, lastSeen := d.lastSeen, version := d.version) && (c.addr.Some? ==> d.addr.Some?)
  }

  ghost predicate SameObjects(s: RoomState, t: RoomState) {
    && t.cfg == s.cfg && s.next <= t.next
    && forall id :: id in s.store ==> id in t.store && ObjectKept(s.store[id], t.store[id])
  }

  ghost predicate NoNewSeat(s: RoomState, t: RoomState) {
    forall v :: v in t.clients ==> v in s.clients && t.clients[v] == s.clients[v]
  }

  /** An object waiting with a challenge is in the address map. */
  ghost predicate Open(s: RoomState, id: Id) {
    exists k :: k in s.addrMap && s.addrMap[k] == id && id in s.store && s.store[id].auth == ChallengeSent
  }

  ghost predicate NoReopened(s: RoomState, t: RoomState) {
    forall id: Id :: Open(t, id) ==> Open(s, id) || id >= s.next
  }

  ghost predicate Quiet(s: RoomState, t: RoomState) {
    SameObjects(s, t) && NoNewSeat(s, t) && NoReopened(s, t)
  }

  lemma QuietTrans(s: RoomState, t: RoomState, u: RoomState)
    requires Quiet(s, t) && Quiet(t, u)
    ensures Quiet(s, u)
  {
  }

  /** Updates that only drop entries or adjust counters. */
  lemma ShrinkQuiet(s: RoomState, t: RoomState)
    requires t.cfg == s.cfg && t.next == s.next && t.store == s.store
    requires NoNewSeat(s, t)
    requires forall k :: k in t.addrMap ==> k in s.addrMap && t.addrMap[k] == s.addrMap[k]
    ensures Quiet(s, t)
  {
    forall id | Open(t, id) ensures Open(s, id) {
      var k :| k in t.addrMap && t.addrMap[k] == id && id in t.store && t.store[id].auth == ChallengeSent;
      assert k in s.addrMap && s.addrMap[k] == id;
    }
  }

  lemma PutQuiet(s: RoomState, id: Id, c: Client)
    requires id in s.store && ObjectKept(s.store[id], c)
    ensures Quiet(s, Put(s, id, c))
  {
    var t := Put(s, id, c);
    forall i | Open(t, i) ensures Open(s, i) {
      var k :| k in t.addrMap && t.addrMap[k] == i && i in t.store && t.store[i].auth == ChallengeSent;
      assert k in s.addrMap && s.addrMap[k] == i;
    }
  }

  lemma MoveQuiet(s: RoomState, id: Id, k: Addr, seen: int)
    requires id in s.store && (s.store[id].auth == ChallengeSent ==> Open(s, id))
    ensures Quiet(s, MoveTo(s, id, k, seen))
  {
    var t := MoveTo(s, id, k, seen);
    forall i | Open(t, i) ensures Open(s, i) {
      var j :| j in t.addrMap && t.addrMap[j] == i && i in t.store && t.store[i].auth == ChallengeSent;
      if j != k { assert j in s.addrMap && s.addrMap[j] == i; }
    }
  }

  lemma IssueQuiet(s: RoomState, reg: RegisterMsg, k: Addr, now: int, ch: Bytes)
    requires FreshOk(s)
    ensures Quiet(s, Issue(s, reg, k, now, ch))
  {
    var t := Issue(s, reg, k, now, ch);
    forall i: Id | Open(t, i) ensures Open(s, i) || i >= s.next {
      var j :| j in t.addrMap && t.addrMap[j] == i && i in t.store && t.store[i].auth == ChallengeSent;
      if j != k { assert j in s.addrMap && s.addrMap[j] == i; }
    }
  }

  lemma SweepQuiet(s: RoomState, now: int)
    ensures Quiet(s, StaleSweep(s, now))
  {
    if s.scan.Some? {
      var t := s.(scan := None);
      var u := SweepMembers(t, s.scan.value.members, now);
      SweepMembersFrame(t, s.scan.value.members, now);
      SweepAuthsFrame(u, s.scan.value.auths);
      SubSeatsOk(s, u, SweepAuths(u, s.scan.value.auths));
      ShrinkQuiet(s, SweepAuths(u, s.scan.value.auths));
    } else {
      ShrinkQuiet(s, s);
    }
  }

  lemma SubSeatsOk(s: RoomState, u: RoomState, w: RoomState)
    requires u.clients.Items <= s.clients.Items && u.addrMap.Items <= s.addrMap.Items
    requires w.clients == u.clients && w.addrMap.Items <= u.addrMap.Items
    ensures NoNewSeat(s, w)
    ensures forall k :: k in w.addrMap ==> k in s.addrMap && w.addrMap[k] == s.addrMap[k]
  {
    forall v | v in w.clients ensures v in s.clients && w.clients[v] == s.clients[v] {
      assert (v, u.clients[v]) in u.clients.Items;
    }
    forall k | k in w.addrMap ensures k in s.addrMap && w.addrMap[k] == s.addrMap[k] {
      assert (k, w.addrMap[k]) in w.addrMap.Items;
    }
  }

  // ── Each handler: a quiet part, then at most one admission ─────

  lemma CountersQuiet(s: RoomState, ip: nat, c: Client, k: Addr)
    ensures Quiet(s, AddConn(s, ip)) && Quiet(s, DropConnOf(s, c)) && Quiet(s, Forget(s, k, c))
    ensures Quiet(s, Unmap(s, k)) && Quiet(s, s) && Quiet(s, DecPending(s))
  {
    ShrinkQuiet(s, AddConn(s, ip));
    ShrinkQuiet(s, DropConnOf(s, c));
    ShrinkQuiet(s, Forget(s, k, c));
    ShrinkQuiet(s, Unmap(s, k));
    ShrinkQuiet(s, s);
    ShrinkQuiet(s, DecPending(s));
  }

  lemma ResumeQuiet(s: RoomState, from: Addr, now: int, v: Ip4)
    requires Inv(s) && v in s.clients
    ensures Quiet(s, MoveTo(AddConn(s, from.ip), s.clients[v], from, now))
  {
    var s1 := AddConn(s, from.ip);
    assert SeatOk(s, v);
    CountersQuiet(s, from.ip, DEAD, from);
    MoveQuiet(s1, s.clients[v], from, now);
    QuietTrans(s, s1, MoveTo(s1, s.clients[v], from, now));
  }

  lemma ChallengeQuiet(s: RoomState, reg: RegisterMsg, from: Addr, now: int, ch: Bytes)
    requires Inv(s)
    ensures Quiet(s, Issue(AddConn(s, from.ip), reg, from, now, ch))
  {
    var s1 := AddConn(s, from.ip);
    CountersQuiet(s, from.ip, DEAD, from);
    IssueQuiet(s1, reg, from, now, ch);
    QuietTrans(s, s1, Issue(s1, reg, from, now, ch));
  }

  lemma AddConnQuiet(s: RoomState, from: Addr)
    requires Inv(s)
    ensures Quiet(s, AddConn(s, from.ip))
  {
    CountersQuiet(s, from.ip, DEAD, from);
  }

  lemma RegisterAtShape(s: RoomState, reg: RegisterMsg, from: Addr, now: int, rnd: Random, pick: Ip4)
      returns (q: RoomState)
    requires Inv(s)
    ensures Quiet(s, q)
    ensures var t := RegisterAt(s, reg, from, now, rnd, pick).0;
            t == q || (|s.clients| < s.cfg.maxPlayers && s.cfg.password == [] && t == Admit(q, reg, from, now, rnd).0)
  {
    q := s;
    ShrinkQuiet(s, s);
    if ConnsOf(s, from.ip) < s.cfg.maxPerIP {
      var waiting := Placeholders(s, reg.name, reg.roomId);
      if waiting != {} {
        var v := Choose(waiting, pick);
        ResumeQuiet(s, from, now, v);
        q := MoveTo(AddConn(s, from.ip), s.clients[v], from, now);
      } else if |s.clients| < s.cfg.maxPlayers && !Taken(s, reg.name, reg.roomId) {
        if s.cfg.password == [] {
          AddConnQuiet(s, from);
          q := AddConn(s, from.ip);
        } else if s.pending < s.cfg.MaxPending() && rnd.challenge.Some? {
          ChallengeQuiet(s, reg, from, now, rnd.challenge.value);
          q := Issue(AddConn(s, from.ip), reg, from, now, rnd.challenge.value);
        }
      }
    }
  }

  /** A pending entry at the registering address is dropped first. */
  ghost function Cleared(s: RoomState, from: Addr): RoomState {
    if PendingAt(s, from) then Forget(s, from, s.store[s.addrMap[from]]) else s
  }

  lemma ClearedQuiet(s: RoomState, from: Addr)
    requires Inv(s)
    ensures Inv(Cleared(s, from)) && Quiet(s, Cleared(s, from)) && Cleared(s, from).clients == s.clients && Cleared(s, from).cfg == s.cfg
    ensures Cleared(s, from).next == s.next && Cleared(s, from).store == s.store
  {
    if PendingAt(s, from) {
      CountersQuiet(s, 0, s.store[s.addrMap[from]], from);
      ForgetKeeps(s, from, s.store[s.addrMap[from]]);
    } else {
      ShrinkQuiet(s, s);
    }
  }

  lemma RefreshQuiet(s: RoomState, from: Addr, now: int, version: nat)
    requires Inv(s) && from in s.addrMap && s.addrMap[from] in s.store
    ensures Quiet(s, Put(s, s.addrMap[from], s.store[s.addrMap[from]].(lastSeen := now, version := version)))
  {
    PutQuiet(s, s.addrMap[from], s.store[s.addrMap[from]].(lastSeen := now, version := version));
  }

  lemma RegisterShape(s: RoomState, reg: RegisterMsg, from: Addr, now: int, rateOk: bool, rnd: Random, pick: Ip4)
      returns (q: RoomState)
    requires Inv(s)
    ensures Quiet(s, q)
    ensures var t := Register(s, reg, from, now, rateOk, rnd, pick).0;
            t == q || (|s.clients| < s.cfg.maxPlayers && s.cfg.password == [] && t == Admit(q, reg, from, now, rnd).0)
  {
    var s1 := Cleared(s, from);
    ClearedQuiet(s, from);
    if RegisterError(reg, rateOk).Some? {
      q := s;
      ShrinkQuiet(s, s);
    } else {
      if from in s1.addrMap && s1.addrMap[from] in s1.store {
        RefreshQuiet(s1, from, now, reg.version);
        q := Put(s1, s1.addrMap[from], s1.store[s1.addrMap[from]].(lastSeen := now, version := reg.version));
      } else {
        q := RegisterAtShape(s1, reg, from, now, rnd, pick);
      }
      QuietTrans(s, s1, q);
    }
  }

  /** What it takes for a response to win a seat. */
  ghost predicate Accepted(s: RoomState, resp: AuthMsg, now: int, k: Addr) {
    && PendingAt(s, k)
    && var c := s.store[s.addrMap[k]];
       && now - c.challengeAt <= 15 * SECOND
       && s.cfg.password != []
       && resp.hmac == ExpectedMac(s, c, resp)
       && |s.clients| < s.cfg.maxPlayers
       && !Taken(s, resp.name, resp.roomId)
  }

  /** State of an accepted response just before the seat is taken. */
  ghost function Vacated(s: RoomState, from: Addr, k: Addr): RoomState
    requires PendingAt(s, k)
  {
    DecPending(if k == from then Unmap(s, from) else MoveTo(s, s.addrMap[k], from, s.store[s.addrMap[k]].lastSeen))
  }

  lemma VacatedQuiet(s: RoomState, from: Addr, k: Addr)
    requires PendingAt(s, k)
    ensures Quiet(s, Vacated(s, from, k))
  {
    var id := s.addrMap[k];
    assert Open(s, id);
    CountersQuiet(s, 0, DEAD, from);
    MoveQuiet(s, id, from, s.store[id].lastSeen);
    var s1 := if k == from then Unmap(s, from) else MoveTo(s, id, from, s.store[id].lastSeen);
    CountersQuiet(s1, 0, DEAD, from);
    QuietTrans(s, s1, DecPending(s1));
  }

  lemma RefusedIs(s: RoomState, resp: AuthMsg, from: Addr, now: int, rnd: Random, k: Addr)
    requires PendingAt(s, k) && !Accepted(s, resp, now, k)
    ensures var c := s.store[s.addrMap[k]];
            var t := AuthPending(s, resp, from, now, rnd, k).0;
            t == Forget(s, k, c) || t == DropConnOf(s, c)
  {
  }

  lemma RefusedQuiet(s: RoomState, resp: AuthMsg, from: Addr, now: int, rnd: Random, k: Addr)
    requires PendingAt(s, k) && !Accepted(s, resp, now, k)
    ensures var t := AuthPending(s, resp, from, now, rnd, k).0;
            Quiet(s, t) && t.store == s.store && t.next == s.next
  {
    var c := s.store[s.addrMap[k]];
    CountersQuiet(s, 0, c, k);
    RefusedIs(s, resp, from, now, rnd, k);
  }

  lemma AcceptedAdmits(s: RoomState, resp: AuthMsg, from: Addr, now: int, rnd: Random, k: Addr)
    requires Accepted(s, resp, now, k)
    ensures var c := s.store[s.addrMap[k]];
            AuthPending(s, resp, from, now, rnd, k).0
            == Admit(Vacated(s, from, k), RegisterMsg(c.roomId, c.name, c.version), from, now, rnd).0
  {
  }

  lemma AuthAbnormalQuiet(s: RoomState, resp: AuthMsg, from: Addr, now: int, rnd: Random, pick: Addr)
    requires |resp.hmac| != 32 || PendingFor(s, resp, from, pick).None?
    ensures var t := AuthResponse(s, resp, from, now, rnd, pick).0;
            Quiet(s, t) && t.store == s.store && t.next == s.next
  {
    CountersQuiet(s, 0, DEAD, from);
    if from in s.addrMap && s.addrMap[from] in s.store {
      CountersQuiet(s, 0, s.store[s.addrMap[from]], from);
    }
  }

  lemma RelayQuiet(s: RoomState, payload: Bytes, from: Addr, now: int)
    requires Inv(s)
    ensures Quiet(s, Relay(s, payload, from, now).0)
  {
    ShrinkQuiet(s, s);
    if |payload| >= 8 {
      var src := Ip4At(payload, 0);
      if src in s.clients {
        assert SeatOk(s, src);
        MoveQuiet(s, s.clients[src], from, now);
      }
    }
  }

  lemma RebindQuiet(s: RoomState, v: Ip4, hmac: Bytes, from: Addr, now: int)
    requires Inv(s)
    ensures Quiet(s, Rebind(s, v, hmac, from, now).0)
  {
    ShrinkQuiet(s, s);
    if v in s.clients {
      assert SeatOk(s, v);
      MoveQuiet(s, s.clients[v], from, now);
    }
  }

  lemma OtherQuiet(s: RoomState, e: Event)
    requires Inv(s) && !e.EvRegister? && !e.EvAuthResponse?
    ensures Quiet(s, Handle(s, e).0)
  {
    match e
    case EvKeepAlive(from, now) =>
      ShrinkQuiet(s, s);
      if from in s.addrMap && s.addrMap[from] in s.store {
        PutQuiet(s, s.addrMap[from], s.store[s.addrMap[from]].(lastSeen := now));
      }
    case EvDisconnect(from, now) => ShrinkQuiet(s, Disconnect(s, from));
    case EvRelay(payload, from, now) => RelayQuiet(s, payload, from, now);
    case EvRebind(v, hmac, from, now) => RebindQuiet(s, v, hmac, from, now);
    case EvStaleScan(vips, keys, now) => ShrinkQuiet(s, StaleScan(s, vips, keys, now));
    case EvStaleSweep(now) => SweepQuiet(s, now);
  }

  // ── The room never outgrows its limits ─────────────────────────

  lemma FewerSeats(s: RoomState, t: RoomState)
    requires NoNewSeat(s, t)
    ensures |t.clients| <= |s.clients|
  {
    SubsetSize(t.clients.Keys, s.clients.Keys);
  }

  lemma {:induction false} SubsetSize<T>(a: set<T>, b: set<T>)
    requires a <= b
    ensures |a| <= |b|
  {
    if a != {} {
      var x :| x in a;
      SubsetSize(a - {x}, b - {x});
    }
  }

  lemma AdmitSize(q: RoomState, reg: RegisterMsg, k: Addr, now: int, rnd: Random)
    ensures |Admit(q, reg, k, now, rnd).0.clients| <= |q.clients| + 1
    ensures Admit(q, reg, k, now, rnd).0.cfg == q.cfg
  {
    var o := FirstFree(q.used, 2);
    if o.Some? && rnd.token.Some? {
      var v := HostIn(q.cfg.net, o.value);
      assert q.clients[v := q.next].Keys == q.clients.Keys + {v};
    }
  }

  ghost predicate WithinLimit(s: RoomState, t: RoomState) {
    t.cfg == s.cfg && |t.clients| <= Max(s.cfg.maxPlayers, |s.clients|)
  }

  lemma AuthResponseSize(s: RoomState, resp: AuthMsg, from: Addr, now: int, rnd: Random, pick: Addr)
    requires Inv(s)
    ensures WithinLimit(s, AuthResponse(s, resp, from, now, rnd, pick).0)
  {
    var at := PendingFor(s, resp, from, pick);
    if |resp.hmac| != 32 || at.None? {
      AuthAbnormalQuiet(s, resp, from, now, rnd, pick);
      FewerSeats(s, AuthResponse(s, resp, from, now, rnd, pick).0);
    } else if Accepted(s, resp, now, at.value) {
      var c := s.store[s.addrMap[at.value]];
      AcceptedAdmits(s, resp, from, now, rnd, at.value);
      VacatedQuiet(s, from, at.value);
      FewerSeats(s, Vacated(s, from, at.value));
      AdmitSize(Vacated(s, from, at.value), RegisterMsg(c.roomId, c.name, c.version), from, now, rnd);
    } else {
      RefusedQuiet(s, resp, from, now, rnd, at.value);
      FewerSeats(s, AuthPending(s, resp, from, now, rnd, at.value).0);
    }
  }

  lemma HandleSize(s: RoomState, e: Event)
    requires Inv(s)
    ensures WithinLimit(s, Handle(s, e).0)
  {
    match e
    case EvRegister(reg, from, now, rateOk, rnd, pick) =>
      var q := RegisterShape(s, reg, from, now, rateOk, rnd, pick);
      FewerSeats(s, q);
      AdmitSize(q, reg, from, now, rnd);
    case EvAuthResponse(resp, from, now, rnd, pick) => AuthResponseSize(s, resp, from, now, rnd, pick);
    case _ => OtherQuiet(s, e); FewerSeats(s, Handle(s, e).0);
  }

  /** No run seats more than the larger of the configured limit and what it started with. */
  lemma {:induction false} RunSize(s: RoomState, es: seq<Event>)
    requires Inv(s) && TimelyRun(s, es)
    ensures WithinLimit(s, Run(s, es))
    decreases |es|
  {
    if es != [] {
      ClockKeeps(s, es[0].now);
      HandleSize(s.(clock := es[0].now), es[0]);
      StepKeeps(s, es[0]);
      RunSize(Step(s, es[0]), es[1..]);
    }
  }

  lemma {:induction false} OctetRange(os: set<int>, lo: int, hi: int)
    requires lo <= hi && forall o :: o in os ==> lo <= o < hi
    ensures |os| <= hi - lo
    decreases hi - lo
  {
    if lo < hi {
      OctetRange(os - {lo}, lo + 1, hi);
    } else {
      assert os == {};
    }
  }

  lemma {:induction false} DistinctOctets(net: Net24, vs: set<Ip4>)
    requires forall v :: v in vs ==> v == HostIn(net, v.d)
    ensures |(set v | v in vs :: v.d)| == |vs|
  {
    if vs != {} {
      var v :| v in vs;
      DistinctOctets(net, vs - {v});
      assert (set w | w in vs :: w.d) == (set w | w in vs - {v} :: w.d) + {v.d};
    }
  }

  /** A consistent room seats at most 253: one per octet 2..254. */
  lemma AtMost253(s: RoomState)
    requires Inv(s)
    ensures |s.clients| <= 253
  {
    assert forall v :: v in s.clients.Keys ==> SeatOk(s, v);
    DistinctOctets(s.cfg.net, s.clients.Keys);
    OctetRange(set v | v in s.clients.Keys :: v.d, 2, 255);
  }
}
