/**
 What every run of a room keeps: the address map points only at objects that
 answer at that address and, once admitted, are seated; the octet set is exactly
 the reserved octets and the seated ones; counters stay within their limits.
 */
module RoomInvariant {
  import opened Base
  import opened RoomModel

  /** `id` is seated: the client table holds this very object under its virtual IP. */
  predicate Seated(s: RoomState, id: Id) {
    && id in s.store
    && s.store[id].vip.Some?
    && s.store[id].vip.value in s.clients
    && s.clients[s.store[id].vip.value] == id
  }

  predicate Waiting(s: RoomState, id: Id) {
    id in s.store && s.store[id].auth == ChallengeSent && s.store[id].vip.None?
  }

  predicate EntryOk(s: RoomState, k: Addr) {
    && k in s.addrMap
    && s.addrMap[k] in s.store
    && s.store[s.addrMap[k]].addr == Some(k)
    && (Waiting(s, s.addrMap[k]) || (s.store[s.addrMap[k]].auth == AuthNone && Seated(s, s.addrMap[k])))
  }

  predicate SeatOk(s: RoomState, v: Ip4) {
    && v in s.clients
    && s.clients[v] in s.store
    && s.store[s.clients[v]].auth == AuthNone
    && s.store[s.clients[v]].vip == Some(v)
    && v == HostIn(s.cfg.net, v.d)
    && 2 <= v.d < 255
  }

  ghost predicate AddrOk(s: RoomState) { forall k :: k in s.addrMap ==> EntryOk(s, k) }

  ghost predicate SeatsOk(s: RoomState) { forall v :: v in s.clients ==> SeatOk(s, v) }

  predicate OctetHeld(s: RoomState, o: int) {
    o in RESERVED || (0 <= o < 256 && HostIn(s.cfg.net, o) in s.clients)
  }

  ghost predicate UsedOk(s: RoomState) { forall o :: o in s.used <==> OctetHeld(s, o) }

  ghost predicate CountsOk(s: RoomState) {
    && s.pending <= Max(0, s.cfg.MaxPending())
    && forall ip :: ip in s.conns ==> 1 <= s.conns[ip] <= s.cfg.maxPerIP
  }

  ghost predicate FreshOk(s: RoomState) { forall id :: id in s.store ==> id < s.next }

  /** A scanned client still in its seat was either seen after the scan or still
      answers at the address the scan wrote down. */
  predicate RecordOk(s: RoomState, at: int, r: StaleClient) {
    && r.id in s.store
    && ((r.vip in s.clients && s.clients[r.vip] == r.id) ==>
          (s.store[r.id].lastSeen >= at || s.store[r.id].addr == r.addr))
  }

  predicate AuthRecordOk(s: RoomState, r: StaleAuth) {
    r.id in s.store && s.store[r.id].auth == ChallengeSent && r.ip == r.key.ip
  }

  ghost predicate ScanOk(s: RoomState) {
    s.scan.Some? ==>
      && s.scan.value.at <= s.clock
      && (forall r :: r in s.scan.value.members ==> RecordOk(s, s.scan.value.at, r))
      && (forall r :: r in s.scan.value.auths ==> AuthRecordOk(s, r))
  }

  ghost predicate Inv(s: RoomState) {
    AddrOk(s) && SeatsOk(s) && UsedOk(s) && CountsOk(s) && FreshOk(s) && ScanOk(s)
  }

  // ── The primitive updates keep the invariant ───────────────────

  lemma UnmapKeeps(s: RoomState, k: Addr)
    requires Inv(s)
    ensures Inv(Unmap(s, k))
  {
    var t := Unmap(s, k);
    assert forall j :: j in t.addrMap ==> EntryOk(s, j);
  }

  lemma CountersKeep(s: RoomState, t: RoomState)
    requires Inv(s) && CountsOk(t) && t == s.(conns := t.conns, pending := t.pending)
    ensures Inv(t)
  {
    assert forall k :: k in t.addrMap ==> EntryOk(s, k);
    assert forall v :: v in t.clients ==> SeatOk(s, v);
    assert forall o :: OctetHeld(s, o) == OctetHeld(t, o);
    if s.scan.Some? {
      assert forall r :: r in s.scan.value.members ==> RecordOk(s, s.scan.value.at, r);
      assert forall r :: r in s.scan.value.auths ==> AuthRecordOk(s, r);
    }
  }

  /** Only bookkeeping fields of one object change. */
  lemma TouchKeeps(s: RoomState, id: Id, c: Client)
    requires Inv(s) && id in s.store
    requires c == s.store[id].(lastSeen := c.lastSeen, version := c.version)
    requires c.lastSeen >= s.clock
    ensures Inv(Put(s, id, c))
  {
    var t := Put(s, id, c);
    assert forall k :: k in t.addrMap ==> EntryOk(s, k);
    assert forall v :: v in t.clients ==> SeatOk(s, v);
    assert forall o :: OctetHeld(s, o) == OctetHeld(t, o);
    if s.scan.Some? {
      assert forall r :: r in s.scan.value.members ==> RecordOk(s, s.scan.value.at, r);
      assert forall r :: r in s.scan.value.auths ==> AuthRecordOk(s, r);
    }
  }

  /** An object has at most one address entry: the one under its own address. */
  lemma OneEntry(s: RoomState, k: Addr, id: Id)
    requires AddrOk(s) && k in s.addrMap && s.addrMap[k] == id
    ensures id in s.store && s.store[id].addr == Some(k)
  {
    assert EntryOk(s, k);
  }

  lemma MoveEntries(s: RoomState, id: Id, k: Addr, seen: int)
    requires AddrOk(s) && id in s.store
    requires Waiting(s, id) || (s.store[id].auth == AuthNone && Seated(s, id))
    ensures AddrOk(MoveTo(s, id, k, seen))
  {
    var t := MoveTo(s, id, k, seen);
    forall j | j in t.addrMap ensures EntryOk(t, j) {
      if j != k {
        assert EntryOk(s, j);
        assert s.addrMap[j] != id;
      }
    }
  }

  lemma MoveSeats(s: RoomState, id: Id, k: Addr, seen: int)
    requires SeatsOk(s) && UsedOk(s) && id in s.store
    ensures SeatsOk(MoveTo(s, id, k, seen)) && UsedOk(MoveTo(s, id, k, seen))
  {
    var t := MoveTo(s, id, k, seen);
    forall v | v in t.clients ensures SeatOk(t, v) { assert SeatOk(s, v); }
    assert forall o :: OctetHeld(s, o) == OctetHeld(t, o);
  }

  lemma MoveScan(s: RoomState, id: Id, k: Addr, seen: int)
    requires ScanOk(s) && SeatsOk(s) && id in s.store && (Waiting(s, id) || seen >= s.clock)
    ensures ScanOk(MoveTo(s, id, k, seen))
  {
    if s.scan.Some? {
      var t := MoveTo(s, id, k, seen);
      forall r | r in s.scan.value.members ensures RecordOk(t, s.scan.value.at, r) {
        assert RecordOk(s, s.scan.value.at, r);
        if r.vip in s.clients { assert SeatOk(s, r.vip); }
      }
      assert forall r :: r in s.scan.value.auths ==> AuthRecordOk(s, r);
    }
  }

  lemma MoveKeeps(s: RoomState, id: Id, k: Addr, seen: int)
    requires Inv(s) && id in s.store
    requires Waiting(s, id) || (s.store[id].auth == AuthNone && Seated(s, id) && seen >= s.clock)
    ensures Inv(MoveTo(s, id, k, seen))
  {
    MoveEntries(s, id, k, seen);
    MoveSeats(s, id, k, seen);
    MoveScan(s, id, k, seen);
  }

  lemma SeatEntries(s: RoomState, c: Client, v: Ip4, k: Addr)
    requires AddrOk(s) && FreshOk(s) && v !in s.clients && c.vip == Some(v) && c.addr == Some(k) && c.auth == AuthNone
    ensures AddrOk(Seat(s, c, v, k)) && FreshOk(Seat(s, c, v, k))
  {
    var t := Seat(s, c, v, k);
    forall j | j in t.addrMap ensures EntryOk(t, j) {
      if j != k { assert EntryOk(s, j); }
    }
  }

  lemma SeatScan(s: RoomState, c: Client, v: Ip4, k: Addr)
    requires ScanOk(s) && FreshOk(s) && v !in s.clients
    ensures ScanOk(Seat(s, c, v, k))
  {
    if s.scan.Some? {
      assert forall r :: r in s.scan.value.members ==> RecordOk(s, s.scan.value.at, r);
      assert forall r :: r in s.scan.value.auths ==> AuthRecordOk(s, r);
    }
  }

  lemma SeatKeeps(s: RoomState, c: Client, o: byte, k: Addr)
    requires Inv(s) && 2 <= o < 255 && o !in s.used
    requires c.vip == Some(HostIn(s.cfg.net, o)) && c.addr == Some(k) && c.auth == AuthNone
    ensures Inv(Seat(s, c, HostIn(s.cfg.net, o), k))
  {
    var v := HostIn(s.cfg.net, o);
    var t := Seat(s, c, v, k);
    assert v !in s.clients by { assert !OctetHeld(s, o); }
    SeatEntries(s, c, v, k);
    SeatScan(s, c, v, k);
    assert s.next !in s.store;
    assert forall w :: w in t.clients && w != v ==> SeatOk(s, w);
    forall p ensures p in t.used <==> OctetHeld(t, p) {
      assert p in s.used <==> OctetHeld(s, p);
    }
  }

  lemma IssueKeeps(s: RoomState, reg: RegisterMsg, k: Addr, now: int, ch: Bytes)
    requires Inv(s) && s.pending < s.cfg.MaxPending()
    ensures Inv(Issue(s, reg, k, now, ch))
  {
    var t := Issue(s, reg, k, now, ch);
    assert s.next !in s.store;
    forall j | j in t.addrMap ensures EntryOk(t, j) {
      if j != k { assert EntryOk(s, j); }
    }
    assert forall v :: v in t.clients ==> SeatOk(s, v);
    assert forall o :: OctetHeld(s, o) == OctetHeld(t, o);
    if s.scan.Some? {
      assert forall r :: r in s.scan.value.members ==> RecordOk(s, s.scan.value.at, r);
      assert forall r :: r in s.scan.value.auths ==> AuthRecordOk(s, r);
    }
  }

  /** A member may be evicted under `k` if `k` is its address or it has none. */
  lemma EvictKeeps(s: RoomState, v: Ip4, k: Addr)
    requires Inv(s) && v in s.clients
    requires s.store[s.clients[v]].addr.None? || s.store[s.clients[v]].addr == Some(k)
    ensures Inv(Evict(s, v, k))
  {
    var t := Evict(s, v, k);
    assert SeatOk(s, v);
    forall j | j in t.addrMap ensures EntryOk(t, j) { assert EntryOk(s, j); }
    assert forall w :: w in t.clients ==> SeatOk(s, w);
    forall p ensures p in t.used <==> OctetHeld(t, p) {
      assert p in s.used <==> OctetHeld(s, p);
    }
    if s.scan.Some? {
      assert forall r :: r in s.scan.value.members ==> RecordOk(s, s.scan.value.at, r);
      assert forall r :: r in s.scan.value.auths ==> AuthRecordOk(s, r);
    }
  }

  lemma CountersBounded(s: RoomState, ip: nat, c: Client)
    requires Inv(s)
    ensures ConnsOf(s, ip) < s.cfg.maxPerIP ==> Inv(AddConn(s, ip))
    ensures Inv(DropConn(s, ip)) && Inv(DropConnOf(s, c)) && Inv(DecPending(s))
  {
    if ConnsOf(s, ip) < s.cfg.maxPerIP { CountersKeep(s, AddConn(s, ip)); }
    CountersKeep(s, DropConn(s, ip));
    CountersKeep(s, DropConnOf(s, c));
    CountersKeep(s, DecPending(s));
  }

  lemma ForgetKeeps(s: RoomState, k: Addr, c: Client)
    requires Inv(s)
    ensures Inv(Forget(s, k, c))
  {
    UnmapKeeps(s, k);
    CountersBounded(Unmap(s, k), 0, c);
    CountersBounded(DecPending(Unmap(s, k)), 0, c);
  }

  lemma AdmitKeeps(s: RoomState, reg: RegisterMsg, k: Addr, now: int, rnd: Random)
    requires Inv(s)
    ensures Inv(Admit(s, reg, k, now, rnd).0)
  {
    var o := FirstFree(s.used, 2);
    if o.Some? && rnd.token.Some? {
      var v := HostIn(s.cfg.net, o.value);
      SeatKeeps(s, Client(reg.name, reg.roomId, reg.version, Some(v), Some(k), now, rnd.token.value,
                          AuthNone, [], 0), o.value, k);
    }
  }

  // ── Every handler keeps the invariant ──────────────────────────

  lemma ResumeKeeps(s: RoomState, v: Ip4, from: Addr, now: int)
    requires Inv(s) && s.clock <= now && v in s.clients && ConnsOf(s, from.ip) < s.cfg.maxPerIP
    ensures Inv(MoveTo(AddConn(s, from.ip), s.clients[v], from, now))
  {
    CountersBounded(s, from.ip, DEAD);
    assert SeatOk(s, v);
    MoveKeeps(AddConn(s, from.ip), s.clients[v], from, now);
  }

  lemma OpenAdmitKeeps(s: RoomState, reg: RegisterMsg, from: Addr, now: int, rnd: Random)
    requires Inv(s) && ConnsOf(s, from.ip) < s.cfg.maxPerIP
    ensures Inv(Admit(AddConn(s, from.ip), reg, from, now, rnd).0)
  {
    CountersBounded(s, from.ip, DEAD);
    AdmitKeeps(AddConn(s, from.ip), reg, from, now, rnd);
  }

  lemma ChallengeKeeps(s: RoomState, reg: RegisterMsg, from: Addr, now: int, ch: Bytes)
    requires Inv(s) && ConnsOf(s, from.ip) < s.cfg.maxPerIP && s.pending < s.cfg.MaxPending()
    ensures Inv(Issue(AddConn(s, from.ip), reg, from, now, ch))
  {
    CountersBounded(s, from.ip, DEAD);
    IssueKeeps(AddConn(s, from.ip), reg, from, now, ch);
  }

  lemma RegisterAtKeeps(s: RoomState, reg: RegisterMsg, from: Addr, now: int, rnd: Random, pick: Ip4)
    requires Inv(s) && s.clock <= now
    ensures Inv(RegisterAt(s, reg, from, now, rnd, pick).0)
  {
    if ConnsOf(s, from.ip) < s.cfg.maxPerIP {
      var waiting := Placeholders(s, reg.name, reg.roomId);
      if waiting != {} {
        ResumeKeeps(s, Choose(waiting, pick), from, now);
      } else if |s.clients| < s.cfg.maxPlayers && !Taken(s, reg.name, reg.roomId) {
        if s.cfg.password == [] {
          OpenAdmitKeeps(s, reg, from, now, rnd);
        } else if s.pending < s.cfg.MaxPending() && rnd.challenge.Some? {
          ChallengeKeeps(s, reg, from, now, rnd.challenge.value);
        }
      }
    }
  }

  lemma RegisterKeeps(s: RoomState, reg: RegisterMsg, from: Addr, now: int, rateOk: bool, rnd: Random, pick: Ip4)
    requires Inv(s) && s.clock <= now
    ensures Inv(Register(s, reg, from, now, rateOk, rnd, pick).0)
  {
    var s1 := if PendingAt(s, from) then Forget(s, from, s.store[s.addrMap[from]]) else s;
    if PendingAt(s, from) { ForgetKeeps(s, from, s.store[s.addrMap[from]]); }
    if from in s1.addrMap {
      var id := s1.addrMap[from];
      assert EntryOk(s1, from);
      TouchKeeps(s1, id, s1.store[id].(lastSeen := now, version := reg.version));
    } else {
      RegisterAtKeeps(s1, reg, from, now, rnd, pick);
    }
  }

  lemma AuthenticatedKeeps(s: RoomState, from: Addr, now: int, rnd: Random, k: Addr)
    requires Inv(s) && s.clock <= now && PendingAt(s, k)
    ensures Inv(Authenticated(s, from, now, rnd, k).0)
  {
    var c := s.store[s.addrMap[k]];
    assert EntryOk(s, k);
    var s1 := if k == from then Unmap(s, from) else MoveTo(s, s.addrMap[k], from, c.lastSeen);
    UnmapKeeps(s, from);
    MoveKeeps(s, s.addrMap[k], from, c.lastSeen);
    CountersBounded(s1, 0, c);
    AdmitKeeps(DecPending(s1), RegisterMsg(c.roomId, c.name, c.version), from, now, rnd);
  }

  lemma AuthPendingKeeps(s: RoomState, resp: AuthMsg, from: Addr, now: int, rnd: Random, k: Addr)
    requires Inv(s) && s.clock <= now && PendingAt(s, k)
    ensures Inv(AuthPending(s, resp, from, now, rnd, k).0)
  {
    var c := s.store[s.addrMap[k]];
    if now - c.challengeAt > 15 * SECOND || s.cfg.password == [] || resp.hmac != ExpectedMac(s, c, resp) {
      ForgetKeeps(s, k, c);
    } else if |s.clients| >= s.cfg.maxPlayers || Taken(s, resp.name, resp.roomId) {
      CountersBounded(s, 0, c);
    } else {
      AuthenticatedKeeps(s, from, now, rnd, k);
    }
  }

  lemma AuthResponseKeeps(s: RoomState, resp: AuthMsg, from: Addr, now: int, rnd: Random, pick: Addr)
    requires Inv(s) && s.clock <= now
    ensures Inv(AuthResponse(s, resp, from, now, rnd, pick).0)
  {
    var at := PendingFor(s, resp, from, pick);
    if at.Some? {
      AuthPendingKeeps(s, resp, from, now, rnd, at.value);
    } else if from in s.addrMap {
      ForgetKeeps(s, from, s.store[s.addrMap[from]]);
    }
  }

  lemma DisconnectKeeps(s: RoomState, from: Addr)
    requires Inv(s)
    ensures Inv(Disconnect(s, from))
  {
    if from in s.addrMap {
      assert EntryOk(s, from);
      var c := s.store[s.addrMap[from]];
      if c.auth == ChallengeSent {
        ForgetKeeps(s, from, c);
      } else {
        EvictKeeps(s, c.vip.value, from);
        CountersBounded(Evict(s, c.vip.value, from), 0, c);
      }
    }
  }

  lemma MigrateKeeps(s: RoomState, payload: Bytes, from: Addr, now: int)
    requires Inv(s) && s.clock <= now && |payload| >= 8
    ensures Inv(Migrate(s, payload, from, now).0)
  {
    var src := Ip4At(payload, 0);
    if src in s.clients {
      assert SeatOk(s, src);
      MoveKeeps(s, s.clients[src], from, now);
    }
  }

  lemma RebindKeeps(s: RoomState, v: Ip4, hmac: Bytes, from: Addr, now: int)
    requires Inv(s) && s.clock <= now
    ensures Inv(Rebind(s, v, hmac, from, now).0)
  {
    if v in s.clients {
      assert SeatOk(s, v);
      MoveKeeps(s, s.clients[v], from, now);
    }
  }

  const DEAD: Client := Client("", [], 0, None, None, 0, [], AuthNone, [], 0)

  // ── The two-phase stale sweep ──────────────────────────────────

  lemma {:induction false} ScanRecordsMembers(s: RoomState, vips: seq<Ip4>, now: int)
    requires Inv(s)
    ensures forall r :: r in ScanMembers(s, vips, now) ==>
              StaleMember(s, r.vip, now) && r.id == s.clients[r.vip] && r.addr == s.store[r.id].addr
  {
    if vips != [] { ScanRecordsMembers(s, vips[1..], now); }
  }

  lemma {:induction false} ScanRecordsAuths(s: RoomState, keys: seq<Addr>, now: int)
    requires Inv(s)
    ensures forall r :: r in ScanAuths(s, keys, now) ==>
              StalePending(s, r.key, now) && r.id == s.addrMap[r.key] && AuthRecordOk(s, r)
  {
    if keys != [] {
      ScanRecordsAuths(s, keys[1..], now);
      if StalePending(s, keys[0], now) { assert EntryOk(s, keys[0]); }
    }
  }

  lemma ScanKeeps(s: RoomState, vips: seq<Ip4>, keys: seq<Addr>, now: int)
    requires Inv(s) && s.clock == now
    ensures Inv(StaleScan(s, vips, keys, now))
  {
    var t := StaleScan(s, vips, keys, now);
    ScanRecordsMembers(s, vips, now);
    ScanRecordsAuths(s, keys, now);
    assert forall k :: k in t.addrMap ==> EntryOk(s, k);
    assert forall v :: v in t.clients ==> SeatOk(s, v);
    assert forall o :: OctetHeld(s, o) == OctetHeld(t, o);
  }

  /** The sweep as one atomic step would do it: everything read now, nothing remembered. */
  function AtomicMember(s: RoomState, r: StaleClient, now: int): RoomState {
    if StaleMember(s, r.vip, now) && s.clients[r.vip] == r.id then
      var c := s.store[r.id];
      var k := if c.addr.Some? then c.addr.value else Addr(0, 0);
      if c.addr.Some? then DropConn(Evict(s, r.vip, k), k.ip)
      else s.(clients := s.clients - {r.vip}, used := s.used - {r.vip.d})
    else s
  }

  function AtomicAuth(s: RoomState, r: StaleAuth): RoomState {
    if r.key in s.addrMap && s.addrMap[r.key] == r.id && r.id in s.store
    then Forget(s, r.key, s.store[r.id]) else s
  }

  /** With the recheck at most 30 s after the scan, the remembered key is the current one. */
  lemma SweepMemberIsAtomic(s: RoomState, r: StaleClient, at: int, now: int)
    requires Inv(s) && RecordOk(s, at, r) && now - at <= 30 * SECOND
    ensures SweepMember(s, r, now) == AtomicMember(s, r, now)
  {
    if StaleMember(s, r.vip, now) && s.clients[r.vip] == r.id {
      assert SeatOk(s, r.vip);
      assert s.store[r.id].addr == r.addr;
    }
  }

  lemma SweepAuthIsAtomic(s: RoomState, r: StaleAuth)
    requires Inv(s) && AuthRecordOk(s, r)
    ensures SweepAuth(s, r) == AtomicAuth(s, r)
  {
    if r.key in s.addrMap && s.addrMap[r.key] == r.id { assert EntryOk(s, r.key); }
  }

  lemma DropSeatKeeps(s: RoomState, v: Ip4)
    requires Inv(s) && v in s.clients && s.store[s.clients[v]].addr.None?
    ensures Inv(s.(clients := s.clients - {v}, used := s.used - {v.d}))
  {
    var t := s.(clients := s.clients - {v}, used := s.used - {v.d});
    assert SeatOk(s, v);
    forall j | j in t.addrMap ensures EntryOk(t, j) { assert EntryOk(s, j); }
    assert forall w :: w in t.clients ==> SeatOk(s, w);
    forall p ensures p in t.used <==> OctetHeld(t, p) {
      assert p in s.used <==> OctetHeld(s, p);
    }
    if s.scan.Some? {
      assert forall r :: r in s.scan.value.members ==> RecordOk(s, s.scan.value.at, r);
      assert forall r :: r in s.scan.value.auths ==> AuthRecordOk(s, r);
    }
  }

  lemma AtomicMemberKeeps(s: RoomState, r: StaleClient, now: int)
    requires Inv(s)
    ensures Inv(AtomicMember(s, r, now))
  {
    if StaleMember(s, r.vip, now) && s.clients[r.vip] == r.id {
      var c := s.store[r.id];
      if c.addr.Some? {
        EvictKeeps(s, r.vip, c.addr.value);
        CountersBounded(Evict(s, r.vip, c.addr.value), c.addr.value.ip, c);
      } else {
        DropSeatKeeps(s, r.vip);
      }
    }
  }

  /** Removing one stale client leaves the records of the others good. */
  lemma AtomicMemberKeepsRecords(s: RoomState, r: StaleClient, now: int, at: int)
    ensures forall q :: RecordOk(s, at, q) ==> RecordOk(AtomicMember(s, r, now), at, q)
    ensures forall q :: AuthRecordOk(s, q) ==> AuthRecordOk(AtomicMember(s, r, now), q)
  {
  }

  function AtomicMembers(s: RoomState, rs: seq<StaleClient>, now: int): RoomState
    decreases |rs|
  {
    if rs == [] then s else AtomicMembers(AtomicMember(s, rs[0], now), rs[1..], now)
  }

  function AtomicAuths(s: RoomState, rs: seq<StaleAuth>): RoomState
    decreases |rs|
  {
    if rs == [] then s else AtomicAuths(AtomicAuth(s, rs[0]), rs[1..])
  }

  lemma {:induction false} SweepMembersAreAtomic(s: RoomState, rs: seq<StaleClient>, qs: seq<StaleAuth>, at: int, now: int)
    requires Inv(s) && now - at <= 30 * SECOND
    requires forall r :: r in rs ==> RecordOk(s, at, r)
    requires forall r :: r in qs ==> AuthRecordOk(s, r)
    ensures SweepMembers(s, rs, now) == AtomicMembers(s, rs, now)
    ensures Inv(SweepMembers(s, rs, now))
    ensures forall r :: r in qs ==> AuthRecordOk(SweepMembers(s, rs, now), r)
    decreases |rs|
  {
    if rs != [] {
      SweepMemberIsAtomic(s, rs[0], at, now);
      AtomicMemberKeeps(s, rs[0], now);
      AtomicMemberKeepsRecords(s, rs[0], now, at);
      SweepMembersAreAtomic(AtomicMember(s, rs[0], now), rs[1..], qs, at, now);
    }
  }

  lemma {:induction false} SweepAuthsAreAtomic(s: RoomState, rs: seq<StaleAuth>)
    requires Inv(s) && forall r :: r in rs ==> AuthRecordOk(s, r)
    ensures SweepAuths(s, rs) == AtomicAuths(s, rs)
    ensures Inv(SweepAuths(s, rs))
    decreases |rs|
  {
    if rs != [] {
      SweepAuthIsAtomic(s, rs[0]);
      ForgetKeeps(s, rs[0].key, s.store[rs[0].id]);
      assert forall r :: r in rs[1..] ==> r in rs && AuthRecordOk(s, r);
      SweepAuthsAreAtomic(AtomicAuth(s, rs[0]), rs[1..]);
    }
  }

  lemma EndScanKeeps(s: RoomState)
    requires Inv(s)
    ensures Inv(s.(scan := None))
  {
    var t := s.(scan := None);
    assert forall k :: k in t.addrMap ==> EntryOk(s, k);
    assert forall v :: v in t.clients ==> SeatOk(s, v);
    assert forall o :: OctetHeld(s, o) == OctetHeld(t, o);
  }

  /** The two-phase sweep is the atomic sweep of the clients it scanned. */
  lemma SweepIsAtomic(s: RoomState, now: int)
    requires Inv(s) && s.scan.Some? && now - s.scan.value.at <= 30 * SECOND
    ensures StaleSweep(s, now) ==
              AtomicAuths(AtomicMembers(s.(scan := None), s.scan.value.members, now), s.scan.value.auths)
    ensures Inv(StaleSweep(s, now))
  {
    var t := s.(scan := None);
    var sc := s.scan.value;
    EndScanKeeps(s);
    assert forall r :: r in sc.members ==> RecordOk(s, sc.at, r);
    assert forall r :: r in sc.auths ==> AuthRecordOk(s, r);
    SweepMembersAreAtomic(t, sc.members, sc.auths, sc.at, now);
    SweepAuthsAreAtomic(SweepMembers(t, sc.members, now), sc.auths);
  }

  // ── Every step, every run ──────────────────────────────────────

  lemma ClockKeeps(s: RoomState, now: int)
    requires Inv(s) && s.clock <= now
    ensures Inv(s.(clock := now))
  {
    var t := s.(clock := now);
    assert forall k :: k in t.addrMap ==> EntryOk(s, k);
    assert forall v :: v in t.clients ==> SeatOk(s, v);
    assert forall o :: OctetHeld(s, o) == OctetHeld(t, o);
    if s.scan.Some? {
      assert forall r :: r in s.scan.value.members ==> RecordOk(s, s.scan.value.at, r);
      assert forall r :: r in s.scan.value.auths ==> AuthRecordOk(s, r);
    }
  }

  lemma HandleKeeps(s: RoomState, e: Event)
    requires Inv(s) && Timely(s, e) && s.clock == e.now
    ensures Inv(Handle(s, e).0)
  {
    match e
    case EvRegister(reg, from, now, rateOk, rnd, pick) => RegisterKeeps(s, reg, from, now, rateOk, rnd, pick);
    case EvAuthResponse(resp, from, now, rnd, pick) => AuthResponseKeeps(s, resp, from, now, rnd, pick);
    case EvKeepAlive(from, now) =>
      if from in s.addrMap {
        assert EntryOk(s, from);
        TouchKeeps(s, s.addrMap[from], s.store[s.addrMap[from]].(lastSeen := now));
      }
    case EvDisconnect(from, now) => DisconnectKeeps(s, from);
    case EvRelay(payload, from, now) => if |payload| >= 8 { MigrateKeeps(s, payload, from, now); }
    case EvRebind(v, hmac, from, now) => RebindKeeps(s, v, hmac, from, now);
    case EvStaleScan(vips, keys, now) => ScanKeeps(s, vips, keys, now);
    case EvStaleSweep(now) => if s.scan.Some? { SweepIsAtomic(s, now); }
  }

  /** A sweep only takes away: seats, address entries; objects and time stay. */
  lemma {:induction false} SweepMembersFrame(s: RoomState, rs: seq<StaleClient>, now: int)
    ensures var t := SweepMembers(s, rs, now);
            t.clock == s.clock && t.cfg == s.cfg && t.store == s.store && t.next == s.next
            && t.clients.Items <= s.clients.Items && t.addrMap.Items <= s.addrMap.Items
    decreases |rs|
  {
    if rs != [] { SweepMembersFrame(SweepMember(s, rs[0], now), rs[1..], now); }
  }

  lemma {:induction false} SweepAuthsFrame(s: RoomState, rs: seq<StaleAuth>)
    ensures var t := SweepAuths(s, rs);
            t.clock == s.clock && t.cfg == s.cfg && t.store == s.store && t.next == s.next
            && t.clients == s.clients && t.addrMap.Items <= s.addrMap.Items
    decreases |rs|
  {
    if rs != [] { SweepAuthsFrame(SweepAuth(s, rs[0]), rs[1..]); }
  }

  lemma StepKeeps(s: RoomState, e: Event)
    requires Inv(s) && Timely(s, e)
    ensures Inv(Step(s, e))
  {
    ClockKeeps(s, e.now);
    HandleKeeps(s.(clock := e.now), e);
  }

  /** Main theorem: whatever the clients send, in whatever order, a room stays consistent. */
  lemma {:induction false} RunKeeps(s: RoomState, es: seq<Event>)
    requires Inv(s) && TimelyRun(s, es)
    ensures Inv(Run(s, es))
    decreases |es|
  {
    if es != [] {
      StepKeeps(s, es[0]);
      RunKeeps(Step(s, es[0]), es[1..]);
    }
  }
}
