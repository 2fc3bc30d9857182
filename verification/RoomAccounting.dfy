/**
 Conservation of the room's counters. A room is balanced when every per-IP count
 equals the number of address entries from that IP, the pending counter equals
 the number of challenge-state entries, and every addressed member has its entry.
 From a balanced room a step leads to a balanced room exactly when it is not one
 of the leaking steps, which can be told from the state before the step.
 */
module RoomAccounting {
  import opened Base
  import opened RoomModel
  import opened RoomInvariant
  import opened RoomHistory

  ghost function EntriesFrom(m: map<Addr, Id>, ip: nat): set<Addr> { set k | k in m && k.ip == ip }

  ghost function PendingKeys(s: RoomState): set<Addr> { set k | k in s.addrMap && PendingAt(s, k) }

  /** How much each counter claims beyond what the address map holds. */
  ghost function Debt(s: RoomState, ip: nat): int { ConnsOf(s, ip) - |EntriesFrom(s.addrMap, ip)| }

  ghost function PendingDebt(s: RoomState): int { s.pending - |PendingKeys(s)| }

  predicate MemberMapped(s: RoomState, v: Ip4) {
    Addressed(s, v) ==>
      var k := s.store[s.clients[v]].addr.value;
      k in s.addrMap && s.addrMap[k] == s.clients[v]
  }

  ghost predicate Mapped(s: RoomState) { forall v :: v in s.clients ==> MemberMapped(s, v) }

  /** The counters are exact. */
  ghost predicate Exact(s: RoomState) { (forall ip: nat :: Debt(s, ip) == 0) && PendingDebt(s) == 0 }

  /** The counters are exact, and stay so when members leave: every addressed member has its entry. */
  ghost predicate Balanced(s: RoomState) { Exact(s) && Mapped(s) }

  /** Balanced but for one per-IP slot that has no entry yet. */
  ghost predicate Owing(s: RoomState, ip: nat) {
    (forall j: nat :: Debt(s, j) == if j == ip then 1 else 0) && PendingDebt(s) == 0 && Mapped(s)
  }

  // ── What each primitive does to the debts ──────────────────────

  lemma EntriesWithout(m: map<Addr, Id>, k: Addr, ip: nat)
    requires k in m
    ensures |EntriesFrom(m, ip)| == |EntriesFrom(m - {k}, ip)| + if ip == k.ip then 1 else 0
  {
    var before, after := EntriesFrom(m, ip), EntriesFrom(m - {k}, ip);
    if ip == k.ip { assert before == after + {k}; } else { assert before == after; }
  }

  /** `s` and `t` differ by the one entry `k` of `t`; the others keep their auth state. */
  lemma PendingWithout(s: RoomState, t: RoomState, k: Addr)
    requires k in t.addrMap && t.addrMap - {k} == s.addrMap
    requires forall j :: j in s.addrMap ==> PendingAt(t, j) == PendingAt(s, j)
    ensures |PendingKeys(t)| == |PendingKeys(s)| + if PendingAt(t, k) then 1 else 0
  {
    assert forall j :: j in s.addrMap <==> j in t.addrMap && j != k;
    if PendingAt(t, k) { assert PendingKeys(t) == PendingKeys(s) + {k}; } else { assert PendingKeys(s) == PendingKeys(t); }
  }

  lemma UnmapDebt(s: RoomState, k: Addr)
    requires k in s.addrMap
    ensures forall ip: nat :: Debt(Unmap(s, k), ip) == Debt(s, ip) + if ip == k.ip then 1 else 0
    ensures PendingDebt(Unmap(s, k)) == PendingDebt(s) + if PendingAt(s, k) then 1 else 0
  {
    forall ip: nat ensures Debt(Unmap(s, k), ip) == Debt(s, ip) + if ip == k.ip then 1 else 0 {
      EntriesWithout(s.addrMap, k, ip);
    }
    PendingWithout(Unmap(s, k), s, k);
  }

  /** A new entry under `k`; every other entry keeps its object and auth state. */
  lemma InsertDebt(s: RoomState, t: RoomState, k: Addr)
    requires k !in s.addrMap && k in t.addrMap && t.addrMap - {k} == s.addrMap
    requires t.conns == s.conns && t.pending == s.pending
    requires forall j :: j in s.addrMap ==> PendingAt(t, j) == PendingAt(s, j)
    ensures forall ip: nat :: Debt(t, ip) == Debt(s, ip) - if ip == k.ip then 1 else 0
    ensures PendingDebt(t) == PendingDebt(s) - if PendingAt(t, k) then 1 else 0
  {
    forall ip: nat ensures Debt(t, ip) == Debt(s, ip) - if ip == k.ip then 1 else 0 {
      EntriesWithout(t.addrMap, k, ip);
    }
    PendingWithout(s, t, k);
  }

  /** Nothing but counters and untracked fields differs. */
  lemma SameEntries(s: RoomState, t: RoomState)
    requires t.addrMap == s.addrMap && t.store == s.store
    ensures PendingKeys(t) == PendingKeys(s)
    ensures t.clients == s.clients ==> Mapped(t) == Mapped(s)
  {
    assert forall k :: PendingAt(t, k) == PendingAt(s, k);
    if t.clients == s.clients { assert forall v :: MemberMapped(t, v) == MemberMapped(s, v); }
  }

  lemma AddConnDebt(s: RoomState, ip: nat)
    ensures forall j: nat :: Debt(AddConn(s, ip), j) == Debt(s, j) + if j == ip then 1 else 0
    ensures PendingDebt(AddConn(s, ip)) == PendingDebt(s) && Mapped(AddConn(s, ip)) == Mapped(s)
  {
    SameEntries(s, AddConn(s, ip));
  }

  lemma DropConnDebt(s: RoomState, ip: nat)
    requires ConnsOf(s, ip) > 0
    ensures forall j: nat :: Debt(DropConn(s, ip), j) == Debt(s, j) - if j == ip then 1 else 0
    ensures PendingDebt(DropConn(s, ip)) == PendingDebt(s) && Mapped(DropConn(s, ip)) == Mapped(s)
  {
    SameEntries(s, DropConn(s, ip));
  }

  lemma DecPendingDebt(s: RoomState)
    requires s.pending > 0
    ensures forall j: nat :: Debt(DecPending(s), j) == Debt(s, j)
    ensures PendingDebt(DecPending(s)) == PendingDebt(s) - 1 && Mapped(DecPending(s)) == Mapped(s)
  {
    SameEntries(s, DecPending(s));
  }

  /** Dropping an entry that no seated member answers for keeps members mapped. */
  lemma UnmapMapped(s: RoomState, k: Addr)
    requires Mapped(s) && (k in s.addrMap ==> forall v :: v in s.clients ==> s.clients[v] != s.addrMap[k])
    ensures Mapped(Unmap(s, k))
  {
    forall v | v in s.clients ensures MemberMapped(Unmap(s, k), v) { assert MemberMapped(s, v); }
  }

  lemma PendingCounted(s: RoomState, k: Addr)
    requires PendingAt(s, k) && Debt(s, k.ip) >= 0 && PendingDebt(s) >= 0
    ensures ConnsOf(s, k.ip) > 0 && s.pending > 0
  {
    assert k in EntriesFrom(s.addrMap, k.ip);
    assert k in PendingKeys(s);
  }

  lemma EntryCounted(s: RoomState, k: Addr)
    requires k in s.addrMap && Debt(s, k.ip) >= 0
    ensures ConnsOf(s, k.ip) > 0
  {
    assert k in EntriesFrom(s.addrMap, k.ip);
  }

  // ── Balanced moves ─────────────────────────────────────────────

  lemma PendingHasNoSeat(s: RoomState, k: Addr)
    requires AddrOk(s) && SeatsOk(s) && PendingAt(s, k)
    ensures forall v :: v in s.clients ==> s.clients[v] != s.addrMap[k]
    ensures s.store[s.addrMap[k]].addr == Some(k)
  {
    assert EntryOk(s, k);
    forall v | v in s.clients ensures s.clients[v] != s.addrMap[k] { assert SeatOk(s, v); }
  }

  lemma ForgetBalanced(s: RoomState, k: Addr)
    requires Inv(s) && Balanced(s) && PendingAt(s, k)
    ensures Balanced(Forget(s, k, s.store[s.addrMap[k]]))
  {
    PendingCounted(s, k);
    PendingHasNoSeat(s, k);
    UnmapDebt(s, k);
    UnmapMapped(s, k);
    var s1 := Unmap(s, k);
    DecPendingDebt(s1);
    DropConnDebt(DecPending(s1), k.ip);
  }

  lemma AddConnOwes(s: RoomState, ip: nat)
    requires Balanced(s)
    ensures Owing(AddConn(s, ip), ip)
  {
    AddConnDebt(s, ip);
  }

  /** A fresh member takes up the owed slot. */
  lemma SeatPays(s: RoomState, c: Client, o: byte, k: Addr)
    requires Inv(s) && Owing(s, k.ip) && k !in s.addrMap && 2 <= o < 255 && o !in s.used
    requires c.addr == Some(k) && c.auth == AuthNone
    ensures Balanced(Seat(s, c, HostIn(s.cfg.net, o), k))
  {
    var v := HostIn(s.cfg.net, o);
    var t := Seat(s, c, v, k);
    assert !OctetHeld(s, o);
    forall j | j in s.addrMap ensures PendingAt(t, j) == PendingAt(s, j) { assert EntryOk(s, j); }
    InsertDebt(s, t, k);
    forall w | w in t.clients ensures MemberMapped(t, w) {
      if w != v { assert MemberMapped(s, w); assert SeatOk(s, w); }
    }
  }

  lemma IssuePays(s: RoomState, reg: RegisterMsg, k: Addr, now: int, ch: Bytes)
    requires AddrOk(s) && SeatsOk(s) && FreshOk(s) && Owing(s, k.ip) && k !in s.addrMap
    ensures Balanced(Issue(s, reg, k, now, ch))
  {
    var t := Issue(s, reg, k, now, ch);
    var u := t.(pending := s.pending);
    forall j | j in s.addrMap ensures PendingAt(u, j) == PendingAt(s, j) { assert EntryOk(s, j); }
    InsertDebt(s, u, k);
    assert forall ip: nat :: Debt(t, ip) == Debt(u, ip);
    assert PendingKeys(t) == PendingKeys(u) by { SameEntries(u, t); }
    forall w | w in t.clients ensures MemberMapped(t, w) { assert MemberMapped(s, w); assert SeatOk(s, w); }
  }

  // ── Address changes ────────────────────────────────────────────

  /** A seated member without an address takes up the owed slot. */
  lemma ResumePays(s: RoomState, v: Ip4, k: Addr, seen: int)
    requires AddrOk(s) && SeatsOk(s) && v in s.clients && s.store[s.clients[v]].addr.None? && k !in s.addrMap
    ensures var t := MoveTo(s, s.clients[v], k, seen);
            && (forall ip: nat :: Debt(t, ip) == Debt(s, ip) - if ip == k.ip then 1 else 0)
            && PendingDebt(t) == PendingDebt(s) && (Mapped(s) ==> Mapped(t))
  {
    var id := s.clients[v];
    var t := MoveTo(s, id, k, seen);
    assert SeatOk(s, v);
    forall j | j in s.addrMap ensures PendingAt(t, j) == PendingAt(s, j) { assert EntryOk(s, j); }
    InsertDebt(s, t, k);
    if Mapped(s) {
      forall w | w in t.clients ensures MemberMapped(t, w) { assert MemberMapped(s, w); assert SeatOk(s, w); }
    }
  }

  /** A mapped member that moves to a free address carries its slot along. */
  lemma MoveDebt(s: RoomState, v: Ip4, k: Addr, seen: int)
    requires AddrOk(s) && SeatsOk(s) && Mapped(s) && Addressed(s, v) && k !in s.addrMap
    ensures var t := MoveTo(s, s.clients[v], k, seen);
            var a := s.store[s.clients[v]].addr.value;
            && (forall ip: nat :: Debt(t, ip) == Debt(s, ip) + (if ip == a.ip then 1 else 0) - (if ip == k.ip then 1 else 0))
            && PendingDebt(t) == PendingDebt(s) && Mapped(t)
  {
    var id := s.clients[v];
    var a := s.store[id].addr.value;
    var t := MoveTo(s, id, k, seen);
    var u := Unmap(s, a);
    assert SeatOk(s, v) && MemberMapped(s, v);
    UnmapDebt(s, a);
    forall j | j in u.addrMap ensures PendingAt(t, j) == PendingAt(u, j) { assert EntryOk(s, j); }
    InsertDebt(u, t, k);
    forall w | w in t.clients ensures MemberMapped(t, w) { assert MemberMapped(s, w); assert SeatOk(s, w); }
  }

  /** Taking over an address another client answers at unbalances the room. */
  lemma TakeoverUnbalances(s: RoomState, v: Ip4, k: Addr, seen: int)
    requires Inv(s) && Balanced(s) && v in s.clients && k in s.addrMap && s.addrMap[k] != s.clients[v]
    ensures !Balanced(MoveTo(s, s.clients[v], k, seen))
  {
    assert EntryOk(s, k) && SeatOk(s, v);
    if PendingAt(s, k) {
      PendingLost(s, v, k, seen);
    } else {
      assert !MemberMapped(MoveTo(s, s.clients[v], k, seen), s.store[s.addrMap[k]].vip.value);
    }
  }

  lemma PendingLostKeys(s: RoomState, v: Ip4, k: Addr, seen: int)
    requires AddrOk(s) && SeatsOk(s) && v in s.clients && MemberMapped(s, v) && PendingAt(s, k)
    ensures var t := MoveTo(s, s.clients[v], k, seen); PendingKeys(s) == PendingKeys(t) + {k} && k !in PendingKeys(t)
  {
    var t := MoveTo(s, s.clients[v], k, seen);
    assert SeatOk(s, v);
    forall j | j in s.addrMap && j != k ensures (j in t.addrMap && PendingAt(t, j)) == PendingAt(s, j) {
      assert EntryOk(s, j);
    }
  }

  lemma PendingLost(s: RoomState, v: Ip4, k: Addr, seen: int)
    requires AddrOk(s) && SeatsOk(s) && v in s.clients && MemberMapped(s, v) && PendingAt(s, k)
    ensures var t := MoveTo(s, s.clients[v], k, seen); PendingDebt(t) == PendingDebt(s) + 1
  {
    PendingLostKeys(s, v, k, seen);
  }

  lemma StayBalanced(s: RoomState, v: Ip4, k: Addr, seen: int)
    requires Inv(s) && Balanced(s) && v in s.clients && s.store[s.clients[v]].addr == Some(k)
    ensures Balanced(MoveTo(s, s.clients[v], k, seen))
  {
    var id := s.clients[v];
    var t := MoveTo(s, id, k, seen);
    assert SeatOk(s, v) && MemberMapped(s, v);
    assert t.addrMap == s.addrMap;
    forall j | j in s.addrMap ensures PendingAt(t, j) == PendingAt(s, j) { assert EntryOk(s, j); }
    assert PendingKeys(t) == PendingKeys(s);
    assert forall ip: nat :: Debt(t, ip) == Debt(s, ip);
    forall w | w in t.clients ensures MemberMapped(t, w) { assert MemberMapped(s, w); assert SeatOk(s, w); }
  }

  /** Moving keeps the balance iff the member stays put, or moves to a free port of the same IP. */
  predicate MoveIsFree(s: RoomState, v: Ip4, k: Addr)
    requires v in s.clients && s.clients[v] in s.store
  {
    var a := s.store[s.clients[v]].addr;
    a == Some(k) || (k !in s.addrMap && a.Some? && a.value.ip == k.ip)
  }

  lemma MoveBalanced(s: RoomState, v: Ip4, k: Addr, seen: int)
    requires Inv(s) && Balanced(s) && v in s.clients
    ensures s.clients[v] in s.store
    ensures Balanced(MoveTo(s, s.clients[v], k, seen)) <==> MoveIsFree(s, v, k)
  {
    assert SeatOk(s, v);
    var a := s.store[s.clients[v]].addr;
    var t := MoveTo(s, s.clients[v], k, seen);
    if a == Some(k) {
      StayBalanced(s, v, k, seen);
    } else if k in s.addrMap {
      assert EntryOk(s, k);
      TakeoverUnbalances(s, v, k, seen);
    } else if a.Some? {
      MoveDebt(s, v, k, seen);
      assert a.value.ip != k.ip ==> Debt(t, k.ip) == -1;
    } else {
      ResumePays(s, v, k, seen);
      assert Debt(t, k.ip) == -1;
    }
  }

  // ── Departures ─────────────────────────────────────────────────

  lemma EvictBalanced(s: RoomState, v: Ip4, k: Addr)
    requires Inv(s) && Balanced(s) && v in s.clients && s.store[s.clients[v]].addr == Some(k)
    ensures Balanced(DropConn(Evict(s, v, k), k.ip))
  {
    assert SeatOk(s, v) && MemberMapped(s, v);
    var u := Unmap(s, k);
    var t := Evict(s, v, k);
    UnmapDebt(s, k);
    EntryCounted(s, k);
    assert PendingKeys(t) == PendingKeys(u) by { SameEntries(u, t); }
    assert forall ip: nat :: Debt(t, ip) == Debt(u, ip);
    forall w | w in t.clients ensures MemberMapped(t, w) { assert MemberMapped(s, w); assert SeatOk(s, w); }
    DropConnDebt(t, k.ip);
  }

  lemma DropSeatBalanced(s: RoomState, v: Ip4)
    requires Inv(s) && Balanced(s) && v in s.clients && s.store[s.clients[v]].addr.None?
    ensures Balanced(s.(clients := s.clients - {v}, used := s.used - {v.d}))
  {
    var t := s.(clients := s.clients - {v}, used := s.used - {v.d});
    assert PendingKeys(t) == PendingKeys(s) by { SameEntries(s, t); }
    assert forall ip: nat :: Debt(t, ip) == Debt(s, ip);
    forall w | w in t.clients ensures MemberMapped(t, w) { assert MemberMapped(s, w); }
  }

  lemma {:induction false} AtomicMembersBalanced(s: RoomState, rs: seq<StaleClient>, now: int)
    requires Inv(s) && Balanced(s)
    ensures Inv(AtomicMembers(s, rs, now)) && Balanced(AtomicMembers(s, rs, now))
    decreases |rs|
  {
    if rs != [] {
      var r := rs[0];
      AtomicMemberKeeps(s, r, now);
      if StaleMember(s, r.vip, now) && s.clients[r.vip] == r.id {
        if s.store[r.id].addr.Some? {
          EvictBalanced(s, r.vip, s.store[r.id].addr.value);
        } else {
          DropSeatBalanced(s, r.vip);
        }
      }
      AtomicMembersBalanced(AtomicMember(s, r, now), rs[1..], now);
    }
  }

  lemma {:induction false} AtomicAuthsBalanced(s: RoomState, rs: seq<StaleAuth>)
    requires Inv(s) && Balanced(s) && forall r :: r in rs ==> AuthRecordOk(s, r)
    ensures Balanced(AtomicAuths(s, rs))
    decreases |rs|
  {
    if rs != [] {
      var r := rs[0];
      if r.key in s.addrMap && s.addrMap[r.key] == r.id {
        assert AuthRecordOk(s, r);
        ForgetBalanced(s, r.key);
        ForgetKeeps(s, r.key, s.store[r.id]);
      }
      assert forall q :: q in rs[1..] ==> q in rs && AuthRecordOk(s, q);
      AtomicAuthsBalanced(AtomicAuth(s, r), rs[1..]);
    }
  }

  lemma SweepBalanced(s: RoomState, now: int)
    requires Inv(s) && Balanced(s) && s.scan.Some? && now - s.scan.value.at <= 30 * SECOND
    ensures Balanced(StaleSweep(s, now))
  {
    var t := s.(scan := None);
    var sc := s.scan.value;
    SweepIsAtomic(s, now);
    EndScanKeeps(s);
    UntrackedBalanced(s, t);
    assert forall r :: r in sc.auths ==> AuthRecordOk(s, r);
    assert forall r :: r in sc.members ==> RecordOk(s, sc.at, r);
    SweepMembersAreAtomic(t, sc.members, sc.auths, sc.at, now);
    AtomicMembersBalanced(t, sc.members, now);
    AtomicAuthsBalanced(AtomicMembers(t, sc.members, now), sc.auths);
  }

  lemma UntrackedBalanced(s: RoomState, t: RoomState)
    requires t == s.(scan := t.scan, clock := t.clock)
    ensures Balanced(t) == Balanced(s)
  {
    SameEntries(s, t);
    assert forall ip: nat :: Debt(t, ip) == Debt(s, ip);
  }

  // ── The leaking steps ──────────────────────────────────────────

  predicate PoolEmpty(s: RoomState, rnd: Random) { FirstFree(s.used, 2).None? || rnd.token.None? }

  /** A seat was promised but no octet or token can be had: the per-IP slot is kept. */
  ghost predicate LeakyRegisterAt(s: RoomState, reg: RegisterMsg, from: Addr, rnd: Random) {
    && ConnsOf(s, from.ip) < s.cfg.maxPerIP
    && Placeholders(s, reg.name, reg.roomId) == {}
    && |s.clients| < s.cfg.maxPlayers && !Taken(s, reg.name, reg.roomId)
    && s.cfg.password == [] && PoolEmpty(s, rnd)
  }

  ghost predicate LeakyRegister(s: RoomState, reg: RegisterMsg, from: Addr, rateOk: bool, rnd: Random) {
    && RegisterError(reg, rateOk).None?
    && var s1 := if PendingAt(s, from) then Forget(s, from, s.store[s.addrMap[from]]) else s;
       from !in s1.addrMap && LeakyRegisterAt(s1, reg, from, rnd)
  }

  /** Passed the HMAC, but refused late; or admitted and the slot or an entry is left behind. */
  ghost predicate LeakyAuthPending(s: RoomState, resp: AuthMsg, from: Addr, now: int, rnd: Random, k: Addr)
    requires PendingAt(s, k)
  {
    var c := s.store[s.addrMap[k]];
    && now - c.challengeAt <= 15 * SECOND && s.cfg.password != [] && resp.hmac == ExpectedMac(s, c, resp)
    && (|| |s.clients| >= s.cfg.maxPlayers
        || Taken(s, resp.name, resp.roomId)
        || PoolEmpty(s, rnd)
        || (k != from && (from in s.addrMap || from.ip != k.ip)))
  }

  /** A response that no pending entry answers to, from a member's own address, drops the member's entry. */
  ghost predicate LeakyAuthResponse(s: RoomState, resp: AuthMsg, from: Addr, now: int, rnd: Random, pick: Addr) {
    && |resp.hmac| == 32
    && var at := PendingFor(s, resp, from, pick);
       if at.Some? then LeakyAuthPending(s, resp, from, now, rnd, at.value) else from in s.addrMap
  }

  ghost predicate Leaky(s: RoomState, e: Event) {
    match e
    case EvRegister(reg, from, now, rateOk, rnd, pick) => LeakyRegister(s, reg, from, rateOk, rnd)
    case EvAuthResponse(resp, from, now, rnd, pick) => LeakyAuthResponse(s, resp, from, now, rnd, pick)
    case EvRelay(payload, from, now) =>
      |payload| >= 8 && from !in s.addrMap && MigrateAllowed(s, payload) && !MoveIsFree(s, Ip4At(payload, 0), from)
    case EvRebind(v, hmac, from, now) =>
      RebindAllowed(s, v, hmac, now) && !MoveIsFree(s, v, from)
    case _ => false
  }

  lemma ResumeBalanced(s: RoomState, v: Ip4, from: Addr, now: int)
    requires Inv(s) && Balanced(s) && from !in s.addrMap && v in s.clients && s.store[s.clients[v]].addr.None?
    ensures Balanced(MoveTo(AddConn(s, from.ip), s.clients[v], from, now))
  {
    AddConnOwes(s, from.ip);
    var s1 := AddConn(s, from.ip);
    assert forall k :: k in s1.addrMap ==> EntryOk(s, k);
    assert forall w :: w in s1.clients ==> SeatOk(s, w);
    ResumePays(s1, v, from, now);
  }

  lemma OpenAdmitBalanced(s: RoomState, reg: RegisterMsg, from: Addr, now: int, rnd: Random)
    requires Inv(s) && Balanced(s) && from !in s.addrMap && ConnsOf(s, from.ip) < s.cfg.maxPerIP
    ensures Balanced(Admit(AddConn(s, from.ip), reg, from, now, rnd).0) <==> !PoolEmpty(s, rnd)
    ensures PoolEmpty(s, rnd) ==> !Exact(Admit(AddConn(s, from.ip), reg, from, now, rnd).0)
  {
    CountersBounded(s, from.ip, DEAD);
    AddConnOwes(s, from.ip);
    AdmitPays(AddConn(s, from.ip), reg, from, now, rnd);
  }

  lemma ChallengeBalanced(s: RoomState, reg: RegisterMsg, from: Addr, now: int, ch: Bytes)
    requires Inv(s) && Balanced(s) && from !in s.addrMap && ConnsOf(s, from.ip) < s.cfg.maxPerIP
    ensures Balanced(Issue(AddConn(s, from.ip), reg, from, now, ch))
  {
    CountersBounded(s, from.ip, DEAD);
    AddConnOwes(s, from.ip);
    IssuePays(AddConn(s, from.ip), reg, from, now, ch);
  }

  lemma RegisterAtBalanced(s: RoomState, reg: RegisterMsg, from: Addr, now: int, rnd: Random, pick: Ip4)
    requires Inv(s) && Balanced(s) && from !in s.addrMap
    ensures Balanced(RegisterAt(s, reg, from, now, rnd, pick).0) <==> !LeakyRegisterAt(s, reg, from, rnd)
    ensures LeakyRegisterAt(s, reg, from, rnd) ==> !Exact(RegisterAt(s, reg, from, now, rnd, pick).0)
  {
    if ConnsOf(s, from.ip) < s.cfg.maxPerIP {
      var waiting := Placeholders(s, reg.name, reg.roomId);
      if waiting != {} {
        ResumeBalanced(s, Choose(waiting, pick), from, now);
      } else if |s.clients| < s.cfg.maxPlayers && !Taken(s, reg.name, reg.roomId) {
        if s.cfg.password == [] {
          OpenAdmitBalanced(s, reg, from, now, rnd);
        } else if s.pending < s.cfg.MaxPending() && rnd.challenge.Some? {
          ChallengeBalanced(s, reg, from, now, rnd.challenge.value);
        }
      }
    }
  }

  lemma AdmitPays(s: RoomState, reg: RegisterMsg, k: Addr, now: int, rnd: Random)
    requires Inv(s) && Owing(s, k.ip) && k !in s.addrMap
    ensures Balanced(Admit(s, reg, k, now, rnd).0) <==> !PoolEmpty(s, rnd)
    ensures PoolEmpty(s, rnd) ==> !Exact(Admit(s, reg, k, now, rnd).0)
  {
    if PoolEmpty(s, rnd) {
      assert Debt(s, k.ip) == 1;
    } else {
      var o := FirstFree(s.used, 2).value;
      var v := HostIn(s.cfg.net, o);
      SeatPays(s, Client(reg.name, reg.roomId, reg.version, Some(v), Some(k), now, rnd.token.value, AuthNone, [], 0), o, k);
    }
  }

  lemma RegisterBalanced(s: RoomState, reg: RegisterMsg, from: Addr, now: int, rateOk: bool, rnd: Random, pick: Ip4)
    requires Inv(s) && Balanced(s) && s.clock <= now
    ensures Balanced(Register(s, reg, from, now, rateOk, rnd, pick).0) <==> !LeakyRegister(s, reg, from, rateOk, rnd)
    ensures LeakyRegister(s, reg, from, rateOk, rnd) ==> !Exact(Register(s, reg, from, now, rateOk, rnd, pick).0)
  {
    if RegisterError(reg, rateOk).None? {
      var s1 := if PendingAt(s, from) then Forget(s, from, s.store[s.addrMap[from]]) else s;
      if PendingAt(s, from) {
        ForgetBalanced(s, from);
        ForgetKeeps(s, from, s.store[s.addrMap[from]]);
      }
      if from in s1.addrMap {
        assert EntryOk(s1, from);
        TouchBalanced(s1, from, s1.store[s1.addrMap[from]].(lastSeen := now, version := reg.version));
      } else {
        RegisterAtBalanced(s1, reg, from, now, rnd, pick);
      }
    }
  }

  lemma TouchBalanced(s: RoomState, k: Addr, c: Client)
    requires Inv(s) && Balanced(s) && k in s.addrMap && s.addrMap[k] in s.store
    requires c == s.store[s.addrMap[k]].(lastSeen := c.lastSeen, version := c.version)
    ensures Balanced(Put(s, s.addrMap[k], c))
  {
    var t := Put(s, s.addrMap[k], c);
    assert forall j :: j in s.addrMap ==> PendingAt(t, j) == PendingAt(s, j);
    assert PendingKeys(t) == PendingKeys(s);
    assert forall ip: nat :: Debt(t, ip) == Debt(s, ip);
    forall w | w in t.clients ensures MemberMapped(t, w) { assert MemberMapped(s, w); }
  }

  // ── Responses ──────────────────────────────────────────────────

  lemma LateRefusalUnbalances(s: RoomState, k: Addr)
    requires Inv(s) && Balanced(s) && PendingAt(s, k)
    ensures !Exact(DropConnOf(s, s.store[s.addrMap[k]]))
  {
    PendingCounted(s, k);
    PendingHasNoSeat(s, k);
    DropConnDebt(s, k.ip);
    assert Debt(DropConn(s, k.ip), k.ip) == -1;
  }

  lemma AbnormalUnbalances(s: RoomState, from: Addr)
    requires Inv(s) && from in s.addrMap && !PendingAt(s, from)
    ensures s.addrMap[from] in s.store && !Balanced(Forget(s, from, s.store[s.addrMap[from]]))
  {
    assert EntryOk(s, from);
    assert !MemberMapped(Forget(s, from, s.store[s.addrMap[from]]), s.store[s.addrMap[from]].vip.value);
  }

  /** A response from the pending entry's own address. */
  lemma AnsweredInPlace(s: RoomState, from: Addr, now: int, rnd: Random)
    requires Inv(s) && Balanced(s) && PendingAt(s, from)
    ensures Balanced(Authenticated(s, from, now, rnd, from).0) <==> !PoolEmpty(s, rnd)
    ensures PoolEmpty(s, rnd) ==> !Exact(Authenticated(s, from, now, rnd, from).0)
  {
    var c := s.store[s.addrMap[from]];
    PendingCounted(s, from);
    PendingHasNoSeat(s, from);
    UnmapDebt(s, from);
    UnmapMapped(s, from);
    var s1 := Unmap(s, from);
    DecPendingDebt(s1);
    UnmapKeeps(s, from);
    CountersBounded(s1, 0, c);
    AdmitPays(DecPending(s1), RegisterMsg(c.roomId, c.name, c.version), from, now, rnd);
  }

  /** A response from elsewhere (NAT rebinding) that takes a seat. */
  lemma AnsweredElsewhere(s: RoomState, t: RoomState, from: Addr, c: Client, o: byte, k: Addr)
    requires Inv(s) && Balanced(s) && PendingAt(s, k) && k != from && from !in s.addrMap
    requires 2 <= o < 255 && o !in s.used && c.addr == Some(from) && c.auth == AuthNone
    requires t == Seat(Vacated(s, from, k), c, HostIn(s.cfg.net, o), from)
    ensures Balanced(t) <==> from.ip == k.ip
    ensures from.ip != k.ip ==> !Exact(t)
  {
    ElsewhereDebt(s, t, from, c, o, k);
    ElsewhereMapped(s, t, from, c, o, k);
    assert from.ip != k.ip ==> Debt(t, from.ip) == -1;
  }

  lemma ElsewhereEntries(s: RoomState, t: RoomState, from: Addr, c: Client, o: byte, k: Addr)
    requires AddrOk(s) && FreshOk(s) && PendingAt(s, k) && k != from && from !in s.addrMap && c.auth == AuthNone
    requires t == Seat(Vacated(s, from, k), c, HostIn(s.cfg.net, o), from)
    ensures var x := DecPending(Unmap(s, k));
            && from in t.addrMap && t.addrMap - {from} == x.addrMap
            && t.conns == x.conns && t.pending == x.pending
            && (forall j :: j in x.addrMap ==> PendingAt(t, j) == PendingAt(x, j)) && !PendingAt(t, from)
  {
    assert EntryOk(s, k);
    var x := DecPending(Unmap(s, k));
    forall j | j in x.addrMap ensures PendingAt(t, j) == PendingAt(x, j) { assert EntryOk(s, j); }
  }

  lemma ElsewhereDebt(s: RoomState, t: RoomState, from: Addr, c: Client, o: byte, k: Addr)
    requires Inv(s) && Balanced(s) && PendingAt(s, k) && k != from && from !in s.addrMap && c.auth == AuthNone
    requires t == Seat(Vacated(s, from, k), c, HostIn(s.cfg.net, o), from)
    ensures forall ip: nat :: Debt(t, ip) == (if ip == k.ip then 1 else 0) - (if ip == from.ip then 1 else 0)
    ensures PendingDebt(t) == 0
  {
    var x := DecPending(Unmap(s, k));
    ElsewhereEntries(s, t, from, c, o, k);
    PendingCounted(s, k);
    UnmapDebt(s, k);
    DecPendingDebt(Unmap(s, k));
    InsertDebt(x, t, from);
  }

  lemma ElsewhereMapped(s: RoomState, t: RoomState, from: Addr, c: Client, o: byte, k: Addr)
    requires Inv(s) && Balanced(s) && PendingAt(s, k) && k != from && from !in s.addrMap
    requires 2 <= o < 255 && o !in s.used && c.addr == Some(from)
    requires t == Seat(Vacated(s, from, k), c, HostIn(s.cfg.net, o), from)
    ensures Mapped(t)
  {
    PendingHasNoSeat(s, k);
    assert !OctetHeld(s, o);
    forall w | w in t.clients ensures MemberMapped(t, w) {
      if w != HostIn(s.cfg.net, o) { assert MemberMapped(s, w); assert SeatOk(s, w); }
    }
  }

  /** A response from a member's address takes over that member's entry, and nothing pays for the pending one's. */
  lemma AnsweredOverMember(s: RoomState, t: RoomState, from: Addr, c: Client, o: byte, k: Addr)
    requires AddrOk(s) && Debt(s, k.ip) == 0 && PendingAt(s, k) && k != from && from in s.addrMap
    requires t == Seat(Vacated(s, from, k), c, HostIn(s.cfg.net, o), from)
    ensures !Exact(t)
  {
    assert EntryOk(s, k);
    assert t.addrMap.Keys == s.addrMap.Keys - {k};
    SameKeys(t.addrMap, s.addrMap - {k}, k.ip);
    EntriesWithout(s.addrMap, k, k.ip);
    assert Debt(t, k.ip) == 1;
  }

  lemma SameKeys(m: map<Addr, Id>, n: map<Addr, Id>, ip: nat)
    requires m.Keys == n.Keys
    ensures EntriesFrom(m, ip) == EntriesFrom(n, ip)
  {
  }

  /** A response from elsewhere that finds the pool empty stays pending but is no longer counted. */
  lemma StrandedKeys(s: RoomState, from: Addr, k: Addr)
    requires AddrOk(s) && SeatsOk(s) && PendingAt(s, k) && !PendingAt(s, from)
    ensures PendingKeys(Vacated(s, from, k)) == PendingKeys(s) - {k} + {from}
  {
    PendingHasNoSeat(s, k);
    var t := Vacated(s, from, k);
    forall j | j in s.addrMap && j != k && j != from ensures PendingAt(t, j) == PendingAt(s, j) { assert EntryOk(s, j); }
  }

  lemma StrandedElsewhere(s: RoomState, from: Addr, k: Addr)
    requires AddrOk(s) && SeatsOk(s) && Debt(s, k.ip) == 0 && PendingDebt(s) == 0 && PendingAt(s, k) && !PendingAt(s, from)
    ensures !Exact(Vacated(s, from, k))
  {
    PendingCounted(s, k);
    StrandedKeys(s, from, k);
    assert PendingDebt(Vacated(s, from, k)) == -1;
  }

  lemma AuthenticatedBalanced(s: RoomState, from: Addr, now: int, rnd: Random, k: Addr)
    requires Inv(s) && Balanced(s) && PendingAt(s, k) && (k == from || !PendingAt(s, from))
    ensures Balanced(Authenticated(s, from, now, rnd, k).0)
       <==> !PoolEmpty(s, rnd) && !(k != from && (from in s.addrMap || from.ip != k.ip))
    ensures Exact(Authenticated(s, from, now, rnd, k).0) ==> Balanced(Authenticated(s, from, now, rnd, k).0)
  {
    var q := Vacated(s, from, k);
    var c := s.store[s.addrMap[k]];
    assert q.used == s.used && q.cfg == s.cfg;
    if k == from {
      AnsweredInPlace(s, from, now, rnd);
    } else if PoolEmpty(s, rnd) {
      StrandedElsewhere(s, from, k);
    } else {
      var o := FirstFree(s.used, 2).value;
      var v := HostIn(s.cfg.net, o);
      var m := Client(c.name, c.roomId, c.version, Some(v), Some(from), now, rnd.token.value, AuthNone, [], 0);
      var t := Seat(q, m, v, from);
      assert Authenticated(s, from, now, rnd, k).0 == t;
      if from in s.addrMap { AnsweredOverMember(s, t, from, m, o, k); } else { AnsweredElsewhere(s, t, from, m, o, k); }
    }
  }

  lemma AuthPendingBalanced(s: RoomState, resp: AuthMsg, from: Addr, now: int, rnd: Random, k: Addr)
    requires Inv(s) && Balanced(s) && PendingAt(s, k) && (k == from || !PendingAt(s, from))
    ensures Balanced(AuthPending(s, resp, from, now, rnd, k).0) <==> !LeakyAuthPending(s, resp, from, now, rnd, k)
    ensures LeakyAuthPending(s, resp, from, now, rnd, k) ==> !Exact(AuthPending(s, resp, from, now, rnd, k).0)
  {
    var c := s.store[s.addrMap[k]];
    if now - c.challengeAt > 15 * SECOND || s.cfg.password == [] || resp.hmac != ExpectedMac(s, c, resp) {
      ForgetBalanced(s, k);
    } else if |s.clients| >= s.cfg.maxPlayers || Taken(s, resp.name, resp.roomId) {
      LateRefusalUnbalances(s, k);
    } else {
      AuthenticatedBalanced(s, from, now, rnd, k);
    }
  }

  lemma AuthResponseBalanced(s: RoomState, resp: AuthMsg, from: Addr, now: int, rnd: Random, pick: Addr)
    requires Inv(s) && Balanced(s)
    ensures Balanced(AuthResponse(s, resp, from, now, rnd, pick).0) <==> !LeakyAuthResponse(s, resp, from, now, rnd, pick)
  {
    if |resp.hmac| == 32 {
      var at := PendingFor(s, resp, from, pick);
      if at.Some? {
        AuthPendingBalanced(s, resp, from, now, rnd, at.value);
      } else if from in s.addrMap {
        AbnormalUnbalances(s, from);
      }
    }
  }

  lemma DisconnectBalanced(s: RoomState, from: Addr)
    requires Inv(s) && Balanced(s)
    ensures Balanced(Disconnect(s, from))
  {
    if from in s.addrMap {
      assert EntryOk(s, from);
      var c := s.store[s.addrMap[from]];
      if c.auth == ChallengeSent { ForgetBalanced(s, from); } else { EvictBalanced(s, c.vip.value, from); }
    }
  }

  lemma RelayBalanced(s: RoomState, payload: Bytes, from: Addr, now: int)
    requires Inv(s) && Balanced(s)
    ensures Balanced(Relay(s, payload, from, now).0) <==> !Leaky(s, EvRelay(payload, from, now))
  {
    if |payload| >= 8 && from !in s.addrMap {
      var src := Ip4At(payload, 0);
      if src in s.clients { MoveBalanced(s, src, from, now); }
    }
  }

  lemma HandleBalanced(s: RoomState, e: Event)
    requires Inv(s) && Balanced(s) && Timely(s, e) && s.clock == e.now
    ensures Balanced(Handle(s, e).0) <==> !Leaky(s, e)
  {
    match e
    case EvRegister(reg, from, now, rateOk, rnd, pick) => RegisterBalanced(s, reg, from, now, rateOk, rnd, pick);
    case EvAuthResponse(resp, from, now, rnd, pick) => AuthResponseBalanced(s, resp, from, now, rnd, pick);
    case EvKeepAlive(from, now) =>
      if from in s.addrMap {
        assert EntryOk(s, from);
        TouchBalanced(s, from, s.store[s.addrMap[from]].(lastSeen := now));
      }
    case EvDisconnect(from, now) => DisconnectBalanced(s, from);
    case EvRelay(payload, from, now) => RelayBalanced(s, payload, from, now);
    case EvRebind(v, hmac, from, now) => if v in s.clients { MoveBalanced(s, v, from, now); }
    case EvStaleScan(vips, keys, now) => UntrackedBalanced(s, StaleScan(s, vips, keys, now));
    case EvStaleSweep(now) => if s.scan.Some? { SweepBalanced(s, now); }
  }

  /** Main theorem, one step: the balance is kept exactly by the steps that do not leak. */
  lemma StepBalanced(s: RoomState, e: Event)
    requires Inv(s) && Balanced(s) && Timely(s, e)
    ensures Balanced(Step(s, e)) <==> !Leaky(s.(clock := e.now), e)
  {
    ClockKeeps(s, e.now);
    UntrackedBalanced(s, s.(clock := e.now));
    HandleBalanced(s.(clock := e.now), e);
  }

  ghost predicate LeakFree(s: RoomState, es: seq<Event>)
    decreases |es|
  {
    es == [] || (!Leaky(s.(clock := es[0].now), es[0]) && LeakFree(Step(s, es[0]), es[1..]))
  }

  /** Main theorem, whole runs: without a leaking step the counters are exact at the end. */
  lemma {:induction false} RunBalanced(s: RoomState, es: seq<Event>)
    requires Inv(s) && Balanced(s) && TimelyRun(s, es) && LeakFree(s, es)
    ensures Balanced(Run(s, es))
    decreases |es|
  {
    if es != [] {
      StepBalanced(s, es[0]);
      StepKeeps(s, es[0]);
      RunBalanced(Step(s, es[0]), es[1..]);
    }
  }

  // ── The counters alone ─────────────────────────────────────────

  // Some leaking steps move no counter: they only unmap a member, and the drift comes when it leaves.

  /** A move that no counter notices: it stays put, it takes a free port of the same IP, or a restored
      client without an address takes over a member's entry. */
  predicate MoveIsExact(s: RoomState, v: Ip4, k: Addr)
    requires v in s.clients && s.clients[v] in s.store
  {
    MoveIsFree(s, v, k) || (s.store[s.clients[v]].addr.None? && k in s.addrMap && !PendingAt(s, k))
  }

  /** An abnormal response takes one from the pending count, if there is one to take. */
  ghost predicate DriftingAuthResponse(s: RoomState, resp: AuthMsg, from: Addr, now: int, rnd: Random, pick: Addr) {
    && |resp.hmac| == 32
    && var at := PendingFor(s, resp, from, pick);
       if at.Some? then LeakyAuthPending(s, resp, from, now, rnd, at.value) else from in s.addrMap && s.pending > 0
  }

  ghost predicate Drifts(s: RoomState, e: Event) {
    match e
    case EvRegister(reg, from, now, rateOk, rnd, pick) => LeakyRegister(s, reg, from, rateOk, rnd)
    case EvAuthResponse(resp, from, now, rnd, pick) => DriftingAuthResponse(s, resp, from, now, rnd, pick)
    case EvRelay(payload, from, now) =>
      |payload| >= 8 && from !in s.addrMap && MigrateAllowed(s, payload) && !MoveIsExact(s, Ip4At(payload, 0), from)
    case EvRebind(v, hmac, from, now) => RebindAllowed(s, v, hmac, now) && !MoveIsExact(s, v, from)
    case _ => false
  }

  /** Over another's entry a member with an address leaves one entry too few behind. */
  lemma TakeoverDrifts(s: RoomState, v: Ip4, k: Addr, seen: int)
    requires Balanced(s) && Addressed(s, v) && k in s.addrMap && s.store[s.clients[v]].addr != Some(k)
    ensures !Exact(MoveTo(s, s.clients[v], k, seen))
  {
    var a := s.store[s.clients[v]].addr.value;
    var t := MoveTo(s, s.clients[v], k, seen);
    assert MemberMapped(s, v);
    assert t.addrMap.Keys == s.addrMap.Keys - {a};
    SameKeys(t.addrMap, s.addrMap - {a}, a.ip);
    EntriesWithout(s.addrMap, a, a.ip);
    assert Debt(s, a.ip) == 0 && t.conns == s.conns;
    assert Debt(t, a.ip) == 1;
  }

  lemma PlaceholderTakeover(s: RoomState, v: Ip4, k: Addr, seen: int)
    requires AddrOk(s) && SeatsOk(s) && Exact(s) && v in s.clients && k in s.addrMap && !PendingAt(s, k)
    requires s.clients[v] in s.store && s.store[s.clients[v]].addr.None?
    ensures Exact(MoveTo(s, s.clients[v], k, seen))
  {
    var t := MoveTo(s, s.clients[v], k, seen);
    assert SeatOk(s, v);
    forall j | j in s.addrMap ensures PendingAt(t, j) == PendingAt(s, j) { assert EntryOk(s, j); }
    assert t.addrMap.Keys == s.addrMap.Keys;
    assert PendingKeys(t) == PendingKeys(s);
    forall ip: nat ensures Debt(t, ip) == 0 {
      SameKeys(t.addrMap, s.addrMap, ip);
      assert Debt(s, ip) == 0;
    }
  }

  lemma MoveExact(s: RoomState, v: Ip4, k: Addr, seen: int)
    requires Inv(s) && Balanced(s) && v in s.clients
    ensures s.clients[v] in s.store
    ensures Exact(MoveTo(s, s.clients[v], k, seen)) <==> MoveIsExact(s, v, k)
  {
    assert SeatOk(s, v);
    var a := s.store[s.clients[v]].addr;
    var t := MoveTo(s, s.clients[v], k, seen);
    if MoveIsFree(s, v, k) {
      MoveBalanced(s, v, k, seen);
    } else if k in s.addrMap {
      if a.Some? {
        TakeoverDrifts(s, v, k, seen);
      } else if PendingAt(s, k) {
        PendingLost(s, v, k, seen);
      } else {
        PlaceholderTakeover(s, v, k, seen);
      }
    } else if a.Some? {
      MoveDebt(s, v, k, seen);
      assert Debt(t, k.ip) == -1;
    } else {
      ResumePays(s, v, k, seen);
      assert Debt(t, k.ip) == -1;
    }
  }

  lemma AbnormalExact(s: RoomState, from: Addr)
    requires Inv(s) && Balanced(s) && from in s.addrMap && !PendingAt(s, from)
    ensures s.addrMap[from] in s.store
    ensures Exact(Forget(s, from, s.store[s.addrMap[from]])) <==> s.pending == 0
  {
    assert EntryOk(s, from);
    EntryCounted(s, from);
    UnmapDebt(s, from);
    var s1 := Unmap(s, from);
    if s.pending > 0 {
      DecPendingDebt(s1);
      DropConnDebt(DecPending(s1), from.ip);
      assert PendingDebt(Forget(s, from, s.store[s.addrMap[from]])) == -1;
    } else {
      assert DecPending(s1) == s1;
      DropConnDebt(s1, from.ip);
    }
  }

  lemma AuthResponseExact(s: RoomState, resp: AuthMsg, from: Addr, now: int, rnd: Random, pick: Addr)
    requires Inv(s) && Balanced(s)
    ensures Exact(AuthResponse(s, resp, from, now, rnd, pick).0) <==> !DriftingAuthResponse(s, resp, from, now, rnd, pick)
  {
    if |resp.hmac| == 32 {
      var at := PendingFor(s, resp, from, pick);
      if at.Some? {
        AuthPendingBalanced(s, resp, from, now, rnd, at.value);
      } else if from in s.addrMap {
        AbnormalExact(s, from);
      }
    }
  }

  lemma RelayExact(s: RoomState, payload: Bytes, from: Addr, now: int)
    requires Inv(s) && Balanced(s)
    ensures Exact(Relay(s, payload, from, now).0) <==> !Drifts(s, EvRelay(payload, from, now))
  {
    if |payload| >= 8 && from !in s.addrMap {
      var src := Ip4At(payload, 0);
      if src in s.clients { MoveExact(s, src, from, now); }
    }
  }

  lemma HandleExact(s: RoomState, e: Event)
    requires Inv(s) && Balanced(s) && Timely(s, e) && s.clock == e.now
    ensures Exact(Handle(s, e).0) <==> !Drifts(s, e)
  {
    match e
    case EvRegister(reg, from, now, rateOk, rnd, pick) => RegisterBalanced(s, reg, from, now, rateOk, rnd, pick);
    case EvAuthResponse(resp, from, now, rnd, pick) => AuthResponseExact(s, resp, from, now, rnd, pick);
    case EvRelay(payload, from, now) => RelayExact(s, payload, from, now);
    case EvRebind(v, hmac, from, now) => if v in s.clients { MoveExact(s, v, from, now); }
    case _ => HandleBalanced(s, e);
  }

  /** Main theorem for the counters alone: from a balanced room they stay exact exactly on the steps that do not drift. */
  lemma StepExact(s: RoomState, e: Event)
    requires Inv(s) && Balanced(s) && Timely(s, e)
    ensures Exact(Step(s, e)) <==> !Drifts(s.(clock := e.now), e)
  {
    ClockKeeps(s, e.now);
    UntrackedBalanced(s, s.(clock := e.now));
    HandleExact(s.(clock := e.now), e);
  }
}
