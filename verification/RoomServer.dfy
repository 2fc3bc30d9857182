/**
 The room as the server runs it: maps and counters updated in place, the octet
 bitmap in four words, tables searched by walking them. Every handler is proved
 to do exactly the step of the state machine.
 */
module RoomServer {
  import opened Base
  import opened DataFormat
  import opened IpBitmap
  import opened RoomModel
  import opened RoomInvariant
  import opened RoomPersist

  datatype Check = CheckOK | CheckFull | CheckDuplicate

  /** The targets that are sent to: all of a broadcast's, the allowed ones of a unicast. */
  function Passed(targets: seq<Addr>, broadcast: bool, allow: Addr -> bool): seq<Addr> {
    if targets == [] then []
    else
      var rest, last := Passed(targets[..|targets| - 1], broadcast, allow), targets[|targets| - 1];
      if broadcast || allow(last) then rest + [last] else rest
  }

  class Room {
    const cfg: Config
    const ipBitmap: array<bv64>
    var store: map<Id, Client>
    var nextId: Id
    var clients: map<Ip4, Id>
    var addrMap: map<Addr, Id>
    var pendingAuth: nat
    var ipConnCount: map<nat, nat>
    ghost var scan: Option<Scan>
    ghost var clock: int

    ghost function State(): RoomState
      requires ipBitmap.Length == 4
      reads this, ipBitmap
    {
      RoomState(cfg, store, nextId, clients, addrMap, UsedSet(ipBitmap[..]), pendingAuth, ipConnCount, scan, clock)
    }

    ghost predicate Valid()
      reads this, ipBitmap
    {
      ipBitmap.Length == 4 && Inv(State())
    }

    /** NewRoom: reserve the network, server and broadcast octets. */
    constructor (cfg: Config, now: int)
      ensures Valid() && fresh(ipBitmap) && this.cfg == cfg
      ensures State() == EmptyRoom(cfg, now)
    {
      this.cfg := cfg;
      store, nextId, clients, addrMap, pendingAuth, ipConnCount := map[], 0, map[], map[], 0, map[];
      scan, clock := None, now;
      ipBitmap := new bv64[4] [0, 0, 0, 0];
      new;
      EmptySet();
      assert ipBitmap[..] == [0, 0, 0, 0];
      MarkUsed(ipBitmap, 0);
      MarkUsed(ipBitmap, 1);
      MarkUsed(ipBitmap, 255);
    }

    // ── Counters ─────────────────────────────────────────────────

    /** decrementIPConnCount. */
    method DecrementConn(ip: nat)
      requires ipBitmap.Length == 4
      modifies this`ipConnCount
      ensures State() == DropConn(old(State()), ip)
    {
      if ip in ipConnCount && ipConnCount[ip] > 1 {
        ipConnCount := ipConnCount[ip := ipConnCount[ip] - 1];
      } else {
        ipConnCount := ipConnCount - {ip};
      }
    }

    method DecrementConnOf(c: Client)
      requires ipBitmap.Length == 4
      modifies this`ipConnCount
      ensures State() == DropConnOf(old(State()), c)
    {
      if c.addr.Some? { DecrementConn(c.addr.value.ip); }
    }

    /** cleanupPendingAuth. */
    method CleanupPending(key: Addr, c: Client)
      requires ipBitmap.Length == 4
      modifies this`addrMap, this`pendingAuth, this`ipConnCount
      ensures State() == Forget(old(State()), key, c)
    {
      addrMap := addrMap - {key};
      if pendingAuth > 0 { pendingAuth := pendingAuth - 1; }
      DecrementConnOf(c);
    }

    // ── Searches ─────────────────────────────────────────────────

    /** checkCapacityAndDuplicate. */
    method CheckCapacityAndDuplicate(name: string, roomId: Bytes) returns (r: Check)
      requires Valid()
      ensures r == CheckFull <==> |clients| >= cfg.maxPlayers
      ensures r == CheckDuplicate <==> |clients| < cfg.maxPlayers && Taken(State(), name, roomId)
    {
      if |clients| >= cfg.maxPlayers { return CheckFull; }
      var todo := clients.Keys;
      while todo != {}
        invariant todo <= clients.Keys
        invariant forall v :: v in clients && v !in todo ==>
                    store[clients[v]].auth == ChallengeSent || store[clients[v]].roomId != roomId || store[clients[v]].name != name
        decreases todo
      {
        var v :| v in todo;
        assert SeatOk(State(), v);
        var c := store[clients[v]];
        if c.auth != ChallengeSent && c.roomId == roomId && c.name == name { return CheckDuplicate; }
        todo := todo - {v};
      }
      r := CheckOK;
    }

    method FindPlaceholder(name: string, roomId: Bytes) returns (r: Option<Ip4>)
      requires Valid()
      ensures r.None? ==> Placeholders(State(), name, roomId) == {}
      ensures r.Some? ==> r.value in Placeholders(State(), name, roomId)
    {
      var todo := clients.Keys;
      while todo != {}
        invariant todo <= clients.Keys
        invariant forall v :: v in clients && v !in todo ==> !IsPlaceholder(store[clients[v]], name, roomId)
        decreases todo
      {
        var v :| v in todo;
        assert SeatOk(State(), v);
        if IsPlaceholder(store[clients[v]], name, roomId) { return Some(v); }
        todo := todo - {v};
      }
      r := None;
    }

    /** The scan of handleAuthResponse over the address map. */
    method FindPending(name: string, roomId: Bytes) returns (r: Option<Addr>)
      requires Valid()
      ensures r.None? ==> PendingNamed(State(), name, roomId) == {}
      ensures r.Some? ==> r.value in PendingNamed(State(), name, roomId)
    {
      var todo := addrMap.Keys;
      while todo != {}
        invariant todo <= addrMap.Keys
        invariant forall k :: k in addrMap && k !in todo ==>
                    store[addrMap[k]].auth != ChallengeSent || store[addrMap[k]].roomId != roomId || store[addrMap[k]].name != name
        decreases todo
      {
        var k :| k in todo;
        assert EntryOk(State(), k);
        var c := store[addrMap[k]];
        if c.auth == ChallengeSent && c.roomId == roomId && c.name == name { return Some(k); }
        todo := todo - {k};
      }
      r := None;
    }

    // ── Seating ──────────────────────────────────────────────────

    /** The least free octet, marked used; given back when no session token could be made. */
    method TakeOctet(haveToken: bool) returns (o: Option<byte>)
      requires ipBitmap.Length == 4
      modifies ipBitmap
      ensures o == if haveToken then FirstFree(old(State()).used, 2) else None
      ensures State() == if o.Some? then old(State()).(used := old(State()).used + {o.value}) else old(State())
    {
      o := NextAvailable(ipBitmap);
      if o.None? { return None; }
      MarkUsed(ipBitmap, o.value);
      if !haveToken {
        MarkFree(ipBitmap, o.value);
        return None;
      }
    }

    /** doRegisterClient. */
    method DoRegisterClient(reg: RegisterMsg, from: Addr, now: int, rnd: Random) returns (r: Option<Ip4>)
      requires ipBitmap.Length == 4
      modifies this`store, this`nextId, this`clients, this`addrMap, ipBitmap
      ensures (State(), r) == Admit(old(State()), reg, from, now, rnd)
    {
      ghost var s := State();
      var o := TakeOctet(rnd.token.Some?);
      if o.None? { return None; }
      var vip := HostIn(cfg.net, o.value);
      Enter(Client(reg.name, reg.roomId, reg.version, Some(vip), Some(from), now, rnd.token.value, AuthNone, [], 0), vip, from);
      r := Some(vip);
    }

    /** A new client object in both maps. */
    method Enter(c: Client, vip: Ip4, from: Addr)
      modifies this`store, this`nextId, this`clients, this`addrMap
      ensures store == old(store)[old(nextId) := c] && nextId == old(nextId) + 1
      ensures clients == old(clients)[vip := old(nextId)] && addrMap == old(addrMap)[from := old(nextId)]
    {
      store := store[nextId := c];
      clients := clients[vip := nextId];
      addrMap := addrMap[from := nextId];
      nextId := nextId + 1;
    }

    /** doSendAuthChallenge, once a challenge has been drawn. */
    method DoSendAuthChallenge(reg: RegisterMsg, from: Addr, now: int, challenge: Bytes)
      requires ipBitmap.Length == 4
      modifies this`store, this`nextId, this`addrMap, this`pendingAuth
      ensures State() == Issue(old(State()), reg, from, now, challenge)
    {
      var c := Client(reg.name, reg.roomId, reg.version, None, Some(from), now, ZERO_TOKEN, ChallengeSent, challenge, now);
      store := store[nextId := c];
      addrMap := addrMap[from := nextId];
      nextId := nextId + 1;
      pendingAuth := pendingAuth + 1;
    }

    /** The client object moves to a new address, as in migration, rebind and reconnect. */
    method Relocate(id: Id, from: Addr, seen: int)
      requires ipBitmap.Length == 4 && id in store
      modifies this`store, this`addrMap
      ensures State() == MoveTo(old(State()), id, from, seen)
    {
      var c := store[id];
      if c.addr.Some? { addrMap := addrMap - {c.addr.value}; }
      store := store[id := c.(addr := Some(from), lastSeen := seen)];
      addrMap := addrMap[from := id];
    }

    // ── Register ─────────────────────────────────────────────────

    method HandleRegister(reg: RegisterMsg, from: Addr, now: int, rateOk: bool, rnd: Random)
        returns (reply: Reply, ghost pick: Ip4)
      requires Valid() && clock <= now
      modifies this, ipBitmap
      ensures Valid()
      ensures State() == Step(old(State()), EvRegister(reg, from, now, rateOk, rnd, pick))
      ensures reply == Answer(old(State()), EvRegister(reg, from, now, rateOk, rnd, pick))
    {
      ghost var s0 := State().(clock := now);
      ClockKeeps(State(), now);
      clock := now;
      pick := HostIn(cfg.net, 0);
      if !IsCompatible(reg.version, APP_VERSION) { return Kick(VersionMismatch), pick; }
      if |reg.name| == 0 || |reg.name| > 32 { return Kick(InvalidName), pick; }
      if |reg.roomId| == 0 || |reg.roomId| > 32 { return Kick(InvalidRoom), pick; }
      if !rateOk { return Kick(RateLimit), pick; }
      if from in addrMap {
        assert EntryOk(State(), from);
        if store[addrMap[from]].auth == ChallengeSent {
          ForgetKeeps(s0, from, store[addrMap[from]]);
          CleanupPending(from, store[addrMap[from]]);
        }
      }
      ghost var s1 := State();
      if from in addrMap {
        assert EntryOk(s1, from);
        var id := addrMap[from];
        TouchKeeps(s1, id, store[id].(lastSeen := now, version := reg.version));
        store := store[id := store[id].(lastSeen := now, version := reg.version)];
        return Assigned(store[id].vip), pick;
      }
      reply, pick := RegisterUnmapped(reg, from, now, rnd);
    }

    /** The rest of handleRegister: the address is not in the map. */
    method RegisterUnmapped(reg: RegisterMsg, from: Addr, now: int, rnd: Random) returns (reply: Reply, ghost pick: Ip4)
      requires Valid() && clock == now
      modifies this, ipBitmap
      ensures Valid()
      ensures (State(), reply) == RegisterAt(old(State()), reg, from, now, rnd, pick)
    {
      ghost var s := State();
      pick := HostIn(cfg.net, 0);
      var v := FindPlaceholder(reg.name, reg.roomId);
      if v.Some? { pick := v.value; }
      RegisterAtKeeps(s, reg, from, now, rnd, pick);
      var ipCount := if from.ip in ipConnCount then ipConnCount[from.ip] else 0;
      if ipCount >= cfg.maxPerIP { return Kick(IPLimit), pick; }
      ipConnCount := ipConnCount[from.ip := ipCount + 1];
      assert State() == AddConn(s, from.ip);
      if v.Some? {
        var id := clients[v.value];
        Relocate(id, from, now);
        return Assigned(store[id].vip), pick;
      }
      CountersBounded(s, from.ip, DEAD);
      var check := CheckCapacityAndDuplicate(reg.name, reg.roomId);
      assert Taken(State(), reg.name, reg.roomId) == Taken(s, reg.name, reg.roomId);
      if check == CheckFull {
        Rollback(s, from.ip);
        return Kick(RoomFull), pick;
      }
      if check == CheckDuplicate {
        Rollback(s, from.ip);
        return Kick(DuplicateName), pick;
      }
      reply := RegisterChecked(s, reg, from, now, rnd);
    }

    /** Undoing an increment gives the state before it. */
    method Rollback(ghost s: RoomState, ip: nat)
      requires ipBitmap.Length == 4 && State() == AddConn(s, ip) && CountsOk(s)
      modifies this`ipConnCount
      ensures State() == s
    {
      DecrementConn(ip);
      assert DropConn(AddConn(s, ip), ip).conns == s.conns;
    }

    /** After the capacity check: a seat, or a challenge. */
    method RegisterChecked(ghost s: RoomState, reg: RegisterMsg, from: Addr, now: int, rnd: Random) returns (reply: Reply)
      requires ipBitmap.Length == 4 && State() == AddConn(s, from.ip) && CountsOk(s)
      requires ConnsOf(s, from.ip) < s.cfg.maxPerIP && Placeholders(s, reg.name, reg.roomId) == {}
      requires |s.clients| < s.cfg.maxPlayers && !Taken(s, reg.name, reg.roomId)
      modifies this, ipBitmap
      ensures forall pick :: (State(), reply) == RegisterAt(s, reg, from, now, rnd, pick)
    {
      if cfg.password == [] {
        var v := DoRegisterClient(reg, from, now, rnd);
        return if v.Some? then Assigned(v) else Kick(IPExhausted);
      }
      if pendingAuth >= cfg.MaxPending() {
        Rollback(s, from.ip);
        return Kick(ServerBusy);
      }
      if rnd.challenge.None? {
        Rollback(s, from.ip);
        return Kick(InternalError);
      }
      DoSendAuthChallenge(reg, from, now, rnd.challenge.value);
      reply := Challenged(rnd.challenge.value);
    }

    // ── Auth response ────────────────────────────────────────────

    method HandleAuthResponse(resp: AuthMsg, from: Addr, now: int, rnd: Random) returns (reply: Reply, ghost pick: Addr)
      requires Valid() && clock <= now
      modifies this, ipBitmap
      ensures Valid()
      ensures State() == Step(old(State()), EvAuthResponse(resp, from, now, rnd, pick))
      ensures reply == Answer(old(State()), EvAuthResponse(resp, from, now, rnd, pick))
    {
      ghost var s := State().(clock := now);
      ClockKeeps(State(), now);
      clock := now;
      pick := from;
      if |resp.hmac| != 32 { return Silent, pick; }
      var key := from;
      if from in addrMap { assert EntryOk(s, from); }
      if from !in addrMap || store[addrMap[from]].auth != ChallengeSent {
        var k := FindPending(resp.name, resp.roomId);
        if k.None? {
          if from in addrMap {
            ForgetKeeps(s, from, store[addrMap[from]]);
            CleanupPending(from, store[addrMap[from]]);
          }
          return Kick(AuthAbnormal), pick;
        }
        key := k.value;
        pick := key;
      }
      reply := AnswerChallenge(resp, from, now, rnd, key);
    }

    /** The rest of handleAuthResponse: the pending entry is the one under `key`. */
    method AnswerChallenge(resp: AuthMsg, from: Addr, now: int, rnd: Random, key: Addr) returns (reply: Reply)
      requires Valid() && clock == now && PendingAt(State(), key)
      modifies this, ipBitmap
      ensures Valid()
      ensures (State(), reply) == AuthPending(old(State()), resp, from, now, rnd, key)
    {
      ghost var s := State();
      AuthPendingKeeps(s, resp, from, now, rnd, key);
      var c := store[addrMap[key]];
      if now - c.challengeAt > 15 * SECOND {
        CleanupPending(key, c);
        return Kick(AuthTimeout);
      }
      if cfg.password == [] {
        CleanupPending(key, c);
        return Kick(InternalError);
      }
      if resp.hmac != cfg.mac(c.roomId, c.challenge, resp.roomId, resp.name, BoundTo(c)) {
        CleanupPending(key, c);
        return Kick(WrongPassword);
      }
      var check := CheckCapacityAndDuplicate(resp.name, resp.roomId);
      if check == CheckFull {
        DecrementConnOf(c);
        return Kick(RoomFull);
      }
      if check == CheckDuplicate {
        DecrementConnOf(c);
        return Kick(DuplicateName);
      }
      reply := TakeSeat(from, now, rnd, key);
    }

    /** The pending entry goes, its address follows the response, and the player is seated. */
    method TakeSeat(from: Addr, now: int, rnd: Random, key: Addr) returns (reply: Reply)
      requires Valid() && PendingAt(State(), key)
      modifies this, ipBitmap
      ensures ipBitmap.Length == 4
      ensures (State(), reply) == Authenticated(old(State()), from, now, rnd, key)
    {
      ghost var s := State();
      assert EntryOk(s, key);
      var id := addrMap[key];
      var c := store[id];
      addrMap := addrMap - {key};
      if pendingAuth > 0 { pendingAuth := pendingAuth - 1; }
      if key != from {
        store := store[id := c.(addr := Some(from))];
        addrMap := addrMap[from := id];
      }
      assert State() == DecPending(if key == from then Unmap(s, from) else MoveTo(s, id, from, c.lastSeen));
      var v := DoRegisterClient(RegisterMsg(c.roomId, c.name, c.version), from, now, rnd);
      reply := if v.Some? then Assigned(v) else Kick(IPExhausted);
    }

    // ── Keepalive, disconnect, rebind ────────────────────────────

    method HandleKeepAlive(from: Addr, now: int)
      requires Valid() && clock <= now
      modifies this`store, this`clock
      ensures Valid()
      ensures State() == Step(old(State()), EvKeepAlive(from, now))
    {
      StepKeeps(State(), EvKeepAlive(from, now));
      clock := now;
      if from in addrMap {
        assert EntryOk(old(State()), from);
        store := store[addrMap[from] := store[addrMap[from]].(lastSeen := now)];
      }
    }

    method HandleDisconnect(from: Addr, now: int)
      requires Valid() && clock <= now
      modifies this, ipBitmap
      ensures Valid()
      ensures State() == Step(old(State()), EvDisconnect(from, now))
    {
      ghost var s := State().(clock := now);
      StepKeeps(State(), EvDisconnect(from, now));
      clock := now;
      if from !in addrMap { return; }
      assert EntryOk(old(State()), from);
      var c := store[addrMap[from]];
      if c.auth == ChallengeSent {
        CleanupPending(from, c);
      } else {
        MarkFree(ipBitmap, c.vip.value.d);
        clients := clients - {c.vip.value};
        addrMap := addrMap - {from};
        assert State() == Evict(s, c.vip.value, from);
        DecrementConnOf(c);
      }
    }

    method HandleRebind(v: Ip4, hmac: Bytes, from: Addr, now: int) returns (ok: bool)
      requires Valid() && clock <= now
      modifies this`store, this`addrMap, this`clock
      ensures Valid()
      ensures State() == Step(old(State()), EvRebind(v, hmac, from, now))
      ensures RebindAck(ok) == Answer(old(State()), EvRebind(v, hmac, from, now))
    {
      StepKeeps(State(), EvRebind(v, hmac, from, now));
      clock := now;
      if v !in clients { return false; }
      assert SeatOk(old(State()), v);
      var c := store[clients[v]];
      if cfg.password != [] {
        if |hmac| == 0 || hmac != cfg.mac(c.roomId, [], c.roomId, c.name, Addr(MappedIp(v), 0)) { return false; }
      } else if now - c.lastSeen > 30 * SECOND {
        return false;
      }
      Relocate(clients[v], from, now);
      ok := true;
    }

    // ── Relay ────────────────────────────────────────────────────

    /** handleRelay. `targets` are the addresses written to, one for each client of the reply. */
    method HandleRelay(payload: Bytes, from: Addr, now: int) returns (reply: Reply, targets: seq<Addr>)
      requires Valid() && clock <= now
      modifies this`store, this`addrMap, this`clock
      ensures Valid()
      ensures State() == Step(old(State()), EvRelay(payload, from, now))
      ensures reply == Answer(old(State()), EvRelay(payload, from, now))
      ensures reply.Forward? ==> Reaches(State(), targets, reply.to)
    {
      StepKeeps(State(), EvRelay(payload, from, now));
      clock := now;
      targets := [];
      if |payload| < 8 { return Silent, []; }
      var src, dst := Ip4At(payload, 0), Ip4At(payload, 4);
      if from !in addrMap {
        if src !in clients { return Silent, []; }
        assert SeatOk(old(State()), src);
        if !TokenAccepted(store[clients[src]], payload) { return Silent, []; }
        Relocate(clients[src], from, now);
      }
      assert EntryOk(State(), from);
      var c := store[addrMap[from]];
      if c.vip != Some(src) || !TokenAccepted(c, payload) { return Silent, []; }
      var to: set<Ip4>;
      to, targets := CollectTargets(addrMap[from], dst);
      if to == {} { return Silent, []; }
      reply := Forward(src, to, payload);
    }

    /** The whole of handleRelay: the step, then the sending loops. */
    method RelayAndSend(payload: Bytes, from: Addr, now: int, allow: Addr -> bool)
        returns (reply: Reply, targets: seq<Addr>, sent: seq<Addr>)
      requires Valid() && clock <= now
      modifies this`store, this`addrMap, this`clock
      ensures Valid()
      ensures State() == Step(old(State()), EvRelay(payload, from, now))
      ensures reply == Answer(old(State()), EvRelay(payload, from, now))
      ensures reply.Forward? ==> Reaches(State(), targets, reply.to)
      ensures sent == if reply.Forward? then Passed(targets, IsRelayTarget(Ip4At(reply.payload, 4), cfg.net), allow) else []
    {
      reply, targets := HandleRelay(payload, from, now);
      if !reply.Forward? { return reply, targets, []; }
      sent := Transmit(targets, Ip4At(payload, 4), allow);
    }

    /** The sending loops: `allow` is the bandwidth limiter's answer, or yes where there is none or the
        client is behind a TCP bridge; broadcasts bypass it. */
    method Transmit(targets: seq<Addr>, dst: Ip4, allow: Addr -> bool) returns (sent: seq<Addr>)
      ensures sent == Passed(targets, IsRelayTarget(dst, cfg.net), allow)
    {
      sent := [];
      for i := 0 to |targets|
        invariant sent == Passed(targets[..i], IsRelayTarget(dst, cfg.net), allow)
      {
        assert targets[..i + 1][..i] == targets[..i];
        if IsRelayTarget(dst, cfg.net) || allow(targets[i]) { sent := sent + [targets[i]]; }
      }
      assert targets[..|targets|] == targets;
    }

    method CollectTargets(sender: Id, dst: Ip4) returns (to: set<Ip4>, targets: seq<Addr>)
      requires Valid()
      ensures to == Targets(State(), sender, dst) && Reaches(State(), targets, to)
    {
      to, targets := {}, [];
      ghost var order: seq<Ip4> := [];
      if IsRelayTarget(dst, cfg.net) {
        var todo := clients.Keys;
        while todo != {}
          invariant todo <= clients.Keys
          invariant to == set v | v in clients && v !in todo && Addressed(State(), v) && clients[v] != sender
          invariant Lists(State(), targets, order, to)
          decreases todo
        {
          var v :| v in todo;
          assert SeatOk(State(), v);
          var c := store[clients[v]];
          if clients[v] != sender && c.addr.Some? {
            to, targets, order := to + {v}, targets + [c.addr.value], order + [v];
          }
          todo := todo - {v};
        }
      } else if dst in clients {
        assert SeatOk(State(), dst);
        if store[clients[dst]].addr.Some? {
          to, targets, order := {dst}, [store[clients[dst]].addr.value], [dst];
        }
      }
      assert Lists(State(), targets, order, to);
    }

    // ── Stale sweep ──────────────────────────────────────────────

    /** First half of CleanupStale, under the read lock. */
    method StaleScan(now: int) returns (members: seq<StaleClient>, auths: seq<StaleAuth>, ghost vips: seq<Ip4>, ghost keys: seq<Addr>)
      requires Valid() && clock <= now
      modifies this`scan, this`clock
      ensures Valid()
      ensures State() == Step(old(State()), EvStaleScan(vips, keys, now))
      ensures scan == Some(Scan(now, members, auths))
      ensures (forall v :: v in vips <==> v in clients) && (forall k :: k in keys <==> k in addrMap)
    {
      clock := now;
      ClockKeeps(old(State()), now);
      ghost var s := State();
      members, vips := ScanClients(now);
      auths, keys := ScanPending(now);
      ScanKeeps(s, vips, keys, now);
      scan := Some(Scan(now, members, auths));
    }

    method ScanClients(now: int) returns (members: seq<StaleClient>, ghost vips: seq<Ip4>)
      requires Valid()
      ensures members == ScanMembers(State(), vips, now) && forall v :: v in vips <==> v in clients
    {
      members, vips := [], [];
      var todo := clients.Keys;
      while todo != {}
        invariant todo <= clients.Keys && forall v :: v in vips <==> v in clients && v !in todo
        invariant members == ScanMembers(State(), vips, now)
        decreases todo
      {
        var v :| v in todo;
        assert SeatOk(State(), v);
        ScanMembersSnoc(State(), vips, v, now);
        if now - store[clients[v]].lastSeen > 30 * SECOND {
          members := members + [StaleClient(v, clients[v], store[clients[v]].addr)];
        }
        vips := vips + [v];
        todo := todo - {v};
      }
    }

    method ScanPending(now: int) returns (auths: seq<StaleAuth>, ghost keys: seq<Addr>)
      requires Valid()
      ensures auths == ScanAuths(State(), keys, now) && forall k :: k in keys <==> k in addrMap
    {
      auths, keys := [], [];
      var todo := addrMap.Keys;
      while todo != {}
        invariant todo <= addrMap.Keys && forall k :: k in keys <==> k in addrMap && k !in todo
        invariant auths == ScanAuths(State(), keys, now)
        decreases todo
      {
        var k :| k in todo;
        assert EntryOk(State(), k);
        ScanAuthsSnoc(State(), keys, k, now);
        var c := store[addrMap[k]];
        if c.auth == ChallengeSent && now - c.challengeAt > 30 * SECOND {
          auths := auths + [StaleAuth(k, addrMap[k], BoundTo(c).ip)];
        }
        keys := keys + [k];
        todo := todo - {k};
      }
    }

    /** Second half of CleanupStale, under the write lock. */
    method StaleSweep(members: seq<StaleClient>, auths: seq<StaleAuth>, now: int)
      requires Valid() && clock <= now && scan.Some? && now - scan.value.at <= 30 * SECOND
      requires scan.value.members == members && scan.value.auths == auths
      modifies this, ipBitmap
      ensures Valid()
      ensures State() == Step(old(State()), EvStaleSweep(now))
    {
      StepKeeps(State(), EvStaleSweep(now));
      clock := now;
      scan := None;
      ghost var s := State();
      var i := 0;
      while i < |members|
        invariant 0 <= i <= |members| && ipBitmap.Length == 4
        invariant SweepMembers(State(), members[i..], now) == SweepMembers(s, members, now)
      {
        assert members[i..][0] == members[i] && members[i..][1..] == members[i + 1..];
        SweepClient(members[i], now);
        i := i + 1;
      }
      ghost var t := State();
      i := 0;
      while i < |auths|
        invariant 0 <= i <= |auths| && ipBitmap.Length == 4
        invariant SweepAuths(State(), auths[i..]) == SweepAuths(t, auths)
      {
        assert auths[i..][0] == auths[i] && auths[i..][1..] == auths[i + 1..];
        SweepPending(auths[i]);
        i := i + 1;
      }
    }

    method SweepClient(r: StaleClient, now: int)
      requires ipBitmap.Length == 4
      modifies this`clients, this`addrMap, this`ipConnCount, ipBitmap
      ensures State() == SweepMember(old(State()), r, now)
    {
      if r.vip in clients && clients[r.vip] == r.id && r.id in store {
        var c := store[r.id];
        if now - c.lastSeen <= 30 * SECOND { return; }
        if c.vip.Some? { MarkFree(ipBitmap, c.vip.value.d); }
        clients := clients - {r.vip};
        if c.addr.Some? {
          addrMap := addrMap - {r.Key()};
          DecrementConn(r.Key().ip);
        }
      }
    }

    method SweepPending(r: StaleAuth)
      requires ipBitmap.Length == 4
      modifies this`addrMap, this`pendingAuth, this`ipConnCount
      ensures State() == SweepAuth(old(State()), r)
    {
      if r.key in addrMap && addrMap[r.key] == r.id && r.id in store {
        addrMap := addrMap - {r.key};
        if pendingAuth > 0 { pendingAuth := pendingAuth - 1; }
        if store[r.id].addr.Some? { DecrementConn(r.ip); }
      }
    }

    // ── Persistence ──────────────────────────────────────────────

    /** SnapshotState: the saved entries and a copy of the bitmap words. */
    method TakeSnapshot(now: int) returns (entries: map<Ip4, Entry>, words: seq<bv64>)
      requires Valid()
      ensures entries == SnapshotState(State(), now).entries
      ensures |words| == 4 && UsedSet(words) == SnapshotState(State(), now).used
    {
      entries, words := map[], ipBitmap[..];
      var todo := clients.Keys;
      while todo != {}
        invariant todo <= clients.Keys && entries.Keys == clients.Keys - todo
        invariant forall v :: v in entries ==> SavedAs(store, clients[v], entries[v])
        decreases todo
      {
        var v :| v in todo;
        assert SeatOk(State(), v);
        var c := store[clients[v]];
        if c.auth != ChallengeSent && c.vip.Some? {
          entries := entries[c.vip.value := Entry(c.name, c.vip, c.lastSeen)];
        }
        todo := todo - {v};
      }
    }

    /** The restore loop of loadState over the saved entries. */
    method LoadEntries(snap: Snapshot, order: seq<Entry>, now: int)
      requires Valid() && clock <= now
      modifies this, ipBitmap
      ensures Valid()
      ensures State() == LoadState(old(State()).(clock := now), snap, order, now)
    {
      clock := now;
      ghost var s := State();
      ClockKeeps(old(State()), now);
      RestoreKeeps(s, order, snap.updatedAt, now);
      if snap.version != STATE_VERSION || snap.net != cfg.net { return; }
      var i := 0;
      while i < |order|
        invariant 0 <= i <= |order| && ipBitmap.Length == 4
        invariant RestoreAll(State(), order[i..], snap.updatedAt, now) == RestoreAll(s, order, snap.updatedAt, now)
      {
        assert order[i..][0] == order[i] && order[i..][1..] == order[i + 1..];
        RestoreEntry(order[i], snap.updatedAt, now);
        i := i + 1;
      }
    }

    method RestoreEntry(e: Entry, updatedAt: int, now: int)
      requires ipBitmap.Length == 4
      modifies this`store, this`nextId, this`clients, ipBitmap
      ensures State() == RestoreOne(old(State()), e, updatedAt, now)
    {
      if e.vip.None? { return; }
      var v := e.vip.value;
      if now - e.lastSeen > 30 * SECOND && now - updatedAt > 60 * SECOND { return; }
      if v != HostIn(cfg.net, v.d) || v.d < 2 || v.d == 255 { return; }
      var taken := IsMarked(ipBitmap, v.d);
      if taken { return; }
      MarkUsed(ipBitmap, v.d);
      store := store[nextId := Placeholder(e, v)];
      clients := clients[v := nextId];
      nextId := nextId + 1;
    }
  }

  predicate SavedAs(store: map<Id, Client>, id: Id, e: Entry) {
    id in store && store[id].auth != ChallengeSent && e == Entry(store[id].name, store[id].vip, store[id].lastSeen)
  }

  // ── What the loops build ───────────────────────────────────────

  /** `order` lists `to` without repetition and `targets` are their addresses. */
  ghost predicate Lists(s: RoomState, targets: seq<Addr>, order: seq<Ip4>, to: set<Ip4>) {
    && |order| == |targets|
    && (forall i :: 0 <= i < |order| ==> order[i] in to && Addressed(s, order[i]) && s.store[s.clients[order[i]]].addr.value == targets[i])
    && (forall i, j :: 0 <= i < j < |order| ==> order[i] != order[j])
    && (forall v :: v in to ==> v in order)
  }

  /** One copy for each client in `to`, at that client's address. */
  ghost predicate Reaches(s: RoomState, targets: seq<Addr>, to: set<Ip4>) {
    exists order :: Lists(s, targets, order, to)
  }

  lemma {:induction false} ScanMembersSnoc(s: RoomState, vips: seq<Ip4>, v: Ip4, now: int)
    ensures ScanMembers(s, vips + [v], now) == ScanMembers(s, vips, now) + ScanMembers(s, [v], now)
  {
    if vips != [] {
      assert (vips + [v])[1..] == vips[1..] + [v];
      ScanMembersSnoc(s, vips[1..], v, now);
    } else {
      assert vips + [v] == [v];
    }
  }

  lemma {:induction false} ScanAuthsSnoc(s: RoomState, keys: seq<Addr>, k: Addr, now: int)
    ensures ScanAuths(s, keys + [k], now) == ScanAuths(s, keys, now) + ScanAuths(s, [k], now)
  {
    if keys != [] {
      assert (keys + [k])[1..] == keys[1..] + [k];
      ScanAuthsSnoc(s, keys[1..], k, now);
    } else {
      assert keys + [k] == [k];
    }
  }
}
