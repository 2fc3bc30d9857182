/**
 The server room as a state machine over values. Client objects are kept by
 identity: `store` maps an object's id to its current fields and never forgets
 one, while `clients` and `addrMap` hold ids, as the server's maps hold
 pointers. Every handler is one atomic step, except the stale sweep, whose
 read-locked scan and write-locked recheck are two.
 */
module RoomModel {
  import opened Base
  import opened DataFormat

  datatype AuthState = AuthNone | ChallengeSent

  datatype Client = Client(
    name: string,
    roomId: Bytes,
    version: nat,
    vip: Option<Ip4>,
    addr: Option<Addr>,
    lastSeen: int,
    token: Bytes,
    auth: AuthState,
    challenge: Bytes,
    challengeAt: int)

  type Id = nat

  /** First three octets of a room's /24. */
  datatype Net24 = Net24(a: byte, b: byte, c: byte)

  function HostIn(net: Net24, octet: byte): Ip4 { Ip4(net.a, net.b, net.c, octet) }

  /** `mac` stands for HMAC-SHA256 under the key derived from the room password:
      (key context, challenge, room id, name, address). */
  datatype Config = Config(
    net: Net24,
    password: Bytes,
    maxPlayers: int,
    maxPerIP: nat,
    mac: (Bytes, Bytes, Bytes, string, Addr) -> Bytes)
  {
    function MaxPending(): int { Min(maxPlayers * 3, 512) }
  }

  datatype StaleClient = StaleClient(vip: Ip4, id: Id, addr: Option<Addr>)
  {
    /** The address key remembered for a client without an address is the zero key. */
    function Key(): Addr { if addr.Some? then addr.value else Addr(0, 0) }
  }
  datatype StaleAuth = StaleAuth(key: Addr, id: Id, ip: nat)
  datatype Scan = Scan(at: int, members: seq<StaleClient>, auths: seq<StaleAuth>)

  datatype RoomState = RoomState(
    cfg: Config,
    store: map<Id, Client>,
    next: Id,
    clients: map<Ip4, Id>,
    addrMap: map<Addr, Id>,
    used: set<int>,
    pending: nat,
    conns: map<nat, nat>,
    scan: Option<Scan>,
    clock: int)

  datatype RegisterMsg = RegisterMsg(roomId: Bytes, name: string, version: nat)
  datatype AuthMsg = AuthMsg(roomId: Bytes, name: string, hmac: Bytes)

  /** What the random source yields for this call, if it does not fail. */
  datatype Random = Random(token: Option<Bytes>, challenge: Option<Bytes>)

  datatype Reason =
    | VersionMismatch | InvalidName | InvalidRoom | RateLimit | IPLimit | RoomFull | DuplicateName
    | IPExhausted | ServerBusy | InternalError | AuthAbnormal | AuthTimeout | WrongPassword

  datatype Reply =
    | Silent
    | Kick(reason: Reason)
    | Assigned(vip: Option<Ip4>)
    | Challenged(challenge: Bytes)
    | Forward(source: Ip4, to: set<Ip4>, payload: Bytes)
    | RebindAck(ok: bool)

  // ── Primitive updates ──────────────────────────────────────────

  function ConnsOf(s: RoomState, ip: nat): nat { if ip in s.conns then s.conns[ip] else 0 }

  function AddConn(s: RoomState, ip: nat): RoomState {
    s.(conns := s.conns[ip := ConnsOf(s, ip) + 1])
  }

  function DropConn(s: RoomState, ip: nat): RoomState {
    s.(conns := if ConnsOf(s, ip) > 1 then s.conns[ip := ConnsOf(s, ip) - 1] else s.conns - {ip})
  }

  function DropConnOf(s: RoomState, c: Client): RoomState {
    if c.addr.Some? then DropConn(s, c.addr.value.ip) else s
  }

  function Unmap(s: RoomState, k: Addr): RoomState { s.(addrMap := s.addrMap - {k}) }

  function DecPending(s: RoomState): RoomState {
    s.(pending := if s.pending > 0 then s.pending - 1 else 0)
  }

  function Put(s: RoomState, id: Id, c: Client): RoomState { s.(store := s.store[id := c]) }

  /** Object `id` leaves its old address and answers at `k`. */
  function MoveTo(s: RoomState, id: Id, k: Addr, seen: int): RoomState
    requires id in s.store
  {
    var c := s.store[id];
    var cleared := if c.addr.Some? then Unmap(s, c.addr.value) else s;
    Put(cleared, id, c.(addr := Some(k), lastSeen := seen)).(addrMap := cleared.addrMap[k := id])
  }

  /** A challenge-state entry at `k` is given up: entry, counter and per-IP slot. */
  function Forget(s: RoomState, k: Addr, c: Client): RoomState {
    DropConnOf(DecPending(Unmap(s, k)), c)
  }

  /** The member at `v` leaves: seat, octet and the address entry under `k`. */
  function Evict(s: RoomState, v: Ip4, k: Addr): RoomState {
    Unmap(s.(clients := s.clients - {v}, used := s.used - {v.d}), k)
  }

  function FirstFree(used: set<int>, o: nat): (r: Option<byte>)
    requires o <= 255
    ensures r.Some? ==> o <= r.value < 255 && r.value !in used
    ensures r.Some? ==> forall p | o <= p < r.value :: p in used
    ensures r.None? ==> forall p | o <= p < 255 :: p in used
    decreases 255 - o, used
  {
    if o == 255 then None else if o !in used then Some(o) else FirstFree(used, o + 1)
  }

  function Seat(s: RoomState, c: Client, v: Ip4, k: Addr): RoomState {
    s.(store := s.store[s.next := c], next := s.next + 1, clients := s.clients[v := s.next],
       addrMap := s.addrMap[k := s.next], used := s.used + {v.d})
  }

  /** doRegisterClient: the least free octet, unless the pool is empty or no token can be drawn. */
  function Admit(s: RoomState, reg: RegisterMsg, k: Addr, now: int, rnd: Random): (RoomState, Option<Ip4>) {
    var o := FirstFree(s.used, 2);
    if o.None? || rnd.token.None? then (s, None)
    else
      var v := HostIn(s.cfg.net, o.value);
      var c := Client(reg.name, reg.roomId, reg.version, Some(v), Some(k), now, rnd.token.value,
                      AuthNone, [], 0);
      (Seat(s, c, v, k), Some(v))
  }

  /** doSendAuthChallenge. */
  function Issue(s: RoomState, reg: RegisterMsg, k: Addr, now: int, ch: Bytes): RoomState {
    var c := Client(reg.name, reg.roomId, reg.version, None, Some(k), now, ZERO_TOKEN,
                    ChallengeSent, ch, now);
    s.(store := s.store[s.next := c], next := s.next + 1, addrMap := s.addrMap[k := s.next],
       pending := s.pending + 1)
  }

  // ── Register ───────────────────────────────────────────────────

  const APP_VERSION: nat := 0x0110
  const MIN_TOKEN_VERSION: nat := 0x0107

  predicate IsCompatible(client: nat, server: nat) {
    client == 0 || server == 0 || (client / 256 == server / 256 && client % 256 <= server % 256)
  }

  predicate PendingAt(s: RoomState, k: Addr) {
    k in s.addrMap && s.addrMap[k] in s.store && s.store[s.addrMap[k]].auth == ChallengeSent
  }

  predicate IsPlaceholder(c: Client, name: string, roomId: Bytes) {
    c.name == name && c.roomId == roomId && c.addr.None? && c.auth == AuthNone
  }

  ghost function Placeholders(s: RoomState, name: string, roomId: Bytes): set<Ip4> {
    set v | v in s.clients && s.clients[v] in s.store && IsPlaceholder(s.store[s.clients[v]], name, roomId)
  }

  predicate Taken(s: RoomState, name: string, roomId: Bytes) {
    exists v :: v in s.clients && s.clients[v] in s.store && s.store[s.clients[v]].auth != ChallengeSent
                && s.store[s.clients[v]].roomId == roomId && s.store[s.clients[v]].name == name
  }

  /** Map iteration meets its matches in any order; `pick` says which comes first. */
  ghost function Choose<T>(matches: set<T>, pick: T): (t: T)
    requires matches != {}
    ensures t in matches
    ensures pick in matches ==> t == pick
  {
    if pick in matches then pick else var t :| t in matches; t
  }

  function RegisterError(reg: RegisterMsg, rateOk: bool): Option<Reason> {
    if !IsCompatible(reg.version, APP_VERSION) then Some(VersionMismatch)
    else if |reg.name| == 0 || |reg.name| > 32 then Some(InvalidName)
    else if |reg.roomId| == 0 || |reg.roomId| > 32 then Some(InvalidRoom)
    else if !rateOk then Some(RateLimit)
    else None
  }

  ghost function Register(s: RoomState, reg: RegisterMsg, from: Addr, now: int, rateOk: bool,
                          rnd: Random, pick: Ip4): (RoomState, Reply)
  {
    var err := RegisterError(reg, rateOk);
    if err.Some? then (s, Kick(err.value))
    else
      var s1 := if PendingAt(s, from) then Forget(s, from, s.store[s.addrMap[from]]) else s;
      if from in s1.addrMap && s1.addrMap[from] in s1.store then
        var id := s1.addrMap[from];
        (Put(s1, id, s1.store[id].(lastSeen := now, version := reg.version)), Assigned(s1.store[id].vip))
      else RegisterAt(s1, reg, from, now, rnd, pick)
  }

  /** Registration from an address that is not in the address map. */
  ghost function RegisterAt(s: RoomState, reg: RegisterMsg, from: Addr, now: int,
                            rnd: Random, pick: Ip4): (RoomState, Reply)
  {
    var waiting := Placeholders(s, reg.name, reg.roomId);
    if ConnsOf(s, from.ip) >= s.cfg.maxPerIP then (s, Kick(IPLimit))
    else if waiting != {} then
      var v := Choose(waiting, pick);
      (MoveTo(AddConn(s, from.ip), s.clients[v], from, now), Assigned(s.store[s.clients[v]].vip))
    else if |s.clients| >= s.cfg.maxPlayers then (s, Kick(RoomFull))
    else if Taken(s, reg.name, reg.roomId) then (s, Kick(DuplicateName))
    else if s.cfg.password == [] then
      var (s2, v) := Admit(AddConn(s, from.ip), reg, from, now, rnd);
      (s2, if v.Some? then Assigned(v) else Kick(IPExhausted))
    else if s.pending >= s.cfg.MaxPending() then (s, Kick(ServerBusy))
    else if rnd.challenge.None? then (s, Kick(InternalError))
    else (Issue(AddConn(s, from.ip), reg, from, now, rnd.challenge.value), Challenged(rnd.challenge.value))
  }

  // ── Auth response ──────────────────────────────────────────────

  ghost function PendingNamed(s: RoomState, name: string, roomId: Bytes): set<Addr> {
    set k | k in s.addrMap && PendingAt(s, k)
            && s.store[s.addrMap[k]].roomId == roomId && s.store[s.addrMap[k]].name == name
  }

  /** The challenge-state entry a response speaks for: the one at its own address,
      else (NAT rebinding) some entry with its names. */
  ghost function PendingFor(s: RoomState, resp: AuthMsg, from: Addr, pick: Addr): (k: Option<Addr>)
    ensures k.Some? ==> PendingAt(s, k.value)
  {
    if PendingAt(s, from) then Some(from)
    else
      var named := PendingNamed(s, resp.name, resp.roomId);
      if named == {} then None else Some(Choose(named, pick))
  }

  /** The address a response is bound to: the one the challenge was sent to. */
  function BoundTo(c: Client): Addr { if c.addr.Some? then c.addr.value else Addr(0, 0) }

  function ExpectedMac(s: RoomState, c: Client, resp: AuthMsg): Bytes {
    s.cfg.mac(c.roomId, c.challenge, resp.roomId, resp.name, BoundTo(c))
  }

  ghost function AuthResponse(s: RoomState, resp: AuthMsg, from: Addr, now: int,
                              rnd: Random, pick: Addr): (RoomState, Reply)
  {
    if |resp.hmac| != 32 then (s, Silent)
    else
      var at := PendingFor(s, resp, from, pick);
      if at.None? then
        (if from in s.addrMap && s.addrMap[from] in s.store
         then Forget(s, from, s.store[s.addrMap[from]]) else s, Kick(AuthAbnormal))
      else AuthPending(s, resp, from, now, rnd, at.value)
  }

  ghost function AuthPending(s: RoomState, resp: AuthMsg, from: Addr, now: int,
                             rnd: Random, k: Addr): (RoomState, Reply)
    requires PendingAt(s, k)
  {
    var c := s.store[s.addrMap[k]];
    if now - c.challengeAt > 15 * SECOND then (Forget(s, k, c), Kick(AuthTimeout))
    else if s.cfg.password == [] then (Forget(s, k, c), Kick(InternalError))
    else if resp.hmac != ExpectedMac(s, c, resp) then (Forget(s, k, c), Kick(WrongPassword))
    else if |s.clients| >= s.cfg.maxPlayers then (DropConnOf(s, c), Kick(RoomFull))
    else if Taken(s, resp.name, resp.roomId) then (DropConnOf(s, c), Kick(DuplicateName))
    else Authenticated(s, from, now, rnd, k)
  }

  ghost function Authenticated(s: RoomState, from: Addr, now: int, rnd: Random, k: Addr): (RoomState, Reply)
    requires PendingAt(s, k)
  {
    var c := s.store[s.addrMap[k]];
    var s1 := DecPending(if k == from then Unmap(s, from) else MoveTo(s, s.addrMap[k], from, c.lastSeen));
    var (s2, v) := Admit(s1, RegisterMsg(c.roomId, c.name, c.version), from, now, rnd);
    (s2, if v.Some? then Assigned(v) else Kick(IPExhausted))
  }

  // ── Keepalive, disconnect, relay, rebind ───────────────────────

  function KeepAlive(s: RoomState, from: Addr, now: int): RoomState {
    if from in s.addrMap && s.addrMap[from] in s.store
    then Put(s, s.addrMap[from], s.store[s.addrMap[from]].(lastSeen := now)) else s
  }

  function Disconnect(s: RoomState, from: Addr): RoomState {
    if from !in s.addrMap || s.addrMap[from] !in s.store then s
    else
      var c := s.store[s.addrMap[from]];
      if c.auth == ChallengeSent then Forget(s, from, c)
      else if c.vip.Some? then DropConnOf(Evict(s, c.vip.value, from), c)
      else DropConnOf(Unmap(s, from), c)
  }

  predicate TokenAccepted(c: Client, payload: Bytes) {
    (c.version >= MIN_TOKEN_VERSION && c.token != ZERO_TOKEN) ==>
      && |payload| > 8
      && var h := ParseDataHeader(payload);
         (HasToken(h.flags) ==>
            |payload| >= h.tokenOff + 16 && payload[h.tokenOff..h.tokenOff + 16] == c.token)
  }

  /** Limited or subnet-directed broadcast, or IPv4 multicast. */
  predicate IsRelayTarget(dst: Ip4, net: Net24) {
    dst == Ip4(255, 255, 255, 255) || dst == HostIn(net, 255) || 224 <= dst.a <= 239
  }

  predicate Addressed(s: RoomState, v: Ip4) {
    v in s.clients && s.clients[v] in s.store && s.store[s.clients[v]].addr.Some?
  }

  ghost function Targets(s: RoomState, sender: Id, dst: Ip4): set<Ip4> {
    if IsRelayTarget(dst, s.cfg.net)
    then set v | v in s.clients && Addressed(s, v) && s.clients[v] != sender
    else set v | v in s.clients && Addressed(s, v) && v == dst
  }

  /** What tryMigrateAddrMap asks for: a seated client under the claimed IP, and its token. */
  predicate MigrateAllowed(s: RoomState, payload: Bytes)
    requires |payload| >= 8
  {
    var src := Ip4At(payload, 0);
    src in s.clients && s.clients[src] in s.store && TokenAccepted(s.store[s.clients[src]], payload)
  }

  /** tryMigrateAddrMap: the sender found by the virtual IP it claims. */
  function Migrate(s: RoomState, payload: Bytes, from: Addr, now: int): (RoomState, Option<Id>)
    requires |payload| >= 8
  {
    var src := Ip4At(payload, 0);
    if !MigrateAllowed(s, payload) then (s, None)
    else (MoveTo(s, s.clients[src], from, now), Some(s.clients[src]))
  }

  ghost function Relay(s: RoomState, payload: Bytes, from: Addr, now: int): (RoomState, Reply) {
    if |payload| < 8 then (s, Silent)
    else
      var (s1, sender) := if from in s.addrMap then (s, Some(s.addrMap[from])) else Migrate(s, payload, from, now);
      if sender.None? || sender.value !in s1.store then (s1, Silent)
      else
        var c := s1.store[sender.value];
        var to := Targets(s1, sender.value, Ip4At(payload, 4));
        if c.vip != Some(Ip4At(payload, 0)) || !TokenAccepted(c, payload) || to == {} then (s1, Silent)
        else (s1, Forward(Ip4At(payload, 0), to, payload))
  }

  /** What handleRebind asks for: the right HMAC, or without a password recent activity. */
  predicate RebindAllowed(s: RoomState, v: Ip4, hmac: Bytes, now: int) {
    && v in s.clients && s.clients[v] in s.store
    && var c := s.store[s.clients[v]];
       if s.cfg.password != []
       then |hmac| > 0 && hmac == s.cfg.mac(c.roomId, [], c.roomId, c.name, Addr(MappedIp(v), 0))
       else now - c.lastSeen <= 30 * SECOND
  }

  ghost function Rebind(s: RoomState, v: Ip4, hmac: Bytes, from: Addr, now: int): (RoomState, Reply) {
    if RebindAllowed(s, v, hmac, now) then (MoveTo(s, s.clients[v], from, now), RebindAck(true)) else (s, RebindAck(false))
  }

  // ── Stale sweep ────────────────────────────────────────────────

  predicate StaleMember(s: RoomState, v: Ip4, now: int) {
    v in s.clients && s.clients[v] in s.store && now - s.store[s.clients[v]].lastSeen > 30 * SECOND
  }

  predicate StalePending(s: RoomState, k: Addr, now: int) {
    PendingAt(s, k) && now - s.store[s.addrMap[k]].challengeAt > 30 * SECOND
  }

  /** The scan walks both maps; `vips` and `keys` are the orders it meets them in. */
  function ScanMembers(s: RoomState, vips: seq<Ip4>, now: int): seq<StaleClient> {
    if vips == [] then []
    else (if StaleMember(s, vips[0], now)
          then [StaleClient(vips[0], s.clients[vips[0]], s.store[s.clients[vips[0]]].addr)] else [])
         + ScanMembers(s, vips[1..], now)
  }

  function ScanAuths(s: RoomState, keys: seq<Addr>, now: int): seq<StaleAuth> {
    if keys == [] then []
    else (if StalePending(s, keys[0], now)
          then var c := s.store[s.addrMap[keys[0]]];
               [StaleAuth(keys[0], s.addrMap[keys[0]], if c.addr.Some? then c.addr.value.ip else 0)] else [])
         + ScanAuths(s, keys[1..], now)
  }

  function StaleScan(s: RoomState, vips: seq<Ip4>, keys: seq<Addr>, now: int): RoomState {
    s.(scan := Some(Scan(now, ScanMembers(s, vips, now), ScanAuths(s, keys, now))))
  }

  function SweepMember(s: RoomState, r: StaleClient, now: int): RoomState {
    if StaleMember(s, r.vip, now) && s.clients[r.vip] == r.id then
      var c := s.store[r.id];
      var s1 := s.(clients := s.clients - {r.vip}, used := if c.vip.Some? then s.used - {c.vip.value.d} else s.used);
      if c.addr.Some? then DropConn(Unmap(s1, r.Key()), r.Key().ip) else s1
    else s
  }

  function SweepAuth(s: RoomState, r: StaleAuth): RoomState {
    if r.key in s.addrMap && s.addrMap[r.key] == r.id && r.id in s.store then
      var s1 := DecPending(Unmap(s, r.key));
      if s.store[r.id].addr.Some? then DropConn(s1, r.ip) else s1
    else s
  }

  function SweepMembers(s: RoomState, rs: seq<StaleClient>, now: int): RoomState
    decreases |rs|
  {
    if rs == [] then s else SweepMembers(SweepMember(s, rs[0], now), rs[1..], now)
  }

  function SweepAuths(s: RoomState, rs: seq<StaleAuth>): RoomState
    decreases |rs|
  {
    if rs == [] then s else SweepAuths(SweepAuth(s, rs[0]), rs[1..])
  }

  function StaleSweep(s: RoomState, now: int): RoomState {
    if s.scan.None? then s
    else SweepAuths(SweepMembers(s.(scan := None), s.scan.value.members, now), s.scan.value.auths)
  }

  // ── Events and runs ────────────────────────────────────────────

  datatype Event =
    | EvRegister(reg: RegisterMsg, from: Addr, now: int, rateOk: bool, rnd: Random, pickVip: Ip4)
    | EvAuthResponse(resp: AuthMsg, from: Addr, now: int, rnd: Random, pickAddr: Addr)
    | EvKeepAlive(from: Addr, now: int)
    | EvDisconnect(from: Addr, now: int)
    | EvRelay(payload: Bytes, from: Addr, now: int)
    | EvRebind(vip: Ip4, hmac: Bytes, from: Addr, now: int)
    | EvStaleScan(vips: seq<Ip4>, keys: seq<Addr>, now: int)
    | EvStaleSweep(now: int)

  ghost function Handle(s: RoomState, e: Event): (RoomState, Reply) {
    match e
    case EvRegister(reg, from, now, rateOk, rnd, pick) => Register(s, reg, from, now, rateOk, rnd, pick)
    case EvAuthResponse(resp, from, now, rnd, pick) => AuthResponse(s, resp, from, now, rnd, pick)
    case EvKeepAlive(from, now) => (KeepAlive(s, from, now), Silent)
    case EvDisconnect(from, now) => (Disconnect(s, from), Silent)
    case EvRelay(payload, from, now) => Relay(s, payload, from, now)
    case EvRebind(v, hmac, from, now) => Rebind(s, v, hmac, from, now)
    case EvStaleScan(vips, keys, now) => (StaleScan(s, vips, keys, now), Silent)
    case EvStaleSweep(now) => (StaleSweep(s, now), Silent)
  }

  ghost function Step(s: RoomState, e: Event): RoomState { Handle(s.(clock := e.now), e).0 }

  ghost function Answer(s: RoomState, e: Event): Reply { Handle(s.(clock := e.now), e).1 }

  /** A clock that does not run back, and at most 30 s between a scan and its recheck. */
  predicate Timely(s: RoomState, e: Event) {
    && s.clock <= e.now
    && (e.EvStaleSweep? && s.scan.Some? ==> e.now - s.scan.value.at <= 30 * SECOND)
  }

  ghost predicate TimelyRun(s: RoomState, es: seq<Event>)
    decreases |es|
  {
    es == [] || (Timely(s, es[0]) && TimelyRun(Step(s, es[0]), es[1..]))
  }

  ghost function Run(s: RoomState, es: seq<Event>): RoomState
    decreases |es|
  {
    if es == [] then s else Run(Step(s, es[0]), es[1..])
  }

  const RESERVED: set<int> := {0, 1, 255}

  /** NewRoom: nobody seated; network, server and broadcast octets reserved. */
  function EmptyRoom(cfg: Config, now: int): RoomState {
    RoomState(cfg, map[], 0, map[], map[], RESERVED, 0, map[], None, now)
  }
}
