/**
 Challenge and response over whole runs. The trail records, from outside, every
 challenge the room sent and every seat it gave for a response. In a passworded
 room each member's seat goes back to a response whose HMAC matched a challenge at
 most 15 s old, or to the saved state, and no challenge seats two members.
 */
module RoomAdmission {
  import opened Base
  import opened RoomModel
  import opened RoomInvariant
  import opened RoomHistory
  import opened RoomPersist
  import opened RoomTheorems

  datatype Issued = Issued(challenge: Bytes, at: int, roomId: Bytes, name: string)
  datatype Admission = Admission(challengeOf: Id, resp: AuthMsg, boundTo: Addr, at: int)
  /** `restored` are the seats a saved state gave out before the run. */
  datatype Trail = Trail(issued: map<Id, Issued>, admitted: map<Id, Admission>, restored: map<Ip4, Id>)

  // ── How the trail is kept ──────────────────────────────────────

  /** Key of the pending entry an event turns into a seat, if it does. */
  ghost function Winner(s: RoomState, e: Event): (k: Option<Addr>)
    ensures k.Some? ==> e.EvAuthResponse? && Accepted(s, e.resp, e.now, k.value)
  {
    if e.EvAuthResponse? && |e.resp.hmac| == 32 then
      var at := PendingFor(s, e.resp, e.from, e.pickAddr);
      if at.Some? && Accepted(s, e.resp, e.now, at.value) && FirstFree(s.used, 2).Some? && e.rnd.token.Some?
      then at else None
    else None
  }

  ghost function Record(s: RoomState, e: Event, tr: Trail): Trail {
    var w := Winner(s, e);
    if w.Some? then
      var pid := s.addrMap[w.value];
      tr.(admitted := tr.admitted[s.next := Admission(pid, e.resp, BoundTo(s.store[pid]), e.now)])
    else if Handle(s, e).1.Challenged? && e.EvRegister? then
      tr.(issued := tr.issued[s.next := Issued(Handle(s, e).1.challenge, e.now, e.reg.roomId, e.reg.name)])
    else tr
  }

  ghost function TrailOf(s: RoomState, es: seq<Event>, tr: Trail): Trail
    decreases |es|
  {
    if es == [] then tr else TrailOf(Step(s, es[0]), es[1..], Record(s.(clock := es[0].now), es[0], tr))
  }

  // ── What the trail proves ──────────────────────────────────────

  /** The response matched the challenge that was sent, in time. */
  predicate Vouched(cfg: Config, tr: Trail, a: Admission) {
    && a.challengeOf in tr.issued
    && var i := tr.issued[a.challengeOf];
       && a.resp.hmac == cfg.mac(i.roomId, i.challenge, a.resp.roomId, a.resp.name, a.boundTo)
       && a.at - i.at <= 15 * SECOND
  }

  ghost predicate AllVouched(cfg: Config, tr: Trail) {
    forall id :: id in tr.admitted ==> Vouched(cfg, tr, tr.admitted[id])
  }

  /** No challenge won two seats. */
  ghost predicate SpentOnce(tr: Trail) {
    forall i, j :: i in tr.admitted && j in tr.admitted && i != j ==>
      tr.admitted[i].challengeOf != tr.admitted[j].challengeOf
  }

  ghost predicate MembersAdmitted(s: RoomState, tr: Trail) {
    forall v :: v in s.clients ==> Entitled(tr, v, s.clients[v])
  }

  /** The seat was won by a response, or restored to this very object. */
  predicate Entitled(tr: Trail, v: Ip4, id: Id) { id in tr.admitted || (v in tr.restored && tr.restored[v] == id) }

  predicate IssuedAs(c: Client, i: Issued) {
    c.challenge == i.challenge && c.challengeAt == i.at && c.roomId == i.roomId && c.name == i.name
  }

  ghost predicate ChallengesIssued(s: RoomState, tr: Trail) {
    forall id :: id in s.store && s.store[id].auth == ChallengeSent ==> id in tr.issued && IssuedAs(s.store[id], tr.issued[id])
  }

  /** A challenge still open has not been spent. */
  ghost predicate OpenUnspent(s: RoomState, tr: Trail) {
    forall i :: i in tr.admitted ==> i < s.next && tr.admitted[i].challengeOf < s.next && !Open(s, tr.admitted[i].challengeOf)
  }

  ghost predicate TrailOk(s: RoomState, tr: Trail) {
    && s.cfg.password != []
    && (forall id :: id in tr.issued ==> id < s.next)
    && AllVouched(s.cfg, tr) && SpentOnce(tr) && MembersAdmitted(s, tr) && ChallengesIssued(s, tr) && OpenUnspent(s, tr)
  }

  /** Quiet, and no object is created. */
  ghost predicate Calm(s: RoomState, t: RoomState) {
    Quiet(s, t) && t.next == s.next && t.store.Keys == s.store.Keys
  }

  lemma CalmKeepsTrail(s: RoomState, t: RoomState, tr: Trail)
    requires TrailOk(s, tr) && Calm(s, t)
    ensures TrailOk(t, tr)
  {
    forall v | v in t.clients ensures Entitled(tr, v, t.clients[v]) { assert v in s.clients; }
    forall id | id in t.store && t.store[id].auth == ChallengeSent
      ensures id in tr.issued && IssuedAs(t.store[id], tr.issued[id]) {
      assert id in s.store && ObjectKept(s.store[id], t.store[id]);
    }
  }

  lemma IssueKeepsTrail(q: RoomState, reg: RegisterMsg, k: Addr, now: int, ch: Bytes, tr: Trail)
    requires TrailOk(q, tr) && FreshOk(q)
    ensures TrailOk(Issue(q, reg, k, now, ch), tr.(issued := tr.issued[q.next := Issued(ch, now, reg.roomId, reg.name)]))
  {
    var t := Issue(q, reg, k, now, ch);
    var tr' := tr.(issued := tr.issued[q.next := Issued(ch, now, reg.roomId, reg.name)]);
    IssueQuiet(q, reg, k, now, ch);
    forall id | id in tr'.admitted ensures Vouched(t.cfg, tr', tr'.admitted[id]) {
      assert Vouched(q.cfg, tr, tr.admitted[id]);
    }
    forall v | v in t.clients ensures Entitled(tr', v, t.clients[v]) { assert Entitled(tr, v, q.clients[v]); }
  }

  lemma ResumeCalm(s: RoomState, from: Addr, now: int, v: Ip4)
    requires Inv(s) && v in s.clients
    ensures Calm(s, MoveTo(AddConn(s, from.ip), s.clients[v], from, now))
  {
    assert SeatOk(s, v);
    ResumeQuiet(s, from, now, v);
  }

  lemma RegisterAtIssues(s: RoomState, reg: RegisterMsg, from: Addr, now: int, rnd: Random, pick: Ip4)
      returns (q: RoomState)
    requires Inv(s) && s.cfg.password != []
    ensures Calm(s, q)
    ensures var (t, reply) := RegisterAt(s, reg, from, now, rnd, pick);
            t == if reply.Challenged? then Issue(q, reg, from, now, reply.challenge) else q
  {
    q := s;
    ShrinkQuiet(s, s);
    if ConnsOf(s, from.ip) < s.cfg.maxPerIP {
      var waiting := Placeholders(s, reg.name, reg.roomId);
      if waiting != {} {
        var v := Choose(waiting, pick);
        ResumeCalm(s, from, now, v);
        q := MoveTo(AddConn(s, from.ip), s.clients[v], from, now);
      } else if |s.clients| < s.cfg.maxPlayers && !Taken(s, reg.name, reg.roomId) && s.pending < s.cfg.MaxPending() && rnd.challenge.Some? {
        AddConnQuiet(s, from);
        q := AddConn(s, from.ip);
      }
    }
  }

  lemma RegisterIssues(s: RoomState, reg: RegisterMsg, from: Addr, now: int, rateOk: bool, rnd: Random, pick: Ip4)
      returns (q: RoomState)
    requires Inv(s) && s.cfg.password != []
    ensures Calm(s, q)
    ensures var (t, reply) := Register(s, reg, from, now, rateOk, rnd, pick);
            t == if reply.Challenged? then Issue(q, reg, from, now, reply.challenge) else q
  {
    var s1 := Cleared(s, from);
    ClearedQuiet(s, from);
    if RegisterError(reg, rateOk).Some? {
      q := s;
      ShrinkQuiet(s, s);
    } else {
      if from in s1.addrMap && s1.addrMap[from] in s1.store {
        RefreshQuiet(s1, from, now, reg.version);
        q := Put(s1, s1.addrMap[from], s1.store[s1.addrMap[from]].(lastSeen := now, version := reg.version));
      } else {
        q := RegisterAtIssues(s1, reg, from, now, rnd, pick);
      }
      QuietTrans(s, s1, q);
    }
  }

  lemma VacatedCloses(s: RoomState, from: Addr, k: Addr)
    requires Inv(s) && PendingAt(s, k)
    ensures var q := Vacated(s, from, k);
            Calm(s, q) && q.used == s.used && q.cfg == s.cfg
            && forall j :: j in q.addrMap && j != from ==> q.addrMap[j] != s.addrMap[k]
  {
    VacatedQuiet(s, from, k);
    assert EntryOk(s, k);
    var q := Vacated(s, from, k);
    forall j | j in q.addrMap && j != from ensures q.addrMap[j] != s.addrMap[k] {
      if q.addrMap[j] == s.addrMap[k] { OneEntry(s, j, s.addrMap[k]); }
    }
  }

  lemma WinVouched(s: RoomState, e: Event, tr: Trail)
    requires AllVouched(s.cfg, tr) && ChallengesIssued(s, tr) && AddrOk(s) && Winner(s, e).Some?
    ensures AllVouched(s.cfg, Record(s, e, tr))
  {
    var pid := s.addrMap[Winner(s, e).value];
    assert EntryOk(s, Winner(s, e).value);
    assert Open(s, pid);
    assert IssuedAs(s.store[pid], tr.issued[pid]);
    var tr' := Record(s, e, tr);
    forall id | id in tr'.admitted ensures Vouched(s.cfg, tr', tr'.admitted[id]) {
      if id != s.next { assert Vouched(s.cfg, tr, tr.admitted[id]); }
    }
  }

  lemma WinKeepsTrail(s: RoomState, e: Event, tr: Trail)
    requires TrailOk(s, tr) && Inv(s) && Winner(s, e).Some?
    ensures TrailOk(Handle(s, e).0, Record(s, e, tr))
  {
    var k := Winner(s, e).value;
    var pid := s.addrMap[k];
    var q := Vacated(s, e.from, k);
    var c := WinSeats(s, e);
    VacatedCloses(s, e.from, k);
    CalmKeepsTrail(s, q, tr);
    WinVouched(s, e, tr);
    WinUnspent(s, k, tr);
    SeatKeepsTrail(q, c, c.vip.value, pid, tr, Record(s, e, tr).admitted[s.next], e.from);
  }

  /** What a winning response does: one seat, after the pending entry has gone. */
  lemma WinSeats(s: RoomState, e: Event) returns (c: Client)
    requires Winner(s, e).Some?
    ensures c.auth == AuthNone && c.vip.Some?
    ensures Handle(s, e).0 == Seat(Vacated(s, e.from, Winner(s, e).value), c, c.vip.value, e.from)
  {
    var k := Winner(s, e).value;
    var p := s.store[s.addrMap[k]];
    var q := Vacated(s, e.from, k);
    AcceptedAdmits(s, e.resp, e.from, e.now, e.rnd, k);
    var v := HostIn(q.cfg.net, FirstFree(q.used, 2).value);
    c := Client(p.name, p.roomId, p.version, Some(v), Some(e.from), e.now, e.rnd.token.value, AuthNone, [], 0);
  }

  lemma WinUnspent(s: RoomState, k: Addr, tr: Trail)
    requires OpenUnspent(s, tr) && PendingAt(s, k)
    ensures forall i :: i in tr.admitted ==> tr.admitted[i].challengeOf != s.addrMap[k]
  {
    assert Open(s, s.addrMap[k]);
  }

  /** Seating object `q.next` at `k` for challenge `pid`, whose only entry is at `k`. */
  lemma SeatKeepsTrail(q: RoomState, c: Client, v: Ip4, pid: Id, tr: Trail, a: Admission, k: Addr)
    requires TrailOk(q, tr) && FreshOk(q) && AllVouched(q.cfg, Won(tr, q.next, a))
    requires pid in q.store && a.challengeOf == pid && forall i :: i in tr.admitted ==> tr.admitted[i].challengeOf != pid
    requires forall j :: j in q.addrMap && j != k ==> q.addrMap[j] != pid
    requires c.auth == AuthNone
    ensures TrailOk(Seat(q, c, v, k), Won(tr, q.next, a))
  {
    var t, tr' := Seat(q, c, v, k), Won(tr, q.next, a);
    assert ChallengesIssued(t, tr');
    SeatUnspent(q, c, v, pid, tr, a, k);
    forall w | w in t.clients ensures Entitled(tr', w, t.clients[w]) {
      if w != v { assert Entitled(tr, w, q.clients[w]); }
    }
  }

  function Won(tr: Trail, id: Id, a: Admission): Trail { tr.(admitted := tr.admitted[id := a]) }

  lemma SeatUnspent(q: RoomState, c: Client, v: Ip4, pid: Id, tr: Trail, a: Admission, k: Addr)
    requires OpenUnspent(q, tr) && FreshOk(q) && pid in q.store && a.challengeOf == pid && c.auth == AuthNone
    requires forall j :: j in q.addrMap && j != k ==> q.addrMap[j] != pid
    ensures OpenUnspent(Seat(q, c, v, k), Won(tr, q.next, a))
  {
    var t, tr' := Seat(q, c, v, k), Won(tr, q.next, a);
    forall i | i in tr'.admitted ensures !Open(t, tr'.admitted[i].challengeOf) && tr'.admitted[i].challengeOf < t.next {
      if i != q.next { assert !Open(q, tr.admitted[i].challengeOf); }
    }
  }

  lemma AuthResponseCalm(s: RoomState, e: Event)
    requires Inv(s) && e.EvAuthResponse? && Winner(s, e).None?
    ensures Calm(s, Handle(s, e).0)
  {
    var at := PendingFor(s, e.resp, e.from, e.pickAddr);
    if |e.resp.hmac| != 32 || at.None? {
      AuthAbnormalQuiet(s, e.resp, e.from, e.now, e.rnd, e.pickAddr);
    } else if Accepted(s, e.resp, e.now, at.value) {
      AcceptedAdmits(s, e.resp, e.from, e.now, e.rnd, at.value);
      VacatedCloses(s, e.from, at.value);
    } else {
      RefusedQuiet(s, e.resp, e.from, e.now, e.rnd, at.value);
    }
  }

  lemma OtherObjects(s: RoomState, e: Event)
    requires !e.EvRegister? && !e.EvAuthResponse?
    ensures Handle(s, e).0.next == s.next && Handle(s, e).0.store.Keys == s.store.Keys
  {
    if e.EvStaleSweep? && s.scan.Some? {
      SweepMembersFrame(s.(scan := None), s.scan.value.members, e.now);
      SweepAuthsFrame(SweepMembers(s.(scan := None), s.scan.value.members, e.now), s.scan.value.auths);
    }
  }

  lemma OtherCalm(s: RoomState, e: Event)
    requires Inv(s) && !e.EvRegister? && !e.EvAuthResponse?
    ensures Calm(s, Handle(s, e).0)
  {
    OtherQuiet(s, e);
    OtherObjects(s, e);
  }

  lemma RecordKeepsTrail(s: RoomState, e: Event, tr: Trail)
    requires TrailOk(s, tr) && Inv(s) && s.clock == e.now
    ensures TrailOk(Handle(s, e).0, Record(s, e, tr))
  {
    if Winner(s, e).Some? {
      WinKeepsTrail(s, e, tr);
    } else if e.EvRegister? {
      var q := RegisterIssues(s, e.reg, e.from, e.now, e.rateOk, e.rnd, e.pickVip);
      CalmKeepsTrail(s, q, tr);
      if Handle(s, e).1.Challenged? {
        IssueKeepsTrail(q, e.reg, e.from, e.now, Handle(s, e).1.challenge, tr);
      }
    } else {
      if e.EvAuthResponse? { AuthResponseCalm(s, e); } else { OtherCalm(s, e); }
      CalmKeepsTrail(s, Handle(s, e).0, tr);
    }
  }

  lemma ClockKeepsTrail(s: RoomState, now: int, tr: Trail)
    requires TrailOk(s, tr)
    ensures TrailOk(s.(clock := now), tr)
  {
    ShrinkQuiet(s, s.(clock := now));
    CalmKeepsTrail(s, s.(clock := now), tr);
  }

  lemma {:induction false} RunKeepsTrail(s: RoomState, es: seq<Event>, tr: Trail)
    requires TrailOk(s, tr) && Inv(s) && TimelyRun(s, es)
    ensures TrailOk(Run(s, es), TrailOf(s, es, tr))
    decreases |es|
  {
    if es != [] {
      var s0 := s.(clock := es[0].now);
      ClockKeeps(s, es[0].now);
      ClockKeepsTrail(s, es[0].now, tr);
      RecordKeepsTrail(s0, es[0], tr);
      StepKeeps(s, es[0]);
      RunKeepsTrail(Step(s, es[0]), es[1..], Record(s0, es[0], tr));
    }
  }

  /** Main theorem: in a passworded room started from any saved state, every member of every
      reachable state was admitted by a matching response at most 15 s after its challenge, or sits
      where the saved state put it; and no challenge admitted twice. */
  lemma EveryMemberAnsweredItsChallenge(cfg: Config, snap: Snapshot, order: seq<Entry>, now: int, es: seq<Event>)
    requires cfg.password != [] && TimelyRun(Started(cfg, snap, order, now), es)
    ensures var s0 := Started(cfg, snap, order, now);
            var s := Run(s0, es);
            var tr := TrailOf(s0, es, Trail(map[], map[], s0.clients));
            && (forall v :: v in s.clients ==>
                  || (s.clients[v] in tr.admitted && Vouched(cfg, tr, tr.admitted[s.clients[v]]))
                  || (v in s0.clients && s.clients[v] == s0.clients[v]))
            && SpentOnce(tr)
  {
    var s0 := Started(cfg, snap, order, now);
    StartedOk(cfg, snap, order, now);
    NothingPendingAtStart(cfg, snap, order, now);
    RunKeepsTrail(s0, es, Trail(map[], map[], s0.clients));
    TrailKeepsRestored(s0, es, Trail(map[], map[], s0.clients));
    assert Run(s0, es).cfg == cfg by { RunSize(s0, es); }
  }

  lemma NothingPendingAtStart(cfg: Config, snap: Snapshot, order: seq<Entry>, now: int)
    ensures forall id :: id in Started(cfg, snap, order, now).store ==> Started(cfg, snap, order, now).store[id].auth == AuthNone
  {
    RestoredNotPending(EmptyRoom(cfg, now), order, snap.updatedAt, now);
  }

  lemma {:induction false} RestoredNotPending(s: RoomState, todo: seq<Entry>, updatedAt: int, now: int)
    requires forall id :: id in s.store ==> s.store[id].auth == AuthNone
    ensures forall id :: id in RestoreAll(s, todo, updatedAt, now).store ==> RestoreAll(s, todo, updatedAt, now).store[id].auth == AuthNone
    decreases |todo|
  {
    if todo != [] { RestoredNotPending(RestoreOne(s, todo[0], updatedAt, now), todo[1..], updatedAt, now); }
  }

  lemma {:induction false} TrailKeepsRestored(s: RoomState, es: seq<Event>, tr: Trail)
    ensures TrailOf(s, es, tr).restored == tr.restored
    decreases |es|
  {
    if es != [] { TrailKeepsRestored(Step(s, es[0]), es[1..], Record(s.(clock := es[0].now), es[0], tr)); }
  }
}
