/**
 The client's peer table and when it may bypass the server:
 internal/client/recv_peer.go, recv_data.go, route.go, peer.go and register.go.
 */
module PeerTable {
  import opened Base
  import opened DataFormat
  import opened AddressText
  import B = Broadcast

  const PEER_GRACE: int := 90 * SECOND

  datatype Peer = Peer(addr: Option<Endpoint>, direct: bool, lastSeen: int, name: Bytes, stale: bool)

  datatype Net = Net(ip: Ip4, mask: Ip4)

  datatype State = State(
    own: Option<Ip4>,
    server: Option<Ip4>,
    net: Option<Net>,
    token: Bytes,
    encrypted: bool,
    peers: map<Ip4, Peer>)

  datatype Entry = Entry(vip: Ip4, addr: Option<Endpoint>, name: Bytes)

  // ── A peer list ────────────────────────────────────────────────

  /** An entry replaces one address by another. */
  predicate Replaces(a: Option<Endpoint>, b: Option<Endpoint>) { a.Some? && b.Some? && a != b }

  function Refresh(p: Peer, e: Entry, now: int): Peer {
    Peer(e.addr, p.direct && !Replaces(p.addr, e.addr), now, e.name, false)
  }

  function MergeEntry(peers: map<Ip4, Peer>, own: Option<Ip4>, e: Entry, now: int): map<Ip4, Peer> {
    if own == Some(e.vip) then peers
    else if e.vip in peers then peers[e.vip := Refresh(peers[e.vip], e, now)]
    else peers[e.vip := Peer(e.addr, false, now, e.name, false)]
  }

  function Merge(peers: map<Ip4, Peer>, own: Option<Ip4>, es: seq<Entry>, now: int): map<Ip4, Peer> {
    if es == [] then peers else MergeEntry(Merge(peers, own, es[..|es| - 1], now), own, es[|es| - 1], now)
  }

  function Listed(own: Option<Ip4>, es: seq<Entry>): set<Ip4> {
    set i | 0 <= i < |es| && own != Some(es[i].vip) :: es[i].vip
  }

  function Keep(peers: map<Ip4, Peer>, vips: set<Ip4>): map<Ip4, Peer> { map v | v in peers && v in vips :: peers[v] }

  /** The table a peer list leaves: the listed peers, each updated by its entries. */
  function AfterList(s: State, es: seq<Entry>, now: int): State {
    s.(peers := Keep(Merge(s.peers, s.own, es, now), Listed(s.own, es)))
  }

  // ── Events ─────────────────────────────────────────────────────

  datatype Event =
    | PeerInfo(es: seq<Entry>, now: int)
    | DirectData(from: Endpoint, payload: Bytes)
    | DirectPunch(from: Endpoint, payload: Bytes, rateOk: bool)
    | CleanStale(now: int)
    | Assign(own: Ip4, server: Ip4, net: Net, token: Bytes, encrypted: bool)

  /** The virtual IP a packet claims to come from. */
  function Claimed(e: Event): Option<Ip4> {
    match e
    case DirectData(_, payload) => if |payload| >= 8 then Some(Ip4At(payload, 0)) else None
    case DirectPunch(_, payload, _) => if |payload| >= 4 then Some(Ip4At(payload, 0)) else None
    case _ => None
  }

  /** In rooms without encryption the session token must be there and match. */
  predicate TokenOk(s: State, payload: Bytes) {
    (!s.encrypted && s.token != ZERO_TOKEN) ==>
      && |payload| > 8
      && var h := ParseDataHeader(payload);
         HasToken(h.flags) && |payload| >= h.tokenOff + DATA_TOKEN_LEN && payload[h.tokenOff..h.tokenOff + DATA_TOKEN_LEN] == s.token
  }

  /** `v` is a peer whose current address is `from`. */
  predicate KnownAt(s: State, v: Ip4, from: Endpoint) { v in s.peers && s.peers[v].addr == Some(from) }

  /** handleDirectData and handleDirectHolePunch, up to the confirmation. */
  predicate Confirms(s: State, e: Event, v: Ip4) {
    match e
    case DirectData(from, payload) =>
      && UnmarshalData(payload).Some? && UnmarshalData(payload).value.data != [] && UnmarshalData(payload).value.src == v
      && KnownAt(s, v, from) && TokenOk(s, payload)
    case DirectPunch(from, payload, rateOk) => |payload| >= 4 && Ip4At(payload, 0) == v && KnownAt(s, v, from) && rateOk
    case _ => false
  }

  function Confirm(s: State, e: Event): State {
    if Claimed(e).Some? && Confirms(s, e, Claimed(e).value)
    then
      var v := Claimed(e).value;
      s.(peers := s.peers[v := s.peers[v].(direct := true)])
    else s
  }

  predicate Expired(p: Peer, now: int) { p.lastSeen != 0 && now - p.lastSeen > PEER_GRACE }

  function Live(peers: map<Ip4, Peer>, now: int): set<Ip4> { set v | v in peers && !Expired(peers[v], now) }

  function Step(s: State, e: Event): State {
    match e
    case PeerInfo(es, now) => AfterList(s, es, now)
    case DirectData(_, _) => Confirm(s, e)
    case DirectPunch(_, _, _) => Confirm(s, e)
    case CleanStale(now) => s.(peers := Keep(s.peers, Live(s.peers, now)))
    case Assign(own, server, net, token, encrypted) => State(Some(own), Some(server), Some(net), token, encrypted, map[])
  }

  // ── What confirms a peer, on the bytes of the packet ───────────

  predicate Flagged(b: byte) { b / 2 % 2 == 1 }

  /** The payload carries this token: after format version and flags, or in the old format after the flags. */
  predicate Bears(payload: Bytes, token: Bytes) {
    && |payload| > 8
    && (if payload[8] == 1 then |payload| >= 26 && Flagged(payload[9]) && payload[10..26] == token
        else Flagged(payload[8]) && |payload| >= 25 && payload[9..25] == token)
  }

  /** A direct data packet confirms a peer exactly when it carries data after its header, comes from the
      peer it claims, and, without encryption and with a session token, bears that token. */
  lemma DataConfirmsIff(s: State, from: Endpoint, payload: Bytes)
    ensures var e := DirectData(from, payload);
            (exists v :: Confirms(s, e, v))
            <==>
            && |payload| > (if |payload| > 8 && payload[8] == 1 then (if |payload| > 9 && Flagged(payload[9]) then 26 else 10) else 8)
            && Ip4At(payload, 0) in s.peers && s.peers[Ip4At(payload, 0)].addr == Some(from)
            && (!s.encrypted && s.token != [0, 0, 0, 0, 0, 0, 0, 0, 0, 0, 0, 0, 0, 0, 0, 0] ==> Bears(payload, s.token))
  {
    var e := DirectData(from, payload);
    if |payload| >= 8 {
      var v := Ip4At(payload, 0);
      assert UnmarshalData(payload).Some? ==> UnmarshalData(payload).value.src == v;
      if Confirms(s, e, v) { assert exists w :: Confirms(s, e, w); }
    }
  }

  /** A hole punch confirms the peer whose IP it carries, from that peer's address and within the rate. */
  lemma PunchConfirmsIff(s: State, from: Endpoint, payload: Bytes, rateOk: bool)
    ensures (exists v :: Confirms(s, DirectPunch(from, payload, rateOk), v))
            <==> |payload| >= 4 && Ip4At(payload, 0) in s.peers && s.peers[Ip4At(payload, 0)].addr == Some(from) && rateOk
  {
    if |payload| >= 4 && Confirms(s, DirectPunch(from, payload, rateOk), Ip4At(payload, 0)) {
      assert exists v :: Confirms(s, DirectPunch(from, payload, rateOk), v);
    }
  }

  /** What a confirming packet changes, and that any other direct packet changes nothing. */
  lemma DirectChanges(s: State, e: Event)
    requires e.DirectData? || e.DirectPunch?
    ensures forall v :: Confirms(s, e, v) ==> v in s.peers && Step(s, e) == s.(peers := s.peers[v := s.peers[v].(direct := true)])
    ensures (forall v :: !Confirms(s, e, v)) ==> Step(s, e) == s
  {
    forall v | Confirms(s, e, v) ensures Claimed(e) == Some(v) { }
  }

  // ── Routing ────────────────────────────────────────────────────

  datatype Route = ToServer | Direct(addr: Endpoint)

  predicate IsRelayTarget(dst: Ip4, net: Net) {
    || dst == Ip4(255, 255, 255, 255)
    || Ip4Bytes(dst) == B.Directed(net.ip, Ip4Bytes(net.mask))
    || 224 <= dst.a <= 239
  }

  function RoutePacket(s: State, dst: Ip4): Route {
    if s.server == Some(dst) || (s.net.Some? && IsRelayTarget(dst, s.net.value)) then ToServer
    else if dst in s.peers && s.peers[dst].addr.Some? && s.peers[dst].direct then Direct(s.peers[dst].addr.value)
    else ToServer
  }

  // ── Evidence ───────────────────────────────────────────────────

  /** The peers heard from at their current address since it became current: a claim from that
      address adds one, any change of the address takes it away. */
  function Heard(s: State, heard: set<Ip4>, e: Event): set<Ip4> {
    var t := Step(s, e);
    set v | v in t.peers && t.peers[v].addr.Some? &&
            ((v in heard && v in s.peers && s.peers[v].addr == t.peers[v].addr) ||
             (Claimed(e) == Some(v) && e.from == t.peers[v].addr.value))
  }

  /** Whoever would be sent to directly was heard from there. */
  ghost predicate Safe(s: State, heard: set<Ip4>) {
    forall v :: v in s.peers && s.peers[v].addr.Some? && s.peers[v].direct ==> v in heard
  }

  /** The addresses a list gives one peer, in order. */
  function Addrs(es: seq<Entry>, v: Ip4): seq<Option<Endpoint>> {
    if es == [] then []
    else if es[|es| - 1].vip == v then Addrs(es[..|es| - 1], v) + [es[|es| - 1].addr]
    else Addrs(es[..|es| - 1], v)
  }

  function LastAddr(a: Option<Endpoint>, xs: seq<Option<Endpoint>>): Option<Endpoint> { if xs == [] then a else xs[|xs| - 1] }

  /** No address in the chain directly replaces another one. */
  predicate NeverReplaced(a: Option<Endpoint>, xs: seq<Option<Endpoint>>) {
    xs == [] || (NeverReplaced(a, xs[..|xs| - 1]) && !Replaces(LastAddr(a, xs[..|xs| - 1]), xs[|xs| - 1]))
  }

  /** A list that moves a confirmed peer to another address by way of no address at all. */
  ghost predicate Slips(s: State, es: seq<Entry>) {
    exists v :: v in s.peers && SlipsFor(s, es, v)
  }

  ghost predicate SlipsFor(s: State, es: seq<Entry>, v: Ip4)
    requires v in s.peers
  {
    && s.own != Some(v) && s.peers[v].direct
    && NeverReplaced(s.peers[v].addr, Addrs(es, v))
    && LastAddr(s.peers[v].addr, Addrs(es, v)).Some?
    && LastAddr(s.peers[v].addr, Addrs(es, v)) != s.peers[v].addr
  }

  lemma {:induction false} ListedIffAddrs(own: Option<Ip4>, es: seq<Entry>, v: Ip4)
    ensures v in Listed(own, es) <==> own != Some(v) && Addrs(es, v) != []
  {
    if es != [] {
      var init := es[..|es| - 1];
      ListedIffAddrs(own, init, v);
      assert forall i :: 0 <= i < |init| ==> init[i] == es[i];
      if v in Listed(own, init) {
        var i :| 0 <= i < |init| && own != Some(init[i].vip) && init[i].vip == v;
        assert es[i].vip == v;
      }
    }
  }

  /** What a whole list does to one peer. */
  lemma {:induction false} MergeAt(peers: map<Ip4, Peer>, own: Option<Ip4>, es: seq<Entry>, now: int, v: Ip4)
    requires own != Some(v)
    ensures var m := Merge(peers, own, es, now);
            var xs := Addrs(es, v);
            && (v in m <==> v in peers || xs != [])
            && (v in m ==> m[v].addr == LastAddr(if v in peers then peers[v].addr else None, xs))
            && (v in m ==> (m[v].direct <==> v in peers && peers[v].direct && NeverReplaced(peers[v].addr, xs)))
  {
    if es != [] {
      var init := es[..|es| - 1];
      MergeAt(peers, own, init, now, v);
      if es[|es| - 1].vip == v {
        var xs := Addrs(es, v);
        assert xs[..|xs| - 1] == Addrs(init, v);
      }
    }
  }

  lemma {:induction false} MergeOwn(peers: map<Ip4, Peer>, own: Ip4, es: seq<Entry>, now: int)
    ensures own in Merge(peers, Some(own), es, now) <==> own in peers
  {
    if es != [] { MergeOwn(peers, own, es[..|es| - 1], now); }
  }

  /** After a peer list the table holds exactly the listed peers without ourselves. */
  lemma ListedExactly(s: State, es: seq<Entry>, now: int)
    ensures AfterList(s, es, now).peers.Keys == Listed(s.own, es)
  {
    forall v ensures v in AfterList(s, es, now).peers <==> v in Listed(s.own, es) {
      ListedIffAddrs(s.own, es, v);
      if s.own != Some(v) { MergeAt(s.peers, s.own, es, now, v); }
    }
  }

  lemma ListAt(s: State, es: seq<Entry>, now: int, v: Ip4)
    requires v in AfterList(s, es, now).peers
    ensures var p := AfterList(s, es, now).peers[v];
            && s.own != Some(v)
            && p.addr == LastAddr(if v in s.peers then s.peers[v].addr else None, Addrs(es, v))
            && (p.direct <==> v in s.peers && s.peers[v].direct && NeverReplaced(s.peers[v].addr, Addrs(es, v)))
  {
    ListedIffAddrs(s.own, es, v);
    MergeAt(s.peers, s.own, es, now, v);
  }

  lemma SlipIsUnsafe(s: State, heard: set<Ip4>, es: seq<Entry>, now: int, v: Ip4)
    requires v in s.peers && SlipsFor(s, es, v)
    ensures !Safe(AfterList(s, es, now), Heard(s, heard, PeerInfo(es, now)))
  {
    ListedIffAddrs(s.own, es, v);
    MergeAt(s.peers, s.own, es, now, v);
    var t := AfterList(s, es, now);
    assert v in t.peers && t.peers[v].direct && t.peers[v].addr.Some?;
    assert v !in Heard(s, heard, PeerInfo(es, now));
  }

  lemma ListSafe(s: State, heard: set<Ip4>, es: seq<Entry>, now: int)
    requires Safe(s, heard) && !Slips(s, es)
    ensures Safe(AfterList(s, es, now), Heard(s, heard, PeerInfo(es, now)))
  {
    var t := AfterList(s, es, now);
    forall v | v in t.peers && t.peers[v].addr.Some? && t.peers[v].direct ensures v in Heard(s, heard, PeerInfo(es, now)) {
      ListAt(s, es, now, v);
      assert !SlipsFor(s, es, v);
    }
  }

  /** Exactly the slipping lists break the evidence; every other step keeps it. */
  lemma StepSafe(s: State, heard: set<Ip4>, e: Event)
    requires Safe(s, heard)
    ensures Safe(Step(s, e), Heard(s, heard, e)) <==> !(e.PeerInfo? && Slips(s, e.es))
  {
    match e
    case PeerInfo(es, now) =>
      if Slips(s, es) {
        var v :| v in s.peers && SlipsFor(s, es, v);
        SlipIsUnsafe(s, heard, es, now, v);
      } else {
        ListSafe(s, heard, es, now);
      }
    case DirectData(_, _) =>
    case DirectPunch(_, _, _) =>
    case CleanStale(_) =>
    case Assign(_, _, _, _, _) =>
  }

  // ── Whole runs ─────────────────────────────────────────────────

  /** Once an address is known the chain never falls back to none. */
  predicate NeverDropped(a: Option<Endpoint>, xs: seq<Option<Endpoint>>) {
    xs == [] || (NeverDropped(a, xs[..|xs| - 1]) && (xs[|xs| - 1].None? ==> LastAddr(a, xs[..|xs| - 1]).None?))
  }

  ghost predicate KeepsAddresses(s: State, es: seq<Entry>) {
    forall v :: v in s.peers ==> NeverDropped(s.peers[v].addr, Addrs(es, v))
  }

  /** A confirmed peer has an address. */
  ghost predicate Solid(s: State) {
    forall v :: v in s.peers && s.peers[v].direct ==> s.peers[v].addr.Some?
  }

  lemma {:induction false} ChainConstant(a: Option<Endpoint>, xs: seq<Option<Endpoint>>)
    requires a.Some? && NeverDropped(a, xs) && NeverReplaced(a, xs)
    ensures LastAddr(a, xs) == a
  {
    if xs != [] { ChainConstant(a, xs[..|xs| - 1]); }
  }

  lemma StepSolid(s: State, e: Event)
    requires Solid(s) && (e.PeerInfo? ==> KeepsAddresses(s, e.es))
    ensures Solid(Step(s, e)) && !(e.PeerInfo? && Slips(s, e.es))
  {
    if e.PeerInfo? {
      forall v | v in s.peers && s.peers[v].direct && NeverReplaced(s.peers[v].addr, Addrs(e.es, v))
        ensures LastAddr(s.peers[v].addr, Addrs(e.es, v)) == s.peers[v].addr
      {
        ChainConstant(s.peers[v].addr, Addrs(e.es, v));
      }
      var t := Step(s, e);
      forall v | v in t.peers && t.peers[v].direct ensures t.peers[v].addr.Some? { ListAt(s, e.es, e.now, v); }
    }
  }

  ghost predicate Gentle(s: State, es: seq<Event>)
    decreases |es|
  {
    es == [] || ((es[0].PeerInfo? ==> KeepsAddresses(s, es[0].es)) && Gentle(Step(s, es[0]), es[1..]))
  }

  function Run(s: State, es: seq<Event>): State
    decreases |es|
  {
    if es == [] then s else Run(Step(s, es[0]), es[1..])
  }

  function RunHeard(s: State, heard: set<Ip4>, es: seq<Event>): set<Ip4>
    decreases |es|
  {
    if es == [] then heard else RunHeard(Step(s, es[0]), Heard(s, heard, es[0]), es[1..])
  }

  lemma {:induction false} RunSafe(s: State, heard: set<Ip4>, es: seq<Event>)
    requires Safe(s, heard) && Solid(s) && Gentle(s, es)
    ensures Safe(Run(s, es), RunHeard(s, heard, es)) && Solid(Run(s, es))
    decreases |es|
  {
    if es != [] {
      StepSolid(s, es[0]);
      StepSafe(s, heard, es[0]);
      RunSafe(Step(s, es[0]), Heard(s, heard, es[0]), es[1..]);
    }
  }

  lemma {:induction false} RunSnoc(s: State, heard: set<Ip4>, es: seq<Event>)
    requires es != []
    ensures var init, e := es[..|es| - 1], es[|es| - 1];
            && Run(s, es) == Step(Run(s, init), e)
            && RunHeard(s, heard, es) == Heard(Run(s, init), RunHeard(s, heard, init), e)
    decreases |es|
  {
    var init, rest := es[..|es| - 1], es[1..];
    if |es| == 1 {
      assert rest == [];
    } else {
      RunSnoc(Step(s, es[0]), Heard(s, heard, es[0]), rest);
      assert rest[..|rest| - 1] == init[1..];
    }
  }

  /** Packet `i` of a run claimed `v`, and from then on its sender was the current address of `v`. */
  ghost predicate HeardSince(s: State, es: seq<Event>, i: nat, v: Ip4) {
    i < |es| && Claimed(es[i]) == Some(v) && KnownFrom(s, es, i, |es|, v, es[i].from)
  }

  /** After each of the steps `i` to `n` of a run the current address of `v` is `a`. */
  ghost predicate KnownFrom(s: State, es: seq<Event>, i: nat, n: nat, v: Ip4, a: Endpoint)
    requires n <= |es|
  {
    forall k :: i < k <= n ==> KnownAt(Run(s, es[..k]), v, a)
  }

  lemma KnownFromPrefix(s: State, es: seq<Event>, i: nat, v: Ip4, a: Endpoint)
    requires es != []
    ensures KnownFrom(s, es[..|es| - 1], i, |es| - 1, v, a) <==> KnownFrom(s, es, i, |es| - 1, v, a)
  {
    var init := es[..|es| - 1];
    forall k | i < k <= |init| ensures KnownAt(Run(s, init[..k]), v, a) <==> KnownAt(Run(s, es[..k]), v, a) {
      assert init[..k] == es[..k];
    }
    if KnownFrom(s, init, i, |init|, v, a) {
      forall k | i < k <= |init| ensures KnownAt(Run(s, es[..k]), v, a) { assert KnownAt(Run(s, init[..k]), v, a); }
    }
    if KnownFrom(s, es, i, |init|, v, a) {
      forall k | i < k <= |init| ensures KnownAt(Run(s, init[..k]), v, a) { assert KnownAt(Run(s, es[..k]), v, a); }
    }
  }

  lemma KnownFromLast(s: State, es: seq<Event>, i: nat, v: Ip4, a: Endpoint)
    requires i < |es| - 1
    ensures KnownFrom(s, es, i, |es|, v, a) <==> KnownFrom(s, es, i, |es| - 1, v, a) && KnownAt(Run(s, es), v, a)
  {
    assert es[..|es|] == es;
  }

  lemma HeardSinceLonger(s: State, es: seq<Event>, i: nat, v: Ip4)
    requires es != [] && i < |es| - 1 && Claimed(es[i]) == Some(v)
    ensures HeardSince(s, es, i, v) <==> HeardSince(s, es[..|es| - 1], i, v) && KnownAt(Run(s, es), v, es[i].from)
  {
    KnownFromPrefix(s, es, i, v, es[i].from);
    KnownFromLast(s, es, i, v, es[i].from);
  }

  /** The evidence without the accumulator: some packet claiming the peer came from what has been the
      peer's address in every state since. */
  lemma {:induction false} HeardIff(s: State, es: seq<Event>, v: Ip4)
    ensures v in RunHeard(s, {}, es) <==> exists i: nat :: HeardSince(s, es, i, v)
    decreases |es|
  {
    if es != [] {
      var n := |es| - 1;
      var init, e := es[..n], es[n];
      var a, t := Run(s, init), Run(s, es);
      RunSnoc(s, {}, es);
      HeardIff(s, init, v);
      assert es[..|es|] == es;
      if v in RunHeard(s, {}, es) {
        if Claimed(e) == Some(v) && KnownAt(t, v, e.from) {
          assert HeardSince(s, es, n, v);
        } else {
          var i: nat :| HeardSince(s, init, i, v);
          StillCurrent(s, init, i, v);
          HeardSinceLonger(s, es, i, v);
        }
      }
      if i: nat :| HeardSince(s, es, i, v) {
        assert KnownAt(Run(s, es[..|es|]), v, es[i].from);
        if i < n {
          HeardSinceLonger(s, es, i, v);
          StillCurrent(s, init, i, v);
        }
      }
    }
  }

  lemma StillCurrent(s: State, es: seq<Event>, i: nat, v: Ip4)
    requires HeardSince(s, es, i, v)
    ensures KnownAt(Run(s, es), v, es[i].from)
  {
    assert es[..|es|] == es;
    assert KnownAt(Run(s, es[..|es|]), v, es[i].from);
  }

  const START := State(None, None, None, ZERO_TOKEN, false, map[])

  /** A run that has begun a session. */
  lemma {:induction false} SubnetStays(s: State, es: seq<Event>)
    requires s.net.Some?
    ensures Run(s, es).net.Some?
    decreases |es|
  {
    if es != [] { SubnetStays(Step(s, es[0]), es[1..]); }
  }

  /** Main theorem: after any run whose lists keep known addresses, a packet leaves outside the
      server only to the current address of its peer, after that peer was heard from there. */
  lemma DirectOnlyWhereHeard(es: seq<Event>, dst: Ip4)
    requires Gentle(START, es)
    ensures var s := Run(START, es);
            var r := RoutePacket(s, dst);
            r.Direct? ==> KnownAt(s, dst, r.addr) && exists i: nat :: HeardSince(START, es, i, dst) && es[i].from == r.addr
  {
    RunSafe(START, {}, es);
    HeardIff(START, es, dst);
    if RoutePacket(Run(START, es), dst).Direct? {
      var i: nat :| HeardSince(START, es, i, dst);
      StillCurrent(START, es, i, dst);
    }
  }

  /** Within a session such a packet is never a broadcast, a multicast, or for the server itself. */
  lemma DirectOnlyUnicast(s: State, es: seq<Event>, dst: Ip4)
    requires s.net.Some? && RoutePacket(Run(s, es), dst).Direct?
    ensures Run(s, es).net.Some? && !IsRelayTarget(dst, Run(s, es).net.value) && Run(s, es).server != Some(dst)
    ensures dst != Ip4(255, 255, 255, 255) && !(224 <= dst.a <= 239)
    ensures var n := Run(s, es).net.value;
            Ip4Bytes(dst) != B.Directed(n.ip, Ip4Bytes(n.mask))
  {
    SubnetStays(s, es);
  }

  /** A session's settings come from its assignment and stay until the next; its peers start empty. */
  lemma {:induction false} SessionStays(s: State, es: seq<Event>)
    requires forall i :: 0 <= i < |es| ==> !es[i].Assign?
    ensures var t := Run(s, es);
            t.own == s.own && t.server == s.server && t.net == s.net && t.token == s.token && t.encrypted == s.encrypted
    decreases |es|
  {
    if es != [] {
      assert forall i :: 0 <= i < |es[1..]| ==> es[1..][i] == es[i + 1];
      SessionStays(Step(s, es[0]), es[1..]);
    }
  }

  lemma SessionBegins(s: State, own: Ip4, server: Ip4, net: Net, token: Bytes, encrypted: bool)
    ensures var t := Step(s, Assign(own, server, net, token, encrypted));
            && t.own == Some(own) && t.server == Some(server) && t.net == Some(net) && t.token == token
            && t.encrypted == encrypted && t.peers == map[]
  {
  }

  /** Every listed peer carries the time of the list and the name its last entry gave. */
  lemma {:induction false} MergeRefreshes(peers: map<Ip4, Peer>, own: Option<Ip4>, es: seq<Entry>, now: int, i: nat)
    requires i < |es| && own != Some(es[i].vip) && forall j :: i < j < |es| ==> es[j].vip != es[i].vip
    ensures var m := Merge(peers, own, es, now);
            es[i].vip in m && m[es[i].vip].lastSeen == now && m[es[i].vip].name == es[i].name && m[es[i].vip].addr == es[i].addr && !m[es[i].vip].stale
    decreases |es|
  {
    var init := es[..|es| - 1];
    if i < |init| { MergeRefreshes(peers, own, init, now, i); }
  }

  lemma {:induction false} AddrsOnce(es: seq<Entry>, i: nat)
    requires i < |es| && forall j :: 0 <= j < |es| && j != i ==> es[j].vip != es[i].vip
    ensures Addrs(es, es[i].vip) == [es[i].addr]
    decreases |es|
  {
    var init := es[..|es| - 1];
    if i < |init| { AddrsOnce(init, i); } else { NoAddrs(init, es[i].vip); }
  }

  lemma {:induction false} NoAddrs(es: seq<Entry>, v: Ip4)
    requires forall j :: 0 <= j < |es| ==> es[j].vip != v
    ensures Addrs(es, v) == []
    decreases |es|
  {
    if es != [] { NoAddrs(es[..|es| - 1], v); }
  }

  /** A peer listed once takes over address and name, and stays confirmed unless one address replaced another. */
  lemma ListedOnce(s: State, es: seq<Entry>, now: int, i: nat)
    requires i < |es| && s.own != Some(es[i].vip) && forall j :: 0 <= j < |es| && j != i ==> es[j].vip != es[i].vip
    ensures var e, t := es[i], Step(s, PeerInfo(es, now));
            var confirmed := e.vip in s.peers && s.peers[e.vip].direct
                             && (s.peers[e.vip].addr == e.addr || s.peers[e.vip].addr == None || e.addr == None);
            e.vip in t.peers && t.peers[e.vip] == Peer(e.addr, confirmed, now, e.name, false)
  {
    var v, xs := es[i].vip, [es[i].addr];
    AddrsOnce(es, i);
    MergeRefreshes(s.peers, s.own, es, now, i);
    MergeAt(s.peers, s.own, es, now, v);
    ListedIffAddrs(s.own, es, v);
    assert xs[..|xs| - 1] == [];
  }

  /** A peer stays for 90 s after the last list that named it, and no longer. */
  lemma ListedStaysNinetySeconds(s: State, es: seq<Entry>, now: int, i: nat, later: int)
    requires i < |es| && s.own != Some(es[i].vip) && now != 0
    ensures var t := Step(s, PeerInfo(es, now));
            es[i].vip in t.peers && (es[i].vip in Step(t, CleanStale(later)).peers <==> later - now <= 90 * SECOND)
  {
    var v := es[i].vip;
    var k := LastEntry(es, i);
    MergeRefreshes(s.peers, s.own, es, now, k);
    ListedExactly(s, es, now);
    assert v in Listed(s.own, es);
  }

  /** The last entry for the same peer. */
  lemma {:induction false} LastEntry(es: seq<Entry>, i: nat) returns (k: nat)
    requires i < |es|
    ensures k < |es| && es[k].vip == es[i].vip && forall j :: k < j < |es| ==> es[j].vip != es[i].vip
    decreases |es| - i
  {
    if j :| i < j < |es| && es[j].vip == es[i].vip { k := LastEntry(es, j); } else { k := i; }
  }

  /** Cleaning removes exactly the expired peers and leaves all else as it was. */
  lemma CleanKeepsTheRest(s: State, now: int)
    ensures var t := Step(s, CleanStale(now));
            && t == s.(peers := t.peers)
            && forall v :: (v in t.peers <==> v in s.peers && (s.peers[v].lastSeen == 0 || now - s.peers[v].lastSeen <= 90 * SECOND))
                           && (v in t.peers ==> t.peers[v] == s.peers[v])
  {
  }

  /** Once a packet from a peer's current address is accepted, unicast to that peer goes there, until
      a list says otherwise: further packets and clean-ups that keep the peer do not change it. */
  lemma {:induction false} ConfirmedGoesDirect(s: State, e: Event, es: seq<Event>, v: Ip4)
    requires Confirms(s, e, v) && s.server != Some(v) && (s.net.Some? ==> !IsRelayTarget(v, s.net.value))
    requires forall i :: 0 <= i < |es| ==> !es[i].PeerInfo? && !es[i].Assign?
    requires v in Run(Step(s, e), es).peers
    ensures RoutePacket(Run(Step(s, e), es), v) == Direct(e.from)
  {
    assert Claimed(e) == Some(v);
    var t := Step(s, e);
    assert t.peers[v].direct && t.peers[v].addr == Some(e.from);
    StaysDirect(t, es, v);
  }

  lemma {:induction false} StaysDirect(s: State, es: seq<Event>, v: Ip4)
    requires forall i :: 0 <= i < |es| ==> !es[i].PeerInfo? && !es[i].Assign?
    requires v in Run(s, es).peers
    ensures var t := Run(s, es);
            && t.server == s.server && t.net == s.net && v in s.peers
            && (s.peers[v].direct ==> t.peers[v].direct) && t.peers[v].addr == s.peers[v].addr
    decreases |es|
  {
    if es != [] {
      assert forall i :: 0 <= i < |es[1..]| ==> es[1..][i] == es[i + 1];
      StaysDirect(Step(s, es[0]), es[1..], v);
    }
  }

  /** Dropping an address to nil and then giving another one leads to sending where nobody was heard. */
  lemma NilThenOtherIsUnheard(s: State, v: Ip4, a: Endpoint, b: Endpoint, heard: set<Ip4>, now: int)
    requires s.own != Some(v) && s.server != Some(v) && (s.net.Some? ==> !IsRelayTarget(v, s.net.value))
    requires v in s.peers && s.peers[v].addr == Some(a) && s.peers[v].direct
    ensures var es := [PeerInfo([Entry(v, None, [])], now), PeerInfo([Entry(v, Some(b), [])], now)];
            RoutePacket(Run(s, es), v) == Direct(b) && v !in RunHeard(s, heard, es)
  {
    var e1, e2 := Entry(v, None, []), Entry(v, Some(b), []);
    var s1 := Step(s, PeerInfo([e1], now));
    OneEntry(s, e1, now);
    OneEntry(s1, e2, now);
    var s2 := Step(s1, PeerInfo([e2], now));
    var es := [PeerInfo([e1], now), PeerInfo([e2], now)];
    var h1 := Heard(s, heard, es[0]);
    var h2 := Heard(s1, h1, es[1]);
    assert es[1..] == [es[1]] && es[1..][1..] == [];
    assert Run(s, es) == Run(s1, [es[1]]) == Run(s2, []) == s2;
    assert RunHeard(s, heard, es) == RunHeard(s1, h1, [es[1]]) == RunHeard(s2, h2, []) == h2;
  }

  lemma OneEntry(s: State, e: Entry, now: int)
    requires s.own != Some(e.vip) && e.vip in s.peers
    ensures AfterList(s, [e], now).peers == map[e.vip := Refresh(s.peers[e.vip], e, now)]
  {
    assert Merge(s.peers, s.own, [e], now) == MergeEntry(s.peers, s.own, e, now) by { assert [e][..|[e]| - 1] == []; }
    ListedExactly(s, [e], now);
    assert [e][0].vip in Listed(s.own, [e]);
    assert Listed(s.own, [e]) == {e.vip};
  }

  // ── The code ───────────────────────────────────────────────────

  /** Peers with the stale flag set on all but `vips`. */
  function Marked(peers: map<Ip4, Peer>, vips: set<Ip4>): map<Ip4, Peer> {
    map v | v in peers :: peers[v].(stale := v !in vips)
  }

  class Tunnel {
    var own: Option<Ip4>
    var server: Option<Ip4>
    var net: Option<Net>
    var token: Bytes
    var encrypted: bool
    var peers: map<Ip4, Peer>
    var snapshot: map<Ip4, Peer>

    ghost function Model(): State
      reads this
    {
      State.State(own, server, net, token, encrypted, peers)
    }

    /** The lock-free snapshot is the table, and no mark outlives a peer list. */
    ghost predicate Valid()
      reads this
    {
      snapshot == peers && forall v :: v in peers ==> !peers[v].stale
    }

    constructor ()
      ensures Valid() && Model() == START
    {
      own, server, net, token, encrypted, peers, snapshot := None, None, None, ZERO_TOKEN, false, map[], map[];
    }

    /** handlePeerInfo: mark, update, sweep, publish. */
    method HandlePeerInfo(es: seq<Entry>, now: int)
      requires Valid()
      modifies this`peers, this`snapshot
      ensures Valid() && Model() == Step(old(Model()), PeerInfo(es, now))
    {
      var newPeers := MarkAll(peers);
      newPeers := Update(newPeers, es, now);
      newPeers := SweepStale(newPeers, es, now);
      peers, snapshot := newPeers, newPeers;
    }

    method MarkAll(old': map<Ip4, Peer>) returns (m: map<Ip4, Peer>)
      ensures m == Marked(old', {})
    {
      m := map[];
      var todo := old'.Keys;
      while todo != {}
        invariant todo <= old'.Keys && m.Keys == old'.Keys - todo
        invariant forall v :: v in m ==> m[v] == old'[v].(stale := true)
        decreases |todo|
      {
        var v :| v in todo;
        m := m[v := old'[v].(stale := true)];
        todo := todo - {v};
      }
    }

    method Update(marked: map<Ip4, Peer>, es: seq<Entry>, now: int) returns (m: map<Ip4, Peer>)
      requires marked == Marked(peers, {})
      ensures m == Marked(Merge(peers, own, es, now), Listed(own, es))
    {
      m := marked;
      for i := 0 to |es|
        invariant m == Marked(Merge(peers, own, es[..i], now), Listed(own, es[..i]))
      {
        MarkedStep(peers, own, es, i, now);
        var e := es[i];
        if own == Some(e.vip) { continue; }
        if e.vip in m {
          var p := m[e.vip];
          var direct := p.direct;
          if p.addr.Some? && e.addr.Some? && p.addr != e.addr { direct := false; }
          m := m[e.vip := Peer(e.addr, direct, now, e.name, false)];
        } else {
          m := m[e.vip := Peer(e.addr, false, now, e.name, false)];
        }
      }
      assert es[..|es|] == es;
    }

    method SweepStale(marked: map<Ip4, Peer>, es: seq<Entry>, now: int) returns (m: map<Ip4, Peer>)
      requires Valid() && marked == Marked(Merge(peers, own, es, now), Listed(own, es))
      ensures m == Keep(Merge(peers, own, es, now), Listed(own, es))
      ensures forall v :: v in m ==> !m[v].stale
    {
      m := marked;
      var todo := marked.Keys;
      while todo != {}
        invariant todo <= marked.Keys && m.Keys <= marked.Keys
        invariant forall v :: v in marked ==> (v in m <==> v in todo || !marked[v].stale)
        invariant forall v :: v in m ==> m[v] == marked[v]
        decreases |todo|
      {
        var v :| v in todo;
        if marked[v].stale { m := m - {v}; }
        todo := todo - {v};
      }
      UpdatedAreFresh(peers, own, es, now);
    }

    method HandleDirectData(from: Endpoint, payload: Bytes) returns (delivered: bool)
      requires Valid()
      modifies this`peers, this`snapshot
      ensures Valid() && Model() == Step(old(Model()), DirectData(from, payload))
      ensures delivered <==> Claimed(DirectData(from, payload)).Some? && Confirms(old(Model()), DirectData(from, payload), Ip4At(payload, 0))
    {
      var dp := UnmarshalData(payload);
      if dp.None? || dp.value.data == [] { return false; }
      var v := dp.value.src;
      if v !in snapshot || snapshot[v].addr != Some(from) { return false; }
      if !encrypted && token != ZERO_TOKEN {
        if |payload| <= 8 { return false; }
        var h := ParseDataHeader(payload);
        if !HasToken(h.flags) || |payload| < h.tokenOff + DATA_TOKEN_LEN { return false; }
        if payload[h.tokenOff..h.tokenOff + DATA_TOKEN_LEN] != token { return false; }
      }
      SetDirect(v);
      delivered := true;
    }

    /** DirectReach is a flag of the peer object, which table and snapshot share. */
    method SetDirect(v: Ip4)
      requires Valid() && v in peers
      modifies this`peers, this`snapshot
      ensures Valid() && peers == old(peers)[v := old(peers[v]).(direct := true)]
    {
      peers := peers[v := peers[v].(direct := true)];
      snapshot := peers;
    }

    method HandleDirectHolePunch(from: Endpoint, payload: Bytes, rateOk: bool)
      requires Valid()
      modifies this`peers, this`snapshot
      ensures Valid() && Model() == Step(old(Model()), DirectPunch(from, payload, rateOk))
    {
      if |payload| < 4 { return; }
      var v := Ip4At(payload, 0);
      if v !in snapshot || snapshot[v].addr.None? { return; }
      if snapshot[v].addr.value != from || !rateOk { return; }
      SetDirect(v);
    }

    method CleanStalePeers(now: int)
      requires Valid()
      modifies this`peers, this`snapshot
      ensures Valid() && Model() == Step(old(Model()), CleanStale(now))
    {
      var stale: set<Ip4> := {};
      var todo := peers.Keys;
      while todo != {}
        invariant todo <= peers.Keys
        invariant stale == set v | v in peers && v !in todo && Expired(peers[v], now)
        decreases |todo|
      {
        var v :| v in todo;
        if peers[v].lastSeen != 0 && now - peers[v].lastSeen > PEER_GRACE { stale := stale + {v}; }
        todo := todo - {v};
      }
      assert forall v :: v in peers ==> (v in stale <==> Expired(peers[v], now));
      if stale == {} {
        assert Keep(peers, Live(peers, now)) == peers;
        return;
      }
      peers := peers - stale;
      snapshot := peers;
    }

    /** The end of registration: a new session starts without peers. */
    method Assigned(ip: Ip4, serverIp: Ip4, subnet: Net, sessionToken: Bytes, withCipher: bool)
      modifies this
      ensures Valid() && Model() == Step(old(Model()), Assign(ip, serverIp, subnet, sessionToken, withCipher))
    {
      own, server, net, token, encrypted := Some(ip), Some(serverIp), Some(subnet), sessionToken, withCipher;
      peers := map[];
      snapshot := peers;
    }
  }

  lemma MarkedStep(peers: map<Ip4, Peer>, own: Option<Ip4>, es: seq<Entry>, i: nat, now: int)
    requires i < |es|
    ensures var m := Marked(Merge(peers, own, es[..i], now), Listed(own, es[..i]));
            var e := es[i];
            Marked(Merge(peers, own, es[..i + 1], now), Listed(own, es[..i + 1])) ==
            if own == Some(e.vip) then m
            else if e.vip in m then m[e.vip := Refresh(m[e.vip], e, now)]
            else m[e.vip := Peer(e.addr, false, now, e.name, false)]
  {
    var e := es[i];
    var m := Merge(peers, own, es[..i], now);
    assert Merge(peers, own, es[..i + 1], now) == MergeEntry(m, own, e, now) by { assert es[..i + 1][..i] == es[..i]; }
    ListedStep(own, es, i);
    if own != Some(e.vip) {
      MarkedUpdate(m, Listed(own, es[..i]), e.vip, MergeEntry(m, own, e, now)[e.vip]);
    }
  }

  lemma MarkedUpdate(peers: map<Ip4, Peer>, vips: set<Ip4>, v: Ip4, p: Peer)
    requires !p.stale
    ensures Marked(peers[v := p], vips + {v}) == Marked(peers, vips)[v := p]
  {
  }

  lemma ListedStep(own: Option<Ip4>, es: seq<Entry>, i: nat)
    requires i < |es|
    ensures Listed(own, es[..i + 1]) == Listed(own, es[..i]) + if own == Some(es[i].vip) then {} else {es[i].vip}
  {
    var a, b := es[..i], es[..i + 1];
    forall v ensures v in Listed(own, b) <==> v in Listed(own, a) || (own != Some(es[i].vip) && v == es[i].vip) {
      assert b[..|b| - 1] == a;
      ListedIffAddrs(own, a, v);
      ListedIffAddrs(own, b, v);
    }
  }

  lemma {:induction false} UpdatedAreFresh(peers: map<Ip4, Peer>, own: Option<Ip4>, es: seq<Entry>, now: int)
    requires forall v :: v in peers ==> !peers[v].stale
    ensures forall v :: v in Merge(peers, own, es, now) ==> !Merge(peers, own, es, now)[v].stale
  {
    if es != [] { UpdatedAreFresh(peers, own, es[..|es| - 1], now); }
  }
}
