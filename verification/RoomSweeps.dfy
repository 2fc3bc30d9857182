/** Exactly what the stale sweep removes: CleanupStale in internal/server/room_lifecycle.go. */
module RoomSweeps {
  import opened Base
  import opened RoomModel
  import opened RoomInvariant

  ghost predicate RecordedIn(rs: seq<StaleClient>, w: Ip4, id: Id) { exists r :: r in rs && r.vip == w && r.id == id }

  ghost predicate ChallengeIn(rs: seq<StaleAuth>, k: Addr, id: Id) { exists r :: r in rs && r.key == k && r.id == id }

  /** A recorded member that is still unseen for more than 30 s. */
  ghost predicate Goes(s: RoomState, rs: seq<StaleClient>, w: Ip4, now: int) {
    && w in s.clients && s.clients[w] in s.store && RecordedIn(rs, w, s.clients[w])
    && now - s.store[s.clients[w]].lastSeen > 30 * SECOND
  }

  ghost predicate GoesFrom(s: RoomState, rs: seq<StaleClient>, k: Addr, now: int) {
    exists w :: w in s.clients && Goes(s, rs, w, now) && s.store[s.clients[w]].addr == Some(k)
  }

  /** Exactly the recorded and still stale members lose their seats, and the entries at their addresses go. */
  ghost predicate MembersGone(s: RoomState, t: RoomState, rs: seq<StaleClient>, now: int) {
    && t.store == s.store && t.cfg == s.cfg
    && (forall w :: w in t.clients <==> w in s.clients && !Goes(s, rs, w, now))
    && (forall w :: w in t.clients ==> t.clients[w] == s.clients[w])
    && (forall k :: k in t.addrMap <==> k in s.addrMap && !GoesFrom(s, rs, k, now))
    && (forall k :: k in t.addrMap ==> t.addrMap[k] == s.addrMap[k])
  }

  lemma OneMemberGone(s: RoomState, r: StaleClient, now: int)
    ensures MembersGone(s, AtomicMember(s, r, now), [r], now)
  {
    var t := AtomicMember(s, r, now);
    assert forall w, id :: RecordedIn([r], w, id) <==> r.vip == w && r.id == id by { assert [r][0] == r; }
    forall k ensures k in t.addrMap <==> k in s.addrMap && !GoesFrom(s, [r], k, now) {
      if Goes(s, [r], r.vip, now) && s.store[r.id].addr == Some(k) { assert GoesFrom(s, [r], k, now); }
    }
  }

  lemma GoesOneByOne(s: RoomState, t: RoomState, r: StaleClient, rest: seq<StaleClient>, now: int)
    requires MembersGone(s, t, [r], now)
    ensures forall w :: Goes(s, [r] + rest, w, now) <==> Goes(s, [r], w, now) || Goes(t, rest, w, now)
  {
    forall w ensures Goes(s, [r] + rest, w, now) <==> Goes(s, [r], w, now) || Goes(t, rest, w, now) {
      if w in s.clients { RecordedSplit(r, rest, w, s.clients[w]); }
    }
  }

  lemma RecordedSplit(r: StaleClient, rest: seq<StaleClient>, w: Ip4, id: Id)
    ensures RecordedIn([r] + rest, w, id) <==> RecordedIn([r], w, id) || RecordedIn(rest, w, id)
  {
    assert forall q :: q in [r] + rest <==> q in [r] || q in rest;
  }

  lemma FromOneByOne(s: RoomState, t: RoomState, r: StaleClient, rest: seq<StaleClient>, now: int)
    requires MembersGone(s, t, [r], now)
    ensures forall k :: GoesFrom(s, [r] + rest, k, now) <==> GoesFrom(s, [r], k, now) || GoesFrom(t, rest, k, now)
  {
    GoesOneByOne(s, t, r, rest, now);
    forall k ensures GoesFrom(s, [r] + rest, k, now) <==> GoesFrom(s, [r], k, now) || GoesFrom(t, rest, k, now) {
      if GoesFrom(s, [r] + rest, k, now) {
        var w :| w in s.clients && Goes(s, [r] + rest, w, now) && s.store[s.clients[w]].addr == Some(k);
        assert Goes(s, [r], w, now) || Goes(t, rest, w, now);
      }
    }
  }

  lemma {:induction false} AllMembersGone(s: RoomState, rs: seq<StaleClient>, now: int)
    ensures MembersGone(s, AtomicMembers(s, rs, now), rs, now)
    decreases |rs|
  {
    if rs != [] {
      var r, rest := rs[0], rs[1..];
      var t := AtomicMember(s, r, now);
      OneMemberGone(s, r, now);
      AllMembersGone(t, rest, now);
      GoesOneByOne(s, t, r, rest, now);
      FromOneByOne(s, t, r, rest, now);
      assert rs == [r] + rest;
    }
  }

  /** Exactly the recorded challenges that are still the same objects go. */
  ghost predicate ChallengesGone(s: RoomState, t: RoomState, rs: seq<StaleAuth>) {
    && t.store == s.store && t.clients == s.clients && t.used == s.used && t.cfg == s.cfg
    && (forall k :: k in t.addrMap <==> k in s.addrMap && !ChallengeIn(rs, k, s.addrMap[k]))
    && (forall k :: k in t.addrMap ==> t.addrMap[k] == s.addrMap[k])
  }

  lemma {:induction false} AllChallengesGone(s: RoomState, rs: seq<StaleAuth>)
    requires forall r :: r in rs ==> r.id in s.store
    ensures ChallengesGone(s, AtomicAuths(s, rs), rs)
    decreases |rs|
  {
    if rs != [] {
      var t := AtomicAuth(s, rs[0]);
      AllChallengesGone(t, rs[1..]);
      forall k ensures k in AtomicAuths(s, rs).addrMap <==> k in s.addrMap && !ChallengeIn(rs, k, s.addrMap[k]) {
        assert forall r :: r in rs <==> r == rs[0] || r in rs[1..];
      }
    }
  }

  /** Main theorem: a sweep within its time removes exactly the recorded members still unseen for more
      than 30 s, with the entries at their addresses, and exactly the recorded challenges. */
  lemma SweepExactly(s: RoomState, now: int)
    requires Inv(s) && s.scan.Some? && now - s.scan.value.at <= 30 * SECOND
    ensures var t := StaleSweep(s, now);
            var sc := s.scan.value;
            && t.store == s.store
            && (forall w :: w in t.clients <==> w in s.clients && !Goes(s, sc.members, w, now))
            && (forall w :: w in t.clients ==> t.clients[w] == s.clients[w])
            && (forall k :: k in t.addrMap <==> k in s.addrMap && !GoesFrom(s, sc.members, k, now) && !ChallengeIn(sc.auths, k, s.addrMap[k]))
            && (forall k :: k in t.addrMap ==> t.addrMap[k] == s.addrMap[k])
            && (forall o :: o in t.used <==> o in {0, 1, 255} || (0 <= o < 256 && HostIn(s.cfg.net, o) in t.clients))
  {
    var sc := s.scan.value;
    var u := s.(scan := None);
    SweepIsAtomic(s, now);
    AllMembersGone(u, sc.members, now);
    var m := AtomicMembers(u, sc.members, now);
    SameGoing(s, u, sc.members, now);
    assert forall r :: r in sc.auths ==> AuthRecordOk(s, r);
    AllChallengesGone(m, sc.auths);
    var t := StaleSweep(s, now);
    forall o ensures o in t.used <==> o in {0, 1, 255} || (0 <= o < 256 && HostIn(s.cfg.net, o) in t.clients) {
      assert o in t.used <==> OctetHeld(t, o);
    }
  }

  lemma SameGoing(s: RoomState, u: RoomState, rs: seq<StaleClient>, now: int)
    requires u == s.(scan := None)
    ensures forall w :: Goes(u, rs, w, now) == Goes(s, rs, w, now)
    ensures forall k :: GoesFrom(u, rs, k, now) == GoesFrom(s, rs, k, now)
  {
    forall k ensures GoesFrom(u, rs, k, now) == GoesFrom(s, rs, k, now) {
      if w :| w in s.clients && Goes(s, rs, w, now) && s.store[s.clients[w]].addr == Some(k) { assert Goes(u, rs, w, now); }
      if w :| w in u.clients && Goes(u, rs, w, now) && u.store[u.clients[w]].addr == Some(k) { assert Goes(s, rs, w, now); }
    }
  }

  // ── What the scan records ──────────────────────────────────────

  lemma {:induction false} MemberScanIff(s: RoomState, vips: seq<Ip4>, at: int, w: Ip4)
    requires SeatsOk(s) && w in s.clients && forall x :: x in vips ==> x in s.clients
    ensures RecordedIn(ScanMembers(s, vips, at), w, s.clients[w]) <==> w in vips && at - s.store[s.clients[w]].lastSeen > 30 * SECOND
    decreases |vips|
  {
    if vips != [] {
      var x := vips[0];
      assert SeatOk(s, x) && SeatOk(s, w);
      MemberScanIff(s, vips[1..], at, w);
      var first := if StaleMember(s, x, at) then [StaleClient(x, s.clients[x], s.store[s.clients[x]].addr)] else [];
      assert forall r :: r in ScanMembers(s, vips, at) <==> r in first || r in ScanMembers(s, vips[1..], at);
      if x == w && StaleMember(s, w, at) { assert first[0] in ScanMembers(s, vips, at); }
    }
  }

  lemma {:induction false} ChallengeScanIff(s: RoomState, keys: seq<Addr>, at: int, k: Addr)
    requires AddrOk(s) && k in s.addrMap && forall x :: x in keys ==> x in s.addrMap
    ensures s.addrMap[k] in s.store
    ensures var c := s.store[s.addrMap[k]];
            ChallengeIn(ScanAuths(s, keys, at), k, s.addrMap[k])
            <==> k in keys && c.auth == ChallengeSent && at - c.challengeAt > 30 * SECOND
    decreases |keys|
  {
    assert EntryOk(s, k);
    if keys != [] {
      var x := keys[0];
      assert EntryOk(s, x);
      ChallengeScanIff(s, keys[1..], at, k);
      var first := if StalePending(s, x, at) then [StaleAuth(x, s.addrMap[x], BoundTo(s.store[s.addrMap[x]]).ip)] else [];
      assert forall r :: r in ScanAuths(s, keys, at) <==> r in first || r in ScanAuths(s, keys[1..], at);
      if x == k && StalePending(s, k, at) { assert first[0] in ScanAuths(s, keys, at); }
    }
  }

  /** Member `w` keeps its seat exactly when it was seen within the 30 s before `at`. */
  predicate MemberFate(s: RoomState, t: RoomState, w: Ip4, at: int) {
    w in s.clients && s.clients[w] in s.store && (w in t.clients <==> at - s.store[s.clients[w]].lastSeen <= 30 * SECOND)
  }

  /** A challenge at `k` open for more than 30 s at `at` is gone; a younger one stays, unless a
      departing member's address was `k`. */
  ghost predicate ChallengeFate(s: RoomState, t: RoomState, k: Addr, at: int) {
    && k in s.addrMap && s.addrMap[k] in s.store
    && var c := s.store[s.addrMap[k]];
       c.auth == ChallengeSent ==>
         if at - c.challengeAt > 30 * SECOND then k !in t.addrMap
         else k in t.addrMap || exists w :: w in s.clients && w !in t.clients && s.clients[w] in s.store && s.store[s.clients[w]].addr == Some(k)
  }

  /** Main theorem: a scan that walks both maps, and its sweep, remove exactly the members unseen and the
      challenges open for more than 30 s when the scan ran. */
  lemma ScanAndSweep(s: RoomState, vips: seq<Ip4>, keys: seq<Addr>, at: int, now: int)
    requires Inv(s) && s.clock <= at <= now <= at + 30 * SECOND
    requires (forall w :: w in vips <==> w in s.clients) && (forall k :: k in keys <==> k in s.addrMap)
    ensures var t := StaleSweep(Step(s, EvStaleScan(vips, keys, at)), now);
            (forall w :: w in s.clients ==> MemberFate(s, t, w, at)) && (forall k :: k in s.addrMap ==> ChallengeFate(s, t, k, at))
  {
    var u := Step(s, EvStaleScan(vips, keys, at));
    var t := StaleSweep(u, now);
    StepKeeps(s, EvStaleScan(vips, keys, at));
    SweepExactly(u, now);
    ClockKeeps(s, at);
    forall w | w in s.clients ensures MemberFate(s, t, w, at) {
      assert SeatOk(s, w);
      MemberScanIff(s.(clock := at), vips, at, w);
    }
    forall k | k in s.addrMap ensures ChallengeFate(s, t, k, at) {
      ChallengeScanIff(s.(clock := at), keys, at, k);
      if k !in t.addrMap && GoesFrom(u, u.scan.value.members, k, now) {
        var w :| w in u.clients && Goes(u, u.scan.value.members, w, now) && u.store[u.clients[w]].addr == Some(k);
        assert w in s.clients && w !in t.clients;
      }
    }
  }
}
