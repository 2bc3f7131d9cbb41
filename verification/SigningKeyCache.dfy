/** The signing-key cache (agent-server/focusproof/api/oidc.py:43-75): least recently used with a
    time to live, against the plain history of its calls. */
module SigningKeyCache {
  import opened Basics

  type Kid = Id
  type Key = Id

  datatype Entry = Entry(key: Key, expiresAt: int)

  /** The ordered dictionary: its order, oldest first, and its contents. */
  datatype Cache = Cache(order: seq<Kid>, entries: map<Kid, Entry>)

  datatype Call =
    | Get(kid: Kid, now: int)
    | Put(kid: Kid, key: Key, now: int)

  datatype Limits = Limits(ttl: int, maxEntries: nat)

  function Without(order: seq<Kid>, kid: Kid): (rest: seq<Kid>)
    ensures |rest| <= |order|
  {
    if order == [] then []
    else if order[0] == kid then Without(order[1..], kid)
    else [order[0]] + Without(order[1..], kid)
  }

  predicate Hits(c: Cache, kid: Kid, now: int) {
    kid in c.entries && now < c.entries[kid].expiresAt
  }

  /** The eviction loop, as many times as it runs. */
  function Trimmed(c: Cache, maxEntries: nat): Cache
    decreases |c.order|
  {
    if |c.order| <= maxEntries then c
    else Trimmed(Cache(c.order[1..], c.entries - {c.order[0]}), maxEntries)
  }

  function After(c: Cache, call: Call, limits: Limits): Cache {
    match call
    case Get(kid, now) =>
      if kid !in c.entries then c
      else if c.entries[kid].expiresAt <= now then Cache(Without(c.order, kid), c.entries - {kid})
      else Cache(Without(c.order, kid) + [kid], c.entries)
    case Put(kid, key, now) =>
      Trimmed(Cache(Without(c.order, kid) + [kid], c.entries[kid := Entry(key, now + limits.ttl)]), limits.maxEntries)
  }

  function Replay(c: Cache, calls: seq<Call>, limits: Limits): Cache {
    if calls == [] then c
    else After(Replay(c, calls[..|calls| - 1], limits), calls[|calls| - 1], limits)
  }

  function Empty(): Cache {
    Cache([], map[])
  }

  // ---------------------------------------------------------------------
  // Shape

  predicate Distinct(order: seq<Kid>) {
    forall i, j :: 0 <= i < j < |order| ==> order[i] != order[j]
  }

  ghost predicate Sound(c: Cache, maxEntries: nat) {
    && Distinct(c.order) && |c.order| <= maxEntries
    && (forall kid :: kid in c.order <==> kid in c.entries)
  }

  lemma {:induction false} WithoutKeepsOthers(order: seq<Kid>, kid: Kid)
    requires Distinct(order)
    ensures Distinct(Without(order, kid))
    ensures forall k :: k in Without(order, kid) <==> k in order && k != kid
    ensures |Without(order, kid)| == |order| - (if kid in order then 1 else 0)
  {
    if order != [] {
      WithoutKeepsOthers(order[1..], kid);
      assert forall k :: k in order <==> k == order[0] || k in order[1..];
      assert order[0] !in order[1..];
      assert order[0] !in Without(order[1..], kid);
    }
  }

  /** With at most one entry too many, the loop evicts at most the oldest. */
  lemma TrimmedOnce(c: Cache, maxEntries: nat)
    requires |c.order| <= maxEntries + 1
    ensures Trimmed(c, maxEntries) ==
            if |c.order| <= maxEntries then c else Cache(c.order[1..], c.entries - {c.order[0]})
  {
  }

  lemma PutKeepsSound(c: Cache, kid: Kid, entry: Entry, maxEntries: nat)
    requires Sound(c, maxEntries) && maxEntries >= 1
    ensures Sound(Trimmed(Cache(Without(c.order, kid) + [kid], c.entries[kid := entry]), maxEntries), maxEntries)
  {
    WithoutKeepsOthers(c.order, kid);
    hide Without;
    var order := Without(c.order, kid) + [kid];
    var full := Cache(order, c.entries[kid := entry]);
    TrimmedOnce(full, maxEntries);
    hide Trimmed;
    assert Distinct(order);
    assert forall k :: k in order <==> k in full.entries;
    if |order| > maxEntries {
      DropFirst(order);
    }
  }

  lemma DropFirst(order: seq<Kid>)
    requires Distinct(order) && order != []
    ensures Distinct(order[1..])
    ensures forall k :: k in order[1..] <==> k in order && k != order[0]
  {
  }

  lemma CallKeepsSound(c: Cache, call: Call, limits: Limits)
    requires Sound(c, limits.maxEntries) && limits.maxEntries >= 1
    ensures Sound(After(c, call, limits), limits.maxEntries)
  {
    WithoutKeepsOthers(c.order, call.kid);
    hide Without;
    if call.Put? {
      PutKeepsSound(c, call.kid, Entry(call.key, call.now + limits.ttl), limits.maxEntries);
    }
  }

  lemma {:induction false} NeverOverfull(calls: seq<Call>, limits: Limits)
    requires limits.maxEntries >= 1
    ensures Sound(Replay(Empty(), calls, limits), limits.maxEntries)
  {
    if calls != [] {
      NeverOverfull(calls[..|calls| - 1], limits);
      CallKeepsSound(Replay(Empty(), calls[..|calls| - 1], limits), calls[|calls| - 1], limits);
    }
  }

  // ---------------------------------------------------------------------
  // A hit returns the latest key

  /** The last put of a kid in a history. */
  function LatestPut(calls: seq<Call>, kid: Kid): Option<Call> {
    if calls == [] then None
    else
      var last := calls[|calls| - 1];
      if last.Put? && last.kid == kid then Some(last) else LatestPut(calls[..|calls| - 1], kid)
  }

  ghost predicate LatestKept(c: Cache, calls: seq<Call>, limits: Limits) {
    forall kid <- c.entries ::
      && LatestPut(calls, kid).Some? && LatestPut(calls, kid).value.Put?
      && c.entries[kid] == Entry(LatestPut(calls, kid).value.key, LatestPut(calls, kid).value.now + limits.ttl)
  }

  lemma {:induction false} HistoryKept(calls: seq<Call>, limits: Limits)
    requires limits.maxEntries >= 1
    ensures LatestKept(Replay(Empty(), calls, limits), calls, limits)
  {
    if calls != [] {
      var before := Replay(Empty(), calls[..|calls| - 1], limits);
      var call := calls[|calls| - 1];
      HistoryKept(calls[..|calls| - 1], limits);
      NeverOverfull(calls[..|calls| - 1], limits);
      if call.Put? {
        WithoutKeepsOthers(before.order, call.kid);
        TrimmedOnce(
          Cache(Without(before.order, call.kid) + [call.kid],
                before.entries[call.kid := Entry(call.key, call.now + limits.ttl)]), limits.maxEntries);
      }
    }
  }

  /** Main result: what a hit returns is the key of the latest put for that kid, and that put is
      not older than its time to live. */
  lemma HitIsLatestPut(calls: seq<Call>, kid: Kid, now: int, limits: Limits)
    requires limits.maxEntries >= 1
    requires Hits(Replay(Empty(), calls, limits), kid, now)
    ensures var put := LatestPut(calls, kid);
            && put.Some? && put.value.Put?
            && Replay(Empty(), calls, limits).entries[kid].key == put.value.key
            && now < put.value.now + limits.ttl
  {
    HistoryKept(calls, limits);
  }

  // ---------------------------------------------------------------------
  // A recently used key is still there

  /** The kids put or hit in a stretch of calls. */
  function Used(c: Cache, calls: seq<Call>, limits: Limits): set<Kid> {
    if calls == [] then {}
    else
      var before := Replay(c, calls[..|calls| - 1], limits);
      var last := calls[|calls| - 1];
      Used(c, calls[..|calls| - 1], limits) + NowUsed(before, last)
  }

  /** The kid was used last: everything after it in the order is `since`. */
  ghost predicate UsedSince(c: Cache, kid: Kid, entry: Entry, since: set<Kid>) {
    && kid in c.entries && c.entries[kid] == entry
    && exists i :: 0 <= i < |c.order| && At(c, i, kid, since)
  }

  ghost predicate At(c: Cache, i: int, kid: Kid, since: set<Kid>)
    requires 0 <= i < |c.order|
  {
    c.order[i] == kid && forall j :: i < j < |c.order| ==> c.order[j] in since
  }

  lemma {:induction false} DistinctFits(order: seq<Kid>, kids: set<Kid>)
    requires Distinct(order) && forall k <- order :: k in kids
    ensures |order| <= |kids|
  {
    if order != [] {
      var rest := order[1..];
      DistinctFits(rest, kids - {order[0]});
    }
  }

  lemma {:induction false} WithoutSplits(before: seq<Kid>, kid: Kid, after: seq<Kid>)
    ensures Without(before + after, kid) == Without(before, kid) + Without(after, kid)
  {
    if before == [] {
      assert before + after == after;
    } else {
      assert (before + after)[1..] == before[1..] + after;
      WithoutSplits(before[1..], kid, after);
    }
  }

  /** Taking another kid out leaves this one where it was, with no new kids behind it. */
  lemma OtherTakenOut(order: seq<Kid>, i: nat, since: set<Kid>, other: Kid) returns (n: nat)
    requires Distinct(order) && i < |order| && other != order[i]
    requires forall j :: i < j < |order| ==> order[j] in since
    ensures n < |Without(order, other)| && Without(order, other)[n] == order[i]
    ensures forall j :: n < j < |Without(order, other)| ==> Without(order, other)[j] in since
  {
    var front, back := order[..i], order[i + 1..];
    assert order == front + ([order[i]] + back);
    WithoutSplits(front, other, [order[i]] + back);
    assert ([order[i]] + back)[1..] == back;
    assert Without([order[i]] + back, other) == [order[i]] + Without(back, other);
    assert Distinct(back);
    WithoutKeepsOthers(back, other);
    hide Without;
    n := |Without(front, other)|;
    forall j | n < j < |Without(order, other)| ensures Without(order, other)[j] in since {
      assert Without(order, other)[j] == Without(back, other)[j - n - 1];
      assert Without(order, other)[j] in back;
    }
  }

  function NowUsed(c: Cache, call: Call): set<Kid> {
    if call.Put? || Hits(c, call.kid, call.now) then {call.kid} else {}
  }

  /** A put of another kid evicts this one only if as many others came after it as fit. */
  lemma OtherPutKeeps(c: Cache, put: Call, limits: Limits, kid: Kid, entry: Entry, since: set<Kid>, i: nat)
    requires Sound(c, limits.maxEntries) && limits.maxEntries >= 1 && put.Put? && put.kid != kid
    requires kid in c.entries && c.entries[kid] == entry
    requires i < |Without(c.order, put.kid)| && Without(c.order, put.kid)[i] == kid
    requires forall j :: i < j < |Without(c.order, put.kid)| ==> Without(c.order, put.kid)[j] in since
    requires kid !in since && |since + {put.kid}| < limits.maxEntries
    ensures UsedSince(After(c, put, limits), kid, entry, since + {put.kid})
  {
    WithoutKeepsOthers(c.order, put.kid);
    var rest := Without(c.order, put.kid);
    var order := rest + [put.kid];
    var full := Cache(order, c.entries[put.kid := Entry(put.key, put.now + limits.ttl)]);
    var c' := After(c, put, limits);
    TrimmedOnce(full, limits.maxEntries);
    assert At(full, i, kid, since + {put.kid});
    hide Without, Trimmed;
    if |order| > limits.maxEntries {
      DropFirst(order);
      if i == 0 {
        assert forall k <- order[1..] :: k in since + {put.kid};
        DistinctFits(order[1..], since + {put.kid});
        assert false;
      }
      assert At(c', i - 1, kid, since + {put.kid});
    }
  }

  lemma OtherCallKeeps(c: Cache, call: Call, limits: Limits, kid: Kid, entry: Entry, since: set<Kid>)
    requires Sound(c, limits.maxEntries) && limits.maxEntries >= 1
    requires UsedSince(c, kid, entry, since) && call.kid != kid
    requires kid !in since && |since + NowUsed(c, call)| < limits.maxEntries
    ensures UsedSince(After(c, call, limits), kid, entry, since + NowUsed(c, call))
  {
    var c', since' := After(c, call, limits), since + NowUsed(c, call);
    var i: nat :| i < |c.order| && At(c, i, kid, since);
    if call.Get? && call.kid !in c.entries {
      assert At(c', i, kid, since');
    } else {
      var n := OtherTakenOut(c.order, i, since, call.kid);
      if call.Put? {
        OtherPutKeeps(c, call, limits, kid, entry, since, n);
      } else {
        hide Without, Sound;
        assert At(c', n, kid, since');
      }
    }
  }

  /** No call of the stretch is about the kid. */
  predicate LeavesAlone(calls: seq<Call>, kid: Kid) {
    forall call <- calls :: call.kid != kid
  }

  lemma {:induction false} UsedIsStillThere(
    c: Cache, calls: seq<Call>, limits: Limits, kid: Kid, entry: Entry)
    requires Sound(c, limits.maxEntries) && limits.maxEntries >= 1
    requires UsedSince(c, kid, entry, {}) && LeavesAlone(calls, kid)
    requires |Used(c, calls, limits)| < limits.maxEntries
    ensures Sound(Replay(c, calls, limits), limits.maxEntries)
    ensures UsedSince(Replay(c, calls, limits), kid, entry, Used(c, calls, limits))
    ensures kid !in Used(c, calls, limits)
  {
    if calls != [] {
      var earlier, call := calls[..|calls| - 1], calls[|calls| - 1];
      assert call in calls && LeavesAlone(earlier, kid);
      SubsetIsSmaller(Used(c, earlier, limits), Used(c, calls, limits));
      UsedIsStillThere(c, earlier, limits, kid, entry);
      CallKeepsSound(Replay(c, earlier, limits), call, limits);
      OtherCallKeeps(Replay(c, earlier, limits), call, limits, kid, entry, Used(c, earlier, limits));
    }
  }

  lemma SubsetIsSmaller(a: set<Kid>, b: set<Kid>)
    requires a <= b
    ensures |a| <= |b|
  {
    if a != {} {
      var x :| x in a;
      SubsetIsSmaller(a - {x}, b - {x});
    }
  }

  /** Main result: after a put or a hit of a kid, and then any calls about other kids that put or
      hit fewer than `max_entries` distinct ones, the kid hits exactly as long as its latest put has
      not run out. */
  lemma RecentlyUsedHits(
    history: seq<Call>, use: Call, since: seq<Call>, now: int, limits: Limits)
    requires limits.maxEntries >= 1
    requires use.Put? || Hits(Replay(Empty(), history, limits), use.kid, use.now)
    requires LeavesAlone(since, use.kid)
    requires |Used(Replay(Empty(), history + [use], limits), since, limits)| < limits.maxEntries
    ensures var put := LatestPut(history + [use], use.kid);
            && put.Some? && put.value.Put?
            && (Hits(Replay(Replay(Empty(), history + [use], limits), since, limits), use.kid, now)
                <==> now < put.value.now + limits.ttl)
  {
    NeverOverfull(history, limits);
    ReplayOneMore(history, use, limits);
    var before := Replay(Empty(), history, limits);
    CallKeepsSound(before, use, limits);
    HistoryKept(history + [use], limits);
    var c := After(before, use, limits);
    UseComesLast(before, use, limits);
    UsedIsStillThere(c, since, limits, use.kid, c.entries[use.kid]);
    hide Replay, After, Sound;
  }

  /** The kids that a stretch of calls is about. */
  function KidsOf(calls: seq<Call>): set<Kid> {
    set call <- calls :: call.kid
  }

  lemma {:induction false} UsedAreNamed(c: Cache, calls: seq<Call>, limits: Limits)
    ensures Used(c, calls, limits) <= KidsOf(calls)
  {
    if calls != [] {
      UsedAreNamed(c, calls[..|calls| - 1], limits);
      assert calls[|calls| - 1] in calls;
    }
  }

  /** In particular a key that was put is found until its time to live is over, whatever calls about
      fewer than `max_entries` other kids come in between. */
  lemma PutIsFoundUntilItRunsOut(history: seq<Call>, put: Call, since: seq<Call>, now: int, limits: Limits)
    requires limits.maxEntries >= 1 && put.Put?
    requires LeavesAlone(since, put.kid) && |KidsOf(since)| < limits.maxEntries
    ensures Hits(Replay(Replay(Empty(), history + [put], limits), since, limits), put.kid, now)
            <==> now < put.now + limits.ttl
  {
    var c := Replay(Empty(), history + [put], limits);
    UsedAreNamed(c, since, limits);
    SubsetIsSmaller(Used(c, since, limits), KidsOf(since));
    RecentlyUsedHits(history, put, since, now, limits);
    assert (history + [put])[|history + [put]| - 1] == put;
    hide Replay, Hits, Used;
  }

  lemma UseComesLast(before: Cache, use: Call, limits: Limits)
    requires Sound(before, limits.maxEntries) && limits.maxEntries >= 1
    requires use.Put? || Hits(before, use.kid, use.now)
    ensures use.kid in After(before, use, limits).entries
    ensures UsedSince(After(before, use, limits), use.kid, After(before, use, limits).entries[use.kid], {})
  {
    WithoutKeepsOthers(before.order, use.kid);
    var c := After(before, use, limits);
    if use.Put? {
      TrimmedOnce(
        Cache(Without(before.order, use.kid) + [use.kid],
              before.entries[use.kid := Entry(use.key, use.now + limits.ttl)]), limits.maxEntries);
    }
    assert c.order != [] && c.order[|c.order| - 1] == use.kid;
    assert At(c, |c.order| - 1, use.kid, {});
  }

  // ---------------------------------------------------------------------
  // The class

  class Store {
    const limits: Limits
    var order: seq<Kid>
    var entries: map<Kid, Entry>
    ghost var calls: seq<Call>

    ghost function Current(): Cache
      reads this
    {
      Cache(order, entries)
    }

    ghost predicate Valid()
      reads this
    {
      limits.maxEntries >= 1 && Current() == Replay(Empty(), calls, limits)
    }

    constructor (ttl: int, maxEntries: nat)
      requires maxEntries >= 1
      ensures Valid() && calls == [] && limits == Limits(ttl, maxEntries)
    {
      limits := Limits(ttl, maxEntries);
      order, entries, calls := [], map[], [];
    }

    /** `get`: what it returns is unexpired and the latest put; a miss says there is no such. */
    method Lookup(kid: Kid, now: int) returns (key: Option<Key>)
      requires Valid()
      modifies this
      ensures Valid() && calls == old(calls) + [Get(kid, now)]
      ensures key.Some? <==> Hits(old(Current()), kid, now)
      ensures entries == if key.Some? then old(entries) else old(entries) - {kid}
      ensures key.Some? ==>
                && LatestPut(old(calls), kid).Some? && LatestPut(old(calls), kid).value.Put?
                && key.value == LatestPut(old(calls), kid).value.key
                && now < LatestPut(old(calls), kid).value.now + limits.ttl
    {
      if Hits(Current(), kid, now) {
        HitIsLatestPut(calls, kid, now, limits);
      }
      calls := calls + [Get(kid, now)];
      assert calls[..|calls| - 1] == old(calls);
      if kid !in entries {
        assert entries - {kid} == entries;
        return None;
      }
      var entry := entries[kid];
      if entry.expiresAt <= now {
        order, entries := Without(order, kid), entries - {kid};
        return None;
      }
      order := Without(order, kid) + [kid];
      return Some(entry.key);
    }

    /** `put`, with its eviction loop. */
    method Insert(kid: Kid, key: Key, now: int)
      requires Valid()
      modifies this
      ensures Valid() && calls == old(calls) + [Put(kid, key, now)]
      ensures |entries| <= limits.maxEntries
      ensures kid in entries && entries[kid] == Entry(key, now + limits.ttl)
    {
      hide Without, Sound, Replay;
      ReplayOneMore(calls, Put(kid, key, now), limits);
      NeverOverfull(calls, limits);
      PutKeepsItsKey(Current(), Put(kid, key, now), limits);
      entries := entries[kid := Entry(key, now + limits.ttl)];
      order := Without(order, kid) + [kid];
      ghost var full := Current();
      while |order| > limits.maxEntries
        invariant calls == old(calls)
        invariant Trimmed(full, limits.maxEntries) == Trimmed(Current(), limits.maxEntries)
        decreases |order|
      {
        entries := entries - {order[0]};
        order := order[1..];
      }
      calls := calls + [Put(kid, key, now)];
      NeverOverfull(calls, limits);
      KeysFitOrder(Current(), limits.maxEntries);
    }
  }

  lemma ReplayOneMore(calls: seq<Call>, call: Call, limits: Limits)
    ensures Replay(Empty(), calls + [call], limits) == After(Replay(Empty(), calls, limits), call, limits)
  {
    assert (calls + [call])[..|calls|] == calls;
  }

  function KidsIn(order: seq<Kid>): set<Kid> {
    set k | k in order
  }

  lemma KeysFitOrder(c: Cache, maxEntries: nat)
    requires Sound(c, maxEntries)
    ensures |c.entries| <= maxEntries
  {
    assert c.entries.Keys == KidsIn(c.order);
    KidsFit(c.order);
    assert |c.entries| == |c.entries.Keys|;
  }

  lemma {:induction false} KidsFit(order: seq<Kid>)
    ensures |KidsIn(order)| <= |order|
  {
    if order != [] {
      KidsFit(order[1..]);
      assert KidsIn(order) == KidsIn(order[1..]) + {order[0]};
      if order[0] in KidsIn(order[1..]) {
        assert KidsIn(order) == KidsIn(order[1..]);
      }
    }
  }

  lemma PutKeepsItsKey(before: Cache, put: Call, limits: Limits)
    requires Sound(before, limits.maxEntries) && limits.maxEntries >= 1 && put.Put?
    ensures put.kid in After(before, put, limits).entries
    ensures After(before, put, limits).entries[put.kid] == Entry(put.key, put.now + limits.ttl)
  {
    UseComesLast(before, put, limits);
    TrimmedOnce(
      Cache(Without(before.order, put.kid) + [put.kid],
            before.entries[put.kid := Entry(put.key, put.now + limits.ttl)]), limits.maxEntries) by {
      WithoutKeepsOthers(before.order, put.kid);
    }
  }
}
