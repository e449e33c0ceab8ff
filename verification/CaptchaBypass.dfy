/** The captcha bypass tokens: a store with a time to live and an oldest-first bound on its size. */
module CaptchaBypasses {
  import opened Text

  datatype Entry = Entry(fingerprint: string, lastSeen: int)

  /**
   * What the store has done so far. An accepted use reads the clock twice: to expire entries, then to stamp the entry.
   */
  datatype Event =
    | Created(token: string, fingerprint: string, at: int)
    | Used(token: string, checked: int, stamped: int)
    | Evicted(tokens: set<string>)

  datatype Stamp = Stamp(checked: int, stamped: int)

  /** What one event does to the stamps of a token. */
  function Record(stamps: seq<Stamp>, event: Event, token: string): seq<Stamp> {
    match event
    case Created(t, _, at) => if t == token then [Stamp(at, at)] else stamps
    case Used(t, checked, stamped) => if t == token then stamps + [Stamp(checked, stamped)] else stamps
    case Evicted(tokens) => if token in tokens then [] else stamps
  }

  /** The accepted uses of a token since it was last created, the creation first; none once it has been evicted. */
  function Uses(history: seq<Event>, token: string): seq<Stamp> {
    if history == [] then []
    else Record(Uses(history[..|history| - 1], token), history[|history| - 1], token)
  }

  /** The fingerprint that a token was last created for. */
  function Owner(history: seq<Event>, token: string): string {
    if history == [] then ""
    else
      match history[|history| - 1]
      case Created(t, fingerprint, _) => if t == token then fingerprint else Owner(history[..|history| - 1], token)
      case _ => Owner(history[..|history| - 1], token)
  }

  /** No gap between consecutive stamps exceeds the time to live. */
  predicate NoGap(stamps: seq<Stamp>, ttl: int) {
    forall i :: 0 <= i < |stamps| - 1 ==> stamps[i + 1].checked - stamps[i].stamped <= ttl
  }

  function LastStamp(stamps: seq<Stamp>): int
    requires stamps != []
  {
    stamps[|stamps| - 1].stamped
  }

  /** What a lookup answers, told by the history alone. */
  predicate Accepts(history: seq<Event>, token: string, fingerprint: string, now: int, ttl: int) {
    var stamps := Uses(history, token);
    token != "" && stamps != [] && Owner(history, token) == fingerprint && now - LastStamp(stamps) <= ttl
  }

  /** Event `k` starts a token afresh or ends it. */
  predicate Resets(event: Event, token: string) {
    (event.Created? && event.token == token) || (event.Evicted? && token in event.tokens)
  }

  /** The stamps that the events from `k` on put on a token, in order. */
  function StampsFrom(history: seq<Event>, token: string, k: nat): seq<Stamp>
    requires k <= |history|
    decreases |history| - k
  {
    if k == |history| then []
    else
      var rest := StampsFrom(history, token, k + 1);
      match history[k]
      case Created(t, _, at) => if t == token then [Stamp(at, at)] + rest else rest
      case Used(t, checked, stamped) => if t == token then [Stamp(checked, stamped)] + rest else rest
      case Evicted(_) => rest
  }

  /** Only live tokens are ever used. */
  ghost predicate Orderly(history: seq<Event>) {
    history == [] ||
    (var before, last := history[..|history| - 1], history[|history| - 1];
     Orderly(before) && (last.Used? ==> Uses(before, last.token) != []))
  }

  /** Event `c` created the token for `fingerprint`, and nothing has reset it since. */
  ghost predicate IsLatestCreation(history: seq<Event>, token: string, fingerprint: string, c: nat) {
    && c < |history| && history[c].Created? && history[c].token == token && history[c].fingerprint == fingerprint
    && forall k :: c < k < |history| ==> !Resets(history[k], token)
  }

  /** Uses and Owner, which read the history backwards, tell what happened forwards from the latest creation. */
  lemma {:induction false} SinceCreation(history: seq<Event>, token: string) returns (c: nat)
    requires Orderly(history) && Uses(history, token) != []
    ensures IsLatestCreation(history, token, Owner(history, token), c)
    ensures Uses(history, token) == StampsFrom(history, token, c)
    decreases |history|
  {
    var n := |history| - 1;
    var before, last := history[..n], history[n];
    assert history == before + [last];
    if last.Created? && last.token == token {
      c := n;
      assert StampsFrom(history, token, n + 1) == [];
    } else {
      c := SinceCreation(before, token);
      CreationSnoc(before, last, token, c);
      hide StampsFrom, IsLatestCreation, Orderly;
      UsesSnoc(before, last, token);
      StampsSnoc(before, last, token, c);
      StampOfOne(last, token);
    }
  }

  lemma CreationSnoc(history: seq<Event>, event: Event, token: string, c: nat)
    requires IsLatestCreation(history, token, Owner(history, token), c) && !Resets(event, token)
    ensures IsLatestCreation(history + [event], token, Owner(history + [event], token), c)
  {
    UsesSnoc(history, event, token);
  }

  lemma StampOfOne(event: Event, token: string)
    requires !(event.Created? && event.token == token)
    ensures StampsFrom([event], token, 0)
            == if event.Used? && event.token == token then [Stamp(event.checked, event.stamped)] else []
  {
    assert StampsFrom([event], token, 1) == [];
  }

  lemma {:induction false} StampsSnoc(history: seq<Event>, event: Event, token: string, k: nat)
    requires k <= |history|
    ensures StampsFrom(history + [event], token, k) ==
            StampsFrom(history, token, k) + StampsFrom([event], token, 0)
    decreases |history| - k
  {
    if k < |history| {
      StampsSnoc(history, event, token, k + 1);
    } else {
      assert StampsFrom([event], token, 1) == [] && StampsFrom(history + [event], token, k + 1) == [];
    }
  }

  lemma UsesSnoc(history: seq<Event>, event: Event, token: string)
    ensures Uses(history + [event], token) == Record(Uses(history, token), event, token)
    ensures Owner(history + [event], token) ==
            if event.Created? && event.token == token then event.fingerprint else Owner(history, token)
  {
    assert (history + [event])[..|history|] == history;
  }

  /** The entries that are still within their time to live. */
  function Unexpired(store: map<string, Entry>, now: int, ttl: int): map<string, Entry> {
    map t | t in store && now - store[t].lastSeen <= ttl :: store[t]
  }

  /** The store and the history agree about one token. */
  ghost predicate Agree(store: map<string, Entry>, history: seq<Event>, token: string, clock: int, ttl: int) {
    var stamps := Uses(history, token);
    && NoGap(stamps, ttl)
    && (token in store ==>
          && stamps != [] && store[token] == Entry(Owner(history, token), LastStamp(stamps))
          && LastStamp(stamps) <= clock)
    && (token !in store && stamps != [] ==> clock - LastStamp(stamps) > ttl)
  }

  ghost predicate AllAgree(store: map<string, Entry>, history: seq<Event>, clock: int, ttl: int) {
    forall t :: Agree(store, history, t, clock, ttl)
  }

  /** `after` holds entries of `before`, and none that is newer has gone. */
  ghost predicate Kept(before: map<string, Entry>, after: map<string, Entry>) {
    && after.Keys <= before.Keys
    && (forall t :: t in after ==> after[t] == before[t])
    && (forall gone, kept :: gone in before && gone !in after && kept in after ==>
          before[gone].lastSeen <= after[kept].lastSeen)
  }

  /** Room for one entry more: the oldest have gone, and no more of them than had to. */
  ghost predicate IsRoom(before: map<string, Entry>, after: map<string, Entry>, maxEntries: nat) {
    && Kept(before, after)
    && |after| == if maxEntries == 0 then 0 else if |before| < maxEntries then |before| else maxEntries - 1
  }

  /** The first of the generated tokens that is not in use, or the last one if all are. */
  ghost predicate IsPicked(token: string, generated: seq<string>, store: map<string, Entry>) {
    exists i :: 0 <= i < |generated| && token == generated[i] && (forall j :: 0 <= j < i ==> generated[j] in store)
                && (token !in store || i == |generated| - 1)
  }

  class CaptchaBypass {
    var tokenStore: map<string, Entry>
    const maxEntries: nat
    const ttlSeconds: int
    ghost var history: seq<Event>
    /** The last time that was read from the clock, which does not go backwards. */
    ghost var clock: int

    ghost predicate Valid()
      reads this
    {
      AllAgree(tokenStore, history, clock, ttlSeconds) && Orderly(history)
    }

    constructor (maxEntries: nat, ttlSeconds: int)
      ensures Valid() && tokenStore == map[] && history == []
      ensures this.maxEntries == maxEntries && this.ttlSeconds == ttlSeconds
    {
      this.maxEntries, this.ttlSeconds := maxEntries, ttlSeconds;
      tokenStore, history, clock := map[], [], 0;
    }

    method CleanupExpired(now: int)
      requires Valid() && clock <= now
      modifies `tokenStore, `clock
      ensures Valid() && clock == now
      ensures tokenStore == Unexpired(old(tokenStore), now, ttlSeconds)
    {
      var keys := tokenStore.Keys;
      var store := tokenStore;
      while keys != {}
        invariant keys <= store.Keys <= old(tokenStore).Keys
        invariant forall t :: t in store ==> store[t] == old(tokenStore)[t]
        invariant forall t :: t in old(tokenStore) && t !in keys ==>
                    (t in store <==> now - old(tokenStore)[t].lastSeen <= ttlSeconds)
        decreases keys
      {
        var it :| it in keys;
        if now - store[it].lastSeen > ttlSeconds {
          store := store - {it};
        }
        keys := keys - {it};
      }
      assert store == Unexpired(old(tokenStore), now, ttlSeconds);
      tokenStore := store;
      clock := now;
      forall t | true ensures Agree(tokenStore, history, t, clock, ttlSeconds) {
        assert Agree(old(tokenStore), history, t, old(clock), ttlSeconds);
      }
    }

    /** The token of an entry that no other entry is older than. */
    method Oldest(store: map<string, Entry>) returns (oldest: string)
      requires store != map[]
      ensures oldest in store && forall t :: t in store ==> store[oldest].lastSeen <= store[t].lastSeen
    {
      assert store.Keys != {};
      oldest :| oldest in store.Keys;
      var keys := store.Keys;
      while keys != {}
        invariant keys <= store.Keys && oldest in store
        invariant forall t :: t in store && t !in keys ==> store[oldest].lastSeen <= store[t].lastSeen
        decreases keys
      {
        var it :| it in keys;
        if store[it].lastSeen < store[oldest].lastSeen {
          oldest := it;
        }
        keys := keys - {it};
      }
    }

    /** Make room for one entry: what goes is never newer than what stays, and no more goes than has to. */
    method EvictOldestIfNeeded()
      requires Valid()
      modifies `tokenStore, `history
      ensures Valid()
      ensures IsRoom(old(tokenStore), tokenStore, maxEntries)
      ensures history == old(history) + [Evicted(old(tokenStore).Keys - tokenStore.Keys)]
    {
      hide Agree;
      if maxEntries == 0 {
        tokenStore := map[];
        assert Kept(old(tokenStore), tokenStore);
      } else {
        assert Kept(tokenStore, tokenStore);
        hide Kept;
        while |tokenStore| >= maxEntries
          invariant Kept(old(tokenStore), tokenStore) && history == old(history)
          invariant tokenStore == old(tokenStore) || maxEntries - 1 <= |tokenStore| < |old(tokenStore)|
          decreases |tokenStore|
        {
          var oldest := Oldest(tokenStore);
          RemoveOne(tokenStore, oldest);
          KeptStep(old(tokenStore), tokenStore, oldest);
          tokenStore := tokenStore - {oldest};
        }
      }
      history := history + [Evicted(old(tokenStore).Keys - tokenStore.Keys)];
      Dropped(old(tokenStore), tokenStore, old(history), history, clock, ttlSeconds);
    }

    /** Accept exactly the live tokens of the fingerprint, and renew the one that was used. */
    method HasValidBypass(token: string, fingerprint: string, now: int, stampNow: int) returns (ok: bool)
      requires Valid() && clock <= now <= stampNow
      modifies this
      ensures Valid()
      ensures ok <==> Accepts(old(history), token, fingerprint, now, ttlSeconds)
      ensures history == old(history) + if ok then [Used(token, now, stampNow)] else []
      ensures token == "" ==> tokenStore == old(tokenStore)
      ensures token != "" ==>
                var live := Unexpired(old(tokenStore), now, ttlSeconds);
                tokenStore == if ok then live[token := Entry(fingerprint, stampNow)] else live
      ensures ok ==> NoGap(Uses(old(history), token) + [Stamp(now, stampNow)], ttlSeconds)
    {
      assert Agree(tokenStore, history, token, clock, ttlSeconds);
      if token == "" {
        return false;
      }
      CleanupExpired(now);
      assert Agree(tokenStore, history, token, clock, ttlSeconds);
      if token !in tokenStore {
        return false;
      }
      if tokenStore[token].fingerprint != fingerprint {
        return false;
      }
      ghost var before := tokenStore;
      tokenStore := tokenStore[token := Entry(fingerprint, stampNow)];
      history := history + [Used(token, now, stampNow)];
      clock := stampNow;
      Renewed(before, tokenStore, old(history), history, token, fingerprint, now, stampNow, ttlSeconds);
      return true;
    }

    /**
     * Issue a token: a fresh one unless the generator repeats itself nine times, and never more entries than the bound.
     */
    method CreateBypass(fingerprint: string, now: int, stampNow: int, generated: seq<string>) returns (token: string)
      requires Valid() && clock <= now <= stampNow && |generated| == 9
      modifies this
      ensures Valid()
      ensures token in generated && token in tokenStore && tokenStore[token] == Entry(fingerprint, stampNow)
      ensures |tokenStore| <= if maxEntries == 0 then 1 else maxEntries
      ensures Accepts(history, token, fingerprint, stampNow, ttlSeconds) <==> token != "" && 0 <= ttlSeconds
      ensures var live := Unexpired(old(tokenStore), now, ttlSeconds);
              exists room ::
                && IsRoom(live, room, maxEntries) && IsPicked(token, generated, room)
                && tokenStore == room[token := Entry(fingerprint, stampNow)]
                && history == old(history) + [Evicted(live.Keys - room.Keys), Created(token, fingerprint, stampNow)]
    {
      hide AllAgree, Orderly, IsRoom, Unexpired, Accepts;
      CleanupExpired(now);
      EvictOldestIfNeeded();
      token := generated[0];
      var i := 0;
      while i < 8 && token in tokenStore
        invariant 0 <= i <= 8 && token == generated[i] && forall j :: 0 <= j < i ==> generated[j] in tokenStore
      {
        token := generated[i + 1];
        i := i + 1;
      }
      ghost var before, hist := tokenStore, history;
      RoomForOne(Unexpired(old(tokenStore), now, ttlSeconds), before, maxEntries, token, Entry(fingerprint, stampNow));
      tokenStore := tokenStore[token := Entry(fingerprint, stampNow)];
      history := history + [Created(token, fingerprint, stampNow)];
      Issued(before, tokenStore, hist, history, token, fingerprint, clock, stampNow, ttlSeconds);
      clock := stampNow;
    }
  }

  lemma KeptStep(before: map<string, Entry>, mid: map<string, Entry>, oldest: string)
    requires Kept(before, mid) && oldest in mid && forall t :: t in mid ==> mid[oldest].lastSeen <= mid[t].lastSeen
    ensures Kept(before, mid - {oldest})
  {}

  lemma Dropped(store: map<string, Entry>, store': map<string, Entry>, history: seq<Event>, history': seq<Event>,
                clock: int, ttl: int)
    requires AllAgree(store, history, clock, ttl) && Kept(store, store')
    requires history' == history + [Evicted(store.Keys - store'.Keys)]
    ensures AllAgree(store', history', clock, ttl)
  {
    forall t | true ensures Agree(store', history', t, clock, ttl) {
      assert Agree(store, history, t, clock, ttl);
      UsesSnoc(history, Evicted(store.Keys - store'.Keys), t);
    }
  }

  lemma Renewed(store: map<string, Entry>, store': map<string, Entry>, history: seq<Event>, history': seq<Event>,
                token: string, fingerprint: string, now: int, stampNow: int, ttl: int)
    requires AllAgree(store, history, now, ttl)
    requires token in store && store[token].fingerprint == fingerprint && now <= stampNow
    requires now - store[token].lastSeen <= ttl
    requires store' == store[token := Entry(fingerprint, stampNow)]
    requires history' == history + [Used(token, now, stampNow)]
    ensures AllAgree(store', history', stampNow, ttl)
    ensures NoGap(Uses(history, token) + [Stamp(now, stampNow)], ttl)
  {
    assert Agree(store, history, token, now, ttl);
    forall t | true ensures Agree(store', history', t, stampNow, ttl) {
      assert Agree(store, history, t, now, ttl);
      UsesSnoc(history, Used(token, now, stampNow), t);
    }
  }

  lemma Issued(store: map<string, Entry>, store': map<string, Entry>, history: seq<Event>, history': seq<Event>,
               token: string, fingerprint: string, clock: int, stampNow: int, ttl: int)
    requires AllAgree(store, history, clock, ttl) && clock <= stampNow && Orderly(history)
    requires store' == store[token := Entry(fingerprint, stampNow)]
    requires history' == history + [Created(token, fingerprint, stampNow)]
    ensures AllAgree(store', history', stampNow, ttl) && Orderly(history')
    ensures Accepts(history', token, fingerprint, stampNow, ttl) <==> token != "" && 0 <= ttl
  {
    assert history'[..|history|] == history;
    forall t | true ensures Agree(store', history', t, stampNow, ttl) {
      assert Agree(store, history, t, clock, ttl);
      UsesSnoc(history, Created(token, fingerprint, stampNow), t);
    }
    UsesSnoc(history, Created(token, fingerprint, stampNow), token);
  }

  lemma RoomForOne(before: map<string, Entry>, room: map<string, Entry>, maxEntries: nat, token: string, entry: Entry)
    requires IsRoom(before, room, maxEntries)
    ensures |room[token := entry]| <= if maxEntries == 0 then 1 else maxEntries
  {
    assert room[token := entry].Keys == room.Keys + {token};
  }

  lemma RemoveOne(store: map<string, Entry>, token: string)
    requires token in store
    ensures |store - {token}| == |store| - 1
  {
    assert (store - {token}).Keys == store.Keys - {token};
  }
}
