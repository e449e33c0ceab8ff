/** The sliding per-client request history of the bot detection, and the counts taken from it. */
module RequestHistory {
  import opened Text

  const SIXTY_SECONDS_MS: int := 60000
  const RETENTION_MS: int := 10 * 60 * 1000
  const MAX_SAMPLES: nat := 120
  const LOOKBACK_MS: int := 2 * 60 * 1000

  datatype RequestKind = DOCUMENT | ASSET | OTHER

  datatype Sample = Sample(at: int, kind: RequestKind)

  predicate Sorted(samples: seq<Sample>) {
    forall i, j :: 0 <= i < j < |samples| ==> samples[i].at <= samples[j].at
  }

  /** The samples that are no older than `retention`, in order. */
  function Recent(samples: seq<Sample>, now: int, retention: int): seq<Sample> {
    if samples == [] then []
    else
      var n := |samples| - 1;
      Recent(samples[..n], now, retention) + if now - samples[n].at <= retention then [samples[n]] else []
  }

  /** The last `n` of them, or all. */
  function LastN(samples: seq<Sample>, n: nat): seq<Sample> {
    if |samples| <= n then samples else samples[|samples| - n..]
  }

  /** What the history should hold: the last 120 of the samples no older than ten minutes. */
  function Window(all: seq<Sample>, now: int): seq<Sample> { LastN(Recent(all, now, RETENTION_MS), MAX_SAMPLES) }

  /** On a sorted history the recent samples are a suffix. */
  lemma {:induction false} RecentIsSuffix(samples: seq<Sample>, now: int, retention: int, k: nat)
    requires Sorted(samples) && k <= |samples|
    requires forall i :: 0 <= i < k ==> now - samples[i].at > retention
    requires k < |samples| ==> now - samples[k].at <= retention
    ensures Recent(samples, now, retention) == samples[k..]
    decreases |samples|
  {
    if samples != [] {
      var n := |samples| - 1;
      var before := samples[..n];
      if k <= n {
        RecentIsSuffix(before, now, retention, k);
        assert samples[k..] == before[k..] + [samples[n]];
      } else {
        RecentIsSuffix(before, now, retention, n);
      }
    }
  }

  /** Samples that are dropped as too old now would be dropped later too. */
  lemma {:induction false} RecentTwice(samples: seq<Sample>, now: int, later: int, retention: int)
    requires now <= later
    ensures Recent(Recent(samples, now, retention), later, retention) == Recent(samples, later, retention)
    decreases |samples|
  {
    if samples != [] {
      var n := |samples| - 1;
      RecentTwice(samples[..n], now, later, retention);
      var r := Recent(samples[..n], now, retention);
      if now - samples[n].at <= retention {
        assert (r + [samples[n]])[..|r|] == r;
      } else {
        assert r + [] == r;
      }
    }
  }

  lemma {:induction false} RecentAppend(a: seq<Sample>, b: seq<Sample>, now: int, retention: int)
    ensures Recent(a + b, now, retention) == Recent(a, now, retention) + Recent(b, now, retention)
    decreases |b|
  {
    if b == [] {
      assert a + b == a;
    } else {
      var n := |b| - 1;
      assert (a + b)[..|a + b| - 1] == a + b[..n];
      RecentAppend(a, b[..n], now, retention);
    }
  }

  lemma {:induction false} RecentLength(samples: seq<Sample>, now: int, retention: int)
    ensures |Recent(samples, now, retention)| <= |samples|
    decreases |samples|
  {
    if samples != [] {
      RecentLength(samples[..|samples| - 1], now, retention);
    }
  }

  /** Dropping samples in front of the last 120 never changes a later window. */
  lemma WindowOfTail(all: seq<Sample>, more: seq<Sample>, now: int)
    requires Sorted(all + more)
    ensures Window(LastN(all, MAX_SAMPLES) + more, now) == Window(all + more, now)
  {
    if |all| > MAX_SAMPLES {
      var k := |all| - MAX_SAMPLES;
      var gone, kept := all[..k], all[k..];
      assert all == gone + kept;
      assert all + more == gone + (kept + more);
      RecentAppend(gone, kept + more, now, RETENTION_MS);
      DroppedPart(gone, kept, more, now);
    }
  }

  lemma DroppedPart(gone: seq<Sample>, kept: seq<Sample>, more: seq<Sample>, now: int)
    requires |kept| == MAX_SAMPLES && Sorted(gone + (kept + more))
    requires Recent(gone + (kept + more), now, RETENTION_MS)
             == Recent(gone, now, RETENTION_MS) + Recent(kept + more, now, RETENTION_MS)
    ensures Window(kept + more, now) == Window(gone + (kept + more), now)
  {
    var rest := kept + more;
    var r := Recent(rest, now, RETENTION_MS);
    var g := Recent(gone, now, RETENTION_MS);
    if g != [] {
      AllRecent(gone, rest, now);
      assert r == rest;
      assert (g + r)[|g + r| - MAX_SAMPLES..] == r[|r| - MAX_SAMPLES..];
    } else {
      assert g + r == r;
    }
  }

  /** If one of the earlier samples is still recent, all the later ones are. */
  lemma AllRecent(gone: seq<Sample>, rest: seq<Sample>, now: int)
    requires Sorted(gone + rest) && Recent(gone, now, RETENTION_MS) != []
    ensures Recent(rest, now, RETENTION_MS) == rest
  {
    var i := RecentWitness(gone, now, RETENTION_MS);
    forall j | 0 <= j < |rest| ensures now - rest[j].at <= RETENTION_MS {
      assert (gone + rest)[i] == gone[i] && (gone + rest)[|gone| + j] == rest[j];
    }
    KeepAll(rest, now, RETENTION_MS);
  }

  lemma {:induction false} RecentWitness(samples: seq<Sample>, now: int, retention: int) returns (i: nat)
    requires Recent(samples, now, retention) != []
    ensures i < |samples| && now - samples[i].at <= retention
    decreases |samples|
  {
    var n := |samples| - 1;
    if now - samples[n].at <= retention {
      i := n;
    } else {
      i := RecentWitness(samples[..n], now, retention);
    }
  }

  lemma {:induction false} KeepAll(samples: seq<Sample>, now: int, retention: int)
    requires forall i :: 0 <= i < |samples| ==> now - samples[i].at <= retention
    ensures Recent(samples, now, retention) == samples
    decreases |samples|
  {
    if samples != [] {
      KeepAll(samples[..|samples| - 1], now, retention);
    }
  }

  /** Trimming at every request is the same as never trimming and looking at the last window. */
  lemma WindowOfWindow(all: seq<Sample>, sample: Sample, before: int, now: int)
    requires Sorted(all + [sample]) && before <= now
    ensures Window(Window(all, before) + [sample], now) == Window(all + [sample], now)
  {
    var r := Recent(all, before, RETENTION_MS);
    RecentSorted(all, sample, before);
    WindowOfTail(r, [sample], now);
    RecentAppend(r, [sample], now, RETENTION_MS);
    RecentAppend(all, [sample], now, RETENTION_MS);
    RecentTwice(all, before, now, RETENTION_MS);
  }

  lemma RecentSorted(all: seq<Sample>, sample: Sample, now: int)
    requires Sorted(all + [sample])
    ensures Sorted(Recent(all, now, RETENTION_MS) + [sample])
  {
    var k := FirstRecent(all, now, RETENTION_MS);
    assert forall i :: 0 <= i < |all| ==> (all + [sample])[i] == all[i];
    RecentIsSuffix(all, now, RETENTION_MS, k);
    assert all[k..] + [sample] == (all + [sample])[k..];
  }

  lemma FirstRecent(all: seq<Sample>, now: int, retention: int) returns (k: nat)
    ensures k <= |all| && (forall i :: 0 <= i < k ==> now - all[i].at > retention)
    ensures k < |all| ==> now - all[k].at <= retention
  {
    k := 0;
    while k < |all| && now - all[k].at > retention
      invariant k <= |all| && forall i :: 0 <= i < k ==> now - all[i].at > retention
    {
      k := k + 1;
    }
  }

  // ---------------------------------------------------------------------------
  // The methods
  // ---------------------------------------------------------------------------

  method TrimRequestHistory(samples: seq<Sample>, now: int, retention: int, maxSamples: nat)
    returns (trimmed: seq<Sample>)
    requires Sorted(samples)
    ensures trimmed == LastN(Recent(samples, now, retention), maxSamples)
    ensures Sorted(trimmed) && |trimmed| <= maxSamples
  {
    hide Sorted, Recent;
    var keepFrom := 0;
    while keepFrom < |samples| && now - samples[keepFrom].at > retention
      invariant 0 <= keepFrom <= |samples|
      invariant forall i :: 0 <= i < keepFrom ==> now - samples[i].at > retention
    {
      keepFrom := keepFrom + 1;
    }
    RecentIsSuffix(samples, now, retention, keepFrom);
    trimmed := samples;
    if keepFrom > 0 {
      TailSorted(trimmed, keepFrom);
      trimmed := trimmed[keepFrom..];
    }
    if |trimmed| > maxSamples {
      TailSorted(trimmed, |trimmed| - maxSamples);
      trimmed := trimmed[|trimmed| - maxSamples..];
    }
  }

  lemma TailSorted(samples: seq<Sample>, k: nat)
    requires Sorted(samples) && k <= |samples|
    ensures Sorted(samples[k..])
  {}

  function CountRecent(times: seq<int>, now: int): nat {
    if times == [] then 0
    else
      var t := times[|times| - 1];
      CountRecent(times[..|times| - 1], now) + if t <= now && now - t <= SIXTY_SECONDS_MS then 1 else 0
  }

  /** The requests of the last minute, each by its place in the history. */
  ghost function LastMinute(times: seq<int>, now: int): set<int> {
    set i | 0 <= i < |times| && now - SIXTY_SECONDS_MS <= times[i] <= now
  }

  lemma LastMinuteNext(times: seq<int>, n: nat, now: int)
    requires |times| == n + 1
    ensures LastMinute(times, now)
            == LastMinute(times[..n], now) + if now - SIXTY_SECONDS_MS <= times[n] <= now then {n} else {}
    ensures n !in LastMinute(times[..n], now)
  {}

  lemma {:induction false} CountIsCardinality(times: seq<int>, now: int)
    ensures CountRecent(times, now) == |LastMinute(times, now)|
    decreases |times|
  {
    if times == [] {
      assert LastMinute(times, now) == {};
    } else {
      hide LastMinute;
      CountIsCardinality(times[..|times| - 1], now);
      LastMinuteNext(times, |times| - 1, now);
    }
  }

  method CountRequestsInLastMinute(times: seq<int>, now: int) returns (count: nat)
    ensures count == CountRecent(times, now) == |LastMinute(times, now)|
  {
    count := 0;
    assert times[..0] == [];
    for i := 0 to |times|
      invariant count == CountRecent(times[..i], now)
    {
      assert times[..i + 1][..i] == times[..i];
      if times[i] <= now && now - times[i] <= SIXTY_SECONDS_MS {
        count := count + 1;
      }
    }
    assert times[..|times|] == times;
    CountIsCardinality(times, now);
  }

  function PrimaryTimes(samples: seq<Sample>): seq<int> {
    if samples == [] then []
    else
      var s := samples[|samples| - 1];
      PrimaryTimes(samples[..|samples| - 1]) + if s.kind != ASSET then [s.at] else []
  }

  method CollectPrimaryRequestTimes(samples: seq<Sample>) returns (times: seq<int>)
    ensures times == PrimaryTimes(samples)
  {
    times := [];
    assert samples[..0] == [];
    for i := 0 to |samples|
      invariant times == PrimaryTimes(samples[..i])
    {
      assert samples[..i + 1][..i] == samples[..i];
      if samples[i].kind != ASSET {
        times := times + [samples[i].at];
      }
    }
    assert samples[..|samples|] == samples;
  }

  /** A document young enough to be looked at and old enough to have had its assets fetched. */
  predicate IsMature(s: Sample, now: int, window: int) {
    s.kind == DOCUMENT && s.at >= now - LOOKBACK_MS && now - s.at > window
  }

  /** Some later sample is an asset within the window: no early exit. */
  predicate HasFollowup(samples: seq<Sample>, i: nat, window: int)
    requires i < |samples|
  {
    exists j :: i < j < |samples| && samples[j].kind == ASSET && samples[j].at - samples[i].at <= window
  }

  function MatureCount(samples: seq<Sample>, upto: nat, now: int, window: int): nat
    requires upto <= |samples|
  {
    if upto == 0 then 0
    else MatureCount(samples, upto - 1, now, window) + if IsMature(samples[upto - 1], now, window) then 1 else 0
  }

  function MissingCount(samples: seq<Sample>, upto: nat, now: int, window: int): nat
    requires upto <= |samples|
  {
    if upto == 0 then 0
    else
      MissingCount(samples, upto - 1, now, window)
      + if IsMature(samples[upto - 1], now, window) && !HasFollowup(samples, upto - 1, window) then 1 else 0
  }

  /** The documents that are old enough, and those of them without an asset that follows in time, by their places. */
  ghost function Mature(samples: seq<Sample>, upto: nat, now: int, window: int): set<int>
    requires upto <= |samples|
  {
    set i | 0 <= i < upto && IsMature(samples[i], now, window)
  }

  ghost function Missing(samples: seq<Sample>, upto: nat, now: int, window: int): set<int>
    requires upto <= |samples|
  {
    set i | 0 <= i < upto && IsMature(samples[i], now, window) && !HasFollowup(samples, i, window)
  }

  lemma MatureNext(samples: seq<Sample>, n: nat, now: int, window: int)
    requires n < |samples|
    ensures Mature(samples, n + 1, now, window)
            == Mature(samples, n, now, window) + if IsMature(samples[n], now, window) then {n} else {}
  {
    hide IsMature;
  }

  lemma MissingNext(samples: seq<Sample>, n: nat, now: int, window: int)
    requires n < |samples|
    ensures Missing(samples, n + 1, now, window)
            == Missing(samples, n, now, window)
               + if IsMature(samples[n], now, window) && !HasFollowup(samples, n, window) then {n} else {}
  {
    hide IsMature, HasFollowup;
  }

  lemma {:induction false} CountsAreCardinalities(samples: seq<Sample>, upto: nat, now: int, window: int)
    requires upto <= |samples|
    ensures MatureCount(samples, upto, now, window) == |Mature(samples, upto, now, window)|
    ensures MissingCount(samples, upto, now, window) == |Missing(samples, upto, now, window)|
    decreases upto
  {
    hide IsMature, HasFollowup;
    if upto > 0 {
      CountsAreCardinalities(samples, upto - 1, now, window);
      MatureNext(samples, upto - 1, now, window);
      MissingNext(samples, upto - 1, now, window);
    }
  }

  /** On a sorted history the scan that stops at the first late sample counts what a full scan counts. */
  method AnalyzeAssetFollowup(samples: seq<Sample>, now: int, window: int) returns (mature: nat, missing: nat)
    requires Sorted(samples)
    ensures mature == MatureCount(samples, |samples|, now, window) == |Mature(samples, |samples|, now, window)|
    ensures missing == MissingCount(samples, |samples|, now, window) == |Missing(samples, |samples|, now, window)|
    ensures missing <= mature <= |samples|
  {
    mature, missing := 0, 0;
    for i := 0 to |samples|
      invariant mature == MatureCount(samples, i, now, window)
      invariant missing == MissingCount(samples, i, now, window)
      invariant missing <= mature <= i
    {
      var sample := samples[i];
      if sample.kind != DOCUMENT || sample.at < now - LOOKBACK_MS || now - sample.at <= window {
        continue;
      }
      mature := mature + 1;
      var has := ScanFollowup(samples, i, window);
      if !has {
        missing := missing + 1;
      }
    }
    CountsAreCardinalities(samples, |samples|, now, window);
  }

  method ScanFollowup(samples: seq<Sample>, i: nat, window: int) returns (has: bool)
    requires Sorted(samples) && i < |samples|
    ensures has == HasFollowup(samples, i, window)
  {
    for j := i + 1 to |samples|
      invariant forall k :: i < k < j ==> !(samples[k].kind == ASSET && samples[k].at - samples[i].at <= window)
    {
      if samples[j].at - samples[i].at > window {
        assert forall k :: j <= k < |samples| ==> samples[j].at <= samples[k].at;
        return false;
      }
      if samples[j].kind == ASSET {
        return true;
      }
    }
    return false;
  }

  /** One client's stored history is the last window of all it sent, as of when it was last seen. */
  ghost predicate ClientOk(stored: seq<Sample>, past: seq<Sample>, seen: int, clock: int) {
    && Sorted(past) && (forall i :: 0 <= i < |past| ==> past[i].at <= seen) && seen <= clock
    && stored == Window(past, seen)
  }

  ghost predicate AllOk(history: map<string, seq<Sample>>, all: map<string, seq<Sample>>, seen: map<string, int>,
                        clock: int) {
    && history.Keys == all.Keys == seen.Keys
    && forall f :: f in all ==> ClientOk(history[f], all[f], seen[f], clock)
  }

  class BotDetection {
    var requestHistory: map<string, seq<Sample>>
    /** Every sample that a client has ever produced. */
    ghost var all: map<string, seq<Sample>>
    ghost var clock: int
    /** When a client was last seen. */
    ghost var seen: map<string, int>

    ghost predicate Valid()
      reads this
    {
      AllOk(requestHistory, all, seen, clock)
    }

    constructor ()
      ensures Valid() && requestHistory == map[] && all == map[]
    {
      requestHistory, all, seen, clock := map[], map[], map[], 0;
    }

    ghost function Past(f: string): seq<Sample>
      reads this
    {
      if f in all then all[f] else []
    }

    /** Record a request: the stored history is then the last window of everything the client ever sent. */
    method TrackRequest(fingerprint: string, kind: RequestKind, now: int) returns (samples: seq<Sample>)
      requires Valid() && clock <= now
      modifies this
      ensures Valid() && clock == now
      ensures all == old(all)[fingerprint := old(Past(fingerprint)) + [Sample(now, kind)]]
      ensures samples == Window(old(Past(fingerprint)) + [Sample(now, kind)], now)
      ensures requestHistory == old(requestHistory)[fingerprint := samples]
      ensures Sorted(samples) && 1 <= |samples| <= MAX_SAMPLES && samples[|samples| - 1] == Sample(now, kind)
    {
      ghost var past := Past(fingerprint);
      ghost var before := if fingerprint in seen then seen[fingerprint] else now;
      assert Window([], now) == [];
      var sample := Sample(now, kind);
      samples := (if fingerprint in requestHistory then requestHistory[fingerprint] else []) + [sample];
      assert Sorted(past) && (forall i :: 0 <= i < |past| ==> past[i].at <= before) && before <= now;
      assert samples == Window(past, before) + [sample];
      WindowSorted(past, sample, before);
      hide Window, Sorted, ClientOk;
      samples := TrimRequestHistory(samples, now, RETENTION_MS, MAX_SAMPLES);
      TrimmedWindow(past, sample, before, now, samples);
      Tracked(requestHistory, all, seen, clock, fingerprint, past, samples, sample, now);
      requestHistory := requestHistory[fingerprint := samples];
      all := all[fingerprint := past + [sample]];
      seen := seen[fingerprint := now];
      clock := now;
    }
  }

  lemma TrimmedWindow(past: seq<Sample>, sample: Sample, before: int, now: int, trimmed: seq<Sample>)
    requires Sorted(past + [sample]) && before <= now == sample.at
    requires trimmed == LastN(Recent(Window(past, before) + [sample], now, RETENTION_MS), MAX_SAMPLES)
    ensures trimmed == Window(past + [sample], now)
    ensures trimmed != [] && trimmed[|trimmed| - 1] == sample
  {
    WindowOfWindow(past, sample, before, now);
    NewestStays(past, sample, now);
  }

  lemma Tracked(history: map<string, seq<Sample>>, all: map<string, seq<Sample>>, seen: map<string, int>, clock: int,
                f: string, past: seq<Sample>, samples: seq<Sample>, sample: Sample, now: int)
    requires AllOk(history, all, seen, clock) && clock <= now == sample.at
    requires Sorted(past + [sample]) && samples == Window(past + [sample], now)
    ensures AllOk(history[f := samples], all[f := past + [sample]], seen[f := now], now)
  {
    var longer := past + [sample];
    assert forall i :: 0 <= i < |past| ==> longer[i].at <= longer[|past|].at;
    hide Window, Sorted;
  }

  lemma WindowSorted(past: seq<Sample>, sample: Sample, now: int)
    requires Sorted(past) && forall i :: 0 <= i < |past| ==> past[i].at <= sample.at
    ensures Sorted(past + [sample]) && Sorted(Window(past, now) + [sample])
  {
    RecentSorted(past, sample, now);
    var r := Recent(past, now, RETENTION_MS);
    SuffixSorted(r, sample, if |r| <= MAX_SAMPLES then 0 else |r| - MAX_SAMPLES);
    assert r[0..] == r;
  }

  lemma SuffixSorted(samples: seq<Sample>, sample: Sample, k: nat)
    requires Sorted(samples + [sample]) && k <= |samples|
    ensures Sorted(samples[k..] + [sample])
  {
    assert samples[k..] + [sample] == (samples + [sample])[k..];
  }

  lemma NewestStays(past: seq<Sample>, sample: Sample, now: int)
    requires sample.at == now
    ensures var w := Window(past + [sample], now); w != [] && w[|w| - 1] == sample
  {
    RecentAppend(past, [sample], now, RETENTION_MS);
    assert Recent([sample], now, RETENTION_MS) == [sample] by { assert [sample][..0] == []; }
    var r := Recent(past + [sample], now, RETENTION_MS);
    assert r[|r| - 1] == sample;
    LastOfLastN(r, MAX_SAMPLES);
  }

  lemma LastOfLastN(samples: seq<Sample>, n: nat)
    requires samples != [] && 0 < n
    ensures LastN(samples, n) != [] && LastN(samples, n)[|LastN(samples, n)| - 1] == samples[|samples| - 1]
  {}
}
