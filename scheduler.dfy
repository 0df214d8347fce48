/**
 * The polling loop of the RSS fetcher (`main`): a `last_run` map keyed by
 * feed url, a due test per feed on every tick, one attempt per due feed,
 * and the `finally` block that stamps `last_run[url]` with the attempt's
 * completion time.  The clock is an abstract integer; what the world does
 * during one tick (the clock reading at its start, each attempt's fetch
 * outcome, failing store call and completion time) is a `TickEnv`.
 */
module Polling {
  import opened Ingestion

  /** One row of the feed list: name, url and interval in seconds. */
  datatype Feed = Feed(name: string, url: string, interval: int)

  /**
   * The world during one tick, per feed position: the clock at the top of
   * the loop, and for each feed the fetch outcome, the store call that
   * raises and the time its attempt completes (used only for due feeds).
   */
  datatype TickEnv = TickEnv(now: int, fetched: seq<FetchResult>,
                             faults: seq<StoreFault>, finished: seq<int>)

  /** The environment gives one entry per configured feed. */
  predicate Covers(env: TickEnv, fs: seq<Feed>) {
    |env.fetched| == |fs| && |env.faults| == |fs| && |env.finished| == |fs|
  }

  /**
   * The clock does not run backwards within a tick: every attempt completes
   * no earlier than the tick started, and in feed-list order.
   */
  predicate InOrder(env: TickEnv) {
    && (forall k :: 0 <= k < |env.finished| ==> env.now <= env.finished[k])
    && (forall k, l :: 0 <= k <= l < |env.finished| ==> env.finished[k] <= env.finished[l])
  }

  /**
   * A run of ticks on a non-decreasing clock.  Because `gather` awaits every
   * attempt before the loop sleeps, each tick starts no earlier than every
   * completion of the tick before it.
   */
  ghost predicate Chronological(ticks: seq<TickEnv>) {
    && (forall i :: 0 <= i < |ticks| ==> InOrder(ticks[i]))
    && (forall i, j :: 0 <= i <= j < |ticks| ==> ticks[i].now <= ticks[j].now)
    && (forall i, k :: 0 <= i < |ticks| - 1 && 0 <= k < |ticks[i].finished| ==>
          ticks[i].finished[k] <= ticks[i + 1].now)
  }

  function Urls(fs: seq<Feed>): set<string> {
    set i | 0 <= i < |fs| :: fs[i].url
  }

  /** Every configured feed has an entry in the map. */
  predicate Tracks(fs: seq<Feed>, last: map<string, int>) {
    forall i :: 0 <= i < |fs| ==> fs[i].url in last
  }

  /** Every position in `tasks` names a feed. */
  predicate InRange(tasks: seq<nat>, n: nat) {
    forall p :: 0 <= p < |tasks| ==> tasks[p] < n
  }

  predicate Increasing(s: seq<nat>) {
    forall i, j :: 0 <= i < j < |s| ==> s[i] < s[j]
  }

  /** `{f[1]: 0 for f in feeds}`. */
  function InitialLastRun(fs: seq<Feed>): (m: map<string, int>)
    ensures m.Keys == Urls(fs) && Tracks(fs, m)
    ensures forall i :: 0 <= i < |fs| ==> m[fs[i].url] == 0
  {
    map u | u in Urls(fs) :: 0
  }

  /** The due test `now - last_run[url] >= interval`. */
  predicate Due(f: Feed, last: map<string, int>, now: int)
    requires f.url in last
  {
    now - last[f.url] >= f.interval
  }

  /**
   * The positions, in list order, of the feeds that get an attempt in a
   * tick starting at `now`: each due feed exactly once, and no other.
   */
  function DueIndices(fs: seq<Feed>, last: map<string, int>, now: int): (r: seq<nat>)
    requires Tracks(fs, last)
    ensures InRange(r, |fs|) && Increasing(r)
    ensures forall k: nat :: k in r <==> k < |fs| && Due(fs[k], last, now)
  {
    if |fs| == 0 then []
    else
      var n := |fs| - 1;
      var prefix := fs[..n];
      assert forall k :: 0 <= k < n ==> prefix[k] == fs[k];
      DueIndices(prefix, last, now) + (if Due(fs[n], last, now) then [n] else [])
  }

  /** The `finally` writes of the attempts `tasks`, made in that order. */
  function AfterRuns(fs: seq<Feed>, last: map<string, int>, tasks: seq<nat>,
                     finished: seq<int>): (r: map<string, int>)
    requires InRange(tasks, |fs|) && |finished| == |fs|
    ensures last.Keys <= r.Keys
    ensures Tracks(fs, last) ==> r.Keys == last.Keys
  {
    if |tasks| == 0 then last
    else
      var n := |tasks| - 1;
      AfterRuns(fs, last, tasks[..n], finished)[fs[tasks[n]].url := finished[tasks[n]]]
  }

  /** One tick: the due feeds run, and each stamps its url on completion. */
  function Step(fs: seq<Feed>, last: map<string, int>, env: TickEnv): (r: map<string, int>)
    requires Tracks(fs, last) && Covers(env, fs)
    ensures r.Keys == last.Keys
  {
    AfterRuns(fs, last, DueIndices(fs, last, env.now), env.finished)
  }

  /** `last_run` after the ticks `ticks`, in order. */
  function Replay(fs: seq<Feed>, last: map<string, int>, ticks: seq<TickEnv>): (r: map<string, int>)
    requires Tracks(fs, last)
    requires forall i :: 0 <= i < |ticks| ==> Covers(ticks[i], fs)
    ensures r.Keys == last.Keys
  {
    if |ticks| == 0 then last
    else
      var n := |ticks| - 1;
      Step(fs, Replay(fs, last, ticks[..n]), ticks[n])
  }

  /** Number of attempts in `tasks` whose fetch succeeds and whose store calls all succeed. */
  function CleanRuns(tasks: seq<nat>, env: TickEnv): nat
    requires InRange(tasks, |env.fetched|) && |env.faults| == |env.fetched|
  {
    if |tasks| == 0 then 0
    else
      var n := |tasks| - 1;
      var k := tasks[n];
      CleanRuns(tasks[..n], env) + (if env.fetched[k].Ok? && env.faults[k] == NoFault then 1 else 0)
  }

  /**
   * The store after the attempts `tasks` of one tick.  Tables only grow,
   * by at most one raw row per attempt; `CleanRunStored` says which rows.
   */
  function IngestAll(t: Tables, fs: seq<Feed>, tasks: seq<nat>, env: TickEnv): (r: Tables)
    requires Covers(env, fs) && InRange(tasks, |fs|)
    ensures t.feeds <= r.feeds && t.raw <= r.raw
    ensures TablesValid(t) ==> TablesValid(r)
    ensures |t.raw| + CleanRuns(tasks, env) <= |r.raw| <= |t.raw| + |tasks|
  {
    if |tasks| == 0 then t
    else
      var n := |tasks| - 1;
      var k := tasks[n];
      Ingest(IngestAll(t, fs, tasks[..n], env), fs[k].name, fs[k].url,
             env.fetched[k], env.faults[k], env.finished[k])
  }

  /** The store after the ticks `ticks`, starting from `last_run` = `last`. */
  function ReplayStore(fs: seq<Feed>, last: map<string, int>, t: Tables,
                       ticks: seq<TickEnv>): (r: Tables)
    requires Tracks(fs, last)
    requires forall i :: 0 <= i < |ticks| ==> Covers(ticks[i], fs)
    ensures t.feeds <= r.feeds && t.raw <= r.raw
    ensures TablesValid(t) ==> TablesValid(r)
  {
    if |ticks| == 0 then t
    else
      var n := |ticks| - 1;
      var before := Replay(fs, last, ticks[..n]);
      IngestAll(ReplayStore(fs, last, t, ticks[..n]), fs,
                DueIndices(fs, before, ticks[n].now), ticks[n])
  }

  /**
   * Among the raw rows of `r` from position `from` on there is one with
   * body `body` and capture time `at`, tagged with the id of the first
   * feeds row named `name`.
   */
  ghost predicate StoredSince(r: Tables, from: nat, name: string, at: int, body: string) {
    exists q, i :: from <= q < |r.raw| && IsFirstNamed(r.feeds, name, i) &&
                   r.raw[q] == RawRow(r.feeds[i].id, at, body)
  }

  /** A stored row stays stored, under the same id, when both tables grow by prefix. */
  lemma StoredKept(prev: Tables, r: Tables, from: nat, name: string, at: int, body: string)
    requires prev.feeds <= r.feeds && prev.raw <= r.raw
    requires StoredSince(prev, from, name, at, body)
    ensures StoredSince(r, from, name, at, body)
  {
    var q, i :| from <= q < |prev.raw| && IsFirstNamed(prev.feeds, name, i) &&
                prev.raw[q] == RawRow(prev.feeds[i].id, at, body);
    assert r.raw[q] == prev.raw[q] && r.feeds[i] == prev.feeds[i];
    assert IsFirstNamed(r.feeds, name, i);
  }

  /**
   * Cross-feed isolation: an attempt of the tick with a good fetch and no
   * store fault leaves its own raw row among the rows the tick adds, with
   * its body, its completion time and the id of the first feeds row named
   * after the feed, whatever the other attempts do.
   */
  lemma {:induction false} CleanRunStored(t: Tables, fs: seq<Feed>, tasks: seq<nat>, env: TickEnv, p: nat)
    requires Covers(env, fs) && InRange(tasks, |fs|) && p < |tasks|
    requires env.fetched[tasks[p]].Ok? && env.faults[tasks[p]] == NoFault
    ensures StoredSince(IngestAll(t, fs, tasks, env), |t.raw|, fs[tasks[p]].name,
                        env.finished[tasks[p]], env.fetched[tasks[p]].body)
  {
    var k := tasks[p];
    var n := |tasks| - 1;
    var prev := IngestAll(t, fs, tasks[..n], env);
    var r := IngestAll(t, fs, tasks, env);
    if p == n {
      IngestResolves(prev, fs[k].name, fs[k].url, env.fetched[k].body, env.finished[k]);
      var i :| IsFirstNamed(r.feeds, fs[k].name, i) &&
               r.raw == prev.raw + [RawRow(r.feeds[i].id, env.finished[k], env.fetched[k].body)];
      assert r.raw[|prev.raw|] == RawRow(r.feeds[i].id, env.finished[k], env.fetched[k].body);
    } else {
      assert tasks[..n][p] == k;
      CleanRunStored(t, fs, tasks[..n], env, p);
      StoredKept(prev, r, |t.raw|, fs[k].name, env.finished[k], env.fetched[k].body);
    }
  }

  /** Running one more attempt of `tasks` extends both folds by that attempt. */
  lemma RunsExtend(fs: seq<Feed>, last: map<string, int>, t: Tables, tasks: seq<nat>,
                   j: nat, env: TickEnv)
    requires Covers(env, fs) && InRange(tasks, |fs|) && j < |tasks|
    ensures AfterRuns(fs, last, tasks[..j + 1], env.finished) ==
            AfterRuns(fs, last, tasks[..j], env.finished)[fs[tasks[j]].url := env.finished[tasks[j]]]
    ensures IngestAll(t, fs, tasks[..j + 1], env) ==
            Ingest(IngestAll(t, fs, tasks[..j], env), fs[tasks[j]].name, fs[tasks[j]].url,
                   env.fetched[tasks[j]], env.faults[tasks[j]], env.finished[tasks[j]])
  {
    assert tasks[..j + 1][..j] == tasks[..j];
  }

  /** When every feed passes the due test, every feed gets an attempt, in list order. */
  lemma {:induction false} AllDue(fs: seq<Feed>, last: map<string, int>, now: int)
    requires Tracks(fs, last)
    requires forall i :: 0 <= i < |fs| ==> Due(fs[i], last, now)
    ensures |DueIndices(fs, last, now)| == |fs|
    ensures forall i :: 0 <= i < |fs| ==> DueIndices(fs, last, now)[i] == i
  {
    if |fs| > 0 {
      AllDue(fs[..|fs| - 1], last, now);
    }
  }

  /** Every entry starts at 0, so the first tick with `now >= interval` runs that feed. */
  lemma InitialAllDue(fs: seq<Feed>, now: int)
    requires forall i :: 0 <= i < |fs| ==> fs[i].interval <= now
    ensures |DueIndices(fs, InitialLastRun(fs), now)| == |fs|
    ensures forall i :: 0 <= i < |fs| ==> DueIndices(fs, InitialLastRun(fs), now)[i] == i
  {
    AllDue(fs, InitialLastRun(fs), now);
  }

  /**
   * Only the attempts write `last_run`: an url no attempt carries keeps its
   * entry, and an url some attempt carries ends up holding the completion
   * time of one of those attempts.
   */
  lemma {:induction false} AfterRunsEntry(fs: seq<Feed>, last: map<string, int>, tasks: seq<nat>,
                                          finished: seq<int>, u: string)
    requires InRange(tasks, |fs|) && |finished| == |fs|
    requires u in last
    ensures (forall p :: 0 <= p < |tasks| ==> fs[tasks[p]].url != u) ==>
              AfterRuns(fs, last, tasks, finished)[u] == last[u]
    ensures (exists p :: 0 <= p < |tasks| && fs[tasks[p]].url == u) ==>
              exists p :: 0 <= p < |tasks| && fs[tasks[p]].url == u &&
                          AfterRuns(fs, last, tasks, finished)[u] == finished[tasks[p]]
  {
    if |tasks| > 0 {
      var n := |tasks| - 1;
      var prefix := tasks[..n];
      AfterRunsEntry(fs, last, prefix, finished, u);
      if fs[tasks[n]].url != u {
        assert forall p :: 0 <= p < n ==> prefix[p] == tasks[p];
      }
    }
  }

  /**
   * With completions in list order, the entry of the url of attempt `k` is
   * no earlier than that attempt's completion: the last writer wins.
   */
  lemma {:induction false} AfterRunsWritten(fs: seq<Feed>, last: map<string, int>, tasks: seq<nat>,
                                            finished: seq<int>, k: nat)
    requires InRange(tasks, |fs|) && |finished| == |fs|
    requires Increasing(tasks)
    requires forall i, j :: 0 <= i <= j < |finished| ==> finished[i] <= finished[j]
    requires k in tasks && fs[k].url in last
    ensures AfterRuns(fs, last, tasks, finished)[fs[k].url] >= finished[k]
  {
    var n := |tasks| - 1;
    var p :| 0 <= p < |tasks| && tasks[p] == k;
    if fs[tasks[n]].url != fs[k].url {
      var prefix := tasks[..n];
      assert prefix[p] == k;
      AfterRunsWritten(fs, last, prefix, finished, k);
    }
  }

  /**
   * Feeds sharing an url share one entry: once feed `i` has run, the entry
   * that the due test of feed `j` reads is no earlier than `i`'s completion
   * (a later attempt on the same url may write last), whether or not `j`
   * itself was due.  This is `AfterRunsWritten` read through `fs[j].url ==
   * fs[i].url`.
   */
  lemma SharedUrlEntry(fs: seq<Feed>, last: map<string, int>, env: TickEnv, i: nat, j: nat)
    requires Tracks(fs, last) && Covers(env, fs) && InOrder(env)
    requires i < |fs| && j < |fs| && fs[i].url == fs[j].url
    requires Due(fs[i], last, env.now)
    ensures Step(fs, last, env)[fs[j].url] >= env.finished[i]
  {
    assert i in DueIndices(fs, last, env.now);
    AfterRunsWritten(fs, last, DueIndices(fs, last, env.now), env.finished, i);
  }

  /**
   * Across one tick that ends before `next`, an entry that lay between `lo`
   * and the tick's start lies between `lo` and `next` afterwards.
   */
  lemma EntryKeptInWindow(fs: seq<Feed>, last: map<string, int>, env: TickEnv,
                          u: string, lo: int, next: int)
    requires Tracks(fs, last) && Covers(env, fs) && InOrder(env)
    requires forall k :: 0 <= k < |env.finished| ==> env.finished[k] <= next
    requires env.now <= next
    requires u in last && lo <= last[u] <= env.now
    ensures lo <= Step(fs, last, env)[u] <= next
  {
    AfterRunsEntry(fs, last, DueIndices(fs, last, env.now), env.finished, u);
  }

  /**
   * In a tick that ends before `next`, the entry of a feed that ran lies
   * between that run's completion and `next` afterwards.
   */
  lemma EntryAfterRun(fs: seq<Feed>, last: map<string, int>, env: TickEnv, k: nat, next: int)
    requires Tracks(fs, last) && Covers(env, fs) && InOrder(env)
    requires forall l :: 0 <= l < |env.finished| ==> env.finished[l] <= next
    requires k < |fs| && Due(fs[k], last, env.now)
    ensures env.finished[k] <= Step(fs, last, env)[fs[k].url] <= next
  {
    var tasks := DueIndices(fs, last, env.now);
    assert k in tasks;
    AfterRunsWritten(fs, last, tasks, env.finished, k);
    AfterRunsEntry(fs, last, tasks, env.finished, fs[k].url);
  }

  /**
   * After feed `k` runs in the first tick of a chronological run, the entry
   * of its url at the start of every later tick lies between that run's
   * completion and the tick's start.
   */
  lemma {:induction false} CompletionHeld(fs: seq<Feed>, last: map<string, int>,
                                          ticks: seq<TickEnv>, k: nat, j: nat)
    requires Tracks(fs, last)
    requires forall i :: 0 <= i < |ticks| ==> Covers(ticks[i], fs)
    requires Chronological(ticks)
    requires 1 <= j < |ticks|
    requires k < |fs| && k < |ticks[0].finished| && Due(fs[k], last, ticks[0].now)
    ensures ticks[0].finished[k] <= Replay(fs, last, ticks[..j])[fs[k].url] <= ticks[j].now
  {
    var env := ticks[j - 1];
    assert Covers(env, fs) && InOrder(env) && env.now <= ticks[j].now;
    assert forall l :: 0 <= l < |env.finished| ==> env.finished[l] <= ticks[j].now;
    assert ticks[..j][..j - 1] == ticks[..j - 1];
    var before := Replay(fs, last, ticks[..j - 1]);
    assert Replay(fs, last, ticks[..j]) == Step(fs, before, env);
    if j == 1 {
      assert ticks[..0] == [];
      EntryAfterRun(fs, last, env, k, ticks[j].now);
    } else {
      CompletionHeld(fs, last, ticks, k, j - 1);
      EntryKeptInWindow(fs, before, env, fs[k].url, ticks[0].finished[k], ticks[j].now);
    }
  }

  /**
   * Two attempts of one feed, at the first tick of a chronological run and
   * at a later one, never overlap, and the later one starts at least
   * `interval` after the earlier one completed (so also after it started).
   */
  lemma AttemptsSpaced(fs: seq<Feed>, last: map<string, int>, ticks: seq<TickEnv>, k: nat, j: nat)
    requires Tracks(fs, last)
    requires forall i :: 0 <= i < |ticks| ==> Covers(ticks[i], fs)
    requires Chronological(ticks)
    requires 1 <= j < |ticks|
    requires k < |fs| && k < |ticks[0].finished| && Due(fs[k], last, ticks[0].now)
    requires Due(fs[k], Replay(fs, last, ticks[..j]), ticks[j].now)
    ensures ticks[0].finished[k] <= ticks[j].now
    ensures ticks[j].now - ticks[0].finished[k] >= fs[k].interval
    ensures ticks[j].now - ticks[0].now >= fs[k].interval
  {
    CompletionHeld(fs, last, ticks, k, j);
  }

  /** The scheduler of `main`: the feed list and the `last_run` map. */
  class Scheduler {
    const feeds: seq<Feed>
    var lastRun: map<string, int>

    ghost predicate Valid()
      reads this
    {
      lastRun.Keys == Urls(feeds) && Tracks(feeds, lastRun)
    }

    /** `last_run = {f[1]: 0 for f in feeds}`. */
    constructor (feeds: seq<Feed>)
      ensures Valid() && this.feeds == feeds
      ensures lastRun == InitialLastRun(feeds)
    {
      this.feeds := feeds;
      lastRun := InitialLastRun(feeds);
    }

    /** The dispatch loop of one tick: the due test for each feed in list order. */
    method DueFeeds(now: int) returns (tasks: seq<nat>)
      requires Valid()
      ensures tasks == DueIndices(feeds, lastRun, now)
    {
      tasks := [];
      var i := 0;
      while i < |feeds|
        invariant 0 <= i <= |feeds|
        invariant tasks == DueIndices(feeds[..i], lastRun, now)
      {
        var f := feeds[i];
        assert feeds[..i + 1][..i] == feeds[..i];
        if now - lastRun[f.url] >= f.interval {
          tasks := tasks + [i];
        }
        i := i + 1;
      }
      assert feeds[..i] == feeds;
    }

    /**
     * `wrap` for feed `k`: one attempt, then the `finally` stamp with the
     * completion time, whatever the attempt's outcome.
     */
    method Wrap(k: nat, env: TickEnv, db: Store)
      requires Valid() && db.Valid() && Covers(env, feeds) && k < |feeds|
      modifies this, db
      ensures Valid() && db.Valid()
      ensures lastRun == old(lastRun)[feeds[k].url := env.finished[k]]
      ensures db.Contents() == Ingest(old(db.Contents()), feeds[k].name, feeds[k].url,
                                      env.fetched[k], env.faults[k], env.finished[k])
    {
      var _ := FetchAndStore(db, feeds[k].name, feeds[k].url,
                             env.fetched[k], env.faults[k], env.finished[k]);
      lastRun := lastRun[feeds[k].url := env.finished[k]];
    }

    /**
     * One iteration of `while True`: pick the due feeds, then run each
     * attempt to completion (the `gather`), stamping its url in `finally`
     * whatever the outcome.
     */
    method Tick(env: TickEnv, db: Store) returns (tasks: seq<nat>)
      requires Valid() && db.Valid() && Covers(env, feeds)
      modifies this, db
      ensures Valid() && db.Valid()
      ensures tasks == DueIndices(feeds, old(lastRun), env.now)
      ensures lastRun == AfterRuns(feeds, old(lastRun), tasks, env.finished)
      ensures lastRun == Step(feeds, old(lastRun), env)
      ensures db.Contents() == IngestAll(old(db.Contents()), feeds, tasks, env)
    {
      tasks := DueFeeds(env.now);
      ghost var start := lastRun;
      ghost var t0 := db.Contents();
      var j := 0;
      while j < |tasks|
        invariant 0 <= j <= |tasks|
        invariant Valid() && db.Valid()
        invariant lastRun == AfterRuns(feeds, start, tasks[..j], env.finished)
        invariant db.Contents() == IngestAll(t0, feeds, tasks[..j], env)
      {
        var k := tasks[j];
        RunsExtend(feeds, start, t0, tasks, j, env);
        Wrap(k, env, db);
        j := j + 1;
      }
      assert tasks[..j] == tasks;
    }

    /** A finite run of the `while True` loop: one `Tick` per element of `ticks`. */
    method Poll(ticks: seq<TickEnv>, db: Store)
      requires Valid() && db.Valid()
      requires forall i :: 0 <= i < |ticks| ==> Covers(ticks[i], feeds)
      modifies this, db
      ensures Valid() && db.Valid()
      ensures lastRun == Replay(feeds, old(lastRun), ticks)
      ensures db.Contents() == ReplayStore(feeds, old(lastRun), old(db.Contents()), ticks)
    {
      var i := 0;
      while i < |ticks|
        invariant 0 <= i <= |ticks|
        invariant Valid() && db.Valid()
        invariant lastRun == Replay(feeds, old(lastRun), ticks[..i])
        invariant db.Contents() == ReplayStore(feeds, old(lastRun), old(db.Contents()), ticks[..i])
      {
        assert ticks[..i + 1][..i] == ticks[..i];
        var _ := Tick(ticks[i], db);
        i := i + 1;
      }
      assert ticks[..i] == ticks;
    }
  }
}
