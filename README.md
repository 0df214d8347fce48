# rssfetcher: the polling scheduler and the raw ingestion step

This project is a Dafny model of the core of `fetcher_supabase.py`. That script polls a list of RSS/Atom feeds, each on its own interval. Every due feed is fetched, and the fetched XML is stored as one row of a `raw_feeds` table. The feed's id comes from a `feeds` table, found by name or created on first use.

Two pieces are modelled, each in its own module:

- `Ingestion` (`ingestion.dfy`) models `fetch_and_store`. The store is a `Store` class with the `feeds` table (id, name, url), the append-only `raw_feeds` table and the id it assigns next. The HTTP GET is abstracted as a `FetchResult` (`Ok(body)` or `Err`). A `StoreFault` parameter names the store call that raises, if any. `Ingest` is the function that specifies the method. `FetchAndStore` performs the same steps in the same order as the source, with the store's insert methods.
- `Polling` (`scheduler.dfy`) models `main`. The `Scheduler` class holds the feed list and the `last_run` map. Its constructor builds the map with every url at 0. `DueFeeds` is the dispatch loop of one tick. `Wrap` is the `wrap` coroutine, including its `finally` stamp. `Tick` is one iteration of `while True`. `Poll` is a finite run of that loop. The clock is an abstract integer. What the world does during a tick is a `TickEnv`: the clock at the top of the loop, and for each feed its fetch outcome, its failing store call and its completion time. The functions `DueIndices`, `AfterRuns`, `Step` and `Replay` specify these methods. The lemmas about those functions state the scheduling properties.

Two reading choices decide the scheduler's meaning:

- The due test is made for every feed before any attempt runs, because the coroutines start only inside `gather`. So `Tick` first computes the whole due list, then runs the attempts.
- `gather` is modelled as running the attempts one after another, in feed-list order. Lemmas that depend on which write lands last assume the completions come in list order (`InOrder`, `Chronological`). Under that assumption the final entry of a url is the latest completion among its attempts. That is also what the concurrent program produces, since the last attempt to finish writes the latest time.

`last_run` is stamped in the `finally` block of `wrap` after the attempt completes (fetcher_supabase.py:50-51), not when the attempt is dispatched.

## Model

| member | source | states |
|---|---|---|
| Ingestion.FirstNamed | fetcher_supabase.py:20-22 | the select on `name` followed by `data[0]`: None exactly when no feeds row has that name; otherwise the index of the first row that has it |
| Ingestion.Ingest | fetcher_supabase.py:16-33 | a failed fetch or a failing select leaves both tables unchanged; both tables only grow (each old table is a prefix of the new one); at most one feeds row is added; exactly one raw row is added when the run reaches the raw insert and it succeeds, and none otherwise; distinct ids and unique names are preserved |
| Ingestion.IngestExistingFeed | fetcher_supabase.py:20-30 | when a feeds row with the name exists, no feeds row is added and the next id is unchanged; the raw row carries the first such row's id, the capture time and the fetched body, and is added whatever raw rows exist already (no deduplication) |
| Ingestion.IngestNewFeed | fetcher_supabase.py:20-30 | when no feeds row has the name, exactly one row (fresh id, name, url) is added and the raw row carries that fresh id; if that insert raises, nothing is written |
| Ingestion.IngestResolves | fetcher_supabase.py:20-30 | a clean ingestion appends exactly one raw row, carrying the body, the capture time and the id of the first feeds row with the name, whether that row was found or just created |
| Ingestion.FeedIdentityStable | fetcher_supabase.py:20-25 | after one clean ingestion of a name, any later ingestion of the same name adds no feeds row, even with a different url and even when other feeds were ingested in between (its store's feeds table extends the one the first left, as `Ingest`, `IngestAll` and `ReplayStore` guarantee), and tags its raw row with the same feed id |
| Ingestion.Store.InsertFeed | fetcher_supabase.py:24-25 | the feeds insert appends one row under a fresh id, different from every existing id, and returns that id; raw_feeds is unchanged |
| Ingestion.Store.InsertRaw | fetcher_supabase.py:26-30 | the raw insert appends exactly the given row; the feeds table and the next id are unchanged |
| Ingestion.FetchAndStore | fetcher_supabase.py:16-33 | always returns normally, so no exception escapes; the new store contents are `Ingest` of the old ones; `saved` says whether the "Raw XML saved" line is reached |
| Polling.InitialLastRun | fetcher_supabase.py:37 | the initial map has exactly the feed urls as keys, and every feed's entry is 0 |
| Polling.DueIndices | fetcher_supabase.py:43-44 | a feed position is in the list if and only if `now - last_run[url] >= interval` for that feed; the list is strictly increasing, so each due feed gets exactly one attempt |
| Polling.AfterRuns | fetcher_supabase.py:45-51 | the `finally` writes add no key when every url is already tracked |
| Polling.Step | fetcher_supabase.py:40-54 | one tick keeps the key set of `last_run` |
| Polling.Replay | fetcher_supabase.py:40-55 | a run of ticks keeps the key set of `last_run` |
| Polling.IngestAll | fetcher_supabase.py:43-54 | over one tick both tables only grow and ids stay distinct; the tick adds at least one raw row per attempt with a good fetch and no store fault, and at most one per attempt |
| Polling.CleanRunStored | fetcher_supabase.py:43-54 | every attempt of a tick with a good fetch and no store fault leaves its own raw row among the rows the tick adds, with its body, its completion time and the id of the first feeds row with its name, whatever the other attempts do |
| Polling.ReplayStore | fetcher_supabase.py:40-55 | over a run of ticks both tables only grow and ids stay distinct |
| Polling.AllDue | fetcher_supabase.py:43-44 | when every feed passes the due test, the attempts are exactly positions 0, 1, ..., n-1 in order |
| Polling.InitialAllDue | fetcher_supabase.py:37-44 | from the initial map, the first tick with `now >= interval` for every feed runs every feed, once, in list order |
| Polling.AfterRunsEntry | fetcher_supabase.py:43-52 | an url that no attempt of the tick carries keeps its entry; an url that some attempt carries ends up holding the completion time of one of those attempts |
| Polling.AfterRunsWritten | fetcher_supabase.py:50-51 | with completions in list order, every attempt's url ends the tick with an entry no earlier than that attempt's completion time, whether the attempt succeeded or failed |
| Polling.SharedUrlEntry | fetcher_supabase.py:44-51 | feeds that share an url share one entry: after feed i runs, feed j's entry, which its next due test reads, ends the tick no earlier than i's completion, even when j was not due |
| Polling.EntryKeptInWindow | fetcher_supabase.py:43-55 | across a tick that ends before the next tick starts, an entry between `lo` and the tick's start stays between `lo` and the next start |
| Polling.EntryAfterRun | fetcher_supabase.py:43-55 | after a feed runs, its entry lies between that run's completion and the next tick's start |
| Polling.CompletionHeld | fetcher_supabase.py:40-55 | after feed k runs in the first tick of a chronological run, its url's entry at the start of every later tick lies between that run's completion and the tick's start |
| Polling.AttemptsSpaced | fetcher_supabase.py:40-55 | two attempts of one feed never overlap: the later one starts after the earlier one completed, at least `interval` after that completion, and so at least `interval` after the earlier start |
| Polling.Scheduler.constructor | fetcher_supabase.py:36-37 | the scheduler starts with the given feed list and with `last_run` equal to `InitialLastRun` |
| Polling.Scheduler.DueFeeds | fetcher_supabase.py:42-52 | the dispatch loop returns exactly `DueIndices` of the current map and clock, and changes nothing |
| Polling.Scheduler.Wrap | fetcher_supabase.py:45-51 | one attempt applies `Ingest` to the store, then sets `last_run[url]` to the completion time whatever the outcome; nothing else changes |
| Polling.Scheduler.Tick | fetcher_supabase.py:40-54 | one loop iteration runs exactly the feeds that were due at its start; `last_run` becomes `Step` of the old map and the store becomes `IngestAll` of the old store |
| Polling.Scheduler.Poll | fetcher_supabase.py:40-55 | a finite run of the loop leaves `last_run` equal to `Replay` and the store equal to `ReplayStore` |

## Left out

- The aiohttp session, the GET with its 10-second timeout and `r.text()` (fetcher_supabase.py:18-19, 39) are network I/O. They appear only as a `FetchResult` per attempt.
- The Supabase client, the environment and dotenv setup, and the `.execute()` calls (fetcher_supabase.py:3-9, 20-30) are a foreign database library. They are replaced by the in-memory `Store`. Which call raises, if any, is a parameter. A feeds insert that returns an empty `data` list is not modelled.
- `load_feeds` (fetcher_supabase.py:11-14) reads a CSV file. The feed list is a constructor parameter instead. A non-numeric `interval_sec`, which makes `int(...)` raise, is not modelled.
- asyncio task creation, `gather` and `sleep(1)` (fetcher_supabase.py:42-55) are concurrency plumbing. A tick's attempts run one after another in list order. A completion order other than list order is not modelled. `Tick` itself does not require any order; the lemmas that depend on order assume it.
- Polling.AttemptsSpaced: the clock is an abstract integer. In the source, `now` is a float from `time.time()`, while the `finally` block stores `int(time.time())`. That truncation can make a feed due up to one second early, so with the real clock the spacing guarantee is `interval - 1` seconds, not `interval`. The model does not capture this.
- `select("id").eq("name", name)` (fetcher_supabase.py:20-22) has no `order`, so the database may return matching rows in any order. `FirstNamed` reads `data[0]` as the first matching row in insertion order. This matters only when two feeds rows share a name, and `Ingest` never creates such rows.
- The `fetched_at` timestamp (`datetime.utcnow().isoformat()`, fetcher_supabase.py:28) is modelled as the attempt's completion time on the same abstract clock.
- The `print` logging (fetcher_supabase.py:31, 33, 49) is output only. `FetchAndStore` returns `saved` to show which line would be printed. The `except` in `wrap` (fetcher_supabase.py:48-49) cannot fire, because `FetchAndStore` never raises.
- The `while True` loop never ends. `Poll` runs a finite prefix of it, given as a sequence of ticks.
- Structured entry parsing and per-link deduplication are not part of this script, which stores raw XML only.
