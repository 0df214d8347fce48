/**
 * The per-feed ingestion step of the RSS fetcher (`fetch_and_store`):
 * fetch one feed, resolve its feed id by get-or-create on the name, and
 * append one raw capture row.  The HTTP GET is abstracted as a
 * `FetchResult`, and the Supabase tables as an in-memory `Store` holding a
 * `feeds` table (id, name, url) and an append-only `raw_feeds` table.
 */
module Ingestion {

  datatype Option<T> = None | Some(value: T)

  /** Outcome of `session.get(url)` and `r.text()`: the body, or any exception. */
  datatype FetchResult = Ok(body: string) | Err

  /**
   * Which store call raises during one ingestion, if any.  A fault names a
   * call; when the run never makes that call, the fault has no effect.
   */
  datatype StoreFault = NoFault | SelectFails | FeedInsertFails | RawInsertFails

  /** A row of the `feeds` table; `id` is assigned by the store. */
  datatype FeedRow = FeedRow(id: int, name: string, url: string)

  /** A row of the `raw_feeds` table. */
  datatype RawRow = RawRow(feedId: int, fetchedAt: int, rawXml: string)

  /** A snapshot of both tables and of the id the store assigns next. */
  datatype Tables = Tables(feeds: seq<FeedRow>, raw: seq<RawRow>, nextId: int)

  /** Store-assigned ids are distinct and all below `nextId`. */
  ghost predicate TablesValid(t: Tables) {
    && (forall i :: 0 <= i < |t.feeds| ==> t.feeds[i].id < t.nextId)
    && (forall i, j :: 0 <= i < j < |t.feeds| ==> t.feeds[i].id != t.feeds[j].id)
  }

  /** No two rows of the feeds table carry the same name. */
  ghost predicate UniqueNames(feeds: seq<FeedRow>) {
    forall i, j :: 0 <= i < j < |feeds| ==> feeds[i].name != feeds[j].name
  }

  /** Row `i` is the first row of `feeds` whose name is `name`. */
  ghost predicate IsFirstNamed(feeds: seq<FeedRow>, name: string, i: int) {
    && 0 <= i < |feeds|
    && feeds[i].name == name
    && forall j :: 0 <= j < i ==> feeds[j].name != name
  }

  /**
   * `select("id").eq("name", name)`, read as `data[0]`: the index of the
   * first row with that name, or None when the result is empty.
   */
  function FirstNamed(feeds: seq<FeedRow>, name: string): (r: Option<nat>)
    ensures r.None? <==> forall j :: 0 <= j < |feeds| ==> feeds[j].name != name
    ensures r.Some? ==> IsFirstNamed(feeds, name, r.value)
  {
    if |feeds| == 0 then None
    else if feeds[0].name == name then Some(0)
    else
      match FirstNamed(feeds[1..], name)
      case None => None
      case Some(i) => Some(i + 1)
  }

  /**
   * Whether an ingestion reaches the raw insert and the insert succeeds,
   * that is, whether the "Raw XML saved" line is printed.
   */
  function Saved(t: Tables, name: string, fetched: FetchResult, fault: StoreFault): bool {
    && fetched.Ok?
    && fault != SelectFails
    && fault != RawInsertFails
    && (fault == FeedInsertFails ==> FirstNamed(t.feeds, name).Some?)
  }

  /** The raw insert, unless it is the call that raises. */
  function InsertRawRow(t: Tables, feedId: int, at: int, xml: string, fault: StoreFault): Tables {
    if fault == RawInsertFails then t
    else t.(raw := t.raw + [RawRow(feedId, at, xml)])
  }

  /**
   * The effect of `fetch_and_store` on the tables, given the fetch outcome,
   * the failing store call (if any) and the capture time `at`.  Every
   * exception is swallowed: writes made before it stay, none after it.
   */
  function Ingest(t: Tables, name: string, url: string, fetched: FetchResult,
                  fault: StoreFault, at: int): (r: Tables)
    ensures fetched.Err? || fault == SelectFails ==> r == t
    ensures t.feeds <= r.feeds && t.raw <= r.raw
    ensures |r.feeds| <= |t.feeds| + 1
    ensures |r.raw| == |t.raw| + (if Saved(t, name, fetched, fault) then 1 else 0)
    ensures TablesValid(t) ==> TablesValid(r)
    ensures UniqueNames(t.feeds) ==> UniqueNames(r.feeds)
  {
    if fetched.Err? || fault == SelectFails then t
    else
      match FirstNamed(t.feeds, name)
      case Some(i) => InsertRawRow(t, t.feeds[i].id, at, fetched.body, fault)
      case None =>
        if fault == FeedInsertFails then t
        else
          var created := t.(feeds := t.feeds + [FeedRow(t.nextId, name, url)], nextId := t.nextId + 1);
          InsertRawRow(created, t.nextId, at, fetched.body, fault)
  }

  /** Get: a feed already named `name` lends its first id, and no feeds row is added. */
  lemma IngestExistingFeed(t: Tables, name: string, url: string, body: string,
                           fault: StoreFault, at: int, i: int)
    requires IsFirstNamed(t.feeds, name, i)
    requires fault != SelectFails
    ensures Ingest(t, name, url, Ok(body), fault, at).feeds == t.feeds
    ensures Ingest(t, name, url, Ok(body), fault, at).nextId == t.nextId
    ensures Ingest(t, name, url, Ok(body), fault, at).raw ==
            t.raw + (if fault == RawInsertFails then [] else [RawRow(t.feeds[i].id, at, body)])
  {
  }

  /** Create: with no feed named `name`, exactly one row (name, url) is added and its id used. */
  lemma IngestNewFeed(t: Tables, name: string, url: string, body: string,
                      fault: StoreFault, at: int)
    requires forall j :: 0 <= j < |t.feeds| ==> t.feeds[j].name != name
    requires fault != SelectFails
    ensures fault == FeedInsertFails ==> Ingest(t, name, url, Ok(body), fault, at) == t
    ensures fault != FeedInsertFails ==>
              && Ingest(t, name, url, Ok(body), fault, at).feeds == t.feeds + [FeedRow(t.nextId, name, url)]
              && Ingest(t, name, url, Ok(body), fault, at).raw ==
                 t.raw + (if fault == RawInsertFails then [] else [RawRow(t.nextId, at, body)])
  {
    assert FirstNamed(t.feeds, name).None?;
  }

  /**
   * A clean ingestion resolves the name to the first feeds row carrying it
   * (got or just created) and appends exactly one raw row tagged with that
   * row's id.
   */
  lemma IngestResolves(t: Tables, name: string, url: string, body: string, at: int)
    ensures var r := Ingest(t, name, url, Ok(body), NoFault, at);
            exists i :: IsFirstNamed(r.feeds, name, i) &&
                        r.raw == t.raw + [RawRow(r.feeds[i].id, at, body)]
  {
    var r := Ingest(t, name, url, Ok(body), NoFault, at);
    match FirstNamed(t.feeds, name)
    case Some(i) =>
      IngestExistingFeed(t, name, url, body, NoFault, at, i);
      assert IsFirstNamed(r.feeds, name, i);
    case None =>
      IngestNewFeed(t, name, url, body, NoFault, at);
      assert IsFirstNamed(r.feeds, name, |t.feeds|);
  }

  /**
   * Repeated cycles of one feed name resolve to one id: once a clean
   * ingestion from `t0` has got or created the feed row, an ingestion under
   * that name from any later store `t` (whose feeds table extends the one
   * it left, whatever other feeds were ingested in between) adds no feeds
   * row, whatever url it carries, and tags its raw row with the same id.
   */
  lemma {:induction false} FeedIdentityStable(t0: Tables, t: Tables, name: string, url1: string,
                                              url2: string, body1: string, body2: string,
                                              fault2: StoreFault, at1: int, at2: int)
    requires Ingest(t0, name, url1, Ok(body1), NoFault, at1).feeds <= t.feeds
    ensures var t1 := Ingest(t0, name, url1, Ok(body1), NoFault, at1);
            var t2 := Ingest(t, name, url2, Ok(body2), fault2, at2);
            && t2.feeds == t.feeds
            && (Saved(t, name, Ok(body2), fault2) ==>
                  t2.raw[|t2.raw| - 1].feedId == t1.raw[|t1.raw| - 1].feedId)
  {
    var t1 := Ingest(t0, name, url1, Ok(body1), NoFault, at1);
    IngestResolves(t0, name, url1, body1, at1);
    var i :| IsFirstNamed(t1.feeds, name, i) && t1.raw == t0.raw + [RawRow(t1.feeds[i].id, at1, body1)];
    assert IsFirstNamed(t.feeds, name, i);
    if fault2 != SelectFails {
      IngestExistingFeed(t, name, url2, body2, fault2, at2, i);
    }
  }

  /** The store: the `feeds` and `raw_feeds` tables, updated in place by inserts. */
  class Store {
    var feeds: seq<FeedRow>
    var raw: seq<RawRow>
    var nextId: int

    function Contents(): Tables
      reads this
    {
      Tables(feeds, raw, nextId)
    }

    ghost predicate Valid()
      reads this
    {
      TablesValid(Contents())
    }

    constructor ()
      ensures Valid() && feeds == [] && raw == []
    {
      feeds, raw, nextId := [], [], 1;
    }

    /** `table("feeds").insert({name, url})`: one new row under a fresh id. */
    method InsertFeed(name: string, url: string) returns (id: int)
      requires Valid()
      modifies this
      ensures Valid()
      ensures id == old(nextId) && nextId == old(nextId) + 1
      ensures forall i :: 0 <= i < |old(feeds)| ==> old(feeds)[i].id != id
      ensures feeds == old(feeds) + [FeedRow(id, name, url)] && raw == old(raw)
    {
      id := nextId;
      feeds := feeds + [FeedRow(id, name, url)];
      nextId := nextId + 1;
    }

    /** `table("raw_feeds").insert(...)`: appended, never deduplicated. */
    method InsertRaw(feedId: int, at: int, xml: string)
      modifies this
      ensures raw == old(raw) + [RawRow(feedId, at, xml)]
      ensures feeds == old(feeds) && nextId == old(nextId)
    {
      raw := raw + [RawRow(feedId, at, xml)];
    }
  }

  /**
   * `fetch_and_store`: returns normally on every input (exceptions are
   * caught at its boundary); `saved` tells which log line is printed.
   */
  method FetchAndStore(db: Store, name: string, url: string, fetched: FetchResult,
                       fault: StoreFault, at: int) returns (saved: bool)
    requires db.Valid()
    modifies db
    ensures db.Valid()
    ensures db.Contents() == Ingest(old(db.Contents()), name, url, fetched, fault, at)
    ensures saved == Saved(old(db.Contents()), name, fetched, fault)
  {
    if fetched.Err? || fault == SelectFails {
      return false;
    }
    var feedId: int;
    var found := FirstNamed(db.feeds, name);
    if found.Some? {
      feedId := db.feeds[found.value].id;
    } else {
      if fault == FeedInsertFails {
        return false;
      }
      feedId := db.InsertFeed(name, url);
    }
    if fault == RawInsertFails {
      return false;
    }
    db.InsertRaw(feedId, at, fetched.body);
    saved := true;
  }
}
