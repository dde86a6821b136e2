/**
 The reference-counted prompt store (`anthrouter/db.py`): request rows name prompts by their
 hash, triggers keep a count beside each prompt, and retention deletes old rows in chunks
 before it drops the prompts whose count says that nobody names them.
 */
module PromptStore {
  import opened Common

  // ---- Tables ----------------------------------------------------------------

  /** The columns of a request row that matter here: when it was written and what it names. */
  datatype Row = Row(
    ts: int,
    systemPrompt: Option<string>, sanitized: Option<string>, caveman: Option<string>,
    openingSystem: Option<string>, openingDispatched: Option<string>, tools: Option<string>)

  datatype Entry = Entry(contentType: string, content: string, refCount: int)

  /** One item of `prompt_store_entries`. */
  datatype Capture = Capture(hash: string, contentType: string, content: string)

  datatype Db = Db(rows: map<int, Row>, store: map<string, Entry>)

  const CONTENT_TYPES := {"system", "system_sanitized", "tools"}
  const RETENTION_CHUNK: nat := 1000

  function Present(hash: Option<string>): set<string> {
    if hash.Some? then {hash.value} else {}
  }

  /** `SELECT … UNION SELECT …`: the distinct non-null hashes of a row. */
  function Hashes(row: Row): set<string> {
    Present(row.systemPrompt) + Present(row.sanitized) + Present(row.caveman)
    + Present(row.openingSystem) + Present(row.openingDispatched) + Present(row.tools)
  }

  // ---- Statements and triggers -----------------------------------------------

  /** `INSERT OR IGNORE`: a stored hash, or a type the table's check refuses, is passed over. */
  function StoreOne(store: map<string, Entry>, c: Capture): map<string, Entry> {
    if c.hash in store || c.contentType !in CONTENT_TYPES then store
    else store[c.hash := Entry(c.contentType, c.content, 0)]
  }

  function StoreAll(store: map<string, Entry>, captures: seq<Capture>): map<string, Entry> {
    if captures == [] then store
    else StoreOne(StoreAll(store, captures[..|captures| - 1]), captures[|captures| - 1])
  }

  function Bumped(store: map<string, Entry>, hashes: set<string>, delta: int): map<string, Entry> {
    map h | h in store :: if h in hashes then store[h].(refCount := store[h].refCount + delta) else store[h]
  }

  function InsertRow(db: Db, id: int, row: Row): Db {
    Db(db.rows[id := row], Bumped(db.store, Hashes(row), 1))
  }

  function DeleteRow(db: Db, id: int): Db {
    if id in db.rows then Db(db.rows - {id}, Bumped(db.store, Hashes(db.rows[id]), -1)) else db
  }

  function Record(db: Db, id: int, row: Row, captures: seq<Capture>): Db {
    InsertRow(Db(db.rows, StoreAll(db.store, captures)), id, row)
  }

  function Pruned(db: Db): Db {
    Db(db.rows, map h | h in db.store && db.store[h].refCount > 0 :: db.store[h])
  }

  /** The rows that name a hash: each once, however many of its columns do. */
  function Referrers(rows: map<int, Row>, hash: string): set<int> {
    set id | id in rows && hash in Hashes(rows[id])
  }

  /** Deleting rows one after another. */
  function DeleteAll(db: Db, ids: seq<int>): Db {
    if ids == [] then db else DeleteRow(DeleteAll(db, ids[..|ids| - 1]), ids[|ids| - 1])
  }

  function Expired(rows: map<int, Row>, cutoff: int): set<int> {
    set id | id in rows && rows[id].ts < cutoff
  }

  /** How many rows so many full chunks hold. */
  function FullChunks(passes: nat): nat {
    if passes == 0 then 0 else FullChunks(passes - 1) + RETENTION_CHUNK
  }

  /** The rows that had expired at one of the first passes. */
  function OnceExpired(rows: map<int, Row>, cutoffs: nat -> int, passes: nat): set<int> {
    if passes == 0 then {} else OnceExpired(rows, cutoffs, passes - 1) + Expired(rows, cutoffs(passes - 1))
  }

  /** Every column that holds a hash counts. */
  lemma HashesMean(row: Row, hash: string)
    ensures hash in Hashes(row) <==>
              Some(hash) in {row.systemPrompt, row.sanitized, row.caveman,
                             row.openingSystem, row.openingDispatched, row.tools}
  {
  }

  /** A capture that the table takes under `hash`. */
  predicate IsTaken(c: Capture, hash: string) {
    c.hash == hash && c.contentType in {"system", "system_sanitized", "tools"}
  }

  /** What is stored under a hash: what was there, else the first capture that is taken, counted by no row yet. */
  lemma {:induction false} FirstCaptureIsStored(store: map<string, Entry>, captures: seq<Capture>, hash: string)
    ensures var after := StoreAll(store, captures);
            && (hash in after <==> hash in store || exists i :: 0 <= i < |captures| && IsTaken(captures[i], hash))
            && (hash in store ==> after[hash] == store[hash])
            && (hash in after && hash !in store ==>
                  exists i :: 0 <= i < |captures| && IsTaken(captures[i], hash)
                              && after[hash] == Entry(captures[i].contentType, captures[i].content, 0)
                              && forall j :: 0 <= j < i ==> !IsTaken(captures[j], hash))
  {
    if captures != [] {
      var init, last := captures[..|captures| - 1], captures[|captures| - 1];
      FirstCaptureIsStored(store, init, hash);
      assert captures == init + [last];
      if hash in StoreAll(store, init) && hash !in store {
        var i :| 0 <= i < |init| && IsTaken(init[i], hash)
                 && StoreAll(store, init)[hash] == Entry(init[i].contentType, init[i].content, 0)
                 && forall j :: 0 <= j < i ==> !IsTaken(init[j], hash);
        assert captures[i] == init[i];
      } else if IsTaken(last, hash) {
        assert captures[|init|] == last;
      }
    }
  }

  lemma DeleteOneMore(db: Db, ids: seq<int>, id: int)
    ensures DeleteAll(db, ids + [id]) == DeleteRow(DeleteAll(db, ids), id)
  {
    assert (ids + [id])[..|ids|] == ids;
  }

  lemma {:induction false} DeleteInTwoSteps(db: Db, a: seq<int>, b: seq<int>)
    ensures DeleteAll(db, a + b) == DeleteAll(DeleteAll(db, a), b)
  {
    if b == [] {
      assert a + b == a;
    } else {
      DeleteInTwoSteps(db, a, b[..|b| - 1]);
      assert (a + b)[..|a + b| - 1] == a + b[..|b| - 1];
    }
  }

  lemma RowsMinus(rows: map<int, Row>, a: set<int>, b: set<int>)
    ensures rows - a - b == rows - (a + b)
  {
  }

  lemma {:induction false} RowsLeft(db: Db, ids: seq<int>)
    ensures DeleteAll(db, ids).rows == db.rows - Elements(ids)
  {
    if ids == [] {
      assert db.rows - {} == db.rows;
    } else {
      var init, id := ids[..|ids| - 1], ids[|ids| - 1];
      RowsLeft(db, init);
      ElementsConcat(init, [id]);
      assert ids == init + [id] && Elements([id]) == {id};
      RowsMinus(db.rows, Elements(init), {id});
      RowGone(DeleteAll(db, init), id);
    }
  }

  lemma RowGone(db: Db, id: int)
    ensures DeleteRow(db, id).rows == db.rows - {id}
  {
  }

  class RequestDB {
    var rows: map<int, Row>
    var store: map<string, Entry>

    ghost function Contents(): Db
      reads this
    {
      Db(rows, store)
    }

    constructor ()
      ensures Contents() == Db(map[], map[])
    {
      rows, store := map[], map[];
    }

    /** `record_request`; `id` is the unused rowid that SQLite picks. */
    method RecordRequest(id: int, row: Row, captures: seq<Capture>)
      requires id !in rows
      modifies this
      ensures Contents() == Record(old(Contents()), id, row, captures)
    {
      for i := 0 to |captures|
        invariant rows == old(rows) && store == StoreAll(old(store), captures[..i])
      {
        assert captures[..i + 1][..i] == captures[..i];
        var c := captures[i];
        if c.hash !in store && c.contentType in CONTENT_TYPES {
          store := store[c.hash := Entry(c.contentType, c.content, 0)];
        }
      }
      assert captures[..|captures|] == captures;
      rows := rows[id := row];
      store := Bumped(store, Hashes(row), 1);
    }

    /** One chunk: the delete trigger fires once per row. */
    method DeleteChunk(ids: set<int>) returns (ghost order: seq<int>)
      requires ids <= rows.Keys
      modifies this
      ensures Contents() == DeleteAll(old(Contents()), order)
      ensures Elements(order) == ids && |order| == |ids|
    {
      order := [];
      var todo := ids;
      while todo != {}
        invariant todo <= ids && todo <= rows.Keys
        invariant Elements(order) == ids - todo
        invariant |order| + |todo| == |ids|
        invariant Contents() == DeleteAll(old(Contents()), order)
        decreases |todo|
      {
        var id := Pick(todo);
        DeleteOneMore(old(Contents()), order, id);
        OneFewer(ids, todo, order, id);
        DeleteOne(id);
        order, todo := order + [id], todo - {id};
      }
    }

    method DeleteOne(id: int)
      requires id in rows
      modifies this
      ensures Contents() == DeleteRow(old(Contents()), id) && rows == old(rows) - {id}
    {
      store := Bumped(store, Hashes(rows[id]), -1);
      rows := rows - {id};
    }

    /** `DELETE … WHERE id IN (SELECT … LIMIT ?)`: any chunk of the expired rows. */
    method ExpireChunk(cutoff: int) returns (deleted: nat, ghost order: seq<int>)
      modifies this
      ensures Contents() == DeleteAll(old(Contents()), order) && deleted == |order| <= RETENTION_CHUNK
      ensures rows == old(rows) - Elements(order) && |rows| == |old(rows)| - deleted
      ensures Elements(order) <= Expired(old(rows), cutoff)
      ensures deleted < RETENTION_CHUNK ==> Expired(rows, cutoff) == {}
    {
      var expired := Expired(rows, cutoff);
      var limit := if |expired| < RETENTION_CHUNK then |expired| else RETENTION_CHUNK;
      SubsetOfSize(expired, limit);
      var chunk :| chunk <= expired && |chunk| == limit;
      order := DeleteChunk(chunk);
      RowsLeft(old(Contents()), order);
      deleted := limit;
      ChunkSize(old(rows), rows, chunk);
      if limit < RETENTION_CHUNK {
        AllExpired(expired, chunk);
      }
    }

    /**
     `run_retention`: chunks of expired rows, against a cutoff that moves with the clock, until
     a chunk comes up short; then the prompts that no longer count.
     */
    method RunRetention(cutoffs: nat -> int) returns (total: nat, passes: nat, ghost order: seq<int>)
      modifies this
      ensures Contents() == Pruned(DeleteAll(old(Contents()), order))
      ensures total == |order| && passes > 0 && FullChunks(passes - 1) <= total < FullChunks(passes)
      ensures Elements(order) <= OnceExpired(old(rows), cutoffs, passes)
      ensures Expired(rows, cutoffs(passes - 1)) == {}
    {
      total, passes, order := ExpireAll(cutoffs);
      store := map h | h in store && store[h].refCount > 0 :: store[h];
    }

    /** One pass of the loop, behind the rows that earlier passes deleted. */
    method ExpirePass(cutoffs: nat -> int, passes: nat, ghost was: Db, ghost order: seq<int>)
      returns (deleted: nat, ghost after: seq<int>)
      requires Contents() == DeleteAll(was, order) && Elements(order) <= OnceExpired(was.rows, cutoffs, passes)
      modifies this
      ensures Contents() == DeleteAll(was, after) && |after| == |order| + deleted
      ensures Elements(after) <= OnceExpired(was.rows, cutoffs, passes + 1)
      ensures deleted <= RETENTION_CHUNK && |rows| == |old(rows)| - deleted
      ensures deleted < RETENTION_CHUNK ==> Expired(rows, cutoffs(passes)) == {}
    {
      ghost var more;
      deleted, more := ExpireChunk(cutoffs(passes));
      DeleteInTwoSteps(was, order, more);
      MoreExpired(was, order, more, cutoffs, passes);
      after := order + more;
    }

    method ExpireAll(cutoffs: nat -> int) returns (total: nat, passes: nat, ghost order: seq<int>)
      modifies this
      ensures Contents() == DeleteAll(old(Contents()), order)
      ensures total == |order| && passes > 0 && FullChunks(passes - 1) <= total < FullChunks(passes)
      ensures Elements(order) <= OnceExpired(old(rows), cutoffs, passes)
      ensures Expired(rows, cutoffs(passes - 1)) == {}
    {
      total, passes, order := 0, 0, [];
      ghost var was := Contents();
      while true
        invariant Contents() == DeleteAll(was, order)
        invariant total == |order| == FullChunks(passes)
        invariant Elements(order) <= OnceExpired(was.rows, cutoffs, passes)
        decreases |rows|
      {
        var deleted;
        deleted, order := ExpirePass(cutoffs, passes, was, order);
        total, passes := total + deleted, passes + 1;
        if deleted < RETENTION_CHUNK {
          break;
        }
      }
    }
  }

  lemma StillExpired(rows: map<int, Row>, gone: set<int>, cutoff: int)
    ensures Expired(rows - gone, cutoff) <= Expired(rows, cutoff)
  {
  }

  lemma OneFewer(ids: set<int>, todo: set<int>, order: seq<int>, id: int)
    requires id in todo && todo <= ids && Elements(order) == ids - todo
    ensures Elements(order + [id]) == ids - (todo - {id}) && |todo - {id}| == |todo| - 1
  {
    ElementsConcat(order, [id]);
    assert Elements([id]) == {id};
  }

  lemma MoreExpired(db: Db, order: seq<int>, more: seq<int>, cutoffs: nat -> int, passes: nat)
    requires Elements(order) <= OnceExpired(db.rows, cutoffs, passes)
    requires Elements(more) <= Expired(DeleteAll(db, order).rows, cutoffs(passes))
    ensures Elements(order + more) <= OnceExpired(db.rows, cutoffs, passes + 1)
  {
    RowsLeft(db, order);
    ElementsConcat(order, more);
    StillExpired(db.rows, Elements(order), cutoffs(passes));
  }

  lemma ChunkSize(was: map<int, Row>, now: map<int, Row>, chunk: set<int>)
    requires now == was - chunk && chunk <= was.Keys
    ensures |was| - |now| == |chunk|
  {
    assert was.Keys == now.Keys + chunk && now.Keys !! chunk;
  }

  lemma AllExpired(expired: set<int>, chunk: set<int>)
    requires chunk <= expired && |chunk| >= |expired|
    ensures chunk == expired
  {
    assert expired == chunk + (expired - chunk);
  }
}
