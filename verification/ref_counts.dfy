/**
 Reference counts over whole runs of the prompt store (`anthrouter/db.py`): when the count
 beside a prompt is the number of rows that name it, and what retention may then drop.
 */
module RefCounts {
  import opened Common
  import opened PromptStore

  /** Every stored count is the number of rows that name the prompt. */
  ghost predicate Exact(db: Db) {
    forall h :: h in db.store ==> db.store[h].refCount == |Referrers(db.rows, h)|
  }

  /** Every hash that a row names is stored. */
  ghost predicate Served(db: Db) {
    forall id :: id in db.rows ==> Hashes(db.rows[id]) <= db.store.Keys
  }

  ghost predicate Consistent(db: Db) {
    Exact(db) && Served(db)
  }

  // ---- One statement at a time -----------------------------------------------

  lemma ReferrersGrow(rows: map<int, Row>, id: int, row: Row, h: string)
    requires id !in rows
    ensures |Referrers(rows[id := row], h)| == |Referrers(rows, h)| + if h in Hashes(row) then 1 else 0
  {
    assert Referrers(rows[id := row], h) == Referrers(rows, h) + if h in Hashes(row) then {id} else {};
  }

  lemma ReferrersShrink(rows: map<int, Row>, id: int, h: string)
    requires id in rows
    ensures |Referrers(rows - {id}, h)| == |Referrers(rows, h)| - if h in Hashes(rows[id]) then 1 else 0
  {
    assert Referrers(rows - {id}, h) == Referrers(rows, h) - {id};
    assert id in Referrers(rows, h) <==> h in Hashes(rows[id]);
  }

  /** Storing keeps what is stored, and a prompt starts with a count of zero. */
  lemma {:induction false} StoreAllKeeps(store: map<string, Entry>, captures: seq<Capture>, h: string)
    ensures h in store ==> h in StoreAll(store, captures) && StoreAll(store, captures)[h] == store[h]
    ensures h !in store && h in StoreAll(store, captures) ==> StoreAll(store, captures)[h].refCount == 0
  {
    if captures != [] {
      StoreAllKeeps(store, captures[..|captures| - 1], h);
    }
  }

  lemma UnservedNobodyNames(db: Db, h: string)
    requires Served(db) && h !in db.store
    ensures Referrers(db.rows, h) == {}
  {
    forall id | id in db.rows ensures h !in Hashes(db.rows[id]) {
      assert Hashes(db.rows[id]) <= db.store.Keys;
    }
  }

  lemma StoringKeepsConsistent(db: Db, captures: seq<Capture>)
    requires Consistent(db)
    ensures Consistent(Db(db.rows, StoreAll(db.store, captures)))
  {
    var store := StoreAll(db.store, captures);
    forall h | h in store ensures store[h].refCount == |Referrers(db.rows, h)| {
      StoreAllKeeps(db.store, captures, h);
      if h !in db.store {
        UnservedNobodyNames(db, h);
      }
    }
    forall h | h in db.store ensures h in store {
      StoreAllKeeps(db.store, captures, h);
    }
  }

  lemma InsertKeepsExact(db: Db, id: int, row: Row)
    requires Exact(db) && id !in db.rows
    ensures Exact(InsertRow(db, id, row))
  {
    forall h | h in db.store ensures InsertRow(db, id, row).store[h].refCount == |Referrers(db.rows[id := row], h)| {
      ReferrersGrow(db.rows, id, row, h);
    }
  }

  /**
   Recording a request keeps the counts right and every prompt served if and only if each hash
   of the row is among its entries or already stored.
   */
  lemma RecordKeepsConsistent(db: Db, id: int, row: Row, captures: seq<Capture>)
    requires Consistent(db) && id !in db.rows
    ensures Consistent(Record(db, id, row, captures)) <==> Hashes(row) <= StoreAll(db.store, captures).Keys
  {
    var stored := Db(db.rows, StoreAll(db.store, captures));
    StoringKeepsConsistent(db, captures);
    InsertKeepsExact(stored, id, row);
    var after := InsertRow(stored, id, row);
    assert after.store.Keys == stored.store.Keys;
    assert after.rows[id] == row;
  }

  /** Deleting a row keeps both, and leaves every prompt's text alone. */
  lemma DeleteKeepsConsistent(db: Db, id: int)
    requires Consistent(db)
    ensures Consistent(DeleteRow(db, id))
    ensures DeleteRow(db, id).store.Keys == db.store.Keys
  {
    if id in db.rows {
      forall h | h in db.store
        ensures DeleteRow(db, id).store[h].refCount == |Referrers(db.rows - {id}, h)|
      {
        ReferrersShrink(db.rows, id, h);
      }
    }
  }

  lemma {:induction false} DeleteAllKeepsConsistent(db: Db, ids: seq<int>)
    requires Consistent(db)
    ensures Consistent(DeleteAll(db, ids)) && DeleteAll(db, ids).store.Keys == db.store.Keys
  {
    if ids != [] {
      DeleteAllKeepsConsistent(db, ids[..|ids| - 1]);
      DeleteKeepsConsistent(DeleteAll(db, ids[..|ids| - 1]), ids[|ids| - 1]);
    }
  }

  /** Pruning drops exactly the prompts that no live row names. */
  lemma PruneDropsExactlyTheUnnamed(db: Db)
    requires Consistent(db)
    ensures Consistent(Pruned(db))
    ensures forall h :: h in Pruned(db).store <==> h in db.store && Referrers(db.rows, h) != {}
  {
    forall h | h in db.store ensures db.store[h].refCount > 0 <==> Referrers(db.rows, h) != {} {
      assert db.store[h].refCount == |Referrers(db.rows, h)|;
    }
    forall id | id in db.rows ensures Hashes(db.rows[id]) <= Pruned(db).store.Keys {
      forall h | h in Hashes(db.rows[id]) ensures h in Pruned(db).store {
        assert id in Referrers(db.rows, h);
      }
    }
  }

  // ---- Retention -------------------------------------------------------------

  ghost predicate Advancing(cutoffs: nat -> int) {
    forall i: nat, j: nat :: i <= j ==> cutoffs(i) <= cutoffs(j)
  }

  lemma {:induction false} OnceExpiredIsExpired(rows: map<int, Row>, cutoffs: nat -> int, passes: nat, last: nat)
    requires Advancing(cutoffs) && passes <= last + 1
    ensures OnceExpired(rows, cutoffs, passes) <= Expired(rows, cutoffs(last))
  {
    if passes > 0 {
      OnceExpiredIsExpired(rows, cutoffs, passes - 1, last);
      assert cutoffs(passes - 1) <= cutoffs(last);
    }
  }

  lemma ExactlyTheExpired(rows: map<int, Row>, gone: set<int>, cutoff: int)
    requires gone <= Expired(rows, cutoff) && Expired(rows - gone, cutoff) == {}
    ensures gone == Expired(rows, cutoff)
  {
    forall id | id in Expired(rows, cutoff) && id !in gone ensures id in Expired(rows - gone, cutoff) {
    }
    assert Expired(rows, cutoff) - gone == {};
  }

  lemma {:induction false} DeleteAllKeepsText(db: Db, ids: seq<int>, h: string)
    requires h in db.store
    ensures h in DeleteAll(db, ids).store && DeleteAll(db, ids).store[h].content == db.store[h].content
  {
    if ids != [] {
      DeleteAllKeepsText(db, ids[..|ids| - 1], h);
    }
  }

  /**
   What `RunRetention` leaves, from what its contract says: with a clock that does not run
   backwards the rows deleted are exactly those expired at its last chunk, and a prompt
   survives, with its text, exactly when a surviving row names it.
   */
  lemma RetentionIsExact(was: Db, now: Db, cutoffs: nat -> int, passes: nat, order: seq<int>, h: string)
    requires Consistent(was) && Advancing(cutoffs) && passes > 0
    requires now == Pruned(DeleteAll(was, order))
    requires Elements(order) <= OnceExpired(was.rows, cutoffs, passes)
    requires Expired(now.rows, cutoffs(passes - 1)) == {}
    ensures Consistent(now)
    ensures forall id :: id in now.rows <==> id in was.rows && was.rows[id].ts >= cutoffs(passes - 1)
    ensures forall id :: id in now.rows ==> now.rows[id] == was.rows[id]
    ensures h in now.store <==> h in was.store && Referrers(now.rows, h) != {}
    ensures h in now.store ==> now.store[h].content == was.store[h].content
  {
    RowsLeft(was, order);
    OnceExpiredIsExpired(was.rows, cutoffs, passes, passes - 1);
    ExactlyTheExpired(was.rows, Elements(order), cutoffs(passes - 1));
    DeleteAllKeepsConsistent(was, order);
    PruneDropsExactlyTheUnnamed(DeleteAll(was, order));
    if h in was.store {
      DeleteAllKeepsText(was, order, h);
    }
  }

  // ---- Runs ------------------------------------------------------------------

  /** One transaction: an insert, a row deleted by some chunk, or the final prune of a pass. */
  datatype Op = Insert(id: int, row: Row, captures: seq<Capture>) | Delete(id: int) | Prune

  function Apply(db: Db, op: Op): Db {
    match op
    case Insert(id, row, captures) => if id in db.rows then db else Record(db, id, row, captures)
    case Delete(id) => DeleteRow(db, id)
    case Prune => Pruned(db)
  }

  function Run(db: Db, ops: seq<Op>): Db
    decreases |ops|
  {
    if ops == [] then db else Run(Apply(db, ops[0]), ops[1..])
  }

  predicate InsertCovered(db: Db, op: Op) {
    op.Insert? && op.id !in db.rows ==> Hashes(op.row) <= StoreAll(db.store, op.captures).Keys
  }

  /** Every insert of the run finds its hashes among its entries or already stored. */
  predicate AllCovered(db: Db, ops: seq<Op>)
    decreases |ops|
  {
    ops != [] ==> InsertCovered(db, ops[0]) && AllCovered(Apply(db, ops[0]), ops[1..])
  }

  ghost predicate ConsistentThroughout(db: Db, ops: seq<Op>)
    decreases |ops|
  {
    Consistent(db) && (ops != [] ==> ConsistentThroughout(Apply(db, ops[0]), ops[1..]))
  }

  lemma StepKeepsConsistent(db: Db, op: Op)
    requires Consistent(db)
    ensures Consistent(Apply(db, op)) <==> InsertCovered(db, op)
  {
    match op
    case Insert(id, row, captures) =>
      if id !in db.rows {
        RecordKeepsConsistent(db, id, row, captures);
      }
    case Delete(id) => DeleteKeepsConsistent(db, id);
    case Prune => PruneDropsExactlyTheUnnamed(db);
  }

  /**
   Whatever the interleaving, the counts stay right and every named prompt stays stored,
   throughout, exactly when every insert is covered.
   */
  lemma {:induction false} CountsAreConserved(db: Db, ops: seq<Op>)
    requires Consistent(db)
    ensures ConsistentThroughout(db, ops) <==> AllCovered(db, ops)
    decreases |ops|
  {
    if ops != [] {
      StepKeepsConsistent(db, ops[0]);
      if Consistent(Apply(db, ops[0])) {
        CountsAreConserved(Apply(db, ops[0]), ops[1..]);
      }
    }
  }

  lemma {:induction false} EndsConsistent(db: Db, ops: seq<Op>)
    requires ConsistentThroughout(db, ops)
    ensures Consistent(Run(db, ops))
    decreases |ops|
  {
    if ops != [] {
      EndsConsistent(Apply(db, ops[0]), ops[1..]);
    }
  }

  /** Every stored text is the one its hash was taken from. */
  ghost predicate Honest(store: map<string, Entry>, text: string -> string) {
    forall h :: h in store ==> store[h].content == text(h)
  }

  predicate HonestCaptures(captures: seq<Capture>, text: string -> string) {
    captures == []
    || (captures[|captures| - 1].content == text(captures[|captures| - 1].hash)
        && HonestCaptures(captures[..|captures| - 1], text))
  }

  predicate HonestRun(ops: seq<Op>, text: string -> string) {
    ops != [] ==> (ops[0].Insert? ==> HonestCaptures(ops[0].captures, text)) && HonestRun(ops[1..], text)
  }

  lemma {:induction false} StoreAllStaysHonest(store: map<string, Entry>, captures: seq<Capture>,
                                               text: string -> string)
    requires Honest(store, text) && HonestCaptures(captures, text)
    ensures Honest(StoreAll(store, captures), text)
  {
    if captures != [] {
      StoreAllStaysHonest(store, captures[..|captures| - 1], text);
    }
  }

  lemma {:induction false} RunStaysHonest(db: Db, ops: seq<Op>, text: string -> string)
    requires Honest(db.store, text) && HonestRun(ops, text)
    ensures Honest(Run(db, ops).store, text)
    decreases |ops|
  {
    if ops != [] {
      if ops[0].Insert? {
        StoreAllStaysHonest(db.store, ops[0].captures, text);
      }
      assert Honest(Apply(db, ops[0]).store, text);
      RunStaysHonest(Apply(db, ops[0]), ops[1..], text);
    }
  }

  /** After any covered run, every hash of every live row still leads to the text it stands for. */
  lemma EveryRowIsServed(ops: seq<Op>, text: string -> string, id: int, h: string)
    requires AllCovered(Db(map[], map[]), ops) && HonestRun(ops, text)
    requires id in Run(Db(map[], map[]), ops).rows && h in Hashes(Run(Db(map[], map[]), ops).rows[id])
    ensures h in Run(Db(map[], map[]), ops).store && Run(Db(map[], map[]), ops).store[h].content == text(h)
  {
    var empty := Db(map[], map[]);
    CountsAreConserved(empty, ops);
    EndsConsistent(empty, ops);
    RunStaysHonest(empty, ops, text);
  }

  // ---- Without the hypothesis ------------------------------------------------

  /** Even so, no count ever exceeds the truth, so nothing unnamed outlives a prune. */
  ghost predicate NeverOver(db: Db) {
    forall h :: h in db.store ==> db.store[h].refCount <= |Referrers(db.rows, h)|
  }

  lemma StepKeepsNeverOver(db: Db, op: Op)
    requires NeverOver(db)
    ensures NeverOver(Apply(db, op))
  {
    var after := Apply(db, op);
    forall h | h in after.store ensures after.store[h].refCount <= |Referrers(after.rows, h)| {
      match op
      case Insert(id, row, captures) =>
        if id !in db.rows {
          StoreAllKeeps(db.store, captures, h);
          ReferrersGrow(db.rows, id, row, h);
        }
      case Delete(id) =>
        if id in db.rows {
          ReferrersShrink(db.rows, id, h);
        }
      case Prune =>
    }
  }

  lemma {:induction false} NothingUnnamedSurvivesPruning(db: Db, ops: seq<Op>, h: string)
    requires NeverOver(db)
    ensures NeverOver(Run(db, ops))
    ensures h in Pruned(Run(db, ops)).store ==> Referrers(Run(db, ops).rows, h) != {}
    decreases |ops|
  {
    if ops != [] {
      StepKeepsNeverOver(db, ops[0]);
      NothingUnnamedSurvivesPruning(Apply(db, ops[0]), ops[1..], h);
    }
  }

  // ---- What a count is, in every run -----------------------------------------

  /**
   How many live rows each stored prompt is short of: those that named it already when it was
   stored.  A prompt that is pruned and stored again is counted anew.
   */
  function Debts(db: Db, debts: map<string, nat>, op: Op): map<string, nat> {
    match op
    case Insert(id, _, captures) =>
      if id in db.rows then debts
      else map h | h in StoreAll(db.store, captures) ::
             if h in db.store && h in debts then debts[h] else |Referrers(db.rows, h)|
    case Delete(_) => debts
    case Prune => map h | h in Pruned(db).store && h in debts :: debts[h]
  }

  function RunDebts(db: Db, debts: map<string, nat>, ops: seq<Op>): map<string, nat>
    decreases |ops|
  {
    if ops == [] then debts else RunDebts(Apply(db, ops[0]), Debts(db, debts, ops[0]), ops[1..])
  }

  /** Every count is the number of rows that name the prompt, less its debt. */
  ghost predicate ShortBy(db: Db, debts: map<string, nat>) {
    debts.Keys == db.store.Keys
    && forall h :: h in db.store ==> db.store[h].refCount == |Referrers(db.rows, h)| - debts[h]
  }

  lemma InsertKeepsDebts(db: Db, debts: map<string, nat>, id: int, row: Row, captures: seq<Capture>)
    requires ShortBy(db, debts) && id !in db.rows
    ensures ShortBy(Record(db, id, row, captures), Debts(db, debts, Insert(id, row, captures)))
  {
    var after, owed := Record(db, id, row, captures), Debts(db, debts, Insert(id, row, captures));
    forall h | h in after.store ensures after.store[h].refCount == |Referrers(after.rows, h)| - owed[h] {
      StoreAllKeeps(db.store, captures, h);
      ReferrersGrow(db.rows, id, row, h);
    }
  }

  lemma DeleteKeepsDebts(db: Db, debts: map<string, nat>, id: int)
    requires ShortBy(db, debts)
    ensures ShortBy(DeleteRow(db, id), debts)
  {
    if id in db.rows {
      forall h | h in db.store
        ensures DeleteRow(db, id).store[h].refCount == |Referrers(db.rows - {id}, h)| - debts[h]
      {
        ReferrersShrink(db.rows, id, h);
      }
    }
  }

  lemma StepKeepsDebts(db: Db, debts: map<string, nat>, op: Op)
    requires ShortBy(db, debts)
    ensures ShortBy(Apply(db, op), Debts(db, debts, op))
  {
    match op
    case Insert(id, row, captures) =>
      if id !in db.rows {
        InsertKeepsDebts(db, debts, id, row, captures);
      }
    case Delete(id) => DeleteKeepsDebts(db, debts, id);
    case Prune =>
  }

  lemma {:induction false} RunKeepsDebts(db: Db, debts: map<string, nat>, ops: seq<Op>)
    requires ShortBy(db, debts)
    ensures ShortBy(Run(db, ops), RunDebts(db, debts, ops))
    decreases |ops|
  {
    if ops != [] {
      StepKeepsDebts(db, debts, ops[0]);
      RunKeepsDebts(Apply(db, ops[0]), Debts(db, debts, ops[0]), ops[1..]);
    }
  }

  const EMPTY := Db(map[], map[])

  /**
   In every run, covered or not, the count beside a prompt is the number of live rows that
   name it less those that did when it was stored.  The counts are therefore exact if and only
   if no stored prompt has such a debt, and a prune drops a prompt if and only if no more rows
   name it than its debt: one that is in use goes when its debt covers all its rows.
   */
  lemma CountsFallShortByDebts(ops: seq<Op>, h: string)
    ensures var db, debts := Run(EMPTY, ops), RunDebts(EMPTY, map[], ops);
            && debts.Keys == db.store.Keys
            && (h in db.store ==> db.store[h].refCount == |Referrers(db.rows, h)| - debts[h])
            && (h in db.store ==> (h !in Pruned(db).store <==> |Referrers(db.rows, h)| <= debts[h]))
            && (Exact(db) <==> forall k :: k in db.store ==> debts[k] == 0)
  {
    RunKeepsDebts(EMPTY, map[], ops);
  }

  /** The insert stores a prompt that some live row names already. */
  ghost predicate StoresNamed(db: Db, op: Op) {
    op.Insert? && op.id !in db.rows
    && exists h :: h !in db.store && h in StoreAll(db.store, op.captures) && Referrers(db.rows, h) != {}
  }

  ghost predicate NeverStoresNamed(db: Db, ops: seq<Op>)
    decreases |ops|
  {
    ops != [] ==> !StoresNamed(db, ops[0]) && NeverStoresNamed(Apply(db, ops[0]), ops[1..])
  }

  ghost predicate ExactThroughout(db: Db, ops: seq<Op>)
    decreases |ops|
  {
    Exact(db) && (ops != [] ==> ExactThroughout(Apply(db, ops[0]), ops[1..]))
  }

  lemma StepKeepsExact(db: Db, op: Op)
    requires Exact(db)
    ensures Exact(Apply(db, op)) <==> !StoresNamed(db, op)
  {
    var debts := map h | h in db.store :: 0 as nat;
    var after, owed := Apply(db, op), Debts(db, debts, op);
    StepKeepsDebts(db, debts, op);
    forall h | h in after.store
      ensures owed[h] == 0
              || (op.Insert? && op.id !in db.rows && h !in db.store && Referrers(db.rows, h) != {})
    {
      assert after.store[h].refCount == |Referrers(after.rows, h)| - owed[h];
    }
    if StoresNamed(db, op) {
      var h :| h !in db.store && h in StoreAll(db.store, op.captures) && Referrers(db.rows, h) != {};
      assert h in after.store && owed[h] == |Referrers(db.rows, h)| > 0;
    }
  }

  /**
   The counts alone stay exact throughout a run if and only if no insert of it stores a prompt
   that a live row names.
   */
  lemma {:induction false} CountsStayExact(db: Db, ops: seq<Op>)
    requires Exact(db)
    ensures ExactThroughout(db, ops) <==> NeverStoresNamed(db, ops)
    decreases |ops|
  {
    if ops != [] {
      StepKeepsExact(db, ops[0]);
      if Exact(Apply(db, ops[0])) {
        CountsStayExact(Apply(db, ops[0]), ops[1..]);
      }
    }
  }

  // ---- A pass of retention among inserts -------------------------------------

  /** Each step is an insert or deletes a row from before `cutoff`. */
  predicate DeletesExpired(db: Db, ops: seq<Op>, cutoff: int)
    decreases |ops|
  {
    ops != [] ==>
      && !ops[0].Prune?
      && (ops[0].Delete? && ops[0].id in db.rows ==> db.rows[ops[0].id].ts < cutoff)
      && DeletesExpired(Apply(db, ops[0]), ops[1..], cutoff)
  }

  lemma {:induction false} UnexpiredStay(db: Db, ops: seq<Op>, cutoff: int, id: int)
    requires DeletesExpired(db, ops, cutoff) && id in db.rows && db.rows[id].ts >= cutoff
    ensures id in Run(db, ops).rows && Run(db, ops).rows[id] == db.rows[id]
    decreases |ops|
  {
    if ops != [] {
      assert id in Apply(db, ops[0]).rows && Apply(db, ops[0]).rows[id] == db.rows[id];
      UnexpiredStay(Apply(db, ops[0]), ops[1..], cutoff, id);
    }
  }

  lemma {:induction false} RunThen(db: Db, ops: seq<Op>, last: Op)
    ensures Run(db, ops + [last]) == Apply(Run(db, ops), last)
    decreases |ops|
  {
    if ops == [] {
      assert [] + [last] == [last] && [last][1..] == [];
    } else {
      assert (ops + [last])[1..] == ops[1..] + [last];
      RunThen(Apply(db, ops[0]), ops[1..], last);
    }
  }

  /**
   A pass whose chunks other requests come between: the rows from before the cutoff are gone,
   every other row is still there, and exactly the prompts that a live row names are kept.
   */
  lemma RetentionAmongInserts(was: Db, ops: seq<Op>, cutoff: int, h: string)
    requires Consistent(was) && AllCovered(was, ops) && DeletesExpired(was, ops, cutoff)
    requires Expired(Run(was, ops).rows, cutoff) == {}
    ensures var now := Run(was, ops + [Prune]);
            && Consistent(now)
            && (forall id :: id in now.rows ==> now.rows[id].ts >= cutoff)
            && (forall id :: id in was.rows && was.rows[id].ts >= cutoff ==>
                  id in now.rows && now.rows[id] == was.rows[id])
            && (h in now.store <==> h in Run(was, ops).store && Referrers(now.rows, h) != {})
  {
    var end := Run(was, ops);
    RunThen(was, ops, Prune);
    CountsAreConserved(was, ops);
    EndsConsistent(was, ops);
    PruneDropsExactlyTheUnnamed(end);
    forall id | id in end.rows ensures end.rows[id].ts >= cutoff {
      assert id !in Expired(end.rows, cutoff);
    }
    forall id | id in was.rows && was.rows[id].ts >= cutoff ensures id in end.rows && end.rows[id] == was.rows[id] {
      UnexpiredStay(was, ops, cutoff, id);
    }
  }

  // ---- The failing runs ------------------------------------------------------

  /** Which prompts end up stored does not depend on the counts. */
  lemma {:induction false} CountsDoNotMatter(a: map<string, Entry>, b: map<string, Entry>, captures: seq<Capture>)
    requires a.Keys == b.Keys
    ensures StoreAll(a, captures).Keys == StoreAll(b, captures).Keys
  {
    if captures != [] {
      CountsDoNotMatter(a, b, captures[..|captures| - 1]);
    }
  }

  /** A first row without captures, and a second that names the same prompt and stores it: the count is one. */
  lemma SecondRowStores(db: Db, first: int, second: int, row: Row, other: Row, h: string, captures: seq<Capture>)
    requires first != second && first !in db.rows && second !in db.rows
    requires h in Hashes(row) && h in Hashes(other) && h !in db.store && h in StoreAll(db.store, captures)
    ensures var after := Record(Record(db, first, row, []), second, other, captures);
            && h in after.store && after.store[h].refCount == 1
            && after.rows == db.rows[first := row][second := other]
  {
    var a := Record(db, first, row, []);
    CountsDoNotMatter(db.store, a.store, captures);
    StoreAllKeeps(a.store, captures, h);
  }

  /** A row that names a prompt with a count of one takes it along. */
  lemma LastCountGoes(db: Db, id: int, h: string)
    requires h in db.store && db.store[h].refCount == 1
    requires id in db.rows && h in Hashes(db.rows[id])
    ensures Pruned(DeleteRow(db, id)).rows == db.rows - {id} && h !in Pruned(DeleteRow(db, id)).store
  {
  }

  /**
   A row whose hash has no entry, as `anthrouter/handlers.py:794-799` can write, breaks it: a
   later row stores the prompt and goes, and the prompt goes with it although the first row
   still names it.
   */
  lemma UncoveredInsertLosesPrompt(db: Db, first: int, second: int, row: Row, other: Row,
                                   h: string, captures: seq<Capture>)
    requires first != second && first !in db.rows && second !in db.rows
    requires h in Hashes(row) && h in Hashes(other) && h !in db.store && h in StoreAll(db.store, captures)
    ensures var end := Run(db, [Insert(first, row, []), Insert(second, other, captures), Delete(second), Prune]);
            first in end.rows && end.rows[first] == row && h !in end.store
  {
    var b := Record(Record(db, first, row, []), second, other, captures);
    SecondRowStores(db, first, second, row, other, h, captures);
    LastCountGoes(b, second, h);
    RunFour(db, Insert(first, row, []), Insert(second, other, captures), Delete(second), Prune);
  }

  /**
   It costs covered rows too: when the uncovered row goes instead, it takes the count of the
   one that stored the prompt, although that one has all its prompts stored.
   */
  lemma CoveredRowLosesPrompt(db: Db, first: int, second: int, row: Row, other: Row, h: string, captures: seq<Capture>)
    requires first != second && first !in db.rows && second !in db.rows
    requires h in Hashes(row) && h in Hashes(other) && h !in db.store
    requires Hashes(other) <= StoreAll(db.store, captures).Keys
    ensures var end := Run(db, [Insert(first, row, []), Insert(second, other, captures), Delete(first), Prune]);
            second in end.rows && end.rows[second] == other && h !in end.store
  {
    var b := Record(Record(db, first, row, []), second, other, captures);
    SecondRowStores(db, first, second, row, other, h, captures);
    LastCountGoes(b, first, h);
    RunFour(db, Insert(first, row, []), Insert(second, other, captures), Delete(first), Prune);
  }

  lemma RunFour(db: Db, a: Op, b: Op, c: Op, d: Op)
    ensures Run(db, [a, b, c, d]) == Apply(Apply(Apply(Apply(db, a), b), c), d)
  {
    var ops := [a, b, c, d];
    assert ops[1..] == [b, c, d] && ops[1..][1..] == [c, d] && ops[1..][1..][1..] == [d];
    var x := Apply(Apply(db, a), b);
    assert Run(x, [c, d]) == Run(Apply(x, c), [c, d][1..]) && [c, d][1..] == [d];
    assert Run(Apply(x, c), [d]) == Run(Apply(Apply(x, c), d), [d][1..]) && [d][1..] == [];
  }

  /** A full chunk is a thousand rows. */
  lemma {:induction false} ChunksAreThousands(passes: nat)
    ensures FullChunks(passes) == 1000 * passes
  {
    if passes > 0 {
      ChunksAreThousands(passes - 1);
    }
  }
}
