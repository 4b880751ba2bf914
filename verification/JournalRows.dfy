/**
 Two ways to keep a header store's rows. One is in memory; the other is a database under an overlay of
 what is not committed yet. Read through the overlay the second is the first, at every point of every
 sequence of changes, writes and commits.
 */
module JournalRows {
  import opened Wrappers
  import opened HeaderTree
  import opened HeaderStore

  /** Rows in memory: `base` is the height of the first best-chain id. */
  datatype Rows = Rows(headers: map<Id, Row>, base: Option<nat>, best: seq<Id>, side: set<Id>)

  /** Rows that no empty best chain was set on. */
  predicate RowsOk(r: Rows) {
    r.base.Some? <==> r.best != []
  }

  function RowOf(r: Rows, id: Id): Option<Row> {
    if id in r.headers then Some(r.headers[id]) else None
  }

  function BestIdAt(r: Rows, height: nat): Option<Id> {
    if r.base.None? || height < r.base.value || height - r.base.value >= |r.best| then None else Some(r.best[height - r.base.value])
  }

  function TopHeight(r: Rows): Option<int> {
    if r.base.None? || |r.best| == 0 then None else Some(r.base.value + |r.best| - 1)
  }

  /** The best chain from a height replaced, in memory; refused where it would leave a gap. */
  function SetBest(r: Rows, from: nat, ids: seq<Id>): Option<Rows> {
    var base := if r.base.None? then from else r.base.value;
    if from < base || from > base + |r.best| then None
    else Some(r.(base := Some(base), best := r.best[..from - base] + ids))
  }

  /** The same through the journal: an empty run is refused, and a run from below the first height
      replaces everything. */
  function JournalSetBest(r: Rows, from: nat, ids: seq<Id>): (set': Option<Rows>)
    requires RowsOk(r)
    ensures set'.Some? ==> RowsOk(set'.value)
  {
    if ids == [] || (TopHeight(r).Some? && from > TopHeight(r).value + 1) then None
    else if r.base.None? || from < r.base.value then Some(r.(base := Some(from), best := ids))
    else Some(r.(best := r.best[..from - r.base.value] + ids))
  }

  /** The two differ exactly where memory takes an empty run, or a run from below the first height is
      not empty. */
  lemma SetBestAgrees(r: Rows, from: nat, ids: seq<Id>)
    requires RowsOk(r)
    ensures SetBest(r, from, ids) == JournalSetBest(r, from, ids) <==>
      if ids == [] then r.base.Some? && !(r.base.value <= from <= r.base.value + |r.best|)
      else r.base.None? || r.base.value <= from
  {
    if ids != [] && r.base.None? {
      assert r.best[..0] + ids == ids;
    } else if ids != [] && r.base.value <= from <= r.base.value + |r.best| {
      assert r.(base := Some(r.base.value)) == r;
    }
  }

  /** One change over another, as one: the later from within the earlier, or from below it. */
  lemma ChangesJoin(kept: Rows, c: Change, view: Rows, from: nat, ids: seq<Id>)
    requires RowsOk(kept) && RowsOk(view) && JournalSetBest(kept, c.from, c.ids) == Some(kept.(base := view.base, best := view.best))
    requires JournalSetBest(view, from, ids).Some?
    ensures var next := JournalSetBest(view, from, ids).value;
      if from >= c.from then
        from - c.from <= |c.ids| && JournalSetBest(kept, c.from, c.ids[..from - c.from] + ids) == Some(kept.(base := next.base, best := next.best))
      else JournalSetBest(kept, from, ids) == Some(kept.(base := next.base, best := next.best))
  {
    var next := JournalSetBest(view, from, ids).value;
    if kept.base.Some? && c.from >= kept.base.value {
      var n := c.from - kept.base.value;
      assert view.best == kept.best[..n] + c.ids;
      if from >= c.from {
        assert view.best[..from - kept.base.value] == kept.best[..n] + c.ids[..from - c.from];
        assert (kept.best[..n] + c.ids[..from - c.from]) + ids == kept.best[..n] + (c.ids[..from - c.from] + ids);
      } else if from >= kept.base.value {
        assert view.best[..from - kept.base.value] == kept.best[..from - kept.base.value];
      }
    }
  }

  /** Both ways they differ, on a chain of two heights. */
  lemma SetBestDiffers(x: Id, y: Id, z: Id)
    ensures var r := Rows(map[], Some(10), [x, y], {});
      && SetBest(r, 11, []) == Some(r.(best := [x])) && JournalSetBest(r, 11, []) == None
      && SetBest(r, 9, [z]) == None && JournalSetBest(r, 9, [z]) == Some(r.(base := Some(9), best := [z]))
  {
    var r := Rows(map[], Some(10), [x, y], {});
    assert r.best[..1] + [] == [x];
  }

  /** Runs set one after another, in memory and through the journal. */
  function MemorySets(r: Rows, runs: seq<Run>): Option<Rows>
    decreases |runs|
  {
    if runs == [] then Some(r)
    else
      var next := SetBest(r, runs[0].from, runs[0].ids);
      if next.None? then None else MemorySets(next.value, runs[1..])
  }

  function JournalSets(r: Rows, runs: seq<Run>): Option<Rows>
    requires RowsOk(r)
    decreases |runs|
  {
    if runs == [] then Some(r)
    else
      var next := JournalSetBest(r, runs[0].from, runs[0].ids);
      if next.None? then None else JournalSets(next.value, runs[1..])
  }

  /** Over runs that fit, memory and the journal set the same rows and refuse nothing. */
  lemma {:induction false} PromotionsAgree(first: nat, r: Rows, runs: seq<Run>)
    requires RowsOk(r) && (r.base.Some? ==> r.base.value == first) && AllFit(first, r.best, runs)
    ensures MemorySets(r, runs).Some? && MemorySets(r, runs) == JournalSets(r, runs)
    ensures MemorySets(r, runs).value.best == BestOf(first, r.best, runs)
    ensures MemorySets(r, runs).value.base == if runs == [] then r.base else Some(first)
    decreases |runs|
  {
    if runs != [] {
      var run := runs[0];
      SetBestAgrees(r, run.from, run.ids);
      var next := JournalSetBest(r, run.from, run.ids).value;
      assert next.best == SetOn(first, r.best, run);
      PromotionsAgree(first, next, runs[1..]);
    }
  }

  /** After any additions and prunings of a store, what it has set through the journal is what it has set in
      memory, none of it refused, and holds the store's own best chain from the anchor up. */
  lemma StoreRowsAgree(store: HeaderStore)
    requires store.Valid()
    ensures
      var first, none := AnchorHeight(store.a) + 1, Rows(map[], None, [], {});
      && MemorySets(none, store.runs).Some? && JournalSets(none, store.runs) == MemorySets(none, store.runs)
      && MemorySets(none, store.runs).value.best == store.best
      && MemorySets(none, store.runs).value.base == if store.best == [] then None else Some(first)
  {
    PromotionsAgree(AnchorHeight(store.a) + 1, Rows(map[], None, [], {}), store.runs);
  }

  /** The overlay's part of the best chain: `ids`, in place of all that is stored at `from` and above. */
  datatype Change = Change(from: nat, ids: seq<Id>)

  /** The database: its three tables. */
  datatype Database = Database(headers: map<Id, Row>, best: map<nat, Id>, side: set<Id>)

  /** A best table that holds a chain's ids by height, below a height if one is given. */
  ghost predicate Tabled(table: map<nat, Id>, r: Rows, below: Option<nat>) {
    forall h: nat :: (below.None? || h < below.value) ==> (if h in table then BestIdAt(r, h) == Some(table[h]) else BestIdAt(r, h).None?)
  }

  /** A database that holds exactly the rows. */
  ghost predicate Holds(db: Database, r: Rows) {
    db.headers == r.headers && Tabled(db.best, r, None) && db.side == r.side
  }

  class JournalHeaderRows {
    var db: Database
    var pending: map<Id, Row>
    var deleted: set<Id>
    var changed: Option<Change>
    var stored: Option<nat>
    var side: set<Id>
    var sideTouched: set<Id>
    /** What the rows are, read through the overlay. */
    ghost var view: Rows
    /** The best chain in the database. */
    ghost var kept: Rows

    ghost predicate Valid()
      reads this
    {
      && RowsOk(view) && RowsOk(kept) && HeadersHold() && BestHolds() && SidesHold()
    }

    ghost predicate HeadersHold()
      reads this
    {
      && view.headers == db.headers - deleted + pending
      && pending.Keys !! deleted
    }

    /** The database stands below the changed heights as the last commit left it. */
    ghost predicate BestHolds()
      reads this
    {
      && RowsOk(view) && RowsOk(kept)
      && (stored == if kept.base.None? then None else Some(kept.base.value + |kept.best| - 1))
      && Tabled(db.best, kept, if changed.Some? then Some(changed.value.from) else None)
      && match changed
         case None => view.base == kept.base && view.best == kept.best
         case Some(c) => c.ids != [] && JournalSetBest(kept, c.from, c.ids) == Some(kept.(base := view.base, best := view.best))
    }

    /** Every side change since the commit is touched; the rest stands in the database. */
    ghost predicate SidesHold()
      reads this
    {
      && view.side == side
      && forall id :: id !in sideTouched ==> (id in side <==> id in db.side)
    }

    /** The rows over a database as a commit left it. */
    constructor (db: Database, ghost rows: Rows)
      requires Holds(db, rows) && RowsOk(rows)
      ensures Valid() && view == rows && this.db == db
    {
      this.db := db;
      pending, deleted, changed, side, sideTouched := map[], {}, None, db.side, {};
      var heights := db.best.Keys;
      stored := if heights == {} then None else Some(Highest(heights));
      kept, view := rows, rows;
      new;
      if rows.base.Some? {
        var top := rows.base.value + |rows.best| - 1;
        assert BestIdAt(rows, top).Some?;
        assert top in db.best;
      }
    }

    method Get(id: Id) returns (row: Option<Row>)
      requires Valid()
      ensures row == RowOf(view, id)
    {
      if id in deleted {
        return None;
      }
      if id in pending {
        return Some(pending[id]);
      }
      return if id in db.headers then Some(db.headers[id]) else None;
    }

    method Put(id: Id, row: Row)
      requires Valid()
      modifies this`deleted, this`pending, this`view
      ensures Valid() && view == old(view).(headers := old(view).headers[id := row])
    {
      deleted := deleted - {id};
      pending := pending[id := row];
      view := view.(headers := view.headers[id := row]);
    }

    method Delete(id: Id)
      requires Valid()
      modifies this`deleted, this`pending, this`view
      ensures Valid() && view == old(view).(headers := old(view).headers - {id})
    {
      pending := pending - {id};
      deleted := deleted + {id};
      view := view.(headers := view.headers - {id});
    }

    method BestAt(height: nat) returns (id: Option<Id>)
      requires Valid()
      ensures id == BestIdAt(view, height)
    {
      if changed.Some? && height >= changed.value.from {
        var i := height - changed.value.from;
        return if i < |changed.value.ids| then Some(changed.value.ids[i]) else None;
      }
      if stored.None? || height > stored.value {
        return None;
      }
      return if height in db.best then Some(db.best[height]) else None;
    }

    method BestHeight() returns (height: Option<int>)
      requires Valid()
      ensures height == TopHeight(view)
    {
      return if changed.Some? then Some(changed.value.from + |changed.value.ids| - 1) else if stored.Some? then Some(stored.value) else None;
    }

    /** Refused, changing nothing, just where the specification is. */
    method SetBest(from: nat, ids: seq<Id>) returns (ok: bool)
      requires Valid()
      modifies this`changed, this`view
      ensures Valid() && ok == JournalSetBest(old(view), from, ids).Some?
      ensures view == if ok then JournalSetBest(old(view), from, ids).value else old(view)
    {
      var top := BestHeight();
      if |ids| == 0 || (top.Some? && from > top.value + 1) {
        return false;
      }
      if changed.Some? {
        ChangesJoin(kept, changed.value, view, from, ids);
      }
      if changed.Some? && from >= changed.value.from {
        changed := Some(Change(changed.value.from, changed.value.ids[..from - changed.value.from] + ids));
      } else {
        changed := Some(Change(from, ids));
      }
      view := JournalSetBest(view, from, ids).value;
      return true;
    }

    method Sides() returns (ids: set<Id>)
      requires Valid()
      ensures ids == view.side
    {
      return side;
    }

    method AddSide(id: Id)
      requires Valid()
      modifies this`side, this`sideTouched, this`view
      ensures Valid() && view == old(view).(side := old(view).side + {id})
    {
      side, sideTouched := side + {id}, sideTouched + {id};
      view := view.(side := view.side + {id});
    }

    method RemoveSide(id: Id)
      requires Valid()
      modifies this`side, this`sideTouched, this`view
      ensures Valid() && view == old(view).(side := old(view).side - {id})
    {
      side, sideTouched := side - {id}, sideTouched + {id};
      view := view.(side := view.side - {id});
    }

    /** The running sync's changes written, inside the caller's transaction: the database holds what
        is read, and reads go on as they were. */
    method Write()
      requires Valid()
      modifies this`db
      ensures Valid() && view == old(view) && Holds(db, view)
    {
      var best := WriteBest();
      var sides := WriteSides();
      ghost var before := db;
      db := Database(db.headers - deleted + pending, best, sides);
      assert db.headers - deleted + pending == db.headers;
    }

    /** The changed heights deleted and written again. */
    method WriteBest() returns (best: map<nat, Id>)
      requires Valid()
      ensures Tabled(best, view, None)
      ensures changed.Some? ==> Tabled(best, kept, Some(changed.value.from))
      ensures changed.None? ==> best == db.best
    {
      best := db.best;
      if changed.Some? {
        var c := changed.value;
        best := map h: nat | h in best && h < c.from :: best[h];
        for i := 0 to |c.ids|
          invariant forall h: nat :: h in best <==> (h in db.best && h < c.from) || c.from <= h < c.from + i
          invariant forall h: nat :: h in best ==> best[h] == if h < c.from then db.best[h] else c.ids[h - c.from]
        {
          best := best[c.from + i := c.ids[i]];
        }
        forall h: nat
          ensures if h in best then BestIdAt(view, h) == Some(best[h]) else BestIdAt(view, h).None?
          ensures h < c.from ==> if h in best then BestIdAt(kept, h) == Some(best[h]) else BestIdAt(kept, h).None?
        {
          ReadsChanged(kept, c, view, h);
          assert h < c.from ==> if h in db.best then BestIdAt(kept, h) == Some(db.best[h]) else BestIdAt(kept, h).None?;
        }
      }
    }

    /** Each side id touched written or removed. */
    method WriteSides() returns (sides: set<Id>)
      requires Valid()
      ensures sides == side
    {
      sides := db.side;
      var rest := sideTouched;
      while rest != {}
        invariant rest <= sideTouched
        invariant forall id :: id in sides <==> if id in sideTouched - rest then id in side else id in db.side
        decreases |rest|
      {
        var id :| id in rest;
        sides := if id in side then sides + {id} else sides - {id};
        rest := rest - {id};
      }
    }

    /** After the commit: the overlay is empty, and nothing read has changed. */
    method Written()
      requires Valid() && Holds(db, view)
      modifies this`pending, this`deleted, this`changed, this`stored, this`sideTouched, this`kept
      ensures Valid() && view == old(view) && pending == map[] && deleted == {} && changed == None && sideTouched == {}
    {
      if changed.Some? {
        stored := Some(changed.value.from + |changed.value.ids| - 1);
      }
      pending, deleted, changed, sideTouched := map[], {}, None, {};
      kept := view;
    }
  }

  /** What a change makes of the ids read by height. */
  lemma ReadsChanged(kept: Rows, c: Change, view: Rows, h: nat)
    requires RowsOk(kept) && RowsOk(view) && JournalSetBest(kept, c.from, c.ids) == Some(kept.(base := view.base, best := view.best))
    ensures BestIdAt(view, h) == if h < c.from then BestIdAt(kept, h) else if h - c.from < |c.ids| then Some(c.ids[h - c.from]) else None
  {
    if kept.base.Some? && c.from >= kept.base.value {
      assert view.best == kept.best[..c.from - kept.base.value] + c.ids;
    }
  }

  function Highest(heights: set<nat>): (top: nat)
    requires heights != {}
    ensures top in heights && forall h :: h in heights ==> h <= top
  {
    HasHighest(heights);
    var top :| top in heights && forall h :: h in heights ==> h <= top;
    top
  }

  lemma {:induction false} HasHighest(heights: set<nat>)
    requires heights != {}
    ensures exists top :: top in heights && forall h :: h in heights ==> h <= top
    decreases heights
  {
    var x :| x in heights;
    var rest := heights - {x};
    if rest == {} {
      assert heights == {x};
    } else {
      HasHighest(rest);
      var most :| most in rest && forall h :: h in rest ==> h <= most;
      var top := if x > most then x else most;
      forall h | h in heights
        ensures h <= top
      {
        assert h == x || h in rest;
      }
      assert top in heights;
    }
  }
}
