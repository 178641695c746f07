/**
 * The backing store of one entity, standing in for its Spring Data JPA
 * repository: a table of rows keyed by a generated `Long` id. `Table` is the
 * store as a value, with the repository operations as functions on it;
 * `Repository` is the object the resources hold, whose methods change the
 * table in place and are proved to follow those functions.
 */
module Store {
  import opened Wrappers
  import opened JavaLang

  /** An entity as the REST layer exchanges it: its id (null before it is saved) and its other columns. */
  datatype Entity<F> = Entity(id: Option<Int64>, data: F)

  /** A page request, as Spring's `Pageable`: the page number and a page size of at least 1. */
  type PageSize = n: nat | 1 <= n witness 1

  datatype PageRequest = PageRequest(page: nat, size: PageSize)

  function Min(a: int, b: int): int {
    if a <= b then a else b
  }

  /** Where page `p.page` starts. */
  function Offset(p: PageRequest): nat {
    p.page * p.size
  }

  /** The `p.page`-th slice of `p.size` elements of `all`; empty past the end. */
  function Page<T>(all: seq<T>, p: PageRequest): (content: seq<T>)
    ensures |content| <= p.size
    ensures |content| == if Offset(p) >= |all| then 0 else Min(p.size, |all| - Offset(p))
    ensures forall i :: 0 <= i < |content| ==> Offset(p) + i < |all| && content[i] == all[Offset(p) + i]
  {
    var start := Offset(p);
    if start >= |all| then [] else all[start..Min(|all|, start + p.size)]
  }

  /** Pages 0 to n - 1 one after the other. */
  function FirstPages<T>(all: seq<T>, size: PageSize, n: nat): seq<T> {
    if n == 0 then [] else FirstPages(all, size, n - 1) + Page(all, PageRequest(n - 1, size))
  }

  lemma {:induction false} FirstPagesArePrefix<T>(all: seq<T>, size: PageSize, n: nat)
    ensures FirstPages(all, size, n) == all[..Min(|all|, n * size)]
  {
    if n > 0 {
      var p := PageRequest(n - 1, size);
      var start, end := (n - 1) * size, n * size;
      assert start == Offset(p);
      assert end == start + size by {
        assert (n - 1) * size == n * size - size;
      }
      FirstPagesArePrefix(all, size, n - 1);
      assert FirstPages(all, size, n) == all[..Min(|all|, start)] + Page(all, p);
      if start < |all| {
        assert Page(all, p) == all[start..Min(|all|, end)];
        assert all[..Min(|all|, end)] == all[..start] + all[start..Min(|all|, end)];
      }
    }
  }

  /** Paging through a list reaches every element exactly once, in order. */
  lemma PagesCoverAll<T>(all: seq<T>, size: PageSize)
    ensures FirstPages(all, size, (|all| + size - 1) / size) == all
  {
    var n := (|all| + size - 1) / size;
    assert n * size >= |all| by {
      assert (|all| + size - 1) % size < size;
      assert n * size == |all| + size - 1 - (|all| + size - 1) % size;
    }
    FirstPagesArePrefix(all, size, n);
  }

  /**
   * One table: the stored rows by id and the next value of the id generator.
   * Ids are handed out from 1 upwards and never reused.
   */
  datatype Table<F> = Table(rows: map<Int64, F>, nextId: int) {

    ghost predicate Valid() {
      && 1 <= nextId <= MaxLong + 1
      && forall k :: k in rows ==> 1 <= k < nextId
    }

    /** `findOne(id)`: the stored row, or null. */
    function FindOne(id: Int64): (r: Option<Entity<F>>)
      ensures r.Some? <==> id in rows
      ensures r.Some? ==> r.value.id == Some(id) && r.value.data == rows[id]
    {
      if id in rows then Some(Entity(Some(id), rows[id])) else None
    }

    /**
     * `save(entity)`. An entity with no id is inserted under a freshly
     * generated id. An entity whose id is stored overwrites that row. An
     * entity whose id is not stored is treated as new, the way Hibernate
     * merges a row it cannot find, and is inserted under a fresh id as well.
     * Once the generator has passed `Long.MAX_VALUE` an insert fails (None)
     * and nothing changes.
     */
    function Save(e: Entity<F>): (out: (Option<Entity<F>>, Table<F>))
      requires Valid()
      ensures out.1.Valid()
      ensures out.0.None? <==> (e.id.None? || e.id.value !in rows) && nextId > MaxLong
      ensures out.0.None? ==> out.1 == this
      ensures out.0.Some? ==> out.0.value.id.Some? && out.0.value.data == e.data
                              && out.1.rows == rows[out.0.value.id.value := e.data]
      ensures e.id.Some? && e.id.value in rows ==> out.0 == Some(e) && |out.1.rows| == |rows|
      ensures (e.id.None? || e.id.value !in rows) && out.0.Some? ==>
                out.0.value.id.value !in rows && |out.1.rows| == |rows| + 1
    {
      if e.id.Some? && e.id.value in rows then
        (Some(e), Table(rows[e.id.value := e.data], nextId))
      else if nextId <= MaxLong then
        var id: Int64 := nextId;
        (Some(Entity(Some(id), e.data)), Table(rows[id := e.data], nextId + 1))
      else
        (None, this)
    }

    /** `delete(id)`: the row is gone afterwards, whether or not it was there. */
    function Delete(id: Int64): (t: Table<F>)
      requires Valid()
      ensures t.Valid() && t.nextId == nextId
      ensures t.rows.Keys == rows.Keys - {id}
      ensures forall k :: k in t.rows ==> t.rows[k] == rows[k]
      ensures |t.rows| == if id in rows then |rows| - 1 else |rows|
    {
      var t := Table(rows - {id}, nextId);
      if id in rows then
        assert rows.Keys == t.rows.Keys + {id};
        t
      else
        assert rows.Keys == t.rows.Keys;
        t
    }

    /** The stored ids from `lo` up, ascending. */
    function IdsFrom(lo: int): (ids: seq<Int64>)
      requires Valid() && 1 <= lo <= nextId
      decreases nextId - lo
      ensures forall i, j :: 0 <= i < j < |ids| ==> ids[i] < ids[j]
      ensures forall i :: 0 <= i < |ids| ==> lo <= ids[i] && ids[i] in rows
      ensures forall k :: k in rows && lo <= k ==> k in ids
    {
      if lo == nextId then []
      else if lo in rows then [lo as Int64] + IdsFrom(lo + 1)
      else IdsFrom(lo + 1)
    }

    /** The stored ids from `lo` up, as a set. */
    ghost function StoredFrom(lo: int): set<Int64> {
      set k | k in rows && lo <= k
    }

    lemma StoredFromStep(lo: int)
      requires 1 <= lo <= MaxLong
      ensures lo in rows ==> StoredFrom(lo) == {lo as Int64} + StoredFrom(lo + 1)
      ensures lo !in rows ==> StoredFrom(lo) == StoredFrom(lo + 1)
      ensures (lo as Int64) !in StoredFrom(lo + 1)
    {
    }

    /** The scan from `lo` finds as many ids as are stored from `lo` up. */
    lemma {:induction false} IdsFromCount(lo: int)
      requires Valid() && 1 <= lo <= nextId
      decreases nextId - lo
      ensures |IdsFrom(lo)| == |StoredFrom(lo)|
    {
      if lo == nextId {
        assert StoredFrom(lo) == {};
      } else {
        IdsFromCount(lo + 1);
        StoredFromStep(lo);
        if lo !in rows {
          assert IdsFrom(lo) == IdsFrom(lo + 1);
        }
      }
    }

    /** The stored rows under `ids`, in the order of `ids`. */
    function RowsAt(ids: seq<Int64>): (all: seq<Entity<F>>)
      requires forall i :: 0 <= i < |ids| ==> ids[i] in rows
      ensures |all| == |ids|
      ensures forall i :: 0 <= i < |ids| ==> all[i] == Entity(Some(ids[i]), rows[ids[i]])
    {
      if ids == [] then [] else [Entity(Some(ids[0]), rows[ids[0]])] + RowsAt(ids[1..])
    }

    /** `findAll()`: every stored row exactly once, in ascending id order. */
    function FindAll(): (all: seq<Entity<F>>)
      requires Valid()
      ensures |all| == |rows|
      ensures forall i :: 0 <= i < |all| ==> all[i].id.Some? && all[i].id.value in rows && all[i].data == rows[all[i].id.value]
      ensures forall i, j :: 0 <= i < j < |all| ==> all[i].id.value < all[j].id.value
      ensures forall k :: k in rows ==> Entity(Some(k), rows[k]) in all
    {
      var ids := IdsFrom(1);
      IdsFromCount(1);
      assert StoredFrom(1) == rows.Keys;
      var all := RowsAt(ids);
      forall k | k in rows ensures Entity(Some(k), rows[k]) in all {
        var i :| 0 <= i < |ids| && ids[i] == k;
        assert all[i] == Entity(Some(k), rows[k]);
      }
      all
    }

    /** When `id` is the largest stored id, the scan from `lo` up ends with it. */
    lemma {:induction false} IdsFromEndsWithMax(lo: int, id: Int64)
      requires Valid() && 1 <= lo <= id && id in rows
      requires forall k :: k in rows ==> k <= id
      decreases id - lo
      ensures |IdsFrom(lo)| > 0 && IdsFrom(lo)[|IdsFrom(lo)| - 1] == id
    {
      if lo < id {
        IdsFromEndsWithMax(lo + 1, id);
      } else {
        IdsFromCount(lo + 1);
        assert StoredFrom(lo + 1) == {};
      }
    }

    /** The listing is the scan of the ids from 1 up. */
    lemma FindAllIsScan()
      requires Valid()
      ensures FindAll() == RowsAt(IdsFrom(1))
    {
    }

    /** The row with the largest id comes last in the listing. */
    lemma MaxIsListedLast(id: Int64)
      requires Valid() && id in rows
      requires forall k :: k in rows ==> k <= id
      ensures var all := FindAll(); |all| > 0 && all[|all| - 1] == Entity(Some(id), rows[id])
    {
      var ids := IdsFrom(1);
      IdsFromEndsWithMax(1, id);
      var scan := RowsAt(ids);
      assert scan[|scan| - 1] == Entity(Some(id), rows[id]);
      FindAllIsScan();
    }
  }

  function EmptyTable<F>(): (t: Table<F>)
    ensures t.Valid() && t.rows == map[]
  {
    Table(map[], 1)
  }

  /** The repository object: its table, changed in place by `Save` and `Delete`. */
  class Repository<F> {
    var rows: map<Int64, F>
    var nextId: int

    function State(): Table<F>
      reads this
    {
      Table(rows, nextId)
    }

    ghost predicate Valid()
      reads this
    {
      State().Valid()
    }

    constructor ()
      ensures Valid() && State() == EmptyTable()
    {
      rows := map[];
      nextId := 1;
    }

    function FindOne(id: Int64): (r: Option<Entity<F>>)
      reads this
      ensures r == State().FindOne(id)
    {
      State().FindOne(id)
    }

    function FindAll(): (all: seq<Entity<F>>)
      requires Valid()
      reads this
      ensures all == State().FindAll()
    {
      State().FindAll()
    }

    method Save(e: Entity<F>) returns (saved: Option<Entity<F>>)
      requires Valid()
      modifies this
      ensures Valid()
      ensures (saved, State()) == old(State()).Save(e)
    {
      if e.id.Some? && e.id.value in rows {
        rows := rows[e.id.value := e.data];
        saved := Some(e);
      } else if nextId <= MaxLong {
        var id: Int64 := nextId;
        nextId := nextId + 1;
        rows := rows[id := e.data];
        saved := Some(Entity(Some(id), e.data));
      } else {
        saved := None;
      }
    }

    method Delete(id: Int64)
      requires Valid()
      modifies this
      ensures Valid()
      ensures State() == old(State()).Delete(id)
    {
      rows := rows - {id};
    }
  }
}
