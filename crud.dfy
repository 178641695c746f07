/**
 * The decision rule every REST resource applies, once for all four entities:
 * each handler as a function from the table before the request to the
 * response and the table after it. The resource classes are proved to follow
 * these functions; the lemmas here relate the handlers to one another.
 */
module Crud {
  import opened Wrappers
  import opened JavaLang
  import opened Http
  import opened Store

  /**
   * What tells the resources apart: the entity name in alerts, the prefix of
   * `Location`, and the message of the alert that refuses a create with an id.
   */
  datatype Resource = Resource(entityName: string, locationPrefix: string, idExistsMessage: string)

  function IdExists(res: Resource): Alert {
    Failure(res.entityName, "idexists", res.idExistsMessage)
  }

  /** The outcome of a successful insert: 201, the saved entity, its `Location` and a creation alert. */
  ghost predicate Inserted<F>(t: Table<F>, e: Entity<F>, res: Resource, r: Response<Entity<F>>, t': Table<F>) {
    && r.body.Some? && r.body.value.id.Some?
    && var id := r.body.value.id.value;
    && r.status == Created
    && id !in t.rows
    && r.body.value.data == e.data
    && t'.rows == t.rows[id := e.data]
    && |t'.rows| == |t.rows| + 1
    && r.location == Some(res.locationPrefix + Decimal(id))
    && r.alert == Some(EntityCreation(res.entityName, Decimal(id)))
  }

  /** `e` is a row of `t`, under its own id. */
  ghost predicate StoredIn<F>(t: Table<F>, e: Entity<F>) {
    e.id.Some? && e.id.value in t.rows && e.data == t.rows[e.id.value]
  }

  /** POST on the collection. */
  function Create<F>(t: Table<F>, e: Entity<F>, res: Resource): (out: (Response<Entity<F>>, Table<F>))
    requires t.Valid()
    ensures out.1.Valid()
    ensures out.0.status == BadRequest <==> e.id.Some?
    ensures out.0.status == BadRequest ==> out == (Response(BadRequest, None, None, Some(IdExists(res))), t)
    ensures out.0.status == InternalServerError <==> e.id.None? && t.nextId > MaxLong
    ensures out.0.status == InternalServerError ==> out == (Response(InternalServerError, None, None, None), t)
    ensures out.0.status == Created <==> e.id.None? && t.nextId <= MaxLong
    ensures out.0.status == Created ==> Inserted(t, e, res, out.0, out.1)
  {
    if e.id.Some? then
      (Response(BadRequest, None, None, Some(IdExists(res))), t)
    else
      match t.Save(e)
      case (None, t') => (Response(InternalServerError, None, None, None), t')
      case (Some(saved), t') =>
        var id := Decimal(saved.id.value);
        (Response(Created, Some(saved), Some(res.locationPrefix + id), Some(EntityCreation(res.entityName, id))), t')
  }

  /** PUT on the collection. */
  function Update<F>(t: Table<F>, e: Entity<F>, res: Resource): (out: (Response<Entity<F>>, Table<F>))
    requires t.Valid()
    ensures out.1.Valid()
    ensures e.id.None? ==> out == Create(t, e, res)
    ensures e.id.Some? && e.id.value in t.rows ==>
              && out.0 == Response(Ok, Some(e), None, Some(EntityUpdate(res.entityName, Decimal(e.id.value))))
              && out.1 == Table(t.rows[e.id.value := e.data], t.nextId)
              && |out.1.rows| == |t.rows|
    ensures e.id.Some? && e.id.value !in t.rows ==>
              if t.nextId <= MaxLong then
                && out.0.status == Ok
                && out.0.alert == Some(EntityUpdate(res.entityName, Decimal(e.id.value)))
                && out.0.body.Some? && out.0.body.value.id.Some?
                && var id := out.0.body.value.id.value;
                && id !in t.rows
                && out.1.rows == t.rows[id := e.data]
                && |out.1.rows| == |t.rows| + 1
              else
                out == (Response(InternalServerError, None, None, None), t)
  {
    if e.id.None? then
      Create(t, e, res)
    else
      match t.Save(e)
      case (None, t') => (Response(InternalServerError, None, None, None), t')
      case (Some(saved), t') =>
        (Response(Ok, Some(saved), None, Some(EntityUpdate(res.entityName, Decimal(e.id.value)))), t')
  }

  /** GET on `<collection>/{id}`. */
  function Get<F>(t: Table<F>, id: Int64): (r: Response<Entity<F>>)
    ensures r.status == Ok <==> id in t.rows
    ensures r.status == Ok ==> r == Response(Ok, Some(Entity(Some(id), t.rows[id])), None, None)
    ensures r.status != Ok ==> r == Response(NotFound, None, None, None)
  {
    match t.FindOne(id)
    case Some(found) => Response(Ok, Some(found), None, None)
    case None => Response(NotFound, None, None, None)
  }

  /** DELETE on `<collection>/{id}`. */
  function Delete<F>(t: Table<F>, id: Int64, res: Resource): (out: (Response<Entity<F>>, Table<F>))
    requires t.Valid()
    ensures out.1.Valid()
    ensures out.0 == Response(Ok, None, None, Some(EntityDeletion(res.entityName, Decimal(id))))
    ensures id !in out.1.rows && out.1.nextId == t.nextId
    ensures forall k :: k in t.rows && k != id ==> k in out.1.rows && out.1.rows[k] == t.rows[k]
    ensures |out.1.rows| == if id in t.rows then |t.rows| - 1 else |t.rows|
  {
    (Response(Ok, None, None, Some(EntityDeletion(res.entityName, Decimal(id)))), t.Delete(id))
  }

  /** GET on the collection, one page at a time. */
  function ListPage<F>(t: Table<F>, p: PageRequest): (r: Response<seq<Entity<F>>>)
    requires t.Valid()
    ensures r.status == Ok && r.location == None && r.alert == None
    ensures r.body.Some? && |r.body.value| <= p.size
    ensures forall i :: 0 <= i < |r.body.value| ==> StoredIn(t, r.body.value[i])
    ensures r.body == Some(Page(ListAll(t), p))
  {
    var all := t.FindAll();
    var content := Page(all, p);
    forall i | 0 <= i < |content| ensures StoredIn(t, content[i]) {
      assert content[i] == all[Offset(p) + i];
    }
    Response(Ok, Some(content), None, None)
  }

  /** GET on the collection, everything at once. */
  function ListAll<F>(t: Table<F>): (all: seq<Entity<F>>)
    requires t.Valid()
    ensures |all| == |t.rows|
    ensures forall k :: k in t.rows ==> Entity(Some(k), t.rows[k]) in all
    ensures forall e :: e in all ==> StoredIn(t, e)
  {
    t.FindAll()
  }

  /** The bodies of pages 0 to n - 1 of size `size`, one after the other. */
  function ListedPages<F>(t: Table<F>, size: PageSize, n: nat): seq<Entity<F>>
    requires t.Valid()
  {
    if n == 0 then [] else ListedPages(t, size, n - 1) + ListPage(t, PageRequest(n - 1, size)).body.value
  }

  lemma {:induction false} ListedPagesAreFirstPages<F>(t: Table<F>, size: PageSize, n: nat)
    requires t.Valid()
    ensures ListedPages(t, size, n) == FirstPages(ListAll(t), size, n)
  {
    if n > 0 {
      ListedPagesAreFirstPages(t, size, n - 1);
    }
  }

  /** Asking for every page in turn returns the whole listing, each row once and in order. */
  lemma ListPagesCoverListAll<F>(t: Table<F>, size: PageSize)
    requires t.Valid()
    ensures ListedPages(t, size, (|t.rows| + size - 1) / size) == ListAll(t)
  {
    ListedPagesAreFirstPages(t, size, (|t.rows| + size - 1) / size);
    PagesCoverAll(ListAll(t), size);
  }

  /**
   * After a successful create, the id at the end of `Location` reads back as
   * the new id, and GET on it finds exactly the entity the create returned.
   */
  lemma CreateThenGet<F>(t: Table<F>, e: Entity<F>, res: Resource)
    requires t.Valid() && Create(t, e, res).0.status == Created
    ensures var (r, t') := Create(t, e, res);
            var id := r.body.value.id.value;
            && r.location.value[..|res.locationPrefix|] == res.locationPrefix
            && ParseLong(r.location.value[|res.locationPrefix|..]) == Some(id)
            && Get(t', id) == Response(Ok, r.body, None, None)
  {
    var (r, t') := Create(t, e, res);
    var id := r.body.value.id.value;
    assert r.location.value[|res.locationPrefix|..] == Decimal(id);
  }

  /** A successful create adds the saved entity to the full listing, which grows by one. */
  lemma CreateThenList<F>(t: Table<F>, e: Entity<F>, res: Resource)
    requires t.Valid() && Create(t, e, res).0.status == Created
    ensures var (r, t') := Create(t, e, res);
            && |ListAll(t')| == |ListAll(t)| + 1
            && r.body.value in ListAll(t')
  {
    var (r, t') := Create(t, e, res);
    var id := r.body.value.id.value;
    assert t'.rows[id] == e.data;
  }

  /**
   * Ids only grow, so the entity a create has just saved is the last one the
   * full listing shows.
   */
  lemma CreatedIsListedLast<F>(t: Table<F>, e: Entity<F>, res: Resource)
    requires t.Valid() && Create(t, e, res).0.status == Created
    ensures var (r, t') := Create(t, e, res);
            var all := ListAll(t');
            |all| > 0 && all[|all| - 1] == r.body.value
  {
    var (r, t') := Create(t, e, res);
    var id := r.body.value.id.value;
    assert id == t.nextId;
    assert r.body.value == Entity(Some(id), t'.rows[id]);
    t'.MaxIsListedLast(id);
  }

  /** After an update of a stored id, GET on that id finds the submitted fields. */
  lemma UpdateThenGet<F>(t: Table<F>, e: Entity<F>, res: Resource)
    requires t.Valid() && e.id.Some? && e.id.value in t.rows
    ensures Get(Update(t, e, res).1, e.id.value) == Response(Ok, Some(e), None, None)
  {
  }

  /** Repeating an update of a stored id changes nothing more. */
  lemma UpdateIdempotent<F>(t: Table<F>, e: Entity<F>, res: Resource)
    requires t.Valid() && e.id.Some? && e.id.value in t.rows
    ensures var (r, t') := Update(t, e, res);
            Update(t', e, res) == (r, t')
  {
    var t' := Update(t, e, res).1;
    assert t'.rows[e.id.value := e.data] == t'.rows;
  }

  /** After a delete, GET on the id is 404. */
  lemma DeleteThenGet<F>(t: Table<F>, id: Int64, res: Resource)
    requires t.Valid()
    ensures Get(Delete(t, id, res).1, id) == Response(NotFound, None, None, None)
  {
  }

  /** Deleting twice answers the same and leaves the same table as deleting once. */
  lemma DeleteIdempotent<F>(t: Table<F>, id: Int64, res: Resource)
    requires t.Valid()
    ensures var (r, t') := Delete(t, id, res);
            Delete(t', id, res) == (r, t')
  {
    var t' := Delete(t, id, res).1;
    assert t'.rows - {id} == t'.rows;
  }

  /** Deleting an id that is not stored changes nothing and still answers 200. */
  lemma DeleteMissing<F>(t: Table<F>, id: Int64, res: Resource)
    requires t.Valid() && id !in t.rows
    ensures Delete(t, id, res).1 == t
    ensures Delete(t, id, res).0.status == Ok
  {
    assert t.rows - {id} == t.rows;
  }

  /** Deleting what a create just inserted gives the table back, up to the spent id. */
  lemma CreateThenDelete<F>(t: Table<F>, e: Entity<F>, res: Resource)
    requires t.Valid() && Create(t, e, res).0.status == Created
    ensures var (r, t') := Create(t, e, res);
            Delete(t', r.body.value.id.value, res).1.rows == t.rows
  {
    var (r, t') := Create(t, e, res);
    var id := r.body.value.id.value;
    assert t'.rows - {id} == t.rows;
  }
}
