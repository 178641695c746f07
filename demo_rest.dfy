/**
 * `DemoResource`, the REST controller for `Demo` under `/api/demos`. The
 * source reaches the repository through `DemoService`, whose methods only
 * delegate; here the resource calls the repository directly.
 */
module DemoRest {
  import opened Wrappers
  import opened JavaLang
  import opened Http
  import opened Store
  import Crud
  import opened DemoDomain

  const Demos: Crud.Resource := Crud.Resource("demo", "/api/demos/", "A new demo cannot already have an ID")

  class DemoResource {
    const repository: Repository<DemoFields>

    ghost predicate Valid()
      reads repository
    {
      repository.Valid()
    }

    constructor (repository: Repository<DemoFields>)
      ensures this.repository == repository
    {
      this.repository := repository;
    }

    /** POST /api/demos */
    method CreateDemo(demo: Demo) returns (r: Response<Entity<DemoFields>>)
      requires Valid()
      modifies repository
      ensures Valid()
      ensures (r, repository.State()) == Crud.Create(old(repository.State()), demo.Record(), Demos)
    {
      if demo.id != None {
        return Response(BadRequest, None, None, Some(Failure("demo", "idexists", "A new demo cannot already have an ID")));
      }
      var result := repository.Save(demo.Record());
      match result
      case None =>
        r := Response(InternalServerError, None, None, None);
      case Some(saved) =>
        var id := Decimal(saved.id.value);
        r := Response(Created, Some(saved), Some("/api/demos/" + id), Some(EntityCreation("demo", id)));
    }

    /** PUT /api/demos */
    method UpdateDemo(demo: Demo) returns (r: Response<Entity<DemoFields>>)
      requires Valid()
      modifies repository
      ensures Valid()
      ensures (r, repository.State()) == Crud.Update(old(repository.State()), demo.Record(), Demos)
    {
      if demo.id == None {
        r := CreateDemo(demo);
        return;
      }
      var result := repository.Save(demo.Record());
      match result
      case None =>
        r := Response(InternalServerError, None, None, None);
      case Some(saved) =>
        r := Response(Ok, Some(saved), None, Some(EntityUpdate("demo", Decimal(demo.id.value))));
    }

    /** GET /api/demos?page&size */
    function GetAllDemos(pageable: PageRequest): (r: Response<seq<Entity<DemoFields>>>)
      requires Valid()
      reads repository
      ensures r == Crud.ListPage(repository.State(), pageable)
    {
      Response(Ok, Some(Page(repository.FindAll(), pageable)), None, None)
    }

    /** GET /api/demos/{id} */
    function GetDemo(id: Int64): (r: Response<Entity<DemoFields>>)
      reads repository
      ensures r == Crud.Get(repository.State(), id)
    {
      match repository.FindOne(id)
      case Some(demo) => Response(Ok, Some(demo), None, None)
      case None => Response(NotFound, None, None, None)
    }

    /** DELETE /api/demos/{id} */
    method DeleteDemo(id: Int64) returns (r: Response<Entity<DemoFields>>)
      requires Valid()
      modifies repository
      ensures Valid()
      ensures (r, repository.State()) == Crud.Delete(old(repository.State()), id, Demos)
    {
      repository.Delete(id);
      r := Response(Ok, None, None, Some(EntityDeletion("demo", Decimal(id))));
    }
  }

  /**
   * The round trip the integration test walks through, on an empty table:
   * create, read back, update, delete, and read again.
   */
  lemma CreateGetUpdateDeleteScenario()
    ensures var t0 := EmptyTable<DemoFields>();
            var (r1, t1) := Crud.Create(t0, Entity(None, DemoFields(Some("AAAAA"), Some(1))), Demos);
            var (r2, t2) := Crud.Update(t1, Entity(Some(1), DemoFields(Some("BBBBB"), Some(2))), Demos);
            var (r3, t3) := Crud.Delete(t2, 1, Demos);
            && r1.status == Created && r1.location == Some("/api/demos/1")
            && Crud.Get(t1, 1) == Response(Ok, Some(Entity(Some(1), DemoFields(Some("AAAAA"), Some(1)))), None, None)
            && r2.status == Ok && |t2.rows| == 1
            && Crud.Get(t2, 1).body == Some(Entity(Some(1), DemoFields(Some("BBBBB"), Some(2))))
            && r3.status == Ok && |t3.rows| == 0
            && Crud.Get(t3, 1).status == NotFound
  {
    var t0 := EmptyTable<DemoFields>();
    assert Decimal(1) == "1";
    var (r1, t1) := Crud.Create(t0, Entity(None, DemoFields(Some("AAAAA"), Some(1))), Demos);
    assert t1 == Table(map[1 := DemoFields(Some("AAAAA"), Some(1))], 2);
    assert "/api/demos/" + "1" == "/api/demos/1";
    var (r2, t2) := Crud.Update(t1, Entity(Some(1), DemoFields(Some("BBBBB"), Some(2))), Demos);
    assert t2 == Table(map[1 := DemoFields(Some("BBBBB"), Some(2))], 2);
    var (r3, t3) := Crud.Delete(t2, 1, Demos);
    assert t3.rows == map[];
  }
}
