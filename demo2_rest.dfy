/**
 * `Demo2Resource`, the REST controller for `Demo2` under `/api/demo-2-s`, working
 * on its repository directly.
 */
module Demo2Rest {
  import opened Wrappers
  import opened JavaLang
  import opened Http
  import opened Store
  import Crud
  import opened Demo2Domain

  const Demo2s: Crud.Resource := Crud.Resource("demo2", "/api/demo-2-s/", "A new demo2 cannot already have an ID")

  class Demo2Resource {
    const repository: Repository<Demo2Fields>

    ghost predicate Valid()
      reads repository
    {
      repository.Valid()
    }

    constructor (repository: Repository<Demo2Fields>)
      ensures this.repository == repository
    {
      this.repository := repository;
    }

    /** POST /api/demo-2-s */
    method CreateDemo2(demo2: Demo2) returns (r: Response<Entity<Demo2Fields>>)
      requires Valid()
      modifies repository
      ensures Valid()
      ensures (r, repository.State()) == Crud.Create(old(repository.State()), demo2.Record(), Demo2s)
    {
      if demo2.id != None {
        return Response(BadRequest, None, None, Some(Failure("demo2", "idexists", "A new demo2 cannot already have an ID")));
      }
      var result := repository.Save(demo2.Record());
      match result
      case None =>
        r := Response(InternalServerError, None, None, None);
      case Some(saved) =>
        var id := Decimal(saved.id.value);
        r := Response(Created, Some(saved), Some("/api/demo-2-s/" + id), Some(EntityCreation("demo2", id)));
    }

    /** PUT /api/demo-2-s */
    method UpdateDemo2(demo2: Demo2) returns (r: Response<Entity<Demo2Fields>>)
      requires Valid()
      modifies repository
      ensures Valid()
      ensures (r, repository.State()) == Crud.Update(old(repository.State()), demo2.Record(), Demo2s)
    {
      if demo2.id == None {
        r := CreateDemo2(demo2);
        return;
      }
      var result := repository.Save(demo2.Record());
      match result
      case None =>
        r := Response(InternalServerError, None, None, None);
      case Some(saved) =>
        r := Response(Ok, Some(saved), None, Some(EntityUpdate("demo2", Decimal(demo2.id.value))));
    }

    /** GET /api/demo-2-s: the whole table, unpaged, as the body of a 200. */
    function GetAllDemo2S(): (all: seq<Entity<Demo2Fields>>)
      requires Valid()
      reads repository
      ensures all == Crud.ListAll(repository.State())
    {
      repository.FindAll()
    }

    /** GET /api/demo-2-s/{id} */
    function GetDemo2(id: Int64): (r: Response<Entity<Demo2Fields>>)
      reads repository
      ensures r == Crud.Get(repository.State(), id)
    {
      match repository.FindOne(id)
      case Some(found) => Response(Ok, Some(found), None, None)
      case None => Response(NotFound, None, None, None)
    }

    /** DELETE /api/demo-2-s/{id} */
    method DeleteDemo2(id: Int64) returns (r: Response<Entity<Demo2Fields>>)
      requires Valid()
      modifies repository
      ensures Valid()
      ensures (r, repository.State()) == Crud.Delete(old(repository.State()), id, Demo2s)
    {
      repository.Delete(id);
      r := Response(Ok, None, None, Some(EntityDeletion("demo2", Decimal(id))));
    }
  }
}
