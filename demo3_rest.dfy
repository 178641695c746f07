/**
 * `Demo3Resource`, the REST controller for `Demo3` under `/api/demo-3-s`, working
 * on its repository directly.
 */
module Demo3Rest {
  import opened Wrappers
  import opened JavaLang
  import opened Http
  import opened Store
  import Crud
  import opened Demo3Domain

  const Demo3s: Crud.Resource := Crud.Resource("demo3", "/api/demo-3-s/", "A new demo3 cannot already have an ID")

  class Demo3Resource {
    const repository: Repository<Demo3Fields>

    ghost predicate Valid()
      reads repository
    {
      repository.Valid()
    }

    constructor (repository: Repository<Demo3Fields>)
      ensures this.repository == repository
    {
      this.repository := repository;
    }

    /** POST /api/demo-3-s */
    method CreateDemo3(demo3: Demo3) returns (r: Response<Entity<Demo3Fields>>)
      requires Valid()
      modifies repository
      ensures Valid()
      ensures (r, repository.State()) == Crud.Create(old(repository.State()), demo3.Record(), Demo3s)
    {
      if demo3.id != None {
        return Response(BadRequest, None, None, Some(Failure("demo3", "idexists", "A new demo3 cannot already have an ID")));
      }
      var result := repository.Save(demo3.Record());
      match result
      case None =>
        r := Response(InternalServerError, None, None, None);
      case Some(saved) =>
        var id := Decimal(saved.id.value);
        r := Response(Created, Some(saved), Some("/api/demo-3-s/" + id), Some(EntityCreation("demo3", id)));
    }

    /** PUT /api/demo-3-s */
    method UpdateDemo3(demo3: Demo3) returns (r: Response<Entity<Demo3Fields>>)
      requires Valid()
      modifies repository
      ensures Valid()
      ensures (r, repository.State()) == Crud.Update(old(repository.State()), demo3.Record(), Demo3s)
    {
      if demo3.id == None {
        r := CreateDemo3(demo3);
        return;
      }
      var result := repository.Save(demo3.Record());
      match result
      case None =>
        r := Response(InternalServerError, None, None, None);
      case Some(saved) =>
        r := Response(Ok, Some(saved), None, Some(EntityUpdate("demo3", Decimal(demo3.id.value))));
    }

    /** GET /api/demo-3-s: the whole table, unpaged, as the body of a 200. */
    function GetAllDemo3S(): (all: seq<Entity<Demo3Fields>>)
      requires Valid()
      reads repository
      ensures all == Crud.ListAll(repository.State())
    {
      repository.FindAll()
    }

    /** GET /api/demo-3-s/{id} */
    function GetDemo3(id: Int64): (r: Response<Entity<Demo3Fields>>)
      reads repository
      ensures r == Crud.Get(repository.State(), id)
    {
      match repository.FindOne(id)
      case Some(found) => Response(Ok, Some(found), None, None)
      case None => Response(NotFound, None, None, None)
    }

    /** DELETE /api/demo-3-s/{id} */
    method DeleteDemo3(id: Int64) returns (r: Response<Entity<Demo3Fields>>)
      requires Valid()
      modifies repository
      ensures Valid()
      ensures (r, repository.State()) == Crud.Delete(old(repository.State()), id, Demo3s)
    {
      repository.Delete(id);
      r := Response(Ok, None, None, Some(EntityDeletion("demo3", Decimal(id))));
    }
  }
}
