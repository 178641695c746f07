/**
 * `Demo1Resource`, the REST controller for `Demo1` under `/api/demo-1-s`, working
 * on its repository directly.
 */
module Demo1Rest {
  import opened Wrappers
  import opened JavaLang
  import opened Http
  import opened Store
  import Crud
  import opened Demo1Domain

  const Demo1s: Crud.Resource := Crud.Resource("demo1", "/api/demo-1-s/", "A new demo1 cannot already have an ID")

  class Demo1Resource {
    const repository: Repository<Demo1Fields>

    ghost predicate Valid()
      reads repository
    {
      repository.Valid()
    }

    constructor (repository: Repository<Demo1Fields>)
      ensures this.repository == repository
    {
      this.repository := repository;
    }

    /** POST /api/demo-1-s */
    method CreateDemo1(demo1: Demo1) returns (r: Response<Entity<Demo1Fields>>)
      requires Valid()
      modifies repository
      ensures Valid()
      ensures (r, repository.State()) == Crud.Create(old(repository.State()), demo1.Record(), Demo1s)
    {
      if demo1.id != None {
        return Response(BadRequest, None, None, Some(Failure("demo1", "idexists", "A new demo1 cannot already have an ID")));
      }
      var result := repository.Save(demo1.Record());
      match result
      case None =>
        r := Response(InternalServerError, None, None, None);
      case Some(saved) =>
        var id := Decimal(saved.id.value);
        r := Response(Created, Some(saved), Some("/api/demo-1-s/" + id), Some(EntityCreation("demo1", id)));
    }

    /** PUT /api/demo-1-s */
    method UpdateDemo1(demo1: Demo1) returns (r: Response<Entity<Demo1Fields>>)
      requires Valid()
      modifies repository
      ensures Valid()
      ensures (r, repository.State()) == Crud.Update(old(repository.State()), demo1.Record(), Demo1s)
    {
      if demo1.id == None {
        r := CreateDemo1(demo1);
        return;
      }
      var result := repository.Save(demo1.Record());
      match result
      case None =>
        r := Response(InternalServerError, None, None, None);
      case Some(saved) =>
        r := Response(Ok, Some(saved), None, Some(EntityUpdate("demo1", Decimal(demo1.id.value))));
    }

    /** GET /api/demo-1-s?page&size */
    function GetAllDemo1S(pageable: PageRequest): (r: Response<seq<Entity<Demo1Fields>>>)
      requires Valid()
      reads repository
      ensures r == Crud.ListPage(repository.State(), pageable)
    {
      Response(Ok, Some(Page(repository.FindAll(), pageable)), None, None)
    }

    /** GET /api/demo-1-s/{id} */
    function GetDemo1(id: Int64): (r: Response<Entity<Demo1Fields>>)
      reads repository
      ensures r == Crud.Get(repository.State(), id)
    {
      match repository.FindOne(id)
      case Some(found) => Response(Ok, Some(found), None, None)
      case None => Response(NotFound, None, None, None)
    }

    /** DELETE /api/demo-1-s/{id} */
    method DeleteDemo1(id: Int64) returns (r: Response<Entity<Demo1Fields>>)
      requires Valid()
      modifies repository
      ensures Valid()
      ensures (r, repository.State()) == Crud.Delete(old(repository.State()), id, Demo1s)
    {
      repository.Delete(id);
      r := Response(Ok, None, None, Some(EntityDeletion("demo1", Decimal(id))));
    }
  }
}
