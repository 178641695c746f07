/**
 * What a REST handler hands back to the web framework: a status, an optional
 * JSON body, an optional `Location` header and an optional alert (the pair of
 * headers that tells a client which entity was created, updated or deleted,
 * or which error occurred).
 */
module Http {
  import opened Wrappers

  const Ok: int := 200
  const Created: int := 201
  const BadRequest: int := 400
  const NotFound: int := 404
  const InternalServerError: int := 500

  /** The alerts the resources attach, by kind, with the entity name and the id or error key. */
  datatype Alert =
    | EntityCreation(entityName: string, param: string)
    | EntityUpdate(entityName: string, param: string)
    | EntityDeletion(entityName: string, param: string)
    | Failure(entityName: string, errorKey: string, defaultMessage: string)

  datatype Response<T> = Response(status: int, body: Option<T>, location: Option<string>, alert: Option<Alert>)
}
