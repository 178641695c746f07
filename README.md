# JHipster demo shop: entities, repositories and REST resources

This project models the core of a small JHipster-generated Spring Boot service.
The service has four JPA entities:

- `Demo`, with an id, a `title` and a `level`;
- `Demo1`, `Demo2` and `Demo3`, each with an id and a `name`.

Each entity has a REST resource under `/api`. The resources offer the same CRUD operations:

- **POST** creates.
  - A body that already carries an id is refused with 400 and an `idexists` alert.
  - Otherwise the entity is saved under a freshly generated id. The answer is 201 with a `Location` of `<collection>/<id>` and a creation alert.
- **PUT** updates.
  - With no id it behaves as POST.
  - Otherwise the entity is saved, and the answer is 200 with an update alert keyed by the submitted id.
- **GET on the collection** lists.
  - `Demo` and `Demo1` return one page.
  - `Demo2` and `Demo3` return every row.
- **GET `/{id}`** answers 200 with the row, or 404.
- **DELETE `/{id}`** removes the row and answers 200 with a deletion alert.

The model is layered.

- `Wrappers.Option` stands in for Java's nullable references.
- `JavaLang` holds the Java library behaviour the code relies on:
  - the `Long` and `Integer` ranges;
  - `Long.toString` (`Decimal`), and the `Long.parseLong` that reads it back;
  - string concatenation of nullable values, which writes `null`;
  - `Long.hashCode` and `Objects.hashCode`.
- `Store` stands in for the Spring Data JPA repositories.
  - `Table` is a table of rows keyed by a generated `Long` id, as a value. It has `FindOne`, `FindAll`, `Save`, `Delete` and paging.
  - `Repository` is the object the resources hold. Its `Save` and `Delete` change the table in place, and are proved to follow `Table`.
- `Http` defines the response. It has a status, an optional body, an optional `Location` and an optional alert (the `HeaderUtil` alert headers, as an abstract value).
- `Crud` states once what every resource does. Each handler is a function from the table before the request to the response and the table after it. The lemmas relate handlers to one another: create then get, update then get, delete then get, idempotence, and the listing after a create.
- `DemoDomain`, `Demo1Domain`, `Demo2Domain` and `Demo3Domain` model the entity classes.
  - Their setters and fluent setters are methods that change the object.
  - `equals`, `hashCode` and `toString` are functions of its fields.
  - Lemmas give each branch of `equals` and its consistency with `hashCode`.
- `DemoRest`, `Demo1Rest`, `Demo2Rest` and `Demo3Rest` model the resource classes.
  - Each handler is a method or function on a class holding its repository.
  - The mutating handlers follow the Java control flow.
  - Each is proved to equal the corresponding `Crud` function on the repository's table, so every `Crud` lemma applies to every resource.

## Model

| member | source | states |
|---|---|---|
| JavaLang.Decimal | demo/src/main/java/com/renmaituan/shop/web/rest/DemoResource.java:53-54 | `Long.toString` gives a non-empty string of digits and an optional minus sign; `Long.parseLong` reads every `long` back from it unchanged |
| JavaLang.ParseShowLong | demo/src/main/java/com/renmaituan/shop/domain/Demo.java:87 | concatenating a nullable `Long` writes `null` or its digits, and reading that text back recovers the value, `null` included |
| JavaLang.ShowLongHasNoComma | demo/src/main/java/com/renmaituan/shop/domain/Demo.java:87 | the id text inside `toString` never contains the `,` that ends it |
| JavaLang.TakeUntilPrefix | demo/src/main/java/com/renmaituan/shop/domain/Demo.java:86-90 | cutting a string at the first comma gives back a comma-free prefix that was followed by a comma |
| JavaLang.ParseLong | demo/src/main/java/com/renmaituan/shop/domain/Demo.java:86 | `Long.parseLong`, as far as the model reads ids back from text: it is specified by `Decimal`, whose contract says that it reads every `long` back from its decimal text |
| JavaLang.TakeLastUntilSuffix | demo/src/main/java/com/renmaituan/shop/domain/Demo.java:88-89 | cutting a string after the last quote gives back a quote-free tail that followed a quote |
| JavaLang.ShowIntegerHasNoQuote | demo/src/main/java/com/renmaituan/shop/domain/Demo.java:88 | the level text inside `toString` never contains the `'` that ends it |
| JavaLang.ReadTwoFieldsJoins | demo/src/main/java/com/renmaituan/shop/domain/Demo1.java:69-74 | whatever the two-field reader reads out of a text puts back together to exactly that text around the fixed pieces |
| JavaLang.ReadTwoFieldsOf | demo/src/main/java/com/renmaituan/shop/domain/Demo1.java:69-74 | the two-field reader reads back both fields of `prefix + id + ", name='" + name + "'}"` when the id holds no comma |
| JavaLang.SplitLastJoins | demo/src/main/java/com/renmaituan/shop/domain/Demo.java:87-89 | whatever splitting at the last separator returns puts back together to the text |
| JavaLang.SplitLastOf | demo/src/main/java/com/renmaituan/shop/domain/Demo.java:87-89 | splitting `b + r + c` at the last `r` gives back `b` and `c` when `c` holds no copy of `r`'s last character |
| JavaLang.ReadThreeFieldsJoins | demo/src/main/java/com/renmaituan/shop/domain/Demo.java:85-91 | whatever the three-field reader reads out of a text puts back together to exactly that text around the fixed pieces |
| JavaLang.ReadThreeFieldsOf | demo/src/main/java/com/renmaituan/shop/domain/Demo.java:85-91 | the three-field reader reads back the id, title and level of a `Demo` text when the id holds no comma and the level no quote |
| JavaLang.LongHashCode | demo/src/main/java/com/renmaituan/shop/domain/Demo.java:80-82 | `Long.hashCode` on the two's-complement bits; specified by `LongHashCodeOfInt` and by each class's `HashCodeAgreesWithEquals` |
| JavaLang.ObjectsHashCode | demo/src/main/java/com/renmaituan/shop/domain/Demo.java:80-82 | `Objects.hashCode`: 0 for null, `Long.hashCode` otherwise; specified by each class's `HashCodeAgreesWithEquals` |
| JavaLang.LongHashCodeOfInt | demo/src/main/java/com/renmaituan/shop/domain/Demo.java:80-82 | `Long.hashCode` of an id between 0 and `Integer.MAX_VALUE` is the id itself |
| Store.Page | demo/src/main/java/com/renmaituan/shop/web/rest/DemoResource.java:96-98 | a page holds at most `size` rows; it is empty past the end; otherwise it is exactly the rows from `page * size` on, in listing order |
| Store.FirstPagesArePrefix | demo/src/main/java/com/renmaituan/shop/service/DemoService.java:46-50 | the first n pages laid end to end are the first `n * size` rows of the listing |
| Store.PagesCoverAll | demo/src/main/java/com/renmaituan/shop/service/DemoService.java:46-50 | paging through the whole listing yields every row exactly once, in order |
| Store.Table.FindOne | demo/src/main/java/com/renmaituan/shop/service/DemoService.java:59-63 | finds a row exactly when the id is stored, and that row carries the id and the stored fields |
| Store.Table.Save | demo/src/main/java/com/renmaituan/shop/service/DemoService.java:33-37 | a stored id is overwritten in place and the count is unchanged; an entity with no id, or an unknown id, is inserted under a fresh id and the count grows by one; saving fails with no change only when the id generator is exhausted; the generator invariant is kept |
| Store.Table.Delete | demo/src/main/java/com/renmaituan/shop/service/DemoService.java:70-73 | afterwards the id is absent and every other row is unchanged; the count drops by one exactly when the id was present |
| Store.Table.FindAll | demo/src/main/java/com/renmaituan/shop/web/rest/Demo2Resource.java:91 | the listing holds every stored row exactly once, each under its own id, in ascending id order |
| Store.Table.MaxIsListedLast | demo/src/test/java/com/renmaituan/shop/web/rest/DemoResourceIntTest.java:110-112 | the row with the largest stored id is the last one `findAll` lists; this holds only because the model lists in ascending id order, which the code does not promise |
| Store.Repository.constructor | demo/src/main/java/com/renmaituan/shop/repository/DemoRepository.java:13 | a new repository is empty and its generator starts at 1 |
| Store.Repository.FindOne | demo/src/main/java/com/renmaituan/shop/web/rest/Demo1Resource.java:114 | `findOne` on the repository object answers what the table answers |
| Store.Repository.FindAll | demo/src/main/java/com/renmaituan/shop/web/rest/Demo2Resource.java:91 | `findAll` on the repository object answers what the table answers |
| Store.Repository.Save | demo/src/main/java/com/renmaituan/shop/web/rest/Demo1Resource.java:53 | the in-place save returns and leaves exactly what `Table.Save` computes from the old table |
| Store.Repository.Delete | demo/src/main/java/com/renmaituan/shop/web/rest/Demo1Resource.java:134 | the in-place delete leaves exactly `Table.Delete` of the old table |
| Crud.Create | demo/src/main/java/com/renmaituan/shop/web/rest/DemoResource.java:47-56 | 400 with the `idexists` alert and no change exactly when the body has an id; otherwise 201, the saved body under a fresh id, `Location` = prefix + id, a creation alert, the submitted fields stored, and one more row; 500 with no change only when ids are exhausted |
| Crud.Update | demo/src/main/java/com/renmaituan/shop/web/rest/DemoResource.java:71-80 | with no id, exactly what create does; with a stored id, 200, the submitted entity as body, an update alert with that id, that row replaced and the count unchanged; with an unknown id, 200, an update alert with the submitted id, and the fields added under a fresh id (500 with no change when ids are exhausted) |
| Crud.Get | demo/src/main/java/com/renmaituan/shop/web/rest/DemoResource.java:111-119 | 200 with the stored row exactly when the id is stored, otherwise 404 with no body |
| Crud.Delete | demo/src/main/java/com/renmaituan/shop/web/rest/DemoResource.java:131-135 | always 200 with a deletion alert for the id; the id is absent afterwards, the other rows are unchanged, and the count drops by one when the id was present |
| Crud.ListPage | demo/src/main/java/com/renmaituan/shop/web/rest/DemoResource.java:93-99 | 200 with exactly the requested page of the full listing: at most `size` rows, each a stored row under its own id |
| Crud.ListPagesCoverListAll | demo/src/main/java/com/renmaituan/shop/web/rest/DemoResource.java:93-99 | the pages 0 to ⌈rows / size⌉ - 1 that GET returns, laid end to end, are the full listing |
| Crud.ListAll | demo/src/main/java/com/renmaituan/shop/web/rest/Demo2Resource.java:89-93 | every stored row exactly once under its own id, and nothing else |
| Crud.CreateThenGet | demo/src/main/java/com/renmaituan/shop/web/rest/DemoResource.java:52-55 | after a create, the `Location` is the collection prefix followed by text that parses back to the new id, and GET on that id returns exactly the created body |
| Crud.CreateThenList | demo/src/test/java/com/renmaituan/shop/web/rest/DemoResourceIntTest.java:100-111 | a create makes the full listing one longer and puts the created entity in it |
| Crud.CreatedIsListedLast | demo/src/test/java/com/renmaituan/shop/web/rest/DemoResourceIntTest.java:110-114 | after a create, the last row of the listing is the created entity with the submitted fields, as the test expects; this holds only because the model lists in ascending id order, which the code does not promise |
| Crud.UpdateThenGet | demo/src/test/java/com/renmaituan/shop/web/rest/DemoResourceIntTest.java:175-179 | after updating a stored id, GET on it returns the submitted fields |
| Crud.UpdateIdempotent | demo/src/main/java/com/renmaituan/shop/web/rest/DemoResource.java:76-79 | repeating an update of a stored id gives the same response and the same table |
| Crud.DeleteThenGet | demo/src/test/java/com/renmaituan/shop/web/rest/DemoResourceIntTest.java:151-152 | after a delete, GET on the id is 404 |
| Crud.DeleteIdempotent | demo/src/main/java/com/renmaituan/shop/web/rest/DemoResource.java:133-134 | deleting twice gives the same response and table as deleting once |
| Crud.DeleteMissing | demo/src/main/java/com/renmaituan/shop/web/rest/DemoResource.java:133-134 | deleting an id that is not stored still answers 200 and changes nothing |
| Crud.CreateThenDelete | demo/src/test/java/com/renmaituan/shop/web/rest/DemoResourceIntTest.java:186-197 | deleting the entity a create just inserted restores the rows to what they were |
| DemoDomain.Demo.constructor | demo/src/main/java/com/renmaituan/shop/domain/Demo.java:20-28 | a new `Demo` has id, title and level all null |
| DemoDomain.Demo.SetId | demo/src/main/java/com/renmaituan/shop/domain/Demo.java:34-36 | sets the id and leaves title and level alone |
| DemoDomain.Demo.Title | demo/src/main/java/com/renmaituan/shop/domain/Demo.java:42-45 | sets the title, leaves id and level alone, and returns the same object |
| DemoDomain.Demo.SetTitle | demo/src/main/java/com/renmaituan/shop/domain/Demo.java:47-49 | sets the title and leaves id and level alone |
| DemoDomain.Demo.Level | demo/src/main/java/com/renmaituan/shop/domain/Demo.java:55-58 | sets the level, leaves id and title alone, and returns the same object |
| DemoDomain.Demo.SetLevel | demo/src/main/java/com/renmaituan/shop/domain/Demo.java:60-62 | sets the level and leaves id and title alone |
| DemoDomain.Demo.ToString | demo/src/main/java/com/renmaituan/shop/domain/Demo.java:85-91 | the text starts with `Demo{id=` and ends with `'}`; the id, title and level texts read back out of it, and the id text parses back to the id, `null` included |
| DemoDomain.ToStringDeterminesFields | demo/src/main/java/com/renmaituan/shop/domain/Demo.java:85-91 | two objects that print the same have the same id and print the same title and level |
| DemoDomain.Demo.Equals | demo/src/main/java/com/renmaituan/shop/domain/Demo.java:64-77 | `equals`; specified by the `Equals*` lemmas below |
| DemoDomain.Demo.HashCode | demo/src/main/java/com/renmaituan/shop/domain/Demo.java:80-82 | `hashCode`; specified by `HashCodeAgreesWithEquals` |
| DemoDomain.EqualsSameReference | demo/src/main/java/com/renmaituan/shop/domain/Demo.java:66-68 | an object equals itself, even with a null id |
| DemoDomain.EqualsNullOrOtherClass | demo/src/main/java/com/renmaituan/shop/domain/Demo.java:69-71 | nothing equals null or an object of another class |
| DemoDomain.EqualsNeedsIds | demo/src/main/java/com/renmaituan/shop/domain/Demo.java:72-75 | two distinct objects are unequal when either id is null |
| DemoDomain.EqualsByIds | demo/src/main/java/com/renmaituan/shop/domain/Demo.java:76 | with both ids set, the objects are equal exactly when the ids are, whatever title and level say |
| DemoDomain.EqualsSymmetric | demo/src/main/java/com/renmaituan/shop/domain/Demo.java:64-77 | `equals` is symmetric |
| DemoDomain.EqualsTransitive | demo/src/main/java/com/renmaituan/shop/domain/Demo.java:64-77 | `equals` is transitive |
| DemoDomain.HashCodeAgreesWithEquals | demo/src/main/java/com/renmaituan/shop/domain/Demo.java:80-82 | equal objects are both `Demo`s and have the same hash code |
| Demo1Domain.Demo1.constructor | demo/src/main/java/com/renmaituan/shop/domain/Demo1.java:20-25 | a new `Demo1` has id and name null |
| Demo1Domain.Demo1.SetId | demo/src/main/java/com/renmaituan/shop/domain/Demo1.java:31-33 | sets the id and leaves the name alone |
| Demo1Domain.Demo1.Name | demo/src/main/java/com/renmaituan/shop/domain/Demo1.java:39-42 | sets only the name and returns the same object |
| Demo1Domain.Demo1.SetName | demo/src/main/java/com/renmaituan/shop/domain/Demo1.java:44-46 | sets only the name |
| Demo1Domain.Demo1.ToString | demo/src/main/java/com/renmaituan/shop/domain/Demo1.java:69-74 | the text starts with `Demo1{id=` and ends with `'}`; the id and name texts read back out of it, and the id text parses back to the id |
| Demo1Domain.ToStringDeterminesFields | demo/src/main/java/com/renmaituan/shop/domain/Demo1.java:69-74 | two objects that print the same have the same id and print the same name |
| Demo1Domain.Demo1.Equals | demo/src/main/java/com/renmaituan/shop/domain/Demo1.java:48-61 | `equals`; specified by the `Equals*` lemmas below |
| Demo1Domain.Demo1.HashCode | demo/src/main/java/com/renmaituan/shop/domain/Demo1.java:64-66 | `hashCode`; specified by `HashCodeAgreesWithEquals` |
| Demo1Domain.EqualsSameReference | demo/src/main/java/com/renmaituan/shop/domain/Demo1.java:50-52 | an object equals itself |
| Demo1Domain.EqualsNullOrOtherClass | demo/src/main/java/com/renmaituan/shop/domain/Demo1.java:53-55 | nothing equals null or an object of another class |
| Demo1Domain.EqualsNeedsIds | demo/src/main/java/com/renmaituan/shop/domain/Demo1.java:56-59 | distinct objects are unequal when either id is null |
| Demo1Domain.EqualsByIds | demo/src/main/java/com/renmaituan/shop/domain/Demo1.java:60 | with both ids set, equality is equality of ids, whatever the names |
| Demo1Domain.EqualsSymmetric | demo/src/main/java/com/renmaituan/shop/domain/Demo1.java:48-61 | `equals` is symmetric |
| Demo1Domain.EqualsTransitive | demo/src/main/java/com/renmaituan/shop/domain/Demo1.java:48-61 | `equals` is transitive |
| Demo1Domain.HashCodeAgreesWithEquals | demo/src/main/java/com/renmaituan/shop/domain/Demo1.java:64-66 | equal objects have the same hash code |
| Demo2Domain.Demo2.constructor | demo/src/main/java/com/renmaituan/shop/domain/Demo2.java:20-25 | a new `Demo2` has id and name null |
| Demo2Domain.Demo2.SetId | demo/src/main/java/com/renmaituan/shop/domain/Demo2.java:31-33 | sets the id and leaves the name alone |
| Demo2Domain.Demo2.Name | demo/src/main/java/com/renmaituan/shop/domain/Demo2.java:39-42 | sets only the name and returns the same object |
| Demo2Domain.Demo2.SetName | demo/src/main/java/com/renmaituan/shop/domain/Demo2.java:44-46 | sets only the name |
| Demo2Domain.Demo2.ToString | demo/src/main/java/com/renmaituan/shop/domain/Demo2.java:69-74 | the text starts with `Demo2{id=` and ends with `'}`; the id and name texts read back out of it, and the id text parses back to the id |
| Demo2Domain.ToStringDeterminesFields | demo/src/main/java/com/renmaituan/shop/domain/Demo2.java:69-74 | two objects that print the same have the same id and print the same name |
| Demo2Domain.Demo2.Equals | demo/src/main/java/com/renmaituan/shop/domain/Demo2.java:48-61 | `equals`; specified by the `Equals*` lemmas below |
| Demo2Domain.Demo2.HashCode | demo/src/main/java/com/renmaituan/shop/domain/Demo2.java:64-66 | `hashCode`; specified by `HashCodeAgreesWithEquals` |
| Demo2Domain.EqualsSameReference | demo/src/main/java/com/renmaituan/shop/domain/Demo2.java:50-52 | an object equals itself |
| Demo2Domain.EqualsNullOrOtherClass | demo/src/main/java/com/renmaituan/shop/domain/Demo2.java:53-55 | nothing equals null or an object of another class |
| Demo2Domain.EqualsNeedsIds | demo/src/main/java/com/renmaituan/shop/domain/Demo2.java:56-59 | distinct objects are unequal when either id is null |
| Demo2Domain.EqualsByIds | demo/src/main/java/com/renmaituan/shop/domain/Demo2.java:60 | with both ids set, equality is equality of ids, whatever the names |
| Demo2Domain.EqualsSymmetric | demo/src/main/java/com/renmaituan/shop/domain/Demo2.java:48-61 | `equals` is symmetric |
| Demo2Domain.EqualsTransitive | demo/src/main/java/com/renmaituan/shop/domain/Demo2.java:48-61 | `equals` is transitive |
| Demo2Domain.HashCodeAgreesWithEquals | demo/src/main/java/com/renmaituan/shop/domain/Demo2.java:64-66 | equal objects have the same hash code |
| Demo3Domain.Demo3.constructor | demo/src/main/java/com/renmaituan/shop/domain/Demo3.java:20-25 | a new `Demo3` has id and name null |
| Demo3Domain.Demo3.SetId | demo/src/main/java/com/renmaituan/shop/domain/Demo3.java:31-33 | sets the id and leaves the name alone |
| Demo3Domain.Demo3.Name | demo/src/main/java/com/renmaituan/shop/domain/Demo3.java:39-42 | sets only the name and returns the same object |
| Demo3Domain.Demo3.SetName | demo/src/main/java/com/renmaituan/shop/domain/Demo3.java:44-46 | sets only the name |
| Demo3Domain.Demo3.ToString | demo/src/main/java/com/renmaituan/shop/domain/Demo3.java:69-74 | the text starts with `Demo3{id=` and ends with `'}`; the id and name texts read back out of it, and the id text parses back to the id |
| Demo3Domain.ToStringDeterminesFields | demo/src/main/java/com/renmaituan/shop/domain/Demo3.java:69-74 | two objects that print the same have the same id and print the same name |
| Demo3Domain.Demo3.Equals | demo/src/main/java/com/renmaituan/shop/domain/Demo3.java:48-61 | `equals`; specified by the `Equals*` lemmas below |
| Demo3Domain.Demo3.HashCode | demo/src/main/java/com/renmaituan/shop/domain/Demo3.java:64-66 | `hashCode`; specified by `HashCodeAgreesWithEquals` |
| Demo3Domain.EqualsSameReference | demo/src/main/java/com/renmaituan/shop/domain/Demo3.java:50-52 | an object equals itself |
| Demo3Domain.EqualsNullOrOtherClass | demo/src/main/java/com/renmaituan/shop/domain/Demo3.java:53-55 | nothing equals null or an object of another class |
| Demo3Domain.EqualsNeedsIds | demo/src/main/java/com/renmaituan/shop/domain/Demo3.java:56-59 | distinct objects are unequal when either id is null |
| Demo3Domain.EqualsByIds | demo/src/main/java/com/renmaituan/shop/domain/Demo3.java:60 | with both ids set, equality is equality of ids, whatever the names |
| Demo3Domain.EqualsSymmetric | demo/src/main/java/com/renmaituan/shop/domain/Demo3.java:48-61 | `equals` is symmetric |
| Demo3Domain.EqualsTransitive | demo/src/main/java/com/renmaituan/shop/domain/Demo3.java:48-61 | `equals` is transitive |
| Demo3Domain.HashCodeAgreesWithEquals | demo/src/main/java/com/renmaituan/shop/domain/Demo3.java:64-66 | equal objects have the same hash code |
| DemoRest.DemoResource.CreateDemo | demo/src/main/java/com/renmaituan/shop/web/rest/DemoResource.java:47-56 | the response and the repository's new table are exactly `Crud.Create` of the old table, with entity name `demo` and prefix `/api/demos/` |
| DemoRest.DemoResource.UpdateDemo | demo/src/main/java/com/renmaituan/shop/web/rest/DemoResource.java:71-80 | the response and new table are exactly `Crud.Update` of the old table |
| DemoRest.DemoResource.GetAllDemos | demo/src/main/java/com/renmaituan/shop/web/rest/DemoResource.java:93-99 | the response is `Crud.ListPage` of the repository's table |
| DemoRest.DemoResource.GetDemo | demo/src/main/java/com/renmaituan/shop/web/rest/DemoResource.java:111-119 | the response is `Crud.Get` of the repository's table |
| DemoRest.DemoResource.DeleteDemo | demo/src/main/java/com/renmaituan/shop/web/rest/DemoResource.java:131-135 | the response and new table are exactly `Crud.Delete` of the old table |
| DemoRest.CreateGetUpdateDeleteScenario | demo/src/test/java/com/renmaituan/shop/web/rest/DemoResourceIntTest.java:97-198 | on an empty table: create answers 201 at `/api/demos/1`; get finds the row; update keeps one row with the new fields; delete empties the table; get then answers 404 |
| Demo1Rest.Demo1Resource.CreateDemo1 | demo/src/main/java/com/renmaituan/shop/web/rest/Demo1Resource.java:48-57 | exactly `Crud.Create` with entity name `demo1` and prefix `/api/demo-1-s/` |
| Demo1Rest.Demo1Resource.UpdateDemo1 | demo/src/main/java/com/renmaituan/shop/web/rest/Demo1Resource.java:72-81 | exactly `Crud.Update` of the old table |
| Demo1Rest.Demo1Resource.GetAllDemo1S | demo/src/main/java/com/renmaituan/shop/web/rest/Demo1Resource.java:94-100 | exactly `Crud.ListPage` of the table |
| Demo1Rest.Demo1Resource.GetDemo1 | demo/src/main/java/com/renmaituan/shop/web/rest/Demo1Resource.java:112-120 | exactly `Crud.Get` of the table |
| Demo1Rest.Demo1Resource.DeleteDemo1 | demo/src/main/java/com/renmaituan/shop/web/rest/Demo1Resource.java:132-136 | exactly `Crud.Delete` of the old table |
| Demo2Rest.Demo2Resource.CreateDemo2 | demo/src/main/java/com/renmaituan/shop/web/rest/Demo2Resource.java:45-54 | exactly `Crud.Create` with entity name `demo2` and prefix `/api/demo-2-s/` |
| Demo2Rest.Demo2Resource.UpdateDemo2 | demo/src/main/java/com/renmaituan/shop/web/rest/Demo2Resource.java:69-78 | exactly `Crud.Update` of the old table |
| Demo2Rest.Demo2Resource.GetAllDemo2S | demo/src/main/java/com/renmaituan/shop/web/rest/Demo2Resource.java:89-93 | exactly `Crud.ListAll` of the table: every row, unpaged |
| Demo2Rest.Demo2Resource.GetDemo2 | demo/src/main/java/com/renmaituan/shop/web/rest/Demo2Resource.java:105-113 | exactly `Crud.Get` of the table |
| Demo2Rest.Demo2Resource.DeleteDemo2 | demo/src/main/java/com/renmaituan/shop/web/rest/Demo2Resource.java:125-129 | exactly `Crud.Delete` of the old table |
| Demo3Rest.Demo3Resource.CreateDemo3 | demo/src/main/java/com/renmaituan/shop/web/rest/Demo3Resource.java:45-54 | exactly `Crud.Create` with entity name `demo3` and prefix `/api/demo-3-s/` |
| Demo3Rest.Demo3Resource.UpdateDemo3 | demo/src/main/java/com/renmaituan/shop/web/rest/Demo3Resource.java:69-78 | exactly `Crud.Update` of the old table |
| Demo3Rest.Demo3Resource.GetAllDemo3S | demo/src/main/java/com/renmaituan/shop/web/rest/Demo3Resource.java:89-93 | exactly `Crud.ListAll` of the table: every row, unpaged |
| Demo3Rest.Demo3Resource.GetDemo3 | demo/src/main/java/com/renmaituan/shop/web/rest/Demo3Resource.java:105-113 | exactly `Crud.Get` of the table |
| Demo3Rest.Demo3Resource.DeleteDemo3 | demo/src/main/java/com/renmaituan/shop/web/rest/Demo3Resource.java:125-129 | exactly `Crud.Delete` of the old table |

## Left out

- HTTP routing, JSON (de)serialisation, `@Timed` metrics and logging are left out. They are framework plumbing. A response is a plain datatype.
- The `HeaderUtil` header names and texts are left out, because `HeaderUtil` is not part of this model. An alert is a value that records its kind, the entity name and the id or error key.
- `PaginationUtil`'s `Link` and `X-Total-Count` headers are left out, because `PaginationUtil` is not part of this model.
- The `sort` parameter of a `Pageable` is not modelled. A page is cut from the listing in ascending id order. The order Spring Data uses without a sort is unspecified, and ascending id order is this model's choice.
- `DemoService` only delegates to `DemoRepository`, adding transactions and logging. `DemoResource` calls the repository directly.
- The Spring Data JPA repositories are empty interfaces whose behaviour lives in the library. `Store` replaces them with an in-memory table with the following rules:
  - Ids are generated from 1 upwards per table and never reused. JHipster's shared `hibernate_sequence` and the database's generation strategy are not modelled.
  - Saving an entity whose id is not stored is treated as a Hibernate merge of a row it cannot find: the entity is inserted under a fresh id. The fresh id may or may not equal the submitted one.
  - Deleting an id that is not stored removes nothing and does not fail. Spring Data's `EmptyResultDataAccessException` for that case is library behaviour and is not modelled.
  - When the id generator passes `Long.MAX_VALUE`, `save` fails. The handler then answers 500 and nothing changes. This stands in for the exception the database would raise.
- The `URISyntaxException` path of create and the other thrown exceptions are not modelled, apart from the generator exhaustion above. The `Location` strings built here are always valid.
- Transactions, the Hibernate second-level cache and concurrent requests are left out. Each request is one atomic step on the table.
- JPA's managed-entity aliasing is not modelled. A request body and a stored row are separate values: the resources store `Record()`, a snapshot of the entity object's fields.
- Getters are not modelled as members. They are plain field reads of the entity classes.
- `Long.parseLong`'s acceptance of non-ASCII Unicode digits is not modelled. `JavaLang.ParseLong` reads ASCII digits only.
- `TestResource` (a constant greeting) and `FeignConfiguration` (annotations only) have no logic and are not part of this model.
- The four integration tests are not modelled as code. The properties they check appear as the `Crud` lemmas and `DemoRest.CreateGetUpdateDeleteScenario`.
- Demo.HashCode, Demo1.HashCode, Demo2.HashCode, Demo3.HashCode: each is stated through its class's `HashCodeAgreesWithEquals` and through `LongHashCodeOfInt`. Their own contracts are empty, because any ensures on them would only repeat `Objects.hashCode(id)`.
- Demo.Equals, Demo1.Equals, Demo2.Equals, Demo3.Equals: each is a predicate without an ensures of its own. Each branch of it, its symmetry and its transitivity are stated by the class's `Equals*` lemmas.
- JavaLang.ParseLong, JavaLang.LongHashCode, JavaLang.ObjectsHashCode: these have no ensures of their own. They are specified by `Decimal`, `LongHashCodeOfInt` and the `HashCodeAgreesWithEquals` lemmas.
- ToString: `toString` prints a null title or name and the text "null" alike, so the two cannot be told apart. The title and name texts read back are compared as printed, not as nullable values.
