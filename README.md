# Feature and Location services: a verified model

The repository is an ASP.NET Core API that stores map features and
locations, each a record of an id, a name and a WKT geometry string. This
project models the parts of it that carry logic of their own:

- the in-memory stores: `ArrayFeatureService`, `ArrayLocationServices`,
  `StringLocationServices` and the exception-throwing `LocationServices`.
  They allocate ids as `max id + 1`, add batches in input order, page with
  `Skip(size * (page - 1)).Take(size)`, replace Name and Wkt on update and
  filter on delete;
- the `Response<T>` envelope with its `Success` and `Fail` factories;
- the `Validate` methods of the Feature DTO, the Location DTO and the
  Location entity;
- `UnitOfWork`: an optional open transaction, a repository created lazily
  and a disposed flag, with the calls a disposed EF Core context refuses;
- the ADO.NET Feature service. Its request guards, offset and limit
  arithmetic and transactional batch insert are modelled over an abstract
  database answer.

Each store is a class whose `seq` field the methods reassign, as the C#
code reassigns its array. Read-only operations are functions of the
store. Each write states the whole new store in terms of `Store`'s
functions: `Stamp` for the records of a batch, `WithoutId` for the
filter and `Replaced` for the update. Lemmas about those functions prove
the following:

- ids stay distinct;
- batch ids increase;
- delete removes exactly the one matching record;
- update changes one record only;
- the next id is fresh, yet a deleted top id is handed out again.

Modules: `Optional` and `Envelope` (Envelope.dfy), `Paging`,
`Validation`, `FeatureDto`, `LocationDto` and `LocationEntity`
(Validation.dfy), `Store`, `ArrayFeatures`, `ArrayLocations`,
`StringLocations`, `LocationServices`, `UnitOfWork` and `AdoNetFeatures`.

The model follows the code, including where it behaves differently from
its neighbours or from what its messages suggest. The two paging members
`ArrayFeatureService.GetFeatures` and `ArrayLocationServices.GetLocations`
are the exception: they compute the skip count exactly. The code's 32-bit
arithmetic is modelled beside them by `PageAsWritten` (see "## Findings").
Where the code differs from what a reader would expect:

- the array services report a missing id from `GetFeatureById` and
  `GetLocationById` with the default status, BadRequest;
- `ArrayFeatureService.GetFeatures` returns the whole store when only one
  of page number and page size is given, instead of refusing the request;
- `ArrayLocationServices.GetLocations` does not refuse a page number
  below 1: in exact arithmetic it returns the first page, but as written
  the skip count wraps from page -214748364 downwards, and some of those
  pages (-214748364 itself) skip past the store and answer "not found"
  (see "## Findings");
- `LocationServices` reports failures by throwing, not through the
  envelope;
- `LocationServices.AddLocations` and `LocationServices.UpdateLocation`
  dereference their argument before the null check, so a null argument
  raises a NullReferenceException rather than the service's own message.

## Model

| member | source | states |
|---|---|---|
| Envelope.Success | API/Models/Response.cs:15-24 | a success envelope carrying exactly the given data, message and status |
| Envelope.Fail | API/Models/Response.cs:26-34 | a failure envelope with the message and status and no data |
| Envelope.DefaultStatuses | API/Models/Response.cs:15-26 | Success defaults to OK with no message; Fail defaults to BadRequest |
| Envelope.FactoriesBuildExactlyWellFormed | API/Models/Response.cs:15-34 | an envelope is built by one of the two factories iff it is a success with data or a failure with a message and no data |
| Paging.Window | API/Services/Feature/ArrayFeatureServices.cs:90-93 | `Skip(n).Take(m)`: a negative count skips or takes nothing; otherwise the slice from n of at most m records |
| Paging.Page | API/Services/Feature/ArrayFeatureServices.cs:90-95 | page p holds at most pageSize records and is empty exactly when the store has no more than `pageSize * (p - 1)` records |
| Paging.PagesArePrefix | API/Services/Feature/ArrayFeatureServices.cs:90-93 | pages 1..k, one after the other, are the first `k * pageSize` records |
| Paging.PagesCoverAll | API/Services/Feature/ArrayFeatureServices.cs:90-93 | reading pages until the data runs out returns every record once, in order |
| Paging.Wrap32 | API/Services/Feature/ArrayFeatureServices.cs:91 | C#'s unchecked `int` arithmetic: the result is a 32-bit value congruent to the exact one, and equal to it when it fits |
| Validation.DtoNameErrors | API/Models/DTOs/Feature/BaseFeatureDto.cs:15-24 | a blank Name gives only NameRequired; otherwise a length error iff the length is outside 3..100, and a character error iff a character is outside the class, both possible together |
| Validation.DtoWktErrors | API/Models/DTOs/Feature/BaseFeatureDto.cs:26-30 | a blank Wkt gives only WktRequired; otherwise a format error iff a character is outside the class |
| Validation.ValidateDto | API/Models/DTOs/Location/BaseLocationDto.cs:14-32 | at most three errors, Name before Wkt, none repeated; empty iff Name and Wkt are valid |
| Validation.DtoErrorsReported | API/Models/DTOs/Feature/BaseFeatureDto.cs:12-29 | each DTO error is reported exactly when its condition holds, and no Id or too-long error is ever reported |
| Validation.NameErrorsReported | API/Models/DTOs/Feature/BaseFeatureDto.cs:14-22 | NameRequired, NameLength and NameCharacters are each reported exactly when their condition holds |
| Validation.WktErrorsReported | API/Models/DTOs/Feature/BaseFeatureDto.cs:24-28 | WktRequired and WktFormat are each reported exactly when their condition holds; no Id or too-long error appears |
| Validation.NameThenWkt | API/Models/DTOs/Feature/BaseFeatureDto.cs:13-31 | Name errors followed by at most one Wkt error are in member order, without repeats, with each member's errors kept |
| FeatureDto.Validate | API/Models/DTOs/Feature/BaseFeatureDto.cs:13-31 | the Feature DTO's errors: length and character errors iff their conditions hold; empty iff Name is 3..100 non-blank characters of letters, digits, space and `,'()/-`, and Wkt is non-blank of A-Z, 0-9, `()`, space and `,-.` |
| FeatureDto.LowerCaseWktRejected | API/Models/DTOs/Feature/BaseFeatureDto.cs:29-30 | a lower-case WKT such as "point(1 1)" fails the format check |
| LocationDto.Validate | API/Models/DTOs/Location/BaseLocationDto.cs:14-32 | the Location DTO's errors: Name only letters, digits and space; Wkt only A-Z, 0-9, `()`, space and `,`; empty iff both are valid |
| LocationDto.DecimalWktRejected | API/Models/DTOs/Location/BaseLocationDto.cs:30-31 | "POINT(1.5 2)" fails the Location format check although the Feature check accepts it |
| LocationEntity.Validate | API/Models/Location.cs:13-25 | errors in the order Id, Name, Wkt, at most three; Id error iff id <= 0; Name blank or, otherwise, over 100; Wkt blank; no minimum length and no character check |
| LocationEntity.ShortSymbolicNameAccepted | API/Models/Location.cs:18-24 | a two-character name of symbols and a WKT "?" pass the entity check |
| Store.Ids | API/Services/Feature/ArrayFeatureServices.cs:72 | the ids of the records, position by position |
| Store.MaxId | API/Services/Feature/ArrayFeatureServices.cs:32 | `Max(x => x.Id)` is the id of some record and no record has a larger one |
| Store.NextId | API/Services/Feature/ArrayFeatureServices.cs:32 | the id allocated by `Max + 1` is larger than every id in the store, so not yet taken, and the id below it is taken |
| Store.MaxIdOfNumbered | API/Services/Feature/ArrayFeatureServices.cs:9-25 | in a store numbered 1, 2, ..., n the largest id is n |
| Store.AppendOneKeepsDistinct | API/Services/Feature/ArrayFeatureServices.cs:32-42 | appending a record with id max+1 keeps the ids distinct |
| Store.MaxIdAppend | API/Services/Feature/ArrayFeatureServices.cs:61-71 | the maximum after an append is the larger of the old maximum and the new id |
| Store.FindFirst | API/Services/Feature/ArrayFeatureServices.cs:111 | `FirstOrDefault(x => x.Id == id)` as a position: the first match, or the length when there is none |
| Store.FirstWithId | API/Services/Feature/ArrayFeatureServices.cs:111-114 | the first record with that id; none exactly when no record has it |
| Store.WithoutId | API/Services/Feature/ArrayFeatureServices.cs:153 | `Where(x => x.Id != id)`: no record with the id remains; the store is unchanged when none had it, and shorter otherwise |
| Store.WithoutIdMembers | API/Services/Feature/ArrayFeatureServices.cs:153 | a record is kept exactly when it was there and has another id |
| Store.WithoutIdSnoc | API/Services/Feature/ArrayFeatureServices.cs:153 | filtering one more record appends it unless it has the id |
| Store.WithoutIdConcat | API/Services/Feature/ArrayFeatureServices.cs:153 | filtering distributes over concatenation, so the records kept keep their order |
| Store.RemovesExactlyOne | API/Services/Feature/ArrayFeatureServices.cs:148-153 | with distinct ids, deleting record k's id removes record k and nothing else |
| Store.NoMatchKept | API/Services/Feature/ArrayFeatureServices.cs:153 | a store without the id is left as it is |
| Store.WithoutIdKeepsDistinct | API/Services/Feature/ArrayFeatureServices.cs:153 | deleting keeps the ids distinct |
| Store.WithFields | API/Services/Feature/ArrayFeatureServices.cs:133-134 | the record keeps its id and takes Name and Wkt from the request |
| Store.Replaced | API/Services/Feature/ArrayFeatureServices.cs:136 | `Select(x => x.Id == id ? e : x)`: same length, the matching records replaced and every other one kept |
| Store.UpdateChangesOnlyThatRecord | API/Services/Feature/ArrayFeatureServices.cs:129-136 | with distinct ids the update replaces exactly record k, in place, and the ids stay distinct |
| Store.Numbered | API/Services/Feature/ArrayFeatureServices.cs:9-25 | the seed shape: n records with ids 1..n, distinct |
| Store.NumberedPrefix | API/Services/Feature/ArrayFeatureServices.cs:9-25 | the first m records of a numbered store are the numbered store of m |
| Store.LastNumberedRemoved | API/Services/Feature/ArrayFeatureServices.cs:143-158 | in a store numbered 1..n, deleting id n removes the last record and the next id handed out is n again |
| Store.LocationSeed | API/Services/Location/ArrayLocationServices.cs:9-13 | the three seeded locations have ids 1..3, distinct, and the next id is 4 |
| Store.FirstNull | API/Services/Location/StringLocationServices.cs:73-76 | the position of the first null request, or the batch length; every request before it is non-null |
| Store.Present | API/Services/Location/StringLocationServices.cs:73-90 | the requests of a null-free batch, position by position |
| Store.Stamp | API/Services/Feature/ArrayFeatureServices.cs:59-72 | the records a batch appends: request k becomes record `start + k` with its Name and Wkt |
| Store.StampIdsIncrease | API/Services/Feature/ArrayFeatureServices.cs:59-72 | the ids a batch returns are in input order and strictly increasing |
| Store.AppendKeepsDistinct | API/Services/Feature/ArrayFeatureServices.cs:59-72 | appending a batch numbered from max+1 keeps the ids distinct |
| Store.MaxIdAfterStamp | API/Services/Feature/ArrayFeatureServices.cs:61 | after a batch the largest id is the one its last record got |
| Store.BatchStep | API/Services/Feature/ArrayFeatureServices.cs:61-72 | one loop step: the current max+1 is the next number of the batch, and appending it extends the stamped prefix by one |
| Store.TopIdIsReused | API/Services/Feature/ArrayFeatureServices.cs:143-158 | after deleting the record with the largest id the next add hands out an id no larger than the deleted one |
| ArrayFeatures.Seed | API/Services/Feature/ArrayFeatureServices.cs:9-25 | fifteen features with ids 1..15 |
| ArrayFeatures.PageAsWritten | API/Services/Feature/ArrayFeatureServices.cs:90-93 | the page as the code computes it in 32-bit `int`: at most pageSize records, and while `pageSize * (pageNumber - 1)` fits in 32 bits, the page the code computes is the intended page |
| ArrayFeatures.OverflowedPageIsFirstPage | API/Services/Feature/ArrayFeatureServices.cs:90-93 | page 1073741825 of size 2 is past the end of the store, yet the code returns the first two features |
| ArrayFeatures.ArrayFeatureService.AddFeature | API/Services/Feature/ArrayFeatureServices.cs:27-47 | null: BadRequest and no change; otherwise one record with id max+1 appended at the end, that id returned, ids kept distinct |
| ArrayFeatures.ArrayFeatureService.AppendBatch | API/Services/Feature/ArrayFeatureServices.cs:57-73 | the loop appends the stamped batch and collects its ids in input order |
| ArrayFeatures.ArrayFeatureService.AddFeatures | API/Services/Feature/ArrayFeatureServices.cs:49-78 | empty batch: NotFound; over 25: BadRequest; store unchanged in both; otherwise the batch is appended numbered from max+1 and its ids are returned in order |
| ArrayFeatures.ArrayFeatureService.GetFeatures | API/Services/Feature/ArrayFeatureServices.cs:80-104 | empty store: NotFound; a missing argument: the whole store; an argument below 1: BadRequest; otherwise the slice `[s*(p-1), min(s*p, n))`, NotFound when empty |
| ArrayFeatures.ArrayFeatureService.GetFeatureById | API/Services/Feature/ArrayFeatureServices.cs:106-119 | id <= 0: BadRequest; missing: Fail with the default BadRequest; otherwise a record of the store with that id |
| ArrayFeatures.ArrayFeatureService.UpdateFeature | API/Services/Feature/ArrayFeatureServices.cs:121-141 | id <= 0 and null request: BadRequest; missing: NotFound; store unchanged in all three; otherwise only Name and Wkt of the first match change |
| ArrayFeatures.ArrayFeatureService.DeleteFeature | API/Services/Feature/ArrayFeatureServices.cs:143-158 | id <= 0: BadRequest; missing: NotFound with the store unchanged; otherwise exactly the matching record is removed, order kept, NoContent |
| ArrayFeatures.LastSeededRemoved | API/Services/Feature/ArrayFeatureServices.cs:9-25 | feature 15 is the last seeded record, and without it the next id is 15 |
| ArrayFeatures.IdReuseScenario | API/Services/Feature/ArrayFeatureServices.cs:27-47 | deleting feature 15 from the seeded store and adding one returns id 15 again |
| ArrayLocations.PageAsWritten | API/Services/Location/ArrayLocationServices.cs:22-27 | the page as the code computes it in 32-bit `int`: at most ten records, and while `10 * (pageNumber - 1)` fits in 32 bits the code returns the intended window |
| ArrayLocations.OverflowedPageIsFirstPage | API/Services/Location/ArrayLocationServices.cs:22-27 | page 214748366 is past the end of the seeded store, yet the code returns the whole store |
| ArrayLocations.NegativePageWrapsPastEnd | API/Services/Location/ArrayLocationServices.cs:22-27 | page -214748364 should give the first page like every page below 1, yet as written the skip count wraps to 2147483646 and the page is empty |
| ArrayLocations.ArrayLocationServices.GetLocations | API/Services/Location/ArrayLocationServices.cs:15-35 | empty store: NotFound; no page number: the whole store; page <= 1: the first page of ten (exact arithmetic; see NegativePageWrapsPastEnd for the code as written); otherwise `[10*(p-1), 10*p)` of the store, NotFound when empty |
| ArrayLocations.ArrayLocationServices.GetLocationById | API/Services/Location/ArrayLocationServices.cs:37-48 | id <= 0: BadRequest; missing: Fail with the default BadRequest; otherwise a stored record with that id |
| ArrayLocations.ArrayLocationServices.DeleteLocation | API/Services/Location/ArrayLocationServices.cs:50-63 | id <= 0: BadRequest; missing: NotFound with the store unchanged; otherwise exactly the matching record removed, NoContent |
| ArrayLocations.ArrayLocationServices.AddLocation | API/Services/Location/ArrayLocationServices.cs:65-86 | null: BadRequest and no change; otherwise one record with id max+1 appended and that id returned |
| ArrayLocations.ArrayLocationServices.AppendBatch | API/Services/Location/ArrayLocationServices.cs:94-124 | the loop appends the stamped batch and collects its ids in input order |
| ArrayLocations.ArrayLocationServices.AddLocations | API/Services/Location/ArrayLocationServices.cs:88-126 | empty batch: NotFound and no change; no upper bound; otherwise the batch appended numbered from max+1, ids returned in order |
| ArrayLocations.ArrayLocationServices.UpdateLocation | API/Services/Location/ArrayLocationServices.cs:129-150 | id <= 0, null request, missing id: failures with the store unchanged; otherwise only Name and Wkt of the first match change |
| StringLocations.StringLocationServices.GetLocations | API/Services/Location/StringLocationServices.cs:14-22 | always a success holding the store, even an empty one |
| StringLocations.StringLocationServices.GetLocationById | API/Services/Location/StringLocationServices.cs:24-32 | no id range check; missing: Fail with the default BadRequest; otherwise a stored record with that id |
| StringLocations.StringLocationServices.DeleteLocation | API/Services/Location/StringLocationServices.cs:34-44 | missing: NotFound with the store unchanged; otherwise exactly the matching record removed, NoContent |
| StringLocations.StringLocationServices.AddLocation | API/Services/Location/StringLocationServices.cs:46-64 | null: BadRequest and no change; otherwise one record with id max+1 appended and returned |
| StringLocations.StringLocationServices.AppendUpToNull | API/Services/Location/StringLocationServices.cs:73-90 | the loop stops at the first null request, having appended every request before it numbered from max+1 |
| StringLocations.StringLocationServices.AddLocations | API/Services/Location/StringLocationServices.cs:66-93 | empty: NotFound; a null at position k fails with the k earlier records kept appended; otherwise all appended and their ids returned in order |
| StringLocations.StringLocationServices.UpdateLocation | API/Services/Location/StringLocationServices.cs:96-114 | id <= 0: "Invalid location ID."; null, missing: failures; store unchanged on every failure; otherwise only Name and Wkt change |
| StringLocations.PartialBatchScenario | API/Services/Location/StringLocationServices.cs:73-90 | a batch whose second request is null fails, yet its first request stays stored under id 4 |
| LocationServices.LocationServices.GetLocations | API/Services/Location/LocationServices.cs:14-17 | a new array equal to the store |
| LocationServices.LocationServices.GetLocationById | API/Services/Location/LocationServices.cs:19-27 | throws "Location not found" iff no record has the id; otherwise the first match |
| LocationServices.LocationServices.DeleteLocation | API/Services/Location/LocationServices.cs:29-38 | missing: throws with the store unchanged; otherwise exactly the matching record removed |
| LocationServices.LocationServices.AddLocation | API/Services/Location/LocationServices.cs:40-58 | null: throws; empty store: `Max` throws with no change; otherwise one record with id max+1 appended |
| LocationServices.LocationServices.AppendUpToNull | API/Services/Location/LocationServices.cs:67-83 | the loop stops at the first null request, having appended every request before it numbered from max+1 |
| LocationServices.LocationServices.AddLocations | API/Services/Location/LocationServices.cs:60-86 | null batch: NullReferenceException; empty: throws; a null at k throws with the k earlier records kept; otherwise all appended |
| LocationServices.LocationServices.UpdateLocation | API/Services/Location/LocationServices.cs:89-107 | null: NullReferenceException; Id <= 0, then a missing id: throws with no change; otherwise only Name and Wkt change |
| LocationServices.PartialWriteScenario | API/Services/Location/LocationServices.cs:67-83 | a batch whose second request is null throws, yet its first request stays stored under id 4 |
| UnitOfWork.Step | API/DAL/UnitOfWork.cs:16-61 | one operation: a disposed unit of work is frozen, disposal and the repository are never undone, a repository is built only before Dispose, and only the first Dispose disposes the context |
| UnitOfWork.Run | API/DAL/UnitOfWork.cs:16-61 | a run of operations: a disposed unit of work comes out unchanged, the context-disposal count never falls and a created repository stays |
| UnitOfWork.RunConcat | API/DAL/UnitOfWork.cs:16-61 | running two histories in turn is running their concatenation |
| UnitOfWork.FirstDispose | API/DAL/UnitOfWork.cs:54-61 | the position of the first Dispose of a history: no Dispose before it, a Dispose at it unless it is the length |
| UnitOfWork.LastTransactionOp | API/DAL/UnitOfWork.cs:29-52 | the last Begin, Commit or Rollback of a run: it occurs in the run and no transaction operation follows it; none exactly when the run has none |
| UnitOfWork.OnlyTransactionOpsMoveTransaction | API/DAL/UnitOfWork.cs:29-52 | on a live unit of work Begin sets the transaction, Commit and Rollback clear it; the other operations never move it |
| UnitOfWork.LiveRun | API/DAL/UnitOfWork.cs:16-52 | a history without Dispose leaves the unit of work live, with a transaction iff its last transaction operation was Begin and a repository iff it was accessed |
| UnitOfWork.FrozenAfterFirstDispose | API/DAL/UnitOfWork.cs:54-61 | after the first Dispose nothing changes: the final state is the one that Dispose left |
| UnitOfWork.OpenIffLastWasBegin | API/DAL/UnitOfWork.cs:29-52 | after any run the transaction field is set iff the last transaction operation before the first Dispose was Begin |
| UnitOfWork.ContextDisposedAtMostOnce | API/DAL/UnitOfWork.cs:54-61 | after any run the context has been disposed once if Dispose was called, and never otherwise |
| UnitOfWork.RepositoryCreatedByFirstAccess | API/DAL/UnitOfWork.cs:16-22 | after any run the repository exists iff it was accessed before the first Dispose |
| UnitOfWork.DisposeKeepsTransaction | API/DAL/UnitOfWork.cs:54-61 | Dispose leaves the `_transaction` field as it was (set or not) and a second Dispose changes nothing |
| UnitOfWork.UnitOfWork.FeatureRepository | API/DAL/UnitOfWork.cs:16-22 | the first access on a live unit of work creates the repository over the context; later accesses return the same instance; on a disposed one with none built the access fails and nothing changes |
| UnitOfWork.UnitOfWork.SaveChanges | API/DAL/UnitOfWork.cs:24-27 | on a live unit of work delegates to the context and returns its count; on a disposed one it fails and nothing is saved; the transaction is left as it is |
| UnitOfWork.UnitOfWork.BeginTransaction | API/DAL/UnitOfWork.cs:29-32 | with no current transaction on a live unit of work a fresh one becomes current; it is refused exactly when one is current or the context is disposed, and then the field keeps what it held |
| UnitOfWork.UnitOfWork.CommitTransaction | API/DAL/UnitOfWork.cs:34-42 | a current transaction is committed, disposed and cleared; with none nothing changes; it is refused, leaving the field set, exactly when one is current and the context was disposed |
| UnitOfWork.UnitOfWork.RollbackTransaction | API/DAL/UnitOfWork.cs:44-52 | a current transaction is rolled back, disposed and cleared; with none nothing changes; it is refused, leaving the field set, exactly when one is current and the context was disposed |
| UnitOfWork.UnitOfWork.Dispose | API/DAL/UnitOfWork.cs:54-61 | only the first call disposes the context and with it the current transaction, neither committed nor rolled back; the `_transaction` field stays set |
| AdoNetFeatures.AddFeature | API/Services/Feature/PostgresqlAdonetFeatureServices.cs:15-34 | null: BadRequest with no command; otherwise the insert is sent, no returned row: InternalServerError, else the returned id |
| AdoNetFeatures.Flatten | API/Services/Feature/PostgresqlAdonetFeatureServices.cs:73-76 | the ids read across all result sets: every id of every set, and nothing else |
| AdoNetFeatures.FlattenConcat | API/Services/Feature/PostgresqlAdonetFeatureServices.cs:73-76 | the ids of two runs of result sets are those of the first followed by those of the second |
| AdoNetFeatures.FlattenPrefix | API/Services/Feature/PostgresqlAdonetFeatureServices.cs:73-76 | the ids read up to row j of result set i are a prefix of all ids |
| AdoNetFeatures.CollectIds | API/Services/Feature/PostgresqlAdonetFeatureServices.cs:73-76 | the read loop collects every id in arrival order, or stops exactly where a failure strikes with the ids before it |
| AdoNetFeatures.AddFeatures | API/Services/Feature/PostgresqlAdonetFeatureServices.cs:36-87 | null or empty: NotFound, over 25: BadRequest, neither opening a transaction; a null request: rolled back with InternalServerError and nothing sent; a failure or an empty first result rolls back with InternalServerError; success, with every id in arrival order, only when committed |
| AdoNetFeatures.FeaturesQuery | API/Services/Feature/PostgresqlAdonetFeatureServices.cs:93-104 | exactly one page argument, or one below 1: BadRequest before any query; otherwise OFFSET `size*(page-1)` in 32-bit `int` and LIMIT size, or the unpaged query |
| AdoNetFeatures.PagedQueryReadsPage | API/Services/Feature/PostgresqlAdonetFeatureServices.cs:102-104 | when the offset fits in 32 bits the paged query reads exactly the page the array services compute |
| AdoNetFeatures.GetFeatures | API/Services/Feature/PostgresqlAdonetFeatureServices.cs:89-146 | guards as in FeaturesQuery; an empty answer is NotFound, paged or not; otherwise every row returned, in order |
| AdoNetFeatures.GetFeatureById | API/Services/Feature/PostgresqlAdonetFeatureServices.cs:148-171 | id <= 0: BadRequest with no query; no row: NotFound; otherwise the first row |
| AdoNetFeatures.UpdateFeature | API/Services/Feature/PostgresqlAdonetFeatureServices.cs:173-201 | id <= 0 then null: BadRequest with no query; no row: NotFound; otherwise the returned row |
| AdoNetFeatures.DeleteFeature | API/Services/Feature/PostgresqlAdonetFeatureServices.cs:203-217 | id <= 0: BadRequest with no query; zero rows affected: NotFound; otherwise Success(true) with NoContent |
| AdoNetFeatures.RejectedRequestsSendNothing | API/Services/Feature/PostgresqlAdonetFeatureServices.cs:148-217 | a request is refused without touching the database exactly when its id is <= 0, or for an update its body is null |

## Left out

- Id allocation `Max(x => x.Id) + 1` is unbounded here; the C# addition overflows at `int.MaxValue`, which no seeded store comes near.
- A store that is empty when an add reaches `Max` makes LINQ throw. In the Response-returning services this is a precondition of AddFeature, AddFeatures, AddLocation and AddLocations. The exception-throwing LocationServices models it as a raised fault.
- Null batch arrays in the three Response-returning services are not modelled, nor null elements in the array services' batches. There `Length` or a member of the element is read before any null check, and the NullReferenceException escapes the service.
- The stores are `seq` values, not arrays of mutable objects. Update mutates the matched object in place and then rebuilds the array; with distinct ids the two are the same. Aliasing of the array returned by the array services' GetFeatures and GetLocations is not modelled.
- The loops of the batch adds sit in helper methods (`AppendBatch`, `AppendUpToNull`, `AppendRecord`), and the first iteration's null check of AddLocations is tested before the loop. The order of effects is unchanged.
- `async`, `Task.Delay` and `Task.FromResult` are simulated latency; every operation is sequential.
- `IsNullOrWhiteSpace` uses the fixed list of .NET whitespace characters. No regex engine is modelled, and each character class is an explicit predicate.
- FeatureDto.Validate, LocationDto.Validate and LocationEntity.Validate: a Dafny `char` is a Unicode scalar value, so the length rules count a character above U+FFFF once where C#'s `Length` counts two UTF-16 code units. A name of 51 such characters passes the 100-character limit here and fails it in the code.
- Messages are plain strings. The ADO.NET service's resource lookups are represented by their keys, and the formatted failure message by `WithCause`.
- The database behind the ADO.NET service is not modelled. Each operation takes the rows, affected count or result sets the database answers with and returns the command it would send. Readers, connections and `HasRows` are not modelled, and neither is the order of rows of `SELECT *`. The single-row operations (AddFeature, GetFeatures, GetFeatureById, UpdateFeature, DeleteFeature) have no try/catch, so a database exception escapes to their caller; only AddFeatures models a database failure.
- AdoNetFeatures.FeaturesQuery: the offset is computed in 32-bit `int` as in the code. What PostgreSQL does with a negative offset after an overflow is not modelled.
- UnitOfWork's context, transactions and repository are stand-in classes recording only what the unit of work does to them; EF Core's change tracking and `SaveChangesAsync` are not modelled. The exceptions a disposed context throws (ObjectDisposedException) and a second `BeginTransactionAsync` throws (InvalidOperationException) are `refused` or `None` results that change nothing.
- The other database-backed services, the repositories, the controllers, dependency injection and the resource helpers are not part of this model.

## Findings

| source | as written | input that shows it | evidently intended | confidence | as-written member | corrected member |
|---|---|---|---|---|---|---|
| API/Services/Feature/ArrayFeatureServices.cs:91 | the skip count `pageSize.Value * (pageNumber.Value - 1)` is computed in 32-bit `int` and wraps to a negative number, which `Skip` treats as 0 | pageNumber 1073741825, pageSize 2 on the seeded store returns features 1 and 2 | a page past the end is "not found" (NotFound) | not executed | ArrayFeatures.OverflowedPageIsFirstPage | ArrayFeatures.ArrayFeatureService.GetFeatures |
| API/Services/Location/ArrayLocationServices.cs:25 | the skip count `10 * (pageNumber - 1)` wraps in 32-bit `int` | pageNumber 214748366 on the seeded store returns all three locations | a page past the end is "not found" (NotFound) | not executed | ArrayLocations.OverflowedPageIsFirstPage | ArrayLocations.ArrayLocationServices.GetLocations |
| API/Services/Location/ArrayLocationServices.cs:25 | the same product wraps the other way for negative page numbers: `10 * -214748365` becomes 2147483646 | pageNumber -214748364 on the seeded store answers "not found" | a page number below 1 gives the first page, as pages 0 and -1 do | not executed | ArrayLocations.NegativePageWrapsPastEnd | ArrayLocations.ArrayLocationServices.GetLocations |
