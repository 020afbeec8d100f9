# Usuarios: pagination links and conditional GET

A Dafny model of the logic in `UsuariosService`, the REST service for users and their
profile images. Two parts of that service are modelled:

- **Pagination links** (`crearLinksUsuarios`). The inputs are the number of stored users,
  the page size and the zero-based record offset. The output is the ordered list of
  navigation links "primeraPagina", "paginaAnterior", "proximaPagina" and "ultimaPagina".
  Each link is a record of its relation, its start offset and its page size
  (`Paginacion.PageLink`).
- **Conditional GET**. `listarUsuarios`, `find` and `recuperarImagen` each compare update
  dates with the request's If-Modified-Since date (`modifiedSince`) and answer 200, 304 or
  404. An answer of 200 from `listarUsuarios` or `find` also attaches an image link
  "usuarios/{id}" to each user returned.

Layout:

- `wrappers.dfy`: `Option`, which stands for a nullable reference.
- `decimal.dfy`: `Long.toString` of a user id, and a parser that reads it back.
- `paginacion.dfy`: the link builder. `LinksUsuarios` is the specification function.
  `CrearLinksUsuarios` builds the same list step by step, as the source does.
- `usuarios.dfy`: the `Usuario` entity as a class whose `links` field the service appends
  to, the listing with its search loop and its link-attaching loop, `find`, and
  `recuperarImagen`.

Inputs the model takes instead of computing them:

- the page the query fetched;
- the user count;
- the user selected by id (`null` when none);
- the If-Modified-Since date (`None` when the header is absent).

Timestamps are integers (milliseconds). `Date.after` is modelled as `>` and `Date.before`
as `<`.

Two details of the page arithmetic:

- For an empty collection the page count is 0, so "ultimaPagina" gets offset `-pageSize`.
  So does "paginaAnterior" when the offset is past the first page. The code does not
  clamp these offsets, and neither does the model (`Paginacion.EmptyCollectionLinks`).
- The page number is Java's `inicio / tamanhoPagina`, which truncates toward zero. The
  model writes this out as `JavaDiv`. For the non-negative offsets the query accepts, it
  equals the floor.

Error paths modelled in `ListarUsuarios` and `RecuperarImagen`:

- A negative offset or page size makes `setFirstResult`/`setMaxResults` throw
  `IllegalArgumentException`.
- A page size of 0 reaches `inicio / tamanhoPagina` only when the page counts as modified.
  It then throws `ArithmeticException`, after the image links have already been attached.
- A user without an image makes `recuperarImagen` dereference a null image.

Each of these is an exception the container answers with 500 (`Fallo`, `ErrorInterno`).

## Model

| member | source | states |
|---|---|---|
| `Paginacion.CrearLinksUsuarios` | 05/src/main/java/pe/joedayz/usuarios/servicios/UsuariosService.java:170-228 | Appending first, the previous link (by the source's two branches), next and last gives exactly `LinksUsuarios(total, size, inicio)` |
| `Paginacion.NumeroPaginasEsTecho` | 05/src/main/java/pe/joedayz/usuarios/servicios/UsuariosService.java:174-179 | The page count is the rounded-up quotient: `n * size >= total`; `(n - 1) * size < total` when there are records; `n == 0` iff `total == 0` |
| `Paginacion.NumeroPaginasMinimo` | 05/src/main/java/pe/joedayz/usuarios/servicios/UsuariosService.java:174-179 | Every page count `m` with `m * size >= total` is at least the computed count, so the computed count is the least one |
| `Paginacion.PaginaActualContieneInicio` | 05/src/main/java/pe/joedayz/usuarios/servicios/UsuariosService.java:181-182 | For `inicio >= 0`, the truncating division equals `inicio / size`, is non-negative, and the page `[cp*size, (cp+1)*size)` contains the offset |
| `Paginacion.LinksCases` | 05/src/main/java/pe/joedayz/usuarios/servicios/UsuariosService.java:184-227 | The result is exactly one of `[first, prev, next, last]`, `[first, prev, last]`, `[first, next, last]` or `[first, last]`, chosen by `cp > 0` and `cp < pc - 1` |
| `Paginacion.LinksShape` | 05/src/main/java/pe/joedayz/usuarios/servicios/UsuariosService.java:184-227 | 2 to 4 links. The first is "primeraPagina" at 0 and the last is "ultimaPagina" at `(pc - 1) * size`. Relations strictly keep the order first, previous, next, last |
| `Paginacion.RelNameInjective` | 05/src/main/java/pe/joedayz/usuarios/servicios/UsuariosService.java:187-224 | The four relation names "primeraPagina", "paginaAnterior", "proximaPagina" and "ultimaPagina" are pairwise distinct |
| `Paginacion.LinkNames` | 05/src/main/java/pe/joedayz/usuarios/servicios/UsuariosService.java:184-227 | By the names the response carries, the list opens with "primeraPagina", closes with "ultimaPagina", and no name appears twice |
| `Paginacion.PreviousLink` | 05/src/main/java/pe/joedayz/usuarios/servicios/UsuariosService.java:190-208 | "paginaAnterior" is present iff `cp > 0`. Its offset is `(cp - 1) * size` when `cp <= pc`, and `(pc - 1) * size` otherwise |
| `Paginacion.NextLink` | 05/src/main/java/pe/joedayz/usuarios/servicios/UsuariosService.java:210-217 | "proximaPagina" is present iff `cp < pc - 1`, with offset `(cp + 1) * size` |
| `Paginacion.LinksOnPageBoundaries` | 05/src/main/java/pe/joedayz/usuarios/servicios/UsuariosService.java:184-225 | Every link carries the requested page size, and its offset is a multiple of it |
| `Paginacion.LinksWithinCollection` | 05/src/main/java/pe/joedayz/usuarios/servicios/UsuariosService.java:178-225 | For a non-empty collection and `inicio >= 0`, every link offset lies in `[0, total)`, so every link opens a non-empty page |
| `Paginacion.EmptyCollectionLinks` | 05/src/main/java/pe/joedayz/usuarios/servicios/UsuariosService.java:190-225 | With no records the links are first@0 and last@`-size`. An offset past the first page also gets a previous link at `-size` |
| `Paginacion.NoNextOnLastPage` | 05/src/main/java/pe/joedayz/usuarios/servicios/UsuariosService.java:210-217 | An offset on or past the start of the last page yields no "proximaPagina" link |
| `Paginacion.NeighboursOfAlignedOffset` | 05/src/main/java/pe/joedayz/usuarios/servicios/UsuariosService.java:190-217 | For a page-aligned offset inside the collection, previous is at `inicio - size` and next at `inicio + size` |
| `Paginacion.OffsetsFitInLong` | 05/src/main/java/pe/joedayz/usuarios/servicios/UsuariosService.java:170-225 | With an `int` offset and page size and a count below 2^53 (where the double-based page count equals the integer one), every computed offset lies in `[-2^31+1, 2^63-1]`, so the `long` products do not overflow |
| `Paginacion.TwentyFiveRecordsExamples` | 05/src/main/java/pe/joedayz/usuarios/servicios/UsuariosService.java:170-228 | Exact lists for 25 records, pages of 10, at offsets 0, 10 and 20 |
| `Paginacion.UnalignedOffsetExample` | 05/src/main/java/pe/joedayz/usuarios/servicios/UsuariosService.java:181-217 | At offset 15 the offset is truncated to page 1: previous at 0, next at 20 |
| `Decimal.LongToString` | 05/src/main/java/pe/joedayz/usuarios/servicios/UsuariosService.java:162-163 | The rendering of an id is non-empty, and it starts with '-' exactly when the id is negative |
| `Decimal.LongRoundTrip` | 05/src/main/java/pe/joedayz/usuarios/servicios/UsuariosService.java:162-163 | Parsing the decimal rendering of any id gives the id back |
| `Decimal.LongToStringInjective` | 05/src/main/java/pe/joedayz/usuarios/servicios/UsuariosService.java:162-163 | Distinct ids render differently |
| `Usuarios.ImageLinkNamesUser` | 05/src/main/java/pe/joedayz/usuarios/servicios/UsuariosService.java:161-168 | The image link has rel "imagen", type "image/*" and uri "usuarios/{id}", and the id can be read back from the uri |
| `Usuarios.ImageLinkInjective` | 05/src/main/java/pe/joedayz/usuarios/servicios/UsuariosService.java:161-168 | Two users with different ids never get the same image link |
| `Usuarios.Usuario.AgregarLink` | 05/src/main/java/pe/joedayz/usuarios/servicios/UsuariosService.java:59 | Appends the link to the user's links and writes no other field |
| `Usuarios.CalcularActualizado` | 05/src/main/java/pe/joedayz/usuarios/servicios/UsuariosService.java:41-53 | The flag is true iff there is no date, or some user of the page was updated strictly after it (the search loop that stops at the first such user) |
| `Usuarios.ModifiedIffNewestAfter` | 05/src/main/java/pe/joedayz/usuarios/servicios/UsuariosService.java:43-49 | With a date, the page counts as modified iff it is non-empty and its newest update is after the date |
| `Usuarios.ListingMonotone` | 05/src/main/java/pe/joedayz/usuarios/servicios/UsuariosService.java:43-49 | If the listing answers 200 for some date, it also answers 200 for every earlier date |
| `Usuarios.AgregarLinksImagen` | 05/src/main/java/pe/joedayz/usuarios/servicios/UsuariosService.java:57-60 | For distinct users, each gains exactly one link: the link "usuarios/{id}" to its own image |
| `Usuarios.ListarUsuarios` | 05/src/main/java/pe/joedayz/usuarios/servicios/UsuariosService.java:29-69 | Negative offset or size: failure, users unchanged. Otherwise 304 iff not modified, with users unchanged. When modified, every user gains its image link, and the answer is 200 with the page and `LinksUsuarios` links, or a division failure when the size is 0 |
| `Usuarios.Find` | 05/src/main/java/pe/joedayz/usuarios/servicios/UsuariosService.java:72-86 | No user gives 404. No date, or an update strictly after the date, gives 200 with the same user and its image link appended. Otherwise 304, including on an equal date, with links unchanged |
| `Usuarios.SingleUserListingAgreesWithFind` | 05/src/main/java/pe/joedayz/usuarios/servicios/UsuariosService.java:41-86 | A page holding one user counts as modified iff `find` answers 200 for that user |
| `Usuarios.ListingAgreesWithFind` | 05/src/main/java/pe/joedayz/usuarios/servicios/UsuariosService.java:41-86 | With a date, a page counts as modified iff `find` would answer 200 for at least one of its users |
| `Usuarios.FindMonotone` | 05/src/main/java/pe/joedayz/usuarios/servicios/UsuariosService.java:76-78 | If `find` answers 200 for some date, it also answers 200 for every earlier date |
| `Usuarios.RecuperarImagen` | 05/src/main/java/pe/joedayz/usuarios/servicios/UsuariosService.java:145-159 | No user gives 404 and no image gives a null-dereference failure. An image updated strictly before the date gives 304. Otherwise 200, carrying exactly the stored image's bytes, content type and description |
| `Usuarios.EqualDateAsymmetry` | 05/src/main/java/pe/joedayz/usuarios/servicios/UsuariosService.java:72-159 | On a date equal to the update date, `find` answers 304 while `recuperarImagen` answers 200 |
| `Usuarios.ImageNotModifiedVersusFind` | 05/src/main/java/pe/joedayz/usuarios/servicios/UsuariosService.java:72-159 | The image answers 304 iff `find` would not answer 200 and the dates differ |
| `Usuarios.ImageMonotone` | 05/src/main/java/pe/joedayz/usuarios/servicios/UsuariosService.java:152-155 | If the image answers 200 for some date, it also answers 200 for every earlier date |

## Left out

- Queries, `persist`, `merge`, `remove` and `em.find` are not modelled. They are object-relational mapper calls, so the fetched page, the count and the user found are inputs.
- `create`, both `update` overloads, both `delete` overloads and `agregarImagen` (lines 89-142) are not modelled. They are direct persistence pass-throughs with no logic of their own.
- `setFirstResult`/`setMaxResults` slicing is not modelled, only their rejection of negative arguments.
- `UriBuilder`/`UriInfo` string building and `Response` construction are not modelled. Links are records of relation, offset and page size, and the base path of the pagination links is omitted. The header name `CAMPO_DESCRIPCION_IMAGEN` and the query parameter names `PARAM_INICIO`/`PARAM_TAMANHO_PAGINA` belong to `UsuariosServiceInterface`, which is not part of this model.
- Paginacion.NumeroPaginas: uses integer ceiling division instead of `Math.ceil` on doubles (lines 174-179). The two agree for every count below 2^53. Floating point is not modelled.
- The Java source of the entity classes `Usuario`, `Imagen`, `Usuarios` and `Link` is not available. The model gives `Usuario`, `Imagen` and `Link` the fields the service uses, and `ListadoOk` stands for `Usuarios`. `agregarLink` is assumed to append to the user's list of links.
- The `Integer` parameters `inicio` and `tamanhoPagina` of `listarUsuarios` are assumed non-null. A null one would make `setFirstResult(inicio)` or `tamanhoPagina.intValue()` throw a `NullPointerException`, and that path is not modelled.
- Paginacion.OffsetsFitInLong: stated only for counts below 2^53. Above that the double-based page count can exceed the integer one, and the Java product `(numeroPaginas - 1) * tamanhoPagina` can then overflow.
- Update dates are assumed non-null. A null `fechaActualizacion` would make the source throw a `NullPointerException`, and that path is not modelled.
- Usuarios.ListarUsuarios and Usuarios.AgregarLinksImagen require the page to hold distinct user objects, as entities returned by one query are. The model does not say what happens when the same object appears twice.
- Transaction rollback after an exception is not modelled.
- `AutoresService` (a SOAP endpoint with one query and console output) and `CountryConfiguration` (Spring bean wiring) are not modelled. They contain no logic.
