# Product catalogue: a verified model

This project models the product catalogue of a small Spring service: one table of
products (`Productos`: id, `nombre`, `precio`, `existencia`) kept by a JPA repository,
the service `ProductosServiceImpl` that lists, creates, looks up by name, updates (by id
and by name) and deletes products, and the request checks of `ProductosController` that
decide, for each endpoint, which check runs first, when the service is called and which
status each service exception is answered with.

The project is layered as the program is:

- `productos.dfy` (module `Productos`): the entity, the DTO, and the repository as a value
  `Store(table, nextId)`: rows keyed by id, an id generator that counts up from 1,
  `findAll` (listed in ascending id order, an order the model fixes) and `findByNombre`.
- `service_spec.dfy` (module `ProductosService`): what each service operation does, as a
  function from the store before the call to its result (value or exception) and the
  store after it. Module `ServiceProperties` relates several calls.
- `service.dfy` (module `ProductosServiceImpl`): the service as a class whose fields
  `table` and `nextId` its methods rewrite in place; each method is proved to do what
  the matching `ProductosService` function says.
- `endpoints.dfy` (module `Endpoints`): each controller endpoint as a decision function from
  its raw inputs and the store to a response (status plus payload) and the new store.
  Module `ControllerInvariant` proves that serving any sequence of requests keeps product
  names unique, which the service alone does not.
- `controller.dfy` (module `ProductosController`): the controller as a class holding the
  service object; each endpoint method runs its checks, calls the service, and is proved
  to agree with `Endpoints`. `ConsultarProductos` builds its list with a loop.

Points the model pins down:

- Update by id overwrites `nombre`, `precio` and `existencia` from the DTO, nulls included,
  and never the id. Update by name overwrites only `precio` and `existencia`: the stored
  name never changes, even when the DTO asks for a different, free name.
- Both updates refuse a new name that differs from the current one and is already held.
  Update by id throws `ProductoDuplicadoException`, answered 409. Update by name throws a
  plain `RuntimeException`, which its endpoint answers 404, like an unknown name.
- The duplicate-name check for create exists only in the controller.
  `ServiceProperties.CrearProductoCanDuplicateName` shows the service alone creating a second
  "Pan". `ControllerInvariant.RunKeepsUniqueNames` shows that through the controller no two
  products ever share a name.
- `listaTienda(nombre)` ignores `nombre` and returns the whole catalogue. Only the
  controller insists that the name is present and non-empty.
- Stock 0 is accepted by both update endpoints (`existencia < 0` is refused, not `<= 0`).

All parsing and checking of create's inputs happens in the controller; the service's
`crearProducto` stores whatever it is given.

## Model

| member | source | states |
|---|---|---|
| Productos.Rows | src/main/java/com/utng/integradora/service/Impl/ProductosServiceImpl.java:24-26 | the rows with ids in a range: each is a stored row under its own id, every stored row in the range appears, ids strictly ascend |
| Productos.FindAll | src/main/java/com/utng/integradora/service/Impl/ProductosServiceImpl.java:24-26 | the repository listing: every stored product exactly once; the model picks ascending id order, the repository promises none |
| Productos.FirstNamed | src/main/java/com/utng/integradora/service/Impl/ProductosServiceImpl.java:51-53 | the lowest-id row in a range with exactly the given name; None exactly when no row in the range has it |
| Productos.FindByNombre | src/main/java/com/utng/integradora/service/Impl/ProductosServiceImpl.java:82-87 | a stored product with exactly the given name, present if and only if some stored product holds that name |
| ProductosService.ListaTienda | src/main/java/com/utng/integradora/service/Impl/ProductosServiceImpl.java:23-26 | every stored product once, whatever `nombre` is (in the ascending id order the model picks) |
| ProductosServiceImpl.ProductosServiceImpl.ListaTienda | src/main/java/com/utng/integradora/service/Impl/ProductosServiceImpl.java:23-26 | returns the catalogue listing of the current state and modifies nothing |
| ProductosService.CrearProducto | src/main/java/com/utng/integradora/service/Impl/ProductosServiceImpl.java:33-43 | adds exactly one row under a fresh id (never stored before, generator advances) with the given three values, leaves every other row as it was, returns a DTO with those values |
| ProductosServiceImpl.ProductosServiceImpl.CrearProducto | src/main/java/com/utng/integradora/service/Impl/ProductosServiceImpl.java:33-43 | the in-place insert yields the result and new state `ProductosService.CrearProducto` describes |
| ProductosService.ExisteProductoPorNombre | src/main/java/com/utng/integradora/service/Impl/ProductosServiceImpl.java:50-53 | true if and only if some stored product's name equals the argument exactly |
| ProductosServiceImpl.ProductosServiceImpl.ExisteProductoPorNombre | src/main/java/com/utng/integradora/service/Impl/ProductosServiceImpl.java:50-53 | true if and only if some stored product holds the name; changes nothing |
| ProductosService.ActualizarProducto | src/main/java/com/utng/integradora/service/Impl/ProductosServiceImpl.java:55-78 | not-found exactly when the id is absent; duplicate exactly when a given, different name is held; otherwise the row's three fields become the DTO's (nulls too), id and other rows kept, returns the DTO's values; any failure leaves the store unchanged; name uniqueness is preserved |
| ProductosServiceImpl.ProductosServiceImpl.ActualizarProducto | src/main/java/com/utng/integradora/service/Impl/ProductosServiceImpl.java:55-78 | the lookup, duplicate check and in-place overwrite yield what `ProductosService.ActualizarProducto` describes |
| ProductosService.ActualizarProductoPorNombre | src/main/java/com/utng/integradora/service/Impl/ProductosServiceImpl.java:80-104 | not-found exactly when no product has the name; a plain RuntimeException, never the duplicate exception, exactly when a given, different name is held; otherwise only price and stock of that product change; no stored name ever changes; failures leave the store unchanged |
| ProductosServiceImpl.ProductosServiceImpl.ActualizarProductoPorNombre | src/main/java/com/utng/integradora/service/Impl/ProductosServiceImpl.java:80-104 | the lookup, name check and in-place overwrite yield what `ProductosService.ActualizarProductoPorNombre` describes |
| ProductosService.EliminarProducto | src/main/java/com/utng/integradora/service/Impl/ProductosServiceImpl.java:106-117 | fails exactly on an absent id and then changes nothing; otherwise that id is gone and every other row is untouched |
| ProductosServiceImpl.ProductosServiceImpl.EliminarProducto | src/main/java/com/utng/integradora/service/Impl/ProductosServiceImpl.java:106-117 | the existence check and in-place delete yield what `ProductosService.EliminarProducto` describes |
| ServiceProperties.CrearProductoCanDuplicateName | src/main/java/com/utng/integradora/service/Impl/ProductosServiceImpl.java:33-43 | there is a store with unique names in which `crearProducto` of a held name leaves two products with that name |
| ServiceProperties.ActualizarProductoPorNombreKeepsName | src/main/java/com/utng/integradora/service/Impl/ProductosServiceImpl.java:89-98 | after a successful by-name update asking for another name, the product is still found under its old name with the new price and stock, and the requested name is found nowhere |
| ServiceProperties.EliminarThenCrearUsesFreshId | src/main/java/com/utng/integradora/service/Impl/ProductosServiceImpl.java:106-117 | creating after a delete never reuses the deleted id, and the catalogue size is back where it was |
| Productos.ToDTO | src/main/java/com/utng/integradora/service/Impl/ProductosServiceImpl.java:42 | the entity-to-DTO copy: the DTO takes the entity's name, price and stock and has no id |
| ProductosService.RenameClashes | src/main/java/com/utng/integradora/service/Impl/ProductosServiceImpl.java:64-66 | the duplicate test of both updates: a new name is given, differs from the current one and is held by some stored product |
| Endpoints.NombreVacio | src/main/java/com/utng/integradora/Controller/ProductosController.java:66 | the controller's test that a name is null or empty |
| Endpoints.ActualizacionValida | src/main/java/com/utng/integradora/Controller/ProductosController.java:112-126 | the guards of update by id: positive id, non-empty name, positive price, stock of at least 0 |
| Endpoints.ActualizacionPorNombreValida | src/main/java/com/utng/integradora/Controller/ProductosController.java:148-154 | the guards of update by name: positive price and stock of at least 0, the name unchecked |
| Endpoints.IsNumeric | src/main/java/com/utng/integradora/Controller/ProductosController.java:29-39 | false for null; true only when the double parser accepts the string |
| Endpoints.ConsultarProductos | src/main/java/com/utng/integradora/Controller/ProductosController.java:43-58 | 400 for a null or empty name; otherwise 200 with one DTO per stored product, in the service's order |
| ProductosController.ProductosController.ConsultarProductos | src/main/java/com/utng/integradora/Controller/ProductosController.java:43-58 | the copy loop yields the response `Endpoints.ConsultarProductos` describes and changes nothing |
| Endpoints.AgregarProductos | src/main/java/com/utng/integradora/Controller/ProductosController.java:61-86 | checks empty name, then held name (409, the handler at lines 168-172), then price format, then stock format, each refusal leaving the store as it was; a stock string that passes `isNumeric` but fails `Integer.valueOf` is `Unhandled` with no change; creates exactly when all pass and the integer parse succeeds, with the parsed values, advancing the id generator by one; keeps names unique |
| ProductosController.ProductosController.AgregarProductos | src/main/java/com/utng/integradora/Controller/ProductosController.java:61-86 | the check chain with its service calls yields what `Endpoints.AgregarProductos` describes |
| Endpoints.EliminarProducto | src/main/java/com/utng/integradora/Controller/ProductosController.java:89-102 | 400 exactly for a null or non-positive id, with no service call; 404 exactly for an absent positive id; 204 exactly when the id was stored, which is then removed |
| ProductosController.ProductosController.EliminarProducto | src/main/java/com/utng/integradora/Controller/ProductosController.java:89-102 | the id check and service call yield what `Endpoints.EliminarProducto` describes |
| Endpoints.ActualizarProducto | src/main/java/com/utng/integradora/Controller/ProductosController.java:105-138 | 400 exactly when the id, name, price or stock check fails (stock 0 passes), with no change; 404 exactly for an absent id; 409 exactly for a clashing new name; otherwise 200 with the DTO's values, the row replaced; keeps names unique |
| ProductosController.ProductosController.ActualizarProducto | src/main/java/com/utng/integradora/Controller/ProductosController.java:105-138 | the checks, service call and exception mapping yield what `Endpoints.ActualizarProducto` describes |
| Endpoints.ActualizarProductoPorNombre | src/main/java/com/utng/integradora/Controller/ProductosController.java:141-166 | 400 exactly when price or stock fails (the DTO name is not checked); never 409; 404 exactly for an unknown name or a clashing new name; otherwise 200 with the old name and the new price and stock, that one row taking the DTO's price and stock and every other row kept; the id generator and stored names never change |
| ProductosController.ProductosController.ActualizarProductoPorNombre | src/main/java/com/utng/integradora/Controller/ProductosController.java:141-166 | the checks, service call and exception mapping yield what `Endpoints.ActualizarProductoPorNombre` describes |
| ControllerInvariant.Handle | src/main/java/com/utng/integradora/Controller/ProductosController.java:41-172 | serving any one request keeps the store well formed, never lowers the id generator and keeps names unique |
| ControllerInvariant.Run | src/main/java/com/utng/integradora/Controller/ProductosController.java:41-172 | serving a sequence of requests keeps the store well formed and never lowers the id generator |
| ControllerInvariant.RunKeepsUniqueNames | src/main/java/com/utng/integradora/Controller/ProductosController.java:66-85 | from a store with unique names, every sequence of requests leaves names unique |
| ControllerInvariant.FromEmptyNamesStayUnique | src/main/java/com/utng/integradora/Controller/ProductosController.java:66-85 | from the empty catalogue no sequence of requests produces two products with the same name |
| ControllerInvariant.PanScenario | src/main/java/com/utng/integradora/Controller/ProductosController.java:61-166 | the walk-through: create "Pan" gets id 1; a second "Pan" is 409 and changes nothing; updating "Pan" by name to "Bollo" keeps "Pan" with price 18 and stock 8; deleting id 1 is 204, then 404 |

## Left out

- HTTP and Spring: routing, request binding, `ResponseEntity` construction, status codes as
  numbers and response messages. A response is a status kind plus a payload.
- Logging: it has no effect on behaviour.
- Number parsing: `Double.parseDouble`, `Double.valueOf` and `Integer.valueOf` are
  uninterpreted functions given to the controller. A string the double parser accepts may
  still be refused by `Integer.valueOf` (say "1.5"); the controller does not catch that
  `NumberFormatException`, and the model answers it with the status `Unhandled`, not with
  Spring's own error handling.
- Floating point: `precio` is a real number; NaN, infinities and rounding are not modelled.
- Integer widths: ids (`Long`) and stock (`Integer`) are unbounded integers; generator
  overflow is not modelled, and out-of-range stock is left to the abstract integer parser.
- Store failures: the catch in `crearProducto` that logs and returns null, and
  failures of `existsById` or `deleteById` other than a missing id.
- Productos.FindAll: the model lists the rows in ascending id order; `findAll()` is called
  without a sort, so the repository promises no order at all.
- Productos.FindByNombre: where several products share a name, the model returns the one
  with the lowest id; the real repository throws on a non-unique result. Through the
  controller names stay unique, so this case does not arise there.
- Entities in place: the service overwrites fields of the managed entity and saves it; the
  model builds the updated row as a value and writes it back, so aliasing of entity objects
  is not modelled.
- `handleValidationExceptions`: bean-validation plumbing.
- `listaTodaTienda`: it is the same `findAll()` as `listaTienda`.
- `ProductosService.java`: only signatures. `ProductosDTO.java`: only fields (modelled as
  the `ProductosDTO` datatype).
- Endpoints.HandleProductoDuplicadoException: it has no contract of its own; the 409 it gives
  is stated by `Endpoints.AgregarProductos`.
- Concurrency: the race between the name check and the write under concurrent requests.
