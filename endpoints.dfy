/**
 * The decisions of `ProductosController`, stated on values: for each endpoint,
 * the order of its input checks, the service call it makes, and how the
 * service's exceptions become the response's status. Module ProductosController
 * holds the controller object, proved to follow these functions.
 */
module Endpoints {
  import opened Wrappers
  import opened Productos
  import opened ProductosService

  /** The HTTP statuses the controller answers with (`HttpStatus.OK`, ...). */
  datatype Status =
    | Success     // 200 OK
    | BadRequest  // 400
    | NotFound    // 404
    | Conflict    // 409
    | NoContent   // 204
    | Unhandled   // an exception no handler of the controller catches

  /** What the response carries; error messages are not modelled. */
  datatype Body = NoBody | Product(dto: ProductosDTO) | Products(dtos: seq<ProductosDTO>)

  datatype Response = Response(status: Status, body: Body)

  /**
   * The JDK's number parsers, left uninterpreted: `Double.parseDouble` and
   * `Integer.valueOf`, each giving None where it throws NumberFormatException.
   */
  datatype Parsers = Parsers(parseDouble: string -> Option<real>, parseInt: string -> Option<int>)

  /** `isNumeric`: the string is not null and `Double.parseDouble` accepts it. */
  function IsNumeric(p: Parsers, str: Option<string>): (b: bool)
    ensures str.None? ==> !b
    ensures b ==> str.Some? && p.parseDouble(str.value).Some?
  {
    str.Some? && p.parseDouble(str.value).Some?
  }

  /** The controller's "null or isEmpty()" test on a name. */
  predicate NombreVacio(n: Option<string>)
  {
    n.None? || |n.value| == 0
  }

  /** `handleProductoDuplicadoException`: a duplicate escaping an endpoint is answered 409. */
  function HandleProductoDuplicadoException(): Response
  {
    Response(Conflict, NoBody)
  }

  /** The checks `actualizarProducto` makes before calling the service, in their order. */
  predicate ActualizacionValida(id: Option<int>, dto: ProductosDTO)
  {
    && id.Some? && id.value > 0
    && !NombreVacio(dto.nombre)
    && dto.precio.Some? && dto.precio.value > 0.0
    && dto.existencia.Some? && dto.existencia.value >= 0
  }

  /** The checks `actualizarProductoPorNombre` makes: price and stock only, never the name. */
  predicate ActualizacionPorNombreValida(dto: ProductosDTO)
  {
    && dto.precio.Some? && dto.precio.value > 0.0
    && dto.existencia.Some? && dto.existencia.value >= 0
  }

  /**
   * `consultarProductos`: a missing or empty name is refused; otherwise one DTO
   * per stored product, in the service's order.
   */
  function ConsultarProductos(s: Store, dto: ProductosDTO): (r: Response)
    requires ValidStore(s)
    ensures NombreVacio(dto.nombre) ==> r == Response(BadRequest, NoBody)
    ensures !NombreVacio(dto.nombre) ==> r.status == Success && r.body.Products?
    ensures !NombreVacio(dto.nombre) ==>
              && |r.body.dtos| == |FindAll(s)|
              && forall i :: 0 <= i < |FindAll(s)| ==> r.body.dtos[i] == ToDTO(FindAll(s)[i])
    ensures !NombreVacio(dto.nombre) ==> forall k :: k in s.table ==> ToDTO(s.table[k]) in r.body.dtos
  {
    if NombreVacio(dto.nombre) then Response(BadRequest, NoBody)
    else
      var lista := ListaTienda(s, dto.nombre.value);
      Response(Success, Products(seq(|lista|, i requires 0 <= i < |lista| => ToDTO(lista[i]))))
  }

  /**
   * `agregarProductos`: empty name, then duplicate name, then price format, then
   * stock format; the service creates the product only when all four pass.
   */
  function AgregarProductos(p: Parsers, s: Store, nombre: Option<string>, precioStr: Option<string>,
                            existenciaStr: Option<string>): (r: (Response, Store))
    requires ValidStore(s)
    ensures ValidStore(r.1)
    ensures NombreVacio(nombre) ==> r == (Response(BadRequest, NoBody), s)
    ensures !NombreVacio(nombre) && NameHeld(s.table, nombre.value) ==> r == (Response(Conflict, NoBody), s)
    ensures !NombreVacio(nombre) && !NameHeld(s.table, nombre.value) && !IsNumeric(p, precioStr) ==>
              r == (Response(BadRequest, NoBody), s)
    ensures (!NombreVacio(nombre) && !NameHeld(s.table, nombre.value) && IsNumeric(p, precioStr) &&
             !IsNumeric(p, existenciaStr)) ==> r == (Response(BadRequest, NoBody), s)
    ensures (!NombreVacio(nombre) && !NameHeld(s.table, nombre.value) && IsNumeric(p, precioStr) &&
             IsNumeric(p, existenciaStr) && p.parseInt(existenciaStr.value).None?) ==>
              r == (Response(Unhandled, NoBody), s)
    ensures r.0.status == Success <==>
              && !NombreVacio(nombre) && !NameHeld(s.table, nombre.value)
              && IsNumeric(p, precioStr) && IsNumeric(p, existenciaStr)
              && p.parseInt(existenciaStr.value).Some?
    ensures r.0.status != Success ==> r.1 == s
    ensures r.0.status == Success ==>
              var precio, existencia := p.parseDouble(precioStr.value).value, p.parseInt(existenciaStr.value).value;
              && r.0.body == Product(ProductosDTO(nombre, Some(precio), Some(existencia)))
              && r.1.table == s.table[s.nextId := Producto(s.nextId, nombre, Some(precio), Some(existencia))]
              && s.nextId !in s.table
              && r.1.nextId == s.nextId + 1
    ensures UniqueNames(s.table) ==> UniqueNames(r.1.table)
  {
    if NombreVacio(nombre) then (Response(BadRequest, NoBody), s)
    else if ExisteProductoPorNombre(s, nombre.value) then (HandleProductoDuplicadoException(), s)
    else if !IsNumeric(p, precioStr) then (Response(BadRequest, NoBody), s)
    else
      var precio := p.parseDouble(precioStr.value).value;
      if !IsNumeric(p, existenciaStr) then (Response(BadRequest, NoBody), s)
      else
        match p.parseInt(existenciaStr.value)
        // Integer.valueOf may reject what isNumeric accepted ("1.5"); nothing catches it
        case None => (Response(Unhandled, NoBody), s)
        case Some(existencia) =>
          var (productosDTO1, s') := CrearProducto(s, nombre, Some(precio), Some(existencia));
          (Response(Success, Product(productosDTO1)), s')
  }

  /**
   * `eliminarProducto`: a missing or non-positive id is refused without calling
   * the service; any service exception is answered 404; success is 204.
   */
  function EliminarProducto(s: Store, id: Option<int>): (r: (Response, Store))
    requires ValidStore(s)
    ensures ValidStore(r.1) && r.1.nextId == s.nextId && r.0.body == NoBody
    ensures r.0.status == BadRequest <==> id.None? || id.value <= 0
    ensures r.0.status == NotFound <==> id.Some? && id.value > 0 && id.value !in s.table
    ensures r.0.status == NoContent <==> id.Some? && id.value > 0 && id.value in s.table
    ensures r.0.status != NoContent ==> r.1 == s
    ensures r.0.status == NoContent ==>
              && id.value !in r.1.table
              && r.1.table.Keys == s.table.Keys - {id.value}
              && forall k :: k in r.1.table ==> r.1.table[k] == s.table[k]
  {
    if id.None? || id.value <= 0 then (Response(BadRequest, NoBody), s)
    else
      var (res, s') := ProductosService.EliminarProducto(s, id.value);
      match res
      case Pass => (Response(NoContent, NoBody), s')
      case Fail(_) => (Response(NotFound, NoBody), s')
  }

  /**
   * `actualizarProducto`: id, name, price and stock checks refuse with 400; then a
   * duplicate name is 409, any other service exception 404, success 200 with the
   * updated values.
   */
  function ActualizarProducto(s: Store, id: Option<int>, dto: ProductosDTO): (r: (Response, Store))
    requires ValidStore(s)
    ensures ValidStore(r.1) && r.1.nextId == s.nextId
    ensures r.0.status == BadRequest <==> !ActualizacionValida(id, dto)
    ensures r.0.status == NotFound <==> ActualizacionValida(id, dto) && id.value !in s.table
    ensures r.0.status == Conflict <==>
              && ActualizacionValida(id, dto) && id.value in s.table
              && RenameClashes(s.table, s.table[id.value].nombre, dto.nombre)
    ensures r.0.status == Success <==>
              && ActualizacionValida(id, dto) && id.value in s.table
              && !RenameClashes(s.table, s.table[id.value].nombre, dto.nombre)
    ensures r.0.status != Success ==> r.1 == s
    ensures r.0.status == Success ==>
              && r.0.body == Product(dto)
              && r.1.table == s.table[id.value := Producto(id.value, dto.nombre, dto.precio, dto.existencia)]
    ensures UniqueNames(s.table) ==> UniqueNames(r.1.table)
  {
    if id.None? || id.value <= 0 then (Response(BadRequest, NoBody), s)
    else if NombreVacio(dto.nombre) then (Response(BadRequest, NoBody), s)
    else if dto.precio.None? || dto.precio.value <= 0.0 then (Response(BadRequest, NoBody), s)
    else if dto.existencia.None? || dto.existencia.value < 0 then (Response(BadRequest, NoBody), s)
    else
      var (res, s') := ProductosService.ActualizarProducto(s, id.value, dto);
      match res
      case Ok(updated) => (Response(Success, Product(updated)), s')
      case Err(ProductoDuplicado) => (Response(Conflict, NoBody), s')
      case Err(Runtime(_)) => (Response(NotFound, NoBody), s')
  }

  /**
   * `actualizarProductoPorNombre`: price and stock checks refuse with 400; the
   * service's duplicate-name error is a plain RuntimeException, so it is answered
   * 404 like an unknown name, never 409.
   */
  function ActualizarProductoPorNombre(s: Store, nombre: string, dto: ProductosDTO): (r: (Response, Store))
    requires ValidStore(s)
    ensures ValidStore(r.1) && r.1.nextId == s.nextId
    ensures r.0.status == BadRequest <==> !ActualizacionPorNombreValida(dto)
    ensures r.0.status != Conflict
    ensures r.0.status == NotFound <==>
              && ActualizacionPorNombreValida(dto)
              && (!NameHeld(s.table, nombre) || RenameClashes(s.table, Some(nombre), dto.nombre))
    ensures r.0.status == Success <==>
              && ActualizacionPorNombreValida(dto)
              && NameHeld(s.table, nombre) && !RenameClashes(s.table, Some(nombre), dto.nombre)
    ensures r.0.status != Success ==> r.1 == s
    ensures r.0.status == Success ==> r.0.body == Product(ProductosDTO(Some(nombre), dto.precio, dto.existencia))
    ensures r.0.status == Success ==>
              exists k :: && k in s.table && s.table[k].nombre == Some(nombre)
                          && r.1.table == s.table[k := Producto(k, Some(nombre), dto.precio, dto.existencia)]
    ensures r.1.table.Keys == s.table.Keys
    ensures forall k :: k in s.table ==> r.1.table[k].nombre == s.table[k].nombre
    ensures UniqueNames(s.table) ==> UniqueNames(r.1.table)
  {
    if dto.precio.None? || dto.precio.value <= 0.0 then (Response(BadRequest, NoBody), s)
    else if dto.existencia.None? || dto.existencia.value < 0 then (Response(BadRequest, NoBody), s)
    else
      var (res, s') := ProductosService.ActualizarProductoPorNombre(s, nombre, dto);
      match res
      case Ok(updated) => (Response(Success, Product(updated)), s')
      case Err(ProductoDuplicado) => (Response(Conflict, NoBody), s')
      case Err(Runtime(_)) => (Response(NotFound, NoBody), s')
  }
}

/**
 * The catalogue as the controller keeps it across a sequence of requests:
 * because create checks the name first and both updates refuse a taken name,
 * no sequence of requests ever makes two products share a name.
 */
module ControllerInvariant {
  import opened Wrappers
  import opened Productos
  import opened Endpoints

  /** One call to one of the controller's endpoints, with its raw inputs. */
  datatype Request =
    | Consultar(filtro: ProductosDTO)
    | Agregar(nombre: Option<string>, precioStr: Option<string>, existenciaStr: Option<string>)
    | Eliminar(id: Option<int>)
    | Actualizar(id: Option<int>, dto: ProductosDTO)
    | ActualizarPorNombre(nombrePath: string, dto: ProductosDTO)

  /** The response to one request and the catalogue after it. */
  function Handle(p: Parsers, s: Store, req: Request): (r: (Response, Store))
    requires ValidStore(s)
    ensures ValidStore(r.1) && r.1.nextId >= s.nextId
    ensures UniqueNames(s.table) ==> UniqueNames(r.1.table)
  {
    match req
    case Consultar(filtro) => (ConsultarProductos(s, filtro), s)
    case Agregar(nombre, precioStr, existenciaStr) => AgregarProductos(p, s, nombre, precioStr, existenciaStr)
    case Eliminar(id) => EliminarProducto(s, id)
    case Actualizar(id, dto) => ActualizarProducto(s, id, dto)
    case ActualizarPorNombre(nombre, dto) => ActualizarProductoPorNombre(s, nombre, dto)
  }

  /** The catalogue after serving `reqs` one after another, starting from `s`. */
  function Run(p: Parsers, s: Store, reqs: seq<Request>): (r: Store)
    requires ValidStore(s)
    ensures ValidStore(r) && r.nextId >= s.nextId
    decreases |reqs|
  {
    if reqs == [] then s else Run(p, Handle(p, s, reqs[0]).1, reqs[1..])
  }

  /** Name uniqueness is an invariant of the controller: it survives every request sequence. */
  lemma {:induction false} RunKeepsUniqueNames(p: Parsers, s: Store, reqs: seq<Request>)
    requires ValidStore(s) && UniqueNames(s.table)
    ensures UniqueNames(Run(p, s, reqs).table)
    decreases |reqs|
  {
    if reqs != [] {
      RunKeepsUniqueNames(p, Handle(p, s, reqs[0]).1, reqs[1..]);
    }
  }

  /** Starting from the empty catalogue, no request sequence produces a duplicate name. */
  lemma FromEmptyNamesStayUnique(p: Parsers, reqs: seq<Request>)
    ensures ValidStore(Store(map[], 1))
    ensures UniqueNames(Run(p, Store(map[], 1), reqs).table)
  {
    RunKeepsUniqueNames(p, Store(map[], 1), reqs);
  }

  /**
   * The walk-through of the catalogue: create "Pan"; a second "Pan" is refused
   * with 409; updating "Pan" by name to "Bollo" keeps the name "Pan" and takes
   * the new price and stock; deleting id 1 succeeds once and then answers 404.
   */
  lemma PanScenario(p: Parsers)
    requires p.parseDouble("15.5") == Some(15.5) && p.parseDouble("10") == Some(10.0) && p.parseInt("10") == Some(10)
    ensures var s0 := Store(map[], 1);
            var (r1, s1) := AgregarProductos(p, s0, Some("Pan"), Some("15.5"), Some("10"));
            var (r2, s2) := AgregarProductos(p, s1, Some("Pan"), Some("20"), Some("5"));
            var (r3, s3) := ActualizarProductoPorNombre(s2, "Pan", ProductosDTO(Some("Bollo"), Some(18.0), Some(8)));
            var (r4, s4) := EliminarProducto(s3, Some(1));
            var (r5, s5) := EliminarProducto(s4, Some(1));
            && r1 == Response(Success, Product(ProductosDTO(Some("Pan"), Some(15.5), Some(10))))
            && s1.table == map[1 := Producto(1, Some("Pan"), Some(15.5), Some(10))]
            && r2.status == Conflict && s2 == s1
            && r3 == Response(Success, Product(ProductosDTO(Some("Pan"), Some(18.0), Some(8))))
            && s3.table == map[1 := Producto(1, Some("Pan"), Some(18.0), Some(8))]
            && r4.status == NoContent && s4.table == map[]
            && r5.status == NotFound
  {
  }
}
