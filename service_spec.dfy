/**
 * What each operation of the product service does to the repository, stated on
 * values: every operation maps the store before the call to its result and the
 * store after it. The class in module ProductosServiceImpl is proved to follow it.
 */
module ProductosService {
  import opened Wrappers
  import opened Productos

  /** Why the service threw a plain `RuntimeException`. */
  datatype RuntimeCause =
    | NoEncontradoPorId      // no product with the requested id
    | NoEncontradoPorNombre  // no product with the requested name
    | NombreOcupado          // the by-name update found the new name taken
    | ErrorAlEliminar        // delete wraps every failure into this one

  /** The two exception classes the controller tells apart. */
  datatype ServiceException = ProductoDuplicado | Runtime(cause: RuntimeCause)

  /**
   * An update asking for the name `nuevo` clashes when that name is given,
   * differs from the name `actual` the product has now, and is already held.
   */
  predicate RenameClashes(t: Table, actual: Option<string>, nuevo: Option<string>)
  {
    nuevo.Some? && nuevo != actual && NameHeld(t, nuevo.value)
  }

  /** `listaTienda(nombre)`: the whole catalogue; `nombre` plays no part. */
  function ListaTienda(s: Store, nombre: string): (r: seq<Producto>)
    requires ValidStore(s)
    ensures forall i :: 0 <= i < |r| ==> r[i].id in s.table && s.table[r[i].id] == r[i]
    ensures forall k :: k in s.table ==> s.table[k] in r
    ensures forall i, j :: 0 <= i < j < |r| ==> r[i].id < r[j].id
  {
    FindAll(s)
  }

  /**
   * `crearProducto`: one new row under a fresh id holding the three given values;
   * the returned DTO carries those values (and, being a DTO, no id).
   */
  function CrearProducto(s: Store, nombre: Option<string>, precio: Option<real>, existencia: Option<int>)
    : (r: (ProductosDTO, Store))
    requires ValidStore(s)
    ensures ValidStore(r.1) && r.1.nextId > s.nextId
    ensures s.nextId !in s.table && r.1.table.Keys == s.table.Keys + {s.nextId}
    ensures r.1.table[s.nextId] == Producto(s.nextId, nombre, precio, existencia)
    ensures forall k :: k in s.table ==> r.1.table[k] == s.table[k]
    ensures r.0 == ProductosDTO(nombre, precio, existencia)
  {
    var productos := Producto(s.nextId, nombre, precio, existencia);
    (ToDTO(productos), Store(s.table[s.nextId := productos], s.nextId + 1))
  }

  /** `existeProductoPorNombre(n)`: whether `findByNombre(n)` finds a row. */
  function ExisteProductoPorNombre(s: Store, n: string): (b: bool)
    requires ValidStore(s)
    ensures b <==> NameHeld(s.table, n)
  {
    FindByNombre(s, n).Some?
  }

  /**
   * `actualizarProducto(id, dto)`: not found, or a duplicate name, or every field
   * but the id overwritten from the DTO, nulls included.
   */
  function ActualizarProducto(s: Store, id: int, dto: ProductosDTO)
    : (r: (Result<ProductosDTO, ServiceException>, Store))
    requires ValidStore(s)
    ensures ValidStore(r.1) && r.1.nextId == s.nextId
    ensures r.0 == Err(Runtime(NoEncontradoPorId)) <==> id !in s.table
    ensures r.0 == Err(ProductoDuplicado) <==> id in s.table && RenameClashes(s.table, s.table[id].nombre, dto.nombre)
    ensures r.0.Ok? <==> id in s.table && !RenameClashes(s.table, s.table[id].nombre, dto.nombre)
    ensures r.0.Err? ==> r.1 == s
    ensures r.0.Ok? ==> r.0.value == dto && r.1.table.Keys == s.table.Keys
    ensures r.0.Ok? ==> r.1.table[id] == Producto(id, dto.nombre, dto.precio, dto.existencia)
    ensures r.0.Ok? ==> forall k :: k in s.table && k != id ==> r.1.table[k] == s.table[k]
    ensures UniqueNames(s.table) ==> UniqueNames(r.1.table)
  {
    if id !in s.table then (Err(Runtime(NoEncontradoPorId)), s)
    else
      var existente := s.table[id];
      if dto.nombre.Some? && dto.nombre != existente.nombre && FindByNombre(s, dto.nombre.value).Some? then
        (Err(ProductoDuplicado), s)
      else
        // copyProperties(dto, existente, "id")
        var actualizado := existente.(nombre := dto.nombre, precio := dto.precio, existencia := dto.existencia);
        (Ok(ToDTO(actualizado)), s.(table := s.table[id := actualizado]))
  }

  /**
   * `actualizarProductoPorNombre(nombre, dto)`: not found, or the new name taken
   * (a plain RuntimeException), or only price and stock overwritten from the DTO.
   * The stored name never changes.
   */
  function ActualizarProductoPorNombre(s: Store, nombre: string, dto: ProductosDTO)
    : (r: (Result<ProductosDTO, ServiceException>, Store))
    requires ValidStore(s)
    ensures ValidStore(r.1) && r.1.nextId == s.nextId
    ensures r.0 == Err(Runtime(NoEncontradoPorNombre)) <==> !NameHeld(s.table, nombre)
    ensures r.0 == Err(Runtime(NombreOcupado)) <==> NameHeld(s.table, nombre) && RenameClashes(s.table, Some(nombre), dto.nombre)
    ensures r.0.Ok? <==> NameHeld(s.table, nombre) && !RenameClashes(s.table, Some(nombre), dto.nombre)
    ensures r.0 != Err(ProductoDuplicado)
    ensures r.0.Err? ==> r.1 == s
    ensures r.0.Ok? ==> r.0.value == ProductosDTO(Some(nombre), dto.precio, dto.existencia)
    ensures r.1.table.Keys == s.table.Keys
    ensures forall k :: k in s.table ==> r.1.table[k].nombre == s.table[k].nombre
    ensures r.0.Ok? ==>
              exists k :: && k in s.table && s.table[k].nombre == Some(nombre)
                          && r.1.table[k] == Producto(k, Some(nombre), dto.precio, dto.existencia)
                          && forall j :: j in s.table && j != k ==> r.1.table[j] == s.table[j]
    ensures UniqueNames(s.table) ==> UniqueNames(r.1.table)
  {
    match FindByNombre(s, nombre)
    case None => (Err(Runtime(NoEncontradoPorNombre)), s)
    case Some(existente) =>
      if dto.nombre.Some? && dto.nombre.value != nombre && FindByNombre(s, dto.nombre.value).Some? then
        (Err(Runtime(NombreOcupado)), s)
      else
        // copyProperties(dto, existente, "id", "nombre")
        var actualizado := existente.(precio := dto.precio, existencia := dto.existencia);
        (Ok(ToDTO(actualizado)), s.(table := s.table[existente.id := actualizado]))
  }

  /** `eliminarProducto(id)`: fails on an absent id, otherwise removes exactly that row. */
  function EliminarProducto(s: Store, id: int): (r: (Outcome<ServiceException>, Store))
    requires ValidStore(s)
    ensures ValidStore(r.1) && r.1.nextId == s.nextId
    ensures r.0.Fail? <==> id !in s.table
    ensures r.0.Fail? ==> r.0.error == Runtime(ErrorAlEliminar) && r.1 == s
    ensures id !in r.1.table
    ensures r.1.table.Keys == s.table.Keys - {id}
    ensures forall k :: k in r.1.table ==> r.1.table[k] == s.table[k]
    ensures UniqueNames(s.table) ==> UniqueNames(r.1.table)
  {
    if id !in s.table then (Fail(Runtime(ErrorAlEliminar)), s)
    else (Pass, s.(table := s.table - {id}))
  }
}

/**
 * Properties of the service relating several calls, or a call and the store.
 */
module ServiceProperties {
  import opened Wrappers
  import opened Productos
  import opened ProductosService

  /**
   * `crearProducto` makes no check of its own: on its own the service does not
   * keep names unique. Creating "Pan" next to an existing "Pan" yields two.
   */
  lemma CrearProductoCanDuplicateName()
    ensures exists s: Store, n: string ::
              && ValidStore(s) && UniqueNames(s.table) && NameHeld(s.table, n)
              && !UniqueNames(CrearProducto(s, Some(n), Some(1.0), Some(1)).1.table)
  {
    var pan := Producto(1, Some("Pan"), Some(15.5), Some(10));
    var s := Store(map[1 := pan], 2);
    assert s.table[1].nombre == Some("Pan");
    var t := CrearProducto(s, Some("Pan"), Some(1.0), Some(1)).1.table;
    assert 1 in t && 2 in t && t[1].nombre == t[2].nombre == Some("Pan");
  }

  /**
   * After a successful by-name update asking for a different name, the product
   * is still found under its old name and not under the requested one.
   */
  lemma ActualizarProductoPorNombreKeepsName(s: Store, nombre: string, dto: ProductosDTO)
    requires ValidStore(s)
    requires dto.nombre.Some? && dto.nombre.value != nombre
    ensures var (res, s') := ActualizarProductoPorNombre(s, nombre, dto);
            res.Ok? ==>
              && FindByNombre(s', nombre).Some?
              && FindByNombre(s', nombre).value == Producto(FindByNombre(s', nombre).value.id, Some(nombre), dto.precio, dto.existencia)
              && FindByNombre(s', dto.nombre.value).None?
  {
  }

  /** Deleting and then creating never hands out the deleted id again. */
  lemma EliminarThenCrearUsesFreshId(s: Store, id: int, nombre: Option<string>, precio: Option<real>,
                                     existencia: Option<int>)
    requires ValidStore(s) && id in s.table
    ensures var s1 := EliminarProducto(s, id).1;
            var s2 := CrearProducto(s1, nombre, precio, existencia).1;
            id !in s2.table && |s2.table| == |s.table|
  {
  }
}
