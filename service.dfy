/**
 * `ProductosServiceImpl`: the service object over the repository's rows. Each
 * method performs the source's lookups and writes on the fields in place and is
 * proved to do what the matching function of module ProductosService says.
 */
module ProductosServiceImpl {
  import opened Wrappers
  import opened Productos
  import opened ProductosService

  class ProductosServiceImpl {
    /** The repository's rows, keyed by id. */
    var table: Table
    /** The id the repository hands to the next saved product. */
    var nextId: int

    /** The repository state as a value. */
    function State(): Store
      reads this
    {
      Store(table, nextId)
    }

    predicate Valid()
      reads this
    {
      ValidStore(State())
    }

    /** An empty catalogue whose first product gets id 1. */
    constructor ()
      ensures Valid() && table == map[] && nextId == 1
    {
      table := map[];
      nextId := 1;
    }

    method ListaTienda(nombre: string) returns (r: seq<Producto>)
      requires Valid()
      ensures r == ProductosService.ListaTienda(State(), nombre)
    {
      r := FindAll(State());
    }

    method CrearProducto(nombre: Option<string>, precio: Option<real>, existencia: Option<int>)
      returns (dto: ProductosDTO)
      requires Valid()
      modifies this
      ensures Valid()
      ensures (dto, State()) == ProductosService.CrearProducto(old(State()), nombre, precio, existencia)
    {
      // save() on a new entity assigns the generator's next id
      var productos := Producto(nextId, nombre, precio, existencia);
      table := table[nextId := productos];
      nextId := nextId + 1;
      dto := ToDTO(productos);
    }

    method ExisteProductoPorNombre(nombre: string) returns (b: bool)
      requires Valid()
      ensures b <==> NameHeld(table, nombre)
      ensures b == ProductosService.ExisteProductoPorNombre(State(), nombre)
    {
      var found := FindByNombre(State(), nombre);
      b := found.Some?;
    }

    method ActualizarProducto(id: int, dto: ProductosDTO) returns (r: Result<ProductosDTO, ServiceException>)
      requires Valid()
      modifies this
      ensures Valid()
      ensures (r, State()) == ProductosService.ActualizarProducto(old(State()), id, dto)
    {
      if id !in table {
        return Err(Runtime(NoEncontradoPorId));
      }
      var productoExistente := table[id];
      if dto.nombre.Some? && dto.nombre != productoExistente.nombre {
        var conMismoNombre := FindByNombre(State(), dto.nombre.value);
        if conMismoNombre.Some? {
          return Err(ProductoDuplicado);
        }
      }
      // copyProperties(dto, productoExistente, "id"): nulls are copied as well
      productoExistente := productoExistente.(nombre := dto.nombre, precio := dto.precio, existencia := dto.existencia);
      table := table[id := productoExistente];
      r := Ok(ToDTO(productoExistente));
    }

    method ActualizarProductoPorNombre(nombre: string, dto: ProductosDTO)
      returns (r: Result<ProductosDTO, ServiceException>)
      requires Valid()
      modifies this
      ensures Valid()
      ensures (r, State()) == ProductosService.ActualizarProductoPorNombre(old(State()), nombre, dto)
    {
      var optionalProducto := FindByNombre(State(), nombre);
      if optionalProducto.None? {
        return Err(Runtime(NoEncontradoPorNombre));
      }
      var productoExistente := optionalProducto.value;
      if dto.nombre.Some? && dto.nombre.value != nombre {
        var conMismoNombre := FindByNombre(State(), dto.nombre.value);
        if conMismoNombre.Some? {
          return Err(Runtime(NombreOcupado));
        }
      }
      // copyProperties(dto, productoExistente, "id", "nombre")
      productoExistente := productoExistente.(precio := dto.precio, existencia := dto.existencia);
      table := table[productoExistente.id := productoExistente];
      r := Ok(ToDTO(productoExistente));
    }

    method EliminarProducto(id: int) returns (r: Outcome<ServiceException>)
      requires Valid()
      modifies this
      ensures Valid()
      ensures (r, State()) == ProductosService.EliminarProducto(old(State()), id)
    {
      if id !in table {
        return Fail(Runtime(ErrorAlEliminar));
      }
      table := table - {id};
      r := Pass;
    }
  }
}
