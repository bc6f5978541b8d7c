/**
 * `ProductosController`: the controller object over a service object. Each
 * endpoint runs its checks, calls the service, and is proved to answer and to
 * leave the catalogue as the matching function of module Endpoints says.
 */
module ProductosController {
  import opened Wrappers
  import opened Productos
  import opened ProductosService
  import opened ProductosServiceImpl
  import opened Endpoints

  class ProductosController {
    const service: ProductosServiceImpl
    /** The number parsers `isNumeric`, `Double.valueOf` and `Integer.valueOf` rely on. */
    const parsers: Parsers

    constructor (service: ProductosServiceImpl, parsers: Parsers)
      ensures this.service == service
      ensures this.parsers == parsers
    {
      this.service := service;
      this.parsers := parsers;
    }

    /** Lists the catalogue, copying each product into a DTO one at a time. */
    method ConsultarProductos(productosDTO: ProductosDTO) returns (r: Response)
      requires service.Valid()
      ensures r == Endpoints.ConsultarProductos(service.State(), productosDTO)
    {
      if NombreVacio(productosDTO.nombre) {
        return Response(BadRequest, NoBody);
      }
      var productosDTOList: seq<ProductosDTO> := [];
      var listaTienda := service.ListaTienda(productosDTO.nombre.value);
      for i := 0 to |listaTienda|
        invariant |productosDTOList| == i
        invariant forall j :: 0 <= j < i ==> productosDTOList[j] == ToDTO(listaTienda[j])
      {
        var productito := ToDTO(listaTienda[i]);
        productosDTOList := productosDTOList + [productito];
      }
      r := Response(Success, Products(productosDTOList));
    }

    method AgregarProductos(nombre: Option<string>, precioStr: Option<string>, existenciaStr: Option<string>)
      returns (r: Response)
      requires service.Valid()
      modifies service
      ensures service.Valid()
      ensures (r, service.State()) ==
              Endpoints.AgregarProductos(parsers, old(service.State()), nombre, precioStr, existenciaStr)
    {
      if NombreVacio(nombre) {
        return Response(BadRequest, NoBody);
      }
      var existe := service.ExisteProductoPorNombre(nombre.value);
      if existe {
        // ProductoDuplicadoException leaves the endpoint and reaches the handler
        return HandleProductoDuplicadoException();
      }
      if !IsNumeric(parsers, precioStr) {
        return Response(BadRequest, NoBody);
      }
      var precio := parsers.parseDouble(precioStr.value).value;
      if !IsNumeric(parsers, existenciaStr) {
        return Response(BadRequest, NoBody);
      }
      var existencia := parsers.parseInt(existenciaStr.value);
      if existencia.None? {
        return Response(Unhandled, NoBody);
      }
      var productosDTO1 := service.CrearProducto(nombre, Some(precio), Some(existencia.value));
      r := Response(Success, Product(productosDTO1));
    }

    method EliminarProducto(id: Option<int>) returns (r: Response)
      requires service.Valid()
      modifies service
      ensures service.Valid()
      ensures (r, service.State()) == Endpoints.EliminarProducto(old(service.State()), id)
    {
      if id.None? || id.value <= 0 {
        return Response(BadRequest, NoBody);
      }
      var outcome := service.EliminarProducto(id.value);
      match outcome
      case Pass => r := Response(NoContent, NoBody);
      case Fail(_) => r := Response(NotFound, NoBody);
    }

    method ActualizarProducto(id: Option<int>, productosDTO: ProductosDTO) returns (r: Response)
      requires service.Valid()
      modifies service
      ensures service.Valid()
      ensures (r, service.State()) == Endpoints.ActualizarProducto(old(service.State()), id, productosDTO)
    {
      if id.None? || id.value <= 0 {
        return Response(BadRequest, NoBody);
      }
      if NombreVacio(productosDTO.nombre) {
        return Response(BadRequest, NoBody);
      }
      if productosDTO.precio.None? || productosDTO.precio.value <= 0.0 {
        return Response(BadRequest, NoBody);
      }
      if productosDTO.existencia.None? || productosDTO.existencia.value < 0 {
        return Response(BadRequest, NoBody);
      }
      var result := service.ActualizarProducto(id.value, productosDTO);
      match result
      case Ok(updatedProducto) => r := Response(Success, Product(updatedProducto));
      case Err(ProductoDuplicado) => r := Response(Conflict, NoBody);
      case Err(Runtime(_)) => r := Response(NotFound, NoBody);
    }

    method ActualizarProductoPorNombre(nombre: string, productosDTO: ProductosDTO) returns (r: Response)
      requires service.Valid()
      modifies service
      ensures service.Valid()
      ensures (r, service.State()) == Endpoints.ActualizarProductoPorNombre(old(service.State()), nombre, productosDTO)
    {
      if productosDTO.precio.None? || productosDTO.precio.value <= 0.0 {
        return Response(BadRequest, NoBody);
      }
      if productosDTO.existencia.None? || productosDTO.existencia.value < 0 {
        return Response(BadRequest, NoBody);
      }
      var result := service.ActualizarProductoPorNombre(nombre, productosDTO);
      match result
      case Ok(updatedProducto) => r := Response(Success, Product(updatedProducto));
      case Err(ProductoDuplicado) => r := Response(Conflict, NoBody);
      case Err(Runtime(_)) => r := Response(NotFound, NoBody);
    }
  }
}
