/**
 * The persisted product entity, its transfer object and the product table the
 * JPA repository keeps: rows keyed by id, a listing of all rows and a lookup by name.
 */
module Productos {
  import opened Wrappers

  /** The entity `Productos`: a store-assigned id and three nullable columns. */
  datatype Producto = Producto(id: int, nombre: Option<string>, precio: Option<real>, existencia: Option<int>)

  /** `ProductosDTO`: the same three nullable fields and no id. */
  datatype ProductosDTO = ProductosDTO(nombre: Option<string>, precio: Option<real>, existencia: Option<int>)

  /** The entity-to-DTO copy (`BeanUtils.copyProperties(entity, dto)`): every DTO field is taken. */
  function ToDTO(p: Producto): ProductosDTO
  {
    ProductosDTO(p.nombre, p.precio, p.existencia)
  }

  /** The repository's rows, keyed by primary key. */
  type Table = map<int, Producto>

  /** Every row is stored under its own id. */
  predicate Keyed(t: Table)
  {
    forall k :: k in t ==> t[k].id == k
  }

  /** The repository: its rows and the next id its generator hands out. */
  datatype Store = Store(table: Table, nextId: int)

  /** Ids count up from 1; every stored id was handed out before `nextId`. */
  predicate ValidStore(s: Store)
  {
    && 1 <= s.nextId
    && Keyed(s.table)
    && forall k :: k in s.table ==> 1 <= k < s.nextId
  }

  /** Some stored product has exactly the name `n` (case-sensitive). */
  predicate NameHeld(t: Table, n: string)
  {
    exists k :: k in t && t[k].nombre == Some(n)
  }

  /** No two stored products share a (non-null) name. */
  predicate UniqueNames(t: Table)
  {
    forall i, j :: i in t && j in t && i != j && t[i].nombre.Some? ==> t[i].nombre != t[j].nombre
  }

  /** The rows with ids in [lo, hi), in ascending id order. */
  function Rows(t: Table, lo: int, hi: int): (r: seq<Producto>)
    requires Keyed(t)
    ensures forall i :: 0 <= i < |r| ==> lo <= r[i].id < hi && r[i].id in t && t[r[i].id] == r[i]
    ensures forall k :: k in t && lo <= k < hi ==> t[k] in r
    ensures forall i, j :: 0 <= i < j < |r| ==> r[i].id < r[j].id
    decreases hi - lo
  {
    if lo >= hi then []
    else if lo in t then [t[lo]] + Rows(t, lo + 1, hi)
    else Rows(t, lo + 1, hi)
  }

  /** `findAll()`: every stored product exactly once, in ascending id order. */
  function FindAll(s: Store): (r: seq<Producto>)
    requires ValidStore(s)
    ensures forall i :: 0 <= i < |r| ==> r[i].id in s.table && s.table[r[i].id] == r[i]
    ensures forall k :: k in s.table ==> s.table[k] in r
    ensures forall i, j :: 0 <= i < j < |r| ==> r[i].id < r[j].id
  {
    Rows(s.table, 1, s.nextId)
  }

  /** The row with the smallest id in [lo, hi) whose name is `n`, if any. */
  function FirstNamed(t: Table, n: string, lo: int, hi: int): (r: Option<Producto>)
    requires Keyed(t)
    ensures r.Some? ==> lo <= r.value.id < hi && r.value.id in t && t[r.value.id] == r.value
    ensures r.Some? ==> r.value.nombre == Some(n)
    ensures r.Some? ==> forall k :: k in t && lo <= k < r.value.id ==> t[k].nombre != Some(n)
    ensures r.None? <==> forall k :: k in t && lo <= k < hi ==> t[k].nombre != Some(n)
    decreases hi - lo
  {
    if lo >= hi then None
    else if lo in t && t[lo].nombre == Some(n) then Some(t[lo])
    else FirstNamed(t, n, lo + 1, hi)
  }

  /** `findByNombre(n)`: a stored product named `n`, present exactly when the name is held. */
  function FindByNombre(s: Store, n: string): (r: Option<Producto>)
    requires ValidStore(s)
    ensures r.Some? ==> r.value.id in s.table && s.table[r.value.id] == r.value && r.value.nombre == Some(n)
    ensures r.Some? <==> NameHeld(s.table, n)
  {
    FirstNamed(s.table, n, 1, s.nextId)
  }
}
