/** The SEMANA9 inventory: a list of product objects scanned linearly, with IDs kept
    unique by the add operation. Nothing is persisted. */
module Semana9Inventario {
  import opened Comun
  import opened Texto
  import opened Semana9Producto

  /** Some product in the list has identifier `id`. */
  ghost predicate TieneId(ps: seq<Producto>, id: string)
  {
    exists i :: 0 <= i < |ps| && ps[i].id == id
  }

  /** No two products in the list share an identifier. */
  ghost predicate IdsUnicos(ps: seq<Producto>)
  {
    forall i, j :: 0 <= i < j < |ps| ==> ps[i].id != ps[j].id
  }

  /** Index of the first product with identifier `id`, or `|ps|` when there is none. */
  function Posicion(ps: seq<Producto>, id: string): (k: nat)
    ensures k <= |ps|
    ensures k < |ps| ==> ps[k].id == id
    ensures forall j :: 0 <= j < k ==> ps[j].id != id
    ensures k == |ps| <==> !TieneId(ps, id)
  {
    if ps == [] then 0
    else if ps[0].id == id then 0
    else
      var k := 1 + Posicion(ps[1..], id);
      assert forall j :: 1 <= j < |ps| ==> ps[j] == ps[1..][j - 1];
      k
  }

  /** The products whose lower-cased name contains `q`, in list order. */
  function Coincidencias(ps: seq<Producto>, q: string): (r: seq<Producto>)
    reads ps
    ensures |r| <= |ps|
    ensures forall i :: 0 <= i < |r| ==> r[i] in ps && Contiene(Lower(r[i].nombre), q)
    ensures forall i :: 0 <= i < |ps| && Contiene(Lower(ps[i].nombre), q) ==> ps[i] in r
  {
    if ps == [] then []
    else
      var ultimo := ps[|ps| - 1];
      Coincidencias(ps[..|ps| - 1], q) + if Contiene(Lower(ultimo.nombre), q) then [ultimo] else []
  }

  /** An empty query matches every product. */
  lemma {:induction false} CoincidenciasVacia(ps: seq<Producto>)
    ensures Coincidencias(ps, "") == ps
    decreases |ps|
  {
    if ps != [] {
      ContieneVacio(Lower(ps[|ps| - 1].nombre));
      CoincidenciasVacia(ps[..|ps| - 1]);
    }
  }

  class Inventario {
    var productos: seq<Producto>

    /** Identifiers are unique. */
    ghost predicate Valid()
      reads this
    {
      IdsUnicos(productos)
    }

    constructor ()
      ensures Valid() && productos == []
    {
      productos := [];
    }

    /** `id_existe`: a linear scan for the identifier. */
    method IdExiste(id: string) returns (existe: bool)
      ensures existe <==> TieneId(productos, id)
    {
      for i := 0 to |productos|
        invariant forall j :: 0 <= j < i ==> productos[j].id != id
      {
        if productos[i].id == id {
          return true;
        }
      }
      existe := false;
    }

    /** `anadir_producto`: refuses a duplicate identifier, leaving the list as it was;
        otherwise appends the product at the end. */
    method AnadirProducto(p: Producto) returns (ok: bool)
      requires Valid()
      modifies this
      ensures Valid()
      ensures ok <==> !TieneId(old(productos), p.id)
      ensures productos == if ok then old(productos) + [p] else old(productos)
    {
      var existe := IdExiste(p.id);
      if existe {
        return false;
      }
      productos := productos + [p];
      ok := true;
    }

    /** `eliminar_por_id`: removes the product with that identifier, keeping the others in
        order; reports false and changes nothing when there is none. */
    method EliminarPorId(id: string) returns (ok: bool)
      requires Valid()
      modifies this
      ensures Valid()
      ensures ok <==> TieneId(old(productos), id)
      ensures var k := Posicion(old(productos), id);
              productos == if ok then old(productos)[..k] + old(productos)[k + 1..] else old(productos)
      ensures !TieneId(productos, id)
    {
      for i := 0 to |productos|
        invariant forall j :: 0 <= j < i ==> productos[j].id != id
      {
        if productos[i].id == id {
          ghost var antes := productos;
          productos := productos[..i] + productos[i + 1..];
          assert forall j :: 0 <= j < |productos| ==> productos[j] == (if j < i then antes[j] else antes[j + 1]);
          return true;
        }
      }
      ok := false;
    }

    /** `actualizar_por_id`: sets the quantity and the price given (`None` leaves a field as
        it is) of the product with that identifier, and of no other product; reports false
        and changes nothing when there is none. */
    method ActualizarPorId(id: string, nuevaCantidad: Option<int>, nuevoPrecio: Option<real>)
      returns (ok: bool)
      requires Valid()
      modifies productos
      ensures ok <==> TieneId(productos, id)
      ensures ok ==>
        var p := productos[Posicion(productos, id)];
        && p.nombre == old(p.nombre)
        && p.cantidad == (if nuevaCantidad.Some? then nuevaCantidad.value else old(p.cantidad))
        && p.precio == (if nuevoPrecio.Some? then nuevoPrecio.value else old(p.precio))
      ensures forall j :: 0 <= j < |productos| && productos[j].id != id ==>
        && productos[j].nombre == old(productos[j].nombre)
        && productos[j].cantidad == old(productos[j].cantidad)
        && productos[j].precio == old(productos[j].precio)
    {
      for i := 0 to |productos|
        invariant forall j :: 0 <= j < i ==> productos[j].id != id
        invariant forall j :: 0 <= j < |productos| ==>
          && productos[j].nombre == old(productos[j].nombre)
          && productos[j].cantidad == old(productos[j].cantidad)
          && productos[j].precio == old(productos[j].precio)
      {
        var p := productos[i];
        if p.id == id {
          assert forall j :: 0 <= j < |productos| && j != i ==> productos[j] != p;
          if nuevaCantidad.Some? {
            p.SetCantidad(nuevaCantidad.value);
          }
          if nuevoPrecio.Some? {
            p.SetPrecio(nuevoPrecio.value);
          }
          return true;
        }
      }
      ok := false;
    }

    /** `buscar_por_nombre`: the products, in list order, whose lower-cased name contains the
        stripped, lower-cased query. */
    method BuscarPorNombre(texto: string) returns (resultados: seq<Producto>)
      ensures resultados == Coincidencias(productos, Lower(Strip(texto)))
    {
      var q := Lower(Strip(texto));
      resultados := [];
      for i := 0 to |productos|
        invariant resultados == Coincidencias(productos[..i], q)
      {
        assert productos[..i + 1][..i] == productos[..i];
        if Contiene(Lower(productos[i].nombre), q) {
          resultados := resultados + [productos[i]];
        }
      }
      assert productos[..|productos|] == productos;
    }

    /** `mostrar_todos`: the list itself. */
    method MostrarTodos() returns (todos: seq<Producto>)
      ensures todos == productos
    {
      todos := productos;
    }
  }
}
