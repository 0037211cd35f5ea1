/** The shopping exercise: a product whose price setter refuses negative values, and a
    discounted product whose discount setter keeps the percentage within [0, 100] and whose
    total overrides the base one. Prices, discounts and totals are `real`. The subclass is
    modelled by composition: a discounted product holds the base product it extends, and
    its total calls the base total as `super().calcular_total` does. */
module Compras {
  import opened Comun

  class Producto {
    var nombre: string
    var precio: real

    /** The price is never negative. */
    ghost predicate Valid()
      reads this
    {
      precio >= 0.0
    }

    /** The first half of `__init__`: the private price starts at zero. */
    constructor Inicial(nombre: string)
      ensures Valid()
      ensures this.nombre == nombre && precio == 0.0
    {
      this.nombre := nombre;
      precio := 0.0;
    }

    /** `Producto(nombre, precio)`: the price goes through the setter, so a negative one
        raises ValueError and no product is made. */
    static method Nuevo(nombre: string, precio: real) returns (r: Result<Producto, Excepcion>)
      ensures r.Ok? <==> precio >= 0.0
      ensures r.Err? ==> r.error == ValueError
      ensures r.Ok? ==> fresh(r.value) && r.value.Valid()
      ensures r.Ok? ==> r.value.nombre == nombre && r.value.precio == precio
    {
      var p := new Producto.Inicial(nombre);
      var error := p.SetPrecio(precio);
      if error.Some? {
        return Err(error.value);
      }
      r := Ok(p);
    }

    /** The `precio` setter: a negative value raises ValueError before anything is assigned. */
    method SetPrecio(valor: real) returns (error: Option<Excepcion>)
      requires Valid()
      modifies this
      ensures Valid()
      ensures error == if valor < 0.0 then Some(ValueError) else None
      ensures precio == if error.None? then valor else old(precio)
      ensures nombre == old(nombre)
    {
      if valor < 0.0 {
        return Some(ValueError);
      }
      precio := valor;
      error := None;
    }

    /** `calcular_total`: ValueError for a non-positive quantity, otherwise price times
        quantity, which is never negative. */
    function CalcularTotal(cantidad: int): (r: Result<real, Excepcion>)
      reads this
      requires Valid()
      ensures r.Ok? <==> cantidad > 0
      ensures r.Err? ==> r.error == ValueError
      ensures r.Ok? ==> r.value == precio * cantidad as real && r.value >= 0.0
    {
      if cantidad <= 0 then Err(ValueError) else Ok(precio * cantidad as real)
    }
  }

  class ProductoConDescuento {
    /** The inherited part: name, price and the base total. */
    const base: Producto
    var descuento: real

    /** The base invariant holds and the discount percentage lies in [0, 100]. */
    ghost predicate Valid()
      reads this, base
    {
      base.Valid() && 0.0 <= descuento <= 100.0
    }

    constructor Inicial(base: Producto)
      requires base.Valid()
      ensures Valid()
      ensures this.base == base && descuento == 0.0
    {
      this.base := base;
      descuento := 0.0;
    }

    /** `ProductoConDescuento(nombre, precio, descuento)`: the base constructor runs first,
        then the discount goes through its setter; either may raise ValueError. */
    static method Nuevo(nombre: string, precio: real, descuento: real)
      returns (r: Result<ProductoConDescuento, Excepcion>)
      ensures r.Ok? <==> precio >= 0.0 && 0.0 <= descuento <= 100.0
      ensures r.Err? ==> r.error == ValueError
      ensures r.Ok? ==> fresh(r.value) && fresh(r.value.base) && r.value.Valid()
      ensures r.Ok? ==> r.value.base.nombre == nombre && r.value.base.precio == precio
      ensures r.Ok? ==> r.value.descuento == descuento
    {
      var b := Producto.Nuevo(nombre, precio);
      if b.Err? {
        return Err(b.error);
      }
      var p := new ProductoConDescuento.Inicial(b.value);
      var error := p.SetDescuento(descuento);
      if error.Some? {
        return Err(error.value);
      }
      r := Ok(p);
    }

    /** The `descuento` setter: a value outside [0, 100] raises ValueError and changes nothing. */
    method SetDescuento(valor: real) returns (error: Option<Excepcion>)
      requires Valid()
      modifies this
      ensures Valid()
      ensures error == if valor < 0.0 || valor > 100.0 then Some(ValueError) else None
      ensures descuento == if error.None? then valor else old(descuento)
    {
      if valor < 0.0 || valor > 100.0 {
        return Some(ValueError);
      }
      descuento := valor;
      error := None;
    }

    /** A non-negative amount scaled by a factor between zero and one stays between zero and
        itself. */
    static lemma Escalar(total: real, factor: real)
      requires total >= 0.0 && 0.0 <= factor <= 1.0
      ensures 0.0 <= total * factor <= total
    {
      assert total - total * factor == total * (1.0 - factor);
    }

    /** The overridden `calcular_total`: the base total scaled by `1 - descuento / 100`.
        It fails exactly when the base total does, lies between zero and the base total,
        equals it for a zero discount and is zero for a full discount. */
    function CalcularTotal(cantidad: int): (r: Result<real, Excepcion>)
      reads this, base
      requires Valid()
      ensures r.Ok? <==> cantidad > 0
      ensures r.Err? ==> r == base.CalcularTotal(cantidad)
      ensures r.Ok? ==> 0.0 <= r.value <= base.CalcularTotal(cantidad).value
      ensures r.Ok? && descuento == 0.0 ==> r.value == base.CalcularTotal(cantidad).value
      ensures r.Ok? && descuento == 100.0 ==> r.value == 0.0
    {
      match base.CalcularTotal(cantidad)
      case Err(e) => Err(e)
      case Ok(total) =>
        var factor := 1.0 - descuento / 100.0;
        Escalar(total, factor);
        Ok(total * factor)
    }
  }
}
