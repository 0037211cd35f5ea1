/** The SEMANA9 product: a plain record object with private fields, getters and setters
    that validate nothing. The identifier has no setter, so it is a `const`: fixed for the
    object's lifetime. The getters are the fields themselves. */
module Semana9Producto {

  class Producto {
    const id: string
    var nombre: string
    var cantidad: int
    var precio: real

    /** The constructor stores exactly the given values, which the getters return. */
    constructor (id: string, nombre: string, cantidad: int, precio: real)
      ensures this.id == id && this.nombre == nombre
      ensures this.cantidad == cantidad && this.precio == precio
    {
      this.id := id;
      this.nombre := nombre;
      this.cantidad := cantidad;
      this.precio := precio;
    }

    /** `set_nombre`: changes the name only. */
    method SetNombre(nombre: string)
      modifies this
      ensures this.nombre == nombre
      ensures cantidad == old(cantidad) && precio == old(precio)
    {
      this.nombre := nombre;
    }

    /** `set_cantidad`: changes the quantity only. */
    method SetCantidad(cantidad: int)
      modifies this
      ensures this.cantidad == cantidad
      ensures nombre == old(nombre) && precio == old(precio)
    {
      this.cantidad := cantidad;
    }

    /** `set_precio`: changes the price only. */
    method SetPrecio(precio: real)
      modifies this
      ensures this.precio == precio
      ensures nombre == old(nombre) && cantidad == old(cantidad)
    {
      this.precio := precio;
    }
  }
}
