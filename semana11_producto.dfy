/** The SEMANA11 product: a dataclass whose constructor takes any values, with setters that
    validate and trim, and its dictionary form (`to_dict` / `from_dict`) as stored in JSON.
    The price is a `real`: a float's rounding is not modelled. */
module Semana11Producto {
  import opened Comun
  import opened Texto

  /** The four fields of a product, as `to_dict` lists them. */
  datatype Datos = Datos(id: string, nombre: string, cantidad: int, precio: real)

  class Producto {
    var id: string
    var nombre: string
    var cantidad: int
    var precio: real

    /** The generated dataclass constructor: no validation, the values are stored as given. */
    constructor (id: string, nombre: string, cantidad: int, precio: real)
      ensures Valor() == Datos(id, nombre, cantidad, precio)
    {
      this.id := id;
      this.nombre := nombre;
      this.cantidad := cantidad;
      this.precio := precio;
    }

    /** The four getters at once. */
    function Valor(): Datos
      reads this
    {
      Datos(id, nombre, cantidad, precio)
    }

    /** `set_id`: an empty or all-whitespace identifier raises ValueError and changes
        nothing; any other is stored trimmed, and nothing else changes. */
    method SetId(nuevoId: string) returns (error: Option<Excepcion>)
      modifies this
      ensures TodoEspacio(nuevoId) ==> error == Some(ValueError) && Valor() == old(Valor())
      ensures !TodoEspacio(nuevoId) ==> error == None && Valor() == old(Valor()).(id := Strip(nuevoId))
    {
      var limpio := Strip(nuevoId);
      if nuevoId == "" || limpio == "" {
        return Some(ValueError);
      }
      id := limpio;
      error := None;
    }

    /** `set_nombre`: as `set_id`, for the name. */
    method SetNombre(nuevoNombre: string) returns (error: Option<Excepcion>)
      modifies this
      ensures TodoEspacio(nuevoNombre) ==> error == Some(ValueError) && Valor() == old(Valor())
      ensures !TodoEspacio(nuevoNombre) ==>
                error == None && Valor() == old(Valor()).(nombre := Strip(nuevoNombre))
    {
      var limpio := Strip(nuevoNombre);
      if nuevoNombre == "" || limpio == "" {
        return Some(ValueError);
      }
      nombre := limpio;
      error := None;
    }

    /** `set_cantidad`: a negative quantity raises ValueError and changes nothing; any other
        is stored, and nothing else changes. */
    method SetCantidad(nuevaCantidad: int) returns (error: Option<Excepcion>)
      modifies this
      ensures nuevaCantidad < 0 ==> error == Some(ValueError) && Valor() == old(Valor())
      ensures nuevaCantidad >= 0 ==> error == None && Valor() == old(Valor()).(cantidad := nuevaCantidad)
    {
      if nuevaCantidad < 0 {
        return Some(ValueError);
      }
      cantidad := nuevaCantidad;
      error := None;
    }

    /** `set_precio`: as `set_cantidad`, for the price. */
    method SetPrecio(nuevoPrecio: real) returns (error: Option<Excepcion>)
      modifies this
      ensures nuevoPrecio < 0.0 ==> error == Some(ValueError) && Valor() == old(Valor())
      ensures nuevoPrecio >= 0.0 ==> error == None && Valor() == old(Valor()).(precio := nuevoPrecio)
    {
      if nuevoPrecio < 0.0 {
        return Some(ValueError);
      }
      precio := nuevoPrecio;
      error := None;
    }

    /** `to_dict` of this product: `from_dict` reads it back as the same four values. */
    function ToDict(): (m: Dict)
      reads this
      ensures DesdeDict(m) == Ok(Valor())
    {
      DesdeDictADict(Valor());
      ADict(Valor())
    }
  }

  // ---------------------------------------------------------------------------
  // dictionary form
  // ---------------------------------------------------------------------------

  /** A value of a decoded JSON object: a string, an integer or a float. */
  datatype Valor = Texto(s: string) | Entero(i: int) | Decimal(r: real)

  type Dict = map<string, Valor>

  /** `to_dict`: the four fields under their own names: exactly the four keys `from_dict`
      looks up, with strings for the identifier and the name and numbers for the quantity
      and the price. */
  function ADict(d: Datos): (m: Dict)
    ensures m.Keys == {"id", "nombre", "cantidad", "precio"}
    ensures m["id"].Texto? && m["nombre"].Texto?
    ensures !m["cantidad"].Texto? && !m["precio"].Texto?
  {
    map["id" := Texto(d.id), "nombre" := Texto(d.nombre),
        "cantidad" := Entero(d.cantidad), "precio" := Decimal(d.precio)]
  }

  /** `int(x)` of a float: the integer part, rounding toward zero. */
  function Truncar(x: real): (n: int)
    ensures x >= 0.0 ==> 0 <= n && n as real <= x < n as real + 1.0
    ensures x < 0.0 ==> n <= 0 && n as real - 1.0 < x <= n as real
  {
    if x >= 0.0 then x.Floor else -((-x).Floor)
  }

  /** `str(x)`; `None` where the model does not give the text (the `repr` of a float). */
  function Cadena(v: Valor): Option<string>
  {
    match v
    case Texto(s) => Some(s)
    case Entero(i) => Some(FormatoEntero(i))
    case Decimal(_) => None
  }

  /** `int(x)`; `None` stands for the ValueError on a string that is not an integer. */
  function AEntero(v: Valor): Option<int>
  {
    match v
    case Texto(s) => LeerEntero(Strip(s))
    case Entero(i) => Some(i)
    case Decimal(r) => Some(Truncar(r))
  }

  /** `float(x)`; `None` stands for the ValueError on a string that is not a number. */
  function AReal(v: Valor): Option<real>
  {
    match v
    case Texto(s) =>
      (match LeerPrecio(Strip(s))
       case Some(c) => Some(c as real / 100.0)
       case None => None)
    case Entero(i) => Some(i as real)
    case Decimal(r) => Some(r)
  }

  /** `from_dict`: each field is looked up (KeyError when absent) and converted (ValueError
      when it cannot be), in the order id, name, quantity, price. No field is validated. */
  function DesdeDict(data: Dict): (r: Result<Datos, Excepcion>)
    ensures "id" !in data ==> r == Err(KeyError)
    ensures r.Ok? ==> && "id" in data && "nombre" in data && "cantidad" in data && "precio" in data
                      && Cadena(data["id"]) == Some(r.value.id)
                      && Cadena(data["nombre"]) == Some(r.value.nombre)
                      && AEntero(data["cantidad"]) == Some(r.value.cantidad)
                      && AReal(data["precio"]) == Some(r.value.precio)
  {
    if "id" !in data then Err(KeyError)
    else match Cadena(data["id"])
    case None => Err(ValueError)
    case Some(id) =>
      if "nombre" !in data then Err(KeyError)
      else match Cadena(data["nombre"])
      case None => Err(ValueError)
      case Some(nombre) =>
        if "cantidad" !in data then Err(KeyError)
        else match AEntero(data["cantidad"])
        case None => Err(ValueError)
        case Some(cantidad) =>
          if "precio" !in data then Err(KeyError)
          else match AReal(data["precio"])
          case None => Err(ValueError)
          case Some(precio) => Ok(Datos(id, nombre, cantidad, precio))
  }

  /** Round trip: `from_dict(p.to_dict())` gives back the same four values. */
  lemma DesdeDictADict(d: Datos)
    ensures DesdeDict(ADict(d)) == Ok(d)
  {
    var m := ADict(d);
    assert m["id"] == Texto(d.id) && m["nombre"] == Texto(d.nombre);
    assert m["cantidad"] == Entero(d.cantidad) && m["precio"] == Decimal(d.precio);
  }

  /** A dictionary with all four keys, strings for the identifier and the name and numbers
      for the quantity and the price, is read without error, and keeps the two strings. */
  lemma DesdeDictBienFormado(data: Dict)
    requires "id" in data && "nombre" in data && "cantidad" in data && "precio" in data
    requires data["id"].Texto? && data["nombre"].Texto?
    requires !data["cantidad"].Texto? && !data["precio"].Texto?
    ensures DesdeDict(data).Ok?
    ensures DesdeDict(data).value.id == data["id"].s && DesdeDict(data).value.nombre == data["nombre"].s
  {
  }
}
