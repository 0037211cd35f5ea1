/** The SEMANA10 product: a record object with getters and unvalidated setters, and its
    text form for the inventory file, one `id|nombre|cantidad|precio` line per product.
    The price is held in whole cents, written and read as Python writes and reads a
    two-decimal float ("3.0", "2.5", "0.05"). */
module Semana10Producto {
  import opened Comun
  import opened Texto

  /** The values a product holds: what `to_linea` writes and `desde_linea` rebuilds. */
  datatype Registro = Registro(id: string, nombre: string, cantidad: int, precio: int)

  class Producto {
    /** There is no `set_id`: the identifier is fixed for the object's lifetime. */
    const id: string
    var nombre: string
    var cantidad: int
    var precio: int

    /** The constructor stores exactly the given values, which the getters return. */
    constructor (id: string, nombre: string, cantidad: int, precio: int)
      ensures this.id == id && this.nombre == nombre
      ensures this.cantidad == cantidad && this.precio == precio
    {
      this.id := id;
      this.nombre := nombre;
      this.cantidad := cantidad;
      this.precio := precio;
    }

    /** The four getters at once. */
    function Valor(): Registro
      reads this
    {
      Registro(id, nombre, cantidad, precio)
    }

    /** `set_nombre`: changes the name only. */
    method SetNombre(nombre: string)
      modifies this
      ensures Valor() == old(Valor()).(nombre := nombre)
    {
      this.nombre := nombre;
    }

    /** `set_cantidad`: changes the quantity only. */
    method SetCantidad(cantidad: int)
      modifies this
      ensures Valor() == old(Valor()).(cantidad := cantidad)
    {
      this.cantidad := cantidad;
    }

    /** `set_precio`: changes the price only. */
    method SetPrecio(precio: int)
      modifies this
      ensures Valor() == old(Valor()).(precio := precio)
    {
      this.precio := precio;
    }

    /** `to_linea` of this product: when its values are ones `desde_linea` accepts, the
        line reads back as exactly those values. */
    function ToLinea(): (l: string)
      reads this
      ensures Valido(Valor()) ==> DesdeLinea(l) == Ok(Valor())
    {
      var l := LineaDe(Valor());
      if Valido(Valor()) then
        DesdeLineaLineaDe(Valor());
        l
      else
        l
    }
  }

  /** The text of the two numeric fields: no field separator and no whitespace in them. */
  lemma NumerosSinSeparador(r: Registro)
    ensures '|' !in FormatoEntero(r.cantidad) && '|' !in FormatoPrecio(r.precio)
    ensures '\n' !in FormatoEntero(r.cantidad) && '\n' !in FormatoPrecio(r.precio)
    ensures SinBordes(FormatoEntero(r.cantidad)) && SinBordes(FormatoPrecio(r.precio))
  {
    var e, p := FormatoEntero(r.cantidad), FormatoPrecio(r.precio);
    assert !EsEspacio(e[0]) && !EsEspacio(e[|e| - 1]);
    assert !EsEspacio(p[0]) && !EsEspacio(p[|p| - 1]);
  }

  /** The four fields `to_linea` writes, in order. */
  function Campos(r: Registro): seq<string>
  {
    [r.id, r.nombre, FormatoEntero(r.cantidad), FormatoPrecio(r.precio)]
  }

  /** `to_linea`: the four fields joined by `|`. When neither the identifier nor the name
      holds a `|`, splitting the line on `|` gives the four fields back. */
  function LineaDe(r: Registro): (l: string)
    ensures '|' !in r.id && '|' !in r.nombre ==> Dividir(l, '|') == Campos(r)
  {
    if '|' !in r.id && '|' !in r.nombre then
      NumerosSinSeparador(r);
      DividirUnir(Campos(r), '|');
      Unir(Campos(r), '|')
    else
      Unir(Campos(r), '|')
  }

  /** Every character of a product's line comes from its identifier or its name, or is a
      `|` or part of a number. */
  lemma CaracteresDeLinea(r: Registro)
    ensures forall c :: c in LineaDe(r) ==>
              c in r.id || c in r.nombre || c == '|' || c == '-' || c == '.' || EsDigito(c)
  {
    NumerosSinSeparador(r);
    UnirCampos(r);
    var e, p := FormatoEntero(r.cantidad), FormatoPrecio(r.precio);
    assert forall c :: c in e ==> c == '-' || EsDigito(c);
    assert forall c :: c in p ==> c == '-' || c == '.' || EsDigito(c);
  }

  /** The joined fields, written out. */
  lemma UnirCampos(r: Registro)
    ensures Unir(Campos(r), '|') ==
              r.id + "|" + r.nombre + "|" + FormatoEntero(r.cantidad) + "|" + FormatoPrecio(r.precio)
  {
    var c := Campos(r);
    assert c[1..][1..][1..] == [FormatoPrecio(r.precio)];
    assert Unir(c[1..][1..], '|') == FormatoEntero(r.cantidad) + "|" + FormatoPrecio(r.precio);
    assert Unir(c[1..], '|') == r.nombre + "|" + Unir(c[1..][1..], '|');
  }

  /** Why `desde_linea` raises ValueError. */
  datatype ErrorLinea =
    | CamposInvalidos   // the stripped line does not split into exactly 4 fields
    | CantidadInvalida  // `int` refuses the quantity field
    | PrecioInvalido    // `float` refuses the price field
    | IdONombreVacio    // the stripped identifier or name is empty
    | Negativo          // the quantity or the price is below zero

  /** What `desde_linea` accepts: a non-empty identifier and name with no whitespace at
      either end and no `|`, and a quantity and a price that are not negative. */
  predicate Valido(r: Registro)
  {
    && r.id != [] && r.nombre != []
    && SinBordes(r.id) && SinBordes(r.nombre)
    && '|' !in r.id && '|' !in r.nombre
    && r.cantidad >= 0 && r.precio >= 0
  }

  /** A valid record that also stays one line of the file when read back: Python's
      universal-newline reading ends a line at `\n` and at `\r`. */
  predicate Guardable(r: Registro)
  {
    Valido(r) && '\n' !in r.id && '\n' !in r.nombre && '\r' !in r.id && '\r' !in r.nombre
  }

  /** `desde_linea`: strip the line, split it on `|`, demand four fields, strip each, read
      the quantity with `int` and the price with `float`, then refuse an empty identifier
      or name and a negative quantity or price, in that order. */
  function DesdeLinea(linea: string): (r: Result<Registro, ErrorLinea>)
    ensures r.Ok? ==> Valido(r.value)
  {
    var partes := Dividir(Strip(linea), '|');
    if |partes| != 4 then Err(CamposInvalidos)
    else
      var id, nombre := Strip(partes[0]), Strip(partes[1]);
      match LeerEntero(Strip(partes[2]))
      case None => Err(CantidadInvalida)
      case Some(cantidad) =>
        match LeerPrecio(Strip(partes[3]))
        case None => Err(PrecioInvalido)
        case Some(precio) =>
          if id == [] || nombre == [] then Err(IdONombreVacio)
          else if cantidad < 0 || precio < 0 then Err(Negativo)
          else
            assert forall c :: c in id ==> c in partes[0];
            assert forall c :: c in nombre ==> c in partes[1];
            Ok(Registro(id, nombre, cantidad, precio))
  }

  /** How `desde_linea` decides: a stripped line that is not four `|`-separated fields is
      refused as such, and a product read from a line is its four stripped fields, with the
      quantity and the price as `int` and `float` read them. */
  lemma DesdeLineaCampos(linea: string)
    ensures |Dividir(Strip(linea), '|')| != 4 ==> DesdeLinea(linea) == Err(CamposInvalidos)
    ensures DesdeLinea(linea).Ok? ==>
              var r, partes := DesdeLinea(linea).value, Dividir(Strip(linea), '|');
              && |partes| == 4
              && r.id == Strip(partes[0]) && r.nombre == Strip(partes[1])
              && LeerEntero(Strip(partes[2])) == Some(r.cantidad)
              && LeerPrecio(Strip(partes[3])) == Some(r.precio)
  {
  }

  /** A blank line is never a product: it is refused for its field count. */
  lemma BlancaNoEsProducto(linea: string)
    requires TodoEspacio(linea)
    ensures DesdeLinea(linea) == Err(CamposInvalidos)
  {
    assert Strip(linea) == [];
  }

  /** The line of a valid record has no whitespace at either end. */
  lemma LineaSinBordes(r: Registro)
    requires Valido(r)
    ensures SinBordes(LineaDe(r)) && LineaDe(r) != ""
  {
    NumerosSinSeparador(r);
    var linea := LineaDe(r);
    var p := FormatoPrecio(r.precio);
    UnirCampos(r);
    assert linea == r.id + "|" + r.nombre + "|" + FormatoEntero(r.cantidad) + "|" + p;
    assert linea[0] == r.id[0];
    assert linea[|linea| - 1] == p[|p| - 1];
  }

  /** Round trip: reading back the line of a valid record gives that record. */
  lemma DesdeLineaLineaDe(r: Registro)
    requires Valido(r)
    ensures DesdeLinea(LineaDe(r)) == Ok(r)
  {
    LineaSinBordes(r);
    StripSinBordes(LineaDe(r));
    NumerosSinSeparador(r);
    StripSinBordes(r.id);
    StripSinBordes(r.nombre);
    StripSinBordes(FormatoEntero(r.cantidad));
    StripSinBordes(FormatoPrecio(r.precio));
    LeerFormatoEntero(r.cantidad);
    LeerFormatoPrecio(r.precio);
  }

  /** A line that reads as a product is equivalent to the canonical line of that product. */
  lemma DesdeLineaCanonica(linea: string)
    requires DesdeLinea(linea).Ok?
    ensures DesdeLinea(LineaDe(DesdeLinea(linea).value)) == DesdeLinea(linea)
  {
    DesdeLineaLineaDe(DesdeLinea(linea).value);
  }
}
