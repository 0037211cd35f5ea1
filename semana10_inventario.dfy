/** The SEMANA10 inventory: the SEMANA9 list operations, with every change saved to a text
    file holding one `to_linea` line per product, and the list reloaded from that file.
    The file is the string `archivo`. Whether the operating system lets a save or a load
    through is the boolean parameter `escrituraOk` or `accesoOk` of the operation. */
module Semana10Inventario {
  import opened Comun
  import opened Texto
  import opened Semana10Producto

  // ---------------------------------------------------------------------------
  // the records of a list of products, and identifiers among them
  // ---------------------------------------------------------------------------

  /** What the getters of each product in the list return, in list order. */
  function Registros(ps: seq<Producto>): (rs: seq<Registro>)
    reads ps
    ensures |rs| == |ps|
    ensures forall i :: 0 <= i < |ps| ==> rs[i] == ps[i].Valor()
  {
    seq(|ps|, i reads ps requires 0 <= i < |ps| => ps[i].Valor())
  }

  /** Appending a product appends its values. */
  lemma RegistrosAgregar(ps: seq<Producto>, p: Producto)
    ensures Registros(ps + [p]) == Registros(ps) + [p.Valor()]
  {
    assert forall i :: 0 <= i < |ps| ==> (ps + [p])[i] == ps[i];
  }

  /** Index of the first record with identifier `id`, or `|rs|` when there is none. */
  function Posicion(rs: seq<Registro>, id: string): (k: nat)
    ensures k <= |rs|
    ensures k < |rs| ==> rs[k].id == id
    ensures forall j :: 0 <= j < k ==> rs[j].id != id
  {
    if rs == [] then 0
    else if rs[0].id == id then 0
    else
      var k := 1 + Posicion(rs[1..], id);
      assert forall j :: 1 <= j < |rs| ==> rs[j] == rs[1..][j - 1];
      k
  }

  /** Some record has identifier `id`. */
  predicate IdPresente(rs: seq<Registro>, id: string)
  {
    Posicion(rs, id) < |rs|
  }

  /** No two records share an identifier. */
  ghost predicate IdsUnicos(rs: seq<Registro>)
  {
    forall i, j :: 0 <= i < j < |rs| ==> rs[i].id != rs[j].id
  }

  /** Appending a record leaves the first position of an identifier already present alone. */
  lemma {:induction false} PosicionAgregar(rs: seq<Registro>, r: Registro, id: string)
    ensures Posicion(rs + [r], id) ==
              if IdPresente(rs, id) then Posicion(rs, id)
              else if r.id == id then |rs| else |rs| + 1
    decreases |rs|
  {
    if rs == [] {
      assert [] + [r] == [r];
    } else if rs[0].id != id {
      assert (rs + [r])[1..] == rs[1..] + [r];
      PosicionAgregar(rs[1..], r, id);
    }
  }

  // ---------------------------------------------------------------------------
  // loading: a fold over the lines of the file
  // ---------------------------------------------------------------------------

  /** The records read so far and the count of corrupt lines met. */
  datatype Carga = Carga(registros: seq<Registro>, corruptas: nat)

  /** What one line of the file turns out to be. */
  datatype Lectura = Blanca | Corrupta | Leido(r: Registro)

  /** A line that strips to nothing is blank; otherwise `desde_linea` either refuses it or
      reads a product from it. */
  function Leer(linea: string): (l: Lectura)
    ensures l.Leido? ==> Valido(l.r)
  {
    if Strip(linea) == "" then Blanca
    else
      match DesdeLinea(linea)
      case Err(_) => Corrupta
      case Ok(r) => Leido(r)
  }

  /** One turn of the loading loop: a blank line is skipped, a corrupt line is counted, and
      a product is kept unless its identifier is already loaded. */
  function Paso(c: Carga, linea: string): Carga
  {
    match Leer(linea)
    case Blanca => c
    case Corrupta => c.(corruptas := c.corruptas + 1)
    case Leido(r) => if IdPresente(c.registros, r.id) then c else c.(registros := c.registros + [r])
  }

  /** Distinct valid records stay distinct and valid after one turn. */
  lemma PasoUnicos(c: Carga, linea: string)
    requires IdsUnicos(c.registros)
    requires forall i :: 0 <= i < |c.registros| ==> Valido(c.registros[i])
    ensures IdsUnicos(Paso(c, linea).registros)
    ensures forall i :: 0 <= i < |Paso(c, linea).registros| ==> Valido(Paso(c, linea).registros[i])
  {
    if Leer(linea).Leido? {
      var r := Leer(linea).r;
      if !IdPresente(c.registros, r.id) {
        assert forall i :: 0 <= i < |c.registros| ==> c.registros[i].id != r.id;
      }
    }
  }

  /** `cargar_desde_archivo` over the lines of the file, from an empty list: the loaded
      products have distinct identifiers and each is one `desde_linea` accepts. */
  function CargarLineas(lineas: seq<string>): (c: Carga)
    ensures IdsUnicos(c.registros)
    ensures forall i :: 0 <= i < |c.registros| ==> Valido(c.registros[i])
  {
    if lineas == [] then Carga([], 0)
    else
      var c := CargarLineas(lineas[..|lineas| - 1]);
      PasoUnicos(c, lineas[|lineas| - 1]);
      Paso(c, lineas[|lineas| - 1])
  }

  /** One more line of the file is one more turn of the loop. */
  lemma CargarLineasPaso(lineas: seq<string>, i: nat)
    requires i < |lineas|
    ensures CargarLineas(lineas[..i + 1]) == Paso(CargarLineas(lineas[..i]), lineas[i])
  {
    assert lineas[..i + 1][..i] == lineas[..i];
  }

  /** The file read line by line, as `for linea in f` reads a file opened in text mode:
      after universal-newline translation, its text split at each newline. The products
      loaded have distinct identifiers and are all valid, and a text without a carriage
      return is split at its own newlines. */
  function CargarTexto(texto: string): (c: Carga)
    ensures IdsUnicos(c.registros)
    ensures forall i :: 0 <= i < |c.registros| ==> Valido(c.registros[i])
    ensures '\r' !in texto ==> c == CargarLineas(Dividir(texto, '\n'))
  {
    if '\r' !in texto then
      TraducirSinRetorno(texto);
      CargarLineas(Dividir(TraducirSaltos(texto), '\n'))
    else
      CargarLineas(Dividir(TraducirSaltos(texto), '\n'))
  }

  /** Reference for the loader: every record the lines of the file hold, in file order,
      duplicates included. */
  function Validos(lineas: seq<string>): seq<Registro>
  {
    if lineas == [] then []
    else
      Validos(lineas[..|lineas| - 1]) +
        match Leer(lineas[|lineas| - 1])
        case Leido(r) => [r]
        case _ => []
  }

  /** Reference for the loader: the number of blank lines. */
  function Blancas(lineas: seq<string>): nat
  {
    if lineas == [] then 0
    else Blancas(lineas[..|lineas| - 1]) + if Leer(lineas[|lineas| - 1]).Blanca? then 1 else 0
  }

  /** Each record of `rs` is the first record of `v` with its identifier. */
  ghost predicate SoloPrimeros(rs: seq<Registro>, v: seq<Registro>)
  {
    forall i :: 0 <= i < |rs| ==> IdPresente(v, rs[i].id) && v[Posicion(v, rs[i].id)] == rs[i]
  }

  /** Every identifier of `v` is in `rs`. */
  ghost predicate Cubre(rs: seq<Registro>, v: seq<Registro>)
  {
    forall id :: IdPresente(v, id) ==> IdPresente(rs, id)
  }

  /** The records of `rs` are ordered by where their identifiers first stand in `v`. */
  ghost predicate EnOrdenDe(rs: seq<Registro>, v: seq<Registro>)
  {
    forall i, j :: 0 <= i < j < |rs| ==> Posicion(v, rs[i].id) < Posicion(v, rs[j].id)
  }

  /** `rs` holds, for each identifier among the records `v`, the first record of `v` with
      that identifier, and nothing else, ordered by where those records stand in `v`. */
  ghost predicate PrimerosDe(rs: seq<Registro>, v: seq<Registro>)
  {
    SoloPrimeros(rs, v) && Cubre(rs, v) && EnOrdenDe(rs, v)
  }

  /** What a new record does to the first positions in `v`. */
  lemma PosicionesAgregar(v: seq<Registro>, r: Registro)
    ensures forall id :: IdPresente(v, id) ==> Posicion(v + [r], id) == Posicion(v, id)
    ensures Posicion(v + [r], r.id) == if IdPresente(v, r.id) then Posicion(v, r.id) else |v|
  {
    forall id | IdPresente(v, id)
      ensures Posicion(v + [r], id) == Posicion(v, id)
    {
      PosicionAgregar(v, r, id);
    }
    PosicionAgregar(v, r, r.id);
  }

  lemma SoloPrimerosAgregar(rs: seq<Registro>, v: seq<Registro>, r: Registro)
    requires SoloPrimeros(rs, v) && Cubre(rs, v)
    ensures SoloPrimeros(if IdPresente(rs, r.id) then rs else rs + [r], v + [r])
  {
    var w := v + [r];
    PosicionesAgregar(v, r);
    assert forall i :: 0 <= i < |v| ==> w[i] == v[i];
    if !IdPresente(rs, r.id) {
      assert !IdPresente(v, r.id);
      var t := rs + [r];
      assert forall i :: 0 <= i < |rs| ==> t[i] == rs[i];
    }
  }

  lemma CubreAgregar(rs: seq<Registro>, v: seq<Registro>, r: Registro)
    requires Cubre(rs, v)
    ensures Cubre(if IdPresente(rs, r.id) then rs else rs + [r], v + [r])
  {
    var t := if IdPresente(rs, r.id) then rs else rs + [r];
    forall id | IdPresente(v + [r], id)
      ensures IdPresente(t, id)
    {
      PosicionAgregar(v, r, id);
      PosicionAgregar(rs, r, id);
    }
  }

  lemma EnOrdenAgregar(rs: seq<Registro>, v: seq<Registro>, r: Registro)
    requires SoloPrimeros(rs, v) && Cubre(rs, v) && EnOrdenDe(rs, v)
    ensures EnOrdenDe(if IdPresente(rs, r.id) then rs else rs + [r], v + [r])
  {
    PosicionesAgregar(v, r);
    if !IdPresente(rs, r.id) {
      assert !IdPresente(v, r.id);
      var t := rs + [r];
      assert forall i :: 0 <= i < |rs| ==> t[i] == rs[i];
    }
  }

  /** Keeping a record only when its identifier is new keeps the first records. */
  lemma PrimerosAgregar(rs: seq<Registro>, v: seq<Registro>, r: Registro)
    requires PrimerosDe(rs, v)
    ensures PrimerosDe(if IdPresente(rs, r.id) then rs else rs + [r], v + [r])
  {
    SoloPrimerosAgregar(rs, v, r);
    CubreAgregar(rs, v, r);
    EnOrdenAgregar(rs, v, r);
  }

  /** What loading keeps, stated against the records the lines hold: each loaded product is
      the first record in the file with its identifier, every identifier in the file is
      loaded, the loaded products keep file order, and every line is either blank, corrupt
      or a record. */
  lemma {:induction false} CargarLineasPrimero(lineas: seq<string>)
    ensures PrimerosDe(CargarLineas(lineas).registros, Validos(lineas))
    ensures CargarLineas(lineas).corruptas + |Validos(lineas)| + Blancas(lineas) == |lineas|
    decreases |lineas|
  {
    if lineas != [] {
      var previas, linea := lineas[..|lineas| - 1], lineas[|lineas| - 1];
      CargarLineasPrimero(previas);
      var c0, v0 := CargarLineas(previas), Validos(previas);
      assert CargarLineas(lineas) == Paso(c0, linea);
      match Leer(linea)
      case Leido(r) =>
        assert Validos(lineas) == v0 + [r];
        assert CargarLineas(lineas).registros == if IdPresente(c0.registros, r.id) then c0.registros else c0.registros + [r];
        PrimerosAgregar(c0.registros, v0, r);
      case _ =>
        assert Validos(lineas) == v0 + [] == v0;
        assert CargarLineas(lineas).registros == c0.registros;
    }
  }

  // ---------------------------------------------------------------------------
  // saving
  // ---------------------------------------------------------------------------

  /** Lines written one after another, each followed by a newline. */
  function Juntar(lineas: seq<string>): string
  {
    if lineas == [] then "" else lineas[0] + "\n" + Juntar(lineas[1..])
  }

  /** Writing one more line appends it and a newline. */
  lemma {:induction false} JuntarAgregar(lineas: seq<string>, l: string)
    ensures Juntar(lineas + [l]) == Juntar(lineas) + l + "\n"
    decreases |lineas|
  {
    if lineas == [] {
      assert [l][1..] == [];
    } else {
      assert (lineas + [l])[1..] == lineas[1..] + [l];
      JuntarAgregar(lineas[1..], l);
    }
  }

  /** The written lines are the lines joined by newlines, with a final empty piece after
      the last newline. */
  lemma {:induction false} JuntarUnir(lineas: seq<string>)
    ensures Juntar(lineas) == Unir(lineas + [""], '\n')
    decreases |lineas|
  {
    if lineas != [] {
      JuntarUnir(lineas[1..]);
      assert (lineas + [""])[1..] == lineas[1..] + [""];
    }
  }

  /** A character that no line holds is not in the written text. */
  lemma {:induction false} JuntarSin(lineas: seq<string>, c: char)
    requires c != '\n'
    requires forall i :: 0 <= i < |lineas| ==> c !in lineas[i]
    ensures c !in Juntar(lineas)
    decreases |lineas|
  {
    if lineas != [] {
      assert c !in lineas[0];
      assert forall i :: 0 <= i < |lineas[1..]| ==> lineas[1..][i] == lineas[i + 1];
      JuntarSin(lineas[1..], c);
    }
  }

  /** The lines of the records, in order. */
  function Lineas(rs: seq<Registro>): seq<string>
  {
    seq(|rs|, i requires 0 <= i < |rs| => LineaDe(rs[i]))
  }

  /** The file `guardar_en_archivo` writes: each product's line followed by a newline. */
  function Serializar(rs: seq<Registro>): string
  {
    Juntar(Lineas(rs))
  }

  /** Writing one more product appends its line. */
  lemma SerializarAgregar(rs: seq<Registro>, r: Registro)
    ensures Serializar(rs + [r]) == Serializar(rs) + LineaDe(r) + "\n"
  {
    assert Lineas(rs + [r]) == Lineas(rs) + [LineaDe(r)];
    JuntarAgregar(Lineas(rs), LineaDe(r));
  }

  /** The saved file is empty exactly when there are no products, and otherwise ends with
      a newline. */
  lemma SerializarFinal(rs: seq<Registro>)
    ensures Serializar(rs) == "" <==> rs == []
    ensures rs != [] ==> Serializar(rs)[|Serializar(rs)| - 1] == '\n'
  {
    if rs != [] {
      assert rs == rs[..|rs| - 1] + [rs[|rs| - 1]];
      SerializarAgregar(rs[..|rs| - 1], rs[|rs| - 1]);
    }
  }

  /** The saved file is the lines joined by newlines, with a final empty piece after the
      last newline. */
  lemma SerializarUnir(rs: seq<Registro>)
    ensures Serializar(rs) == Unir(Lineas(rs) + [""], '\n')
  {
    JuntarUnir(Lineas(rs));
  }

  /** Loading the line of a valid record whose identifier is new appends that record. */
  lemma PasoLinea(c: Carga, r: Registro)
    requires Valido(r) && !IdPresente(c.registros, r.id)
    ensures Paso(c, LineaDe(r)) == Carga(c.registros + [r], c.corruptas)
  {
    LineaSinBordes(r);
    StripSinBordes(LineaDe(r));
    DesdeLineaLineaDe(r);
    assert Leer(LineaDe(r)) == Leido(r);
  }

  /** Loading the lines of distinct valid records gives those records back, none corrupt. */
  lemma {:induction false} CargarLineasDe(rs: seq<Registro>)
    requires IdsUnicos(rs)
    requires forall i :: 0 <= i < |rs| ==> Valido(rs[i])
    ensures CargarLineas(Lineas(rs)) == Carga(rs, 0)
    decreases |rs|
  {
    if rs != [] {
      var previos, r := rs[..|rs| - 1], rs[|rs| - 1];
      assert rs == previos + [r];
      assert Lineas(rs)[..|rs| - 1] == Lineas(previos);
      CargarLineasDe(previos);
      assert !IdPresente(previos, r.id);
      PasoLinea(Carga(previos, 0), r);
      assert CargarLineas(Lineas(rs)) == Paso(CargarLineas(Lineas(previos)), LineaDe(r));
    }
  }

  /** The text of a longer prefix is the text of the shorter one and one more line. */
  lemma SerializarPrefijo(rs: seq<Registro>, i: nat)
    requires i < |rs|
    ensures Serializar(rs[..i + 1]) == Serializar(rs[..i]) + LineaDe(rs[i]) + "\n"
  {
    assert rs[..i + 1] == rs[..i] + [rs[i]];
    SerializarAgregar(rs[..i], rs[i]);
  }

  /** The file written for records that fit on one line holds no carriage return. */
  lemma SerializarSinRetorno(rs: seq<Registro>)
    requires forall i :: 0 <= i < |rs| ==> Guardable(rs[i])
    ensures '\r' !in Serializar(rs)
  {
    var lineas := Lineas(rs);
    forall i | 0 <= i < |lineas|
      ensures '\r' !in lineas[i]
    {
      assert Guardable(rs[i]);
      CaracteresDeLinea(rs[i]);
    }
    JuntarSin(lineas, '\r');
  }

  /** The lines of records that fit on one line, and the empty piece after them, hold no
      newline. */
  lemma LineasSinSalto(rs: seq<Registro>)
    requires forall i :: 0 <= i < |rs| ==> Guardable(rs[i])
    ensures var lineas := Lineas(rs) + [""];
            forall i :: 0 <= i < |lineas| ==> '\n' !in lineas[i]
  {
    var lineas := Lineas(rs) + [""];
    forall i | 0 <= i < |lineas|
      ensures '\n' !in lineas[i]
    {
      if i < |rs| {
        assert Guardable(rs[i]);
        CaracteresDeLinea(rs[i]);
        assert lineas[i] == LineaDe(rs[i]);
      } else {
        assert lineas[i] == "";
      }
    }
  }

  /** The saved file, split at its newlines, is the records' lines and an empty last piece. */
  lemma DividirSerializar(rs: seq<Registro>)
    requires forall i :: 0 <= i < |rs| ==> Guardable(rs[i])
    ensures Dividir(Serializar(rs), '\n') == Lineas(rs) + [""]
  {
    LineasSinSalto(rs);
    SerializarUnir(rs);
    DividirUnir(Lineas(rs) + [""], '\n');
  }

  /** The empty piece after the final newline is a blank line, which loading skips. */
  lemma CargarFinalVacio(lineas: seq<string>)
    ensures CargarLineas(lineas + [""]) == CargarLineas(lineas)
  {
    var todas := lineas + [""];
    CargarLineasPaso(todas, |lineas|);
    assert todas[..|lineas| + 1] == todas && todas[..|lineas|] == lineas;
    assert Strip("") == "";
  }

  /** Save then load: a list of distinct valid products whose identifiers and names hold
      no newline and no carriage return is read back exactly, with no corrupt line. */
  lemma GuardarCargar(rs: seq<Registro>)
    requires IdsUnicos(rs)
    requires forall i :: 0 <= i < |rs| ==> Guardable(rs[i])
    ensures CargarTexto(Serializar(rs)) == Carga(rs, 0)
  {
    SerializarSinRetorno(rs);
    DividirSerializar(rs);
    CargarFinalVacio(Lineas(rs));
    CargarLineasDe(rs);
  }

  // ---------------------------------------------------------------------------
  // search
  // ---------------------------------------------------------------------------

  /** The products whose lower-cased name contains `q`, in list order. */
  function Coincidencias(ps: seq<Producto>, q: string): (r: seq<Producto>)
    reads ps
    ensures |r| <= |ps|
    ensures forall i :: 0 <= i < |r| ==> r[i] in ps && Contiene(Lower(r[i].nombre), q)
    ensures forall i :: 0 <= i < |ps| && Contiene(Lower(ps[i].nombre), q) ==> ps[i] in r
  {
    if ps == [] then []
    else
      var ultimo := ps[|ps| - 1];
      Coincidencias(ps[..|ps| - 1], q) + if Contiene(Lower(ultimo.nombre), q) then [ultimo] else []
  }

  /** An empty query matches every product. */
  lemma {:induction false} CoincidenciasVacia(ps: seq<Producto>)
    ensures Coincidencias(ps, "") == ps
    decreases |ps|
  {
    if ps != [] {
      ContieneVacio(Lower(ps[|ps| - 1].nombre));
      CoincidenciasVacia(ps[..|ps| - 1]);
    }
  }

  /** No two product objects of the list share an identifier. */
  ghost predicate IdsDistintos(ps: seq<Producto>)
  {
    forall i, j :: 0 <= i < j < |ps| ==> ps[i].id != ps[j].id
  }

  /** The list without its element at `k`, in order; the list itself when there is none. */
  function Quitar<T>(s: seq<T>, k: nat): seq<T>
  {
    if k < |s| then s[..k] + s[k + 1..] else s
  }

  /** Removing one product keeps the identifiers distinct. */
  lemma QuitarDistintos(ps: seq<Producto>, k: nat)
    requires IdsDistintos(ps)
    ensures IdsDistintos(Quitar(ps, k))
  {
    var qs := Quitar(ps, k);
    forall i, j | 0 <= i < j < |qs|
      ensures qs[i].id != qs[j].id
    {
      var i0, j0 := if i < k then i else i + 1, if j < k then j else j + 1;
      assert qs[i] == ps[i0] && qs[j] == ps[j0];
    }
  }

  /** `actualizar_por_id` on the values of one product. */
  function Actualizado(r: Registro, nuevaCantidad: Option<int>, nuevoPrecio: Option<int>): Registro
  {
    r.(cantidad := if nuevaCantidad.Some? then nuevaCantidad.value else r.cantidad,
       precio := if nuevoPrecio.Some? then nuevoPrecio.value else r.precio)
  }

  /** `actualizar_por_id` on the list's values: the first record with identifier `id`, if
      any, is updated, and every other record is left as it is. */
  function ActualizarRegistros(rs: seq<Registro>, id: string, nuevaCantidad: Option<int>,
                               nuevoPrecio: Option<int>): seq<Registro>
  {
    var k := Posicion(rs, id);
    if k < |rs| then rs[k := Actualizado(rs[k], nuevaCantidad, nuevoPrecio)] else rs
  }

  /** The update keeps the length, every identifier and name, and every record of another
      identifier; it changes nothing when the identifier is absent. */
  lemma ActualizarRegistrosEfecto(rs: seq<Registro>, id: string, nuevaCantidad: Option<int>,
                                  nuevoPrecio: Option<int>)
    ensures var r := ActualizarRegistros(rs, id, nuevaCantidad, nuevoPrecio);
            && |r| == |rs|
            && (forall i :: 0 <= i < |rs| ==> r[i].id == rs[i].id && r[i].nombre == rs[i].nombre)
            && (forall i :: 0 <= i < |rs| && rs[i].id != id ==> r[i] == rs[i])
            && (!IdPresente(rs, id) ==> r == rs)
  {
  }

  /** Records with the same identifiers, in the same order, give every identifier the same
      position. */
  lemma {:induction false} PosicionMismosIds(rs: seq<Registro>, qs: seq<Registro>, id: string)
    requires |rs| == |qs| && forall i :: 0 <= i < |rs| ==> rs[i].id == qs[i].id
    ensures Posicion(rs, id) == Posicion(qs, id)
  {
    var k := Posicion(rs, id);
    assert forall j :: 0 <= j < k ==> qs[j].id != id;
    if k < |rs| {
      assert qs[k].id == id;
    }
  }

  /** Updating twice with the same values is updating once. */
  lemma ActualizarIdempotente(rs: seq<Registro>, id: string, nuevaCantidad: Option<int>,
                              nuevoPrecio: Option<int>)
    ensures var una := ActualizarRegistros(rs, id, nuevaCantidad, nuevoPrecio);
            ActualizarRegistros(una, id, nuevaCantidad, nuevoPrecio) == una
  {
    var una := ActualizarRegistros(rs, id, nuevaCantidad, nuevoPrecio);
    ActualizarRegistrosEfecto(rs, id, nuevaCantidad, nuevoPrecio);
    PosicionMismosIds(rs, una, id);
  }

  class Inventario {
    var productos: seq<Producto>
    /** The contents of the inventory file. */
    var archivo: string

    /** Identifiers are unique. */
    ghost predicate Valid()
      reads this
    {
      IdsDistintos(productos)
    }

    /** `Inventario(ruta)`: an empty list, then a load of the file. */
    constructor (archivo: string, accesoOk: bool)
      ensures Valid()
      ensures this.archivo == archivo
      ensures accesoOk ==> Registros(productos) == CargarTexto(archivo).registros
      ensures !accesoOk ==> productos == []
    {
      this.archivo := archivo;
      productos := [];
      new;
      var ok, corruptas := CargarDesdeArchivo(accesoOk);
    }

    /** `id_existe`: a linear scan for the identifier. */
    method IdExiste(id: string) returns (existe: bool)
      ensures existe <==> IdPresente(Registros(productos), id)
    {
      for i := 0 to |productos|
        invariant forall j :: 0 <= j < i ==> productos[j].id != id
      {
        if productos[i].id == id {
          assert Registros(productos)[i].id == id;
          return true;
        }
      }
      existe := false;
    }

    /** `guardar_en_archivo`: writes every product's line, in list order; when the system
        refuses the write, the file keeps its previous contents. */
    method GuardarEnArchivo(escrituraOk: bool) returns (ok: bool)
      requires Valid()
      modifies this`archivo
      ensures Valid() && Registros(productos) == old(Registros(productos))
      ensures ok == escrituraOk
      ensures archivo == if ok then Serializar(Registros(productos)) else old(archivo)
    {
      ghost var rs := Registros(productos);
      var texto := "";
      for i := 0 to |productos|
        invariant texto == Serializar(rs[..i])
        invariant archivo == old(archivo)
      {
        SerializarPrefijo(rs, i);
        texto := texto + productos[i].ToLinea() + "\n";
      }
      assert rs[..|productos|] == rs;
      if !escrituraOk {
        return false;
      }
      archivo := texto;
      assert Registros(productos) == rs;
      ok := true;
    }

    /** `cargar_desde_archivo`: when the file cannot be reached nothing changes; otherwise the
        list is replaced by the products the file's lines hold, skipping blank lines,
        counting and skipping corrupt ones, and keeping the first product of each
        identifier. */
    method CargarDesdeArchivo(accesoOk: bool) returns (ok: bool, corruptas: nat)
      requires Valid()
      modifies this
      ensures Valid()
      ensures archivo == old(archivo)
      ensures ok == accesoOk
      ensures !ok ==> productos == old(productos) && corruptas == 0
      ensures ok ==> Registros(productos) == CargarTexto(archivo).registros
      ensures ok ==> corruptas == CargarTexto(archivo).corruptas
      ensures ok ==> forall i :: 0 <= i < |productos| ==> fresh(productos[i])
    {
      if !accesoOk {
        return false, 0;
      }
      var lineas := Dividir(TraducirSaltos(archivo), '\n');
      productos := [];
      corruptas := 0;
      for i := 0 to |lineas|
        invariant Registros(productos) == CargarLineas(lineas[..i]).registros
        invariant corruptas == CargarLineas(lineas[..i]).corruptas
        invariant forall j :: 0 <= j < |productos| ==> fresh(productos[j])
        invariant Valid() && archivo == old(archivo)
      {
        CargarLineasPaso(lineas, i);
        corruptas := CargarLinea(lineas[i], corruptas);
      }
      assert lineas[..|lineas|] == lineas;
      ok := true;
    }

    /** One turn of the load loop, on the line `linea`, with `corruptas` corrupt lines so
        far: it does what `Paso` says to the values of the list and to the count. */
    method CargarLinea(linea: string, corruptas: nat) returns (nuevas: nat)
      requires Valid()
      modifies this
      ensures Valid() && archivo == old(archivo)
      ensures Carga(Registros(productos), nuevas) == Paso(Carga(old(Registros(productos)), corruptas), linea)
      ensures |productos| >= |old(productos)| && productos[..|old(productos)|] == old(productos)
      ensures forall j :: |old(productos)| <= j < |productos| ==> fresh(productos[j])
    {
      ghost var antes := Carga(Registros(productos), corruptas);
      nuevas := corruptas;
      if Strip(linea) != "" {
        match DesdeLinea(linea) {
          case Err(_) =>
            assert Paso(antes, linea) == antes.(corruptas := corruptas + 1);
            nuevas := corruptas + 1;
          case Ok(r) =>
            assert Leer(linea) == Leido(r);
            var existe := IdExiste(r.id);
            if !existe {
              AgregarNuevo(r);
            }
        }
      }
    }

    /** The load's `append`: a new product object holding `r` goes at the end of the list. */
    method AgregarNuevo(r: Registro)
      requires Valid() && !IdPresente(Registros(productos), r.id)
      modifies this
      ensures Valid() && archivo == old(archivo)
      ensures |productos| == |old(productos)| + 1 && productos[..|old(productos)|] == old(productos)
      ensures fresh(productos[|old(productos)|])
      ensures Registros(productos) == old(Registros(productos)) + [r]
    {
      ghost var antes := Registros(productos);
      var p := new Producto(r.id, r.nombre, r.cantidad, r.precio);
      productos := productos + [p];
      assert forall i :: 0 <= i < |antes| ==> productos[i].Valor() == antes[i];
      assert Registros(productos) == antes + [r];
    }

    /** `anadir_producto`: refuses a duplicate identifier, changing nothing; otherwise appends
        the product and saves, and the product stays in the list even when the save fails. */
    method AnadirProducto(p: Producto, escrituraOk: bool) returns (ok: bool)
      requires Valid()
      modifies this
      ensures Valid()
      ensures IdPresente(old(Registros(productos)), p.id) ==>
                !ok && productos == old(productos) && archivo == old(archivo)
      ensures !IdPresente(old(Registros(productos)), p.id) ==>
                && productos == old(productos) + [p]
                && ok == escrituraOk
                && archivo == if ok then Serializar(Registros(productos)) else old(archivo)
    {
      var existe := IdExiste(p.id);
      if existe {
        return false;
      }
      productos := productos + [p];
      ok := GuardarEnArchivo(escrituraOk);
    }

    /** `eliminar_por_id`: removes the first product with that identifier, keeping the others
        in order, and saves; reports false and changes nothing when there is none. */
    method EliminarPorId(id: string, escrituraOk: bool) returns (ok: bool)
      requires Valid()
      modifies this
      ensures Valid()
      ensures productos == Quitar(old(productos), Posicion(old(Registros(productos)), id))
      ensures ok == (IdPresente(old(Registros(productos)), id) && escrituraOk)
      ensures archivo == if ok then Serializar(Registros(productos)) else old(archivo)
    {
      var k := Buscar(id);
      if k == |productos| {
        return false;
      }
      QuitarDistintos(productos, k);
      productos := Quitar(productos, k);
      ok := GuardarEnArchivo(escrituraOk);
    }

    /** `actualizar_por_id`: sets the quantity and the price given (`None` leaves a field as
        it is) of the product with that identifier, and of no other, and saves; reports
        false and changes nothing when there is none. */
    method ActualizarPorId(id: string, nuevaCantidad: Option<int>, nuevoPrecio: Option<int>,
                           escrituraOk: bool) returns (ok: bool)
      requires Valid()
      modifies this, productos
      ensures Valid() && productos == old(productos)
      ensures Registros(productos) == ActualizarRegistros(old(Registros(productos)), id, nuevaCantidad, nuevoPrecio)
      ensures ok == (IdPresente(old(Registros(productos)), id) && escrituraOk)
      ensures archivo == if ok then Serializar(Registros(productos)) else old(archivo)
    {
      var k := Buscar(id);
      if k == |productos| {
        return false;
      }
      ActualizarEn(id, k, nuevaCantidad, nuevoPrecio);
      ok := GuardarEnArchivo(escrituraOk);
    }

    /** The `for` loop of `eliminar_por_id` and `actualizar_por_id`: the index of the first
        product with that identifier, or the length of the list when there is none. */
    method Buscar(id: string) returns (k: nat)
      ensures k == Posicion(Registros(productos), id)
    {
      k := 0;
      while k < |productos| && productos[k].id != id
        invariant k <= |productos|
        invariant forall j :: 0 <= j < k ==> productos[j].id != id
      {
        k := k + 1;
      }
      ghost var rs := Registros(productos);
      assert forall j :: 0 <= j < k ==> rs[j].id != id;
      assert Posicion(rs, id) == k;
    }

    /** The two setter calls of `actualizar_por_id` on the product at index `k`: only its
        values change, and only as `Actualizado` says. */
    method ActualizarEn(id: string, k: nat, nuevaCantidad: Option<int>, nuevoPrecio: Option<int>)
      requires Valid() && k == Posicion(Registros(productos), id) && k < |productos|
      modifies productos[k]
      ensures Registros(productos) == ActualizarRegistros(old(Registros(productos)), id, nuevaCantidad, nuevoPrecio)
    {
      ghost var antes := Registros(productos);
      ghost var esperado := antes[k := Actualizado(antes[k], nuevaCantidad, nuevoPrecio)];
      var p := productos[k];
      assert forall j :: 0 <= j < |productos| && j != k ==> productos[j] != p;
      if nuevaCantidad.Some? {
        p.SetCantidad(nuevaCantidad.value);
      }
      if nuevoPrecio.Some? {
        p.SetPrecio(nuevoPrecio.value);
      }
      assert p.Valor() == esperado[k];
      assert forall j :: 0 <= j < |productos| && j != k ==> productos[j].Valor() == esperado[j];
      assert forall j :: 0 <= j < |productos| ==> Registros(productos)[j] == esperado[j];
    }

    /** `buscar_por_nombre`: the products, in list order, whose lower-cased name contains the
        stripped, lower-cased query. */
    method BuscarPorNombre(texto: string) returns (resultados: seq<Producto>)
      ensures resultados == Coincidencias(productos, Lower(Strip(texto)))
    {
      var q := Lower(Strip(texto));
      resultados := [];
      for i := 0 to |productos|
        invariant resultados == Coincidencias(productos[..i], q)
      {
        assert productos[..i + 1][..i] == productos[..i];
        if Contiene(Lower(productos[i].nombre), q) {
          resultados := resultados + [productos[i]];
        }
      }
      assert productos[..|productos|] == productos;
    }

    /** `mostrar_todos`: the list itself. */
    method MostrarTodos() returns (todos: seq<Producto>)
      ensures todos == productos
    {
      todos := productos;
    }
  }
}
