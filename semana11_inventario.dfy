/** The SEMANA11 inventory: a dictionary from trimmed identifier to product, kept with a set
    of the products' normalised names, sorted listing and search, a summary, and the
    dictionary form stored as JSON. A Python `dict` remembers the order in which its keys
    were first inserted; `orden` holds that order. */
module Semana11Inventario {
  import opened Comun
  import opened Texto
  import opened Orden
  import opened Semana11Producto

  /** `_norm`: trimmed, then lower-cased. The result is no longer than the text, holds no
      ASCII capital, and is empty exactly when the text is all whitespace. */
  function Norm(texto: string): (r: string)
    ensures |r| <= |texto|
    ensures forall k :: 0 <= k < |r| ==> !('A' <= r[k] <= 'Z')
    ensures r == "" <==> TodoEspacio(texto)
  {
    Lower(Strip(texto))
  }

  /** A normalised text has no whitespace at either end and normalising it again changes
      nothing. */
  lemma NormIdempotente(texto: string)
    ensures SinBordes(Norm(texto))
    ensures Norm(Norm(texto)) == Norm(texto)
  {
    var n := Norm(texto);
    var s := Strip(texto);
    if n != [] {
      assert n[0] == Minuscula(s[0]) && n[|n| - 1] == Minuscula(s[|s| - 1]);
    }
    StripSinBordes(n);
    LowerSinMayusculas(n);
  }

  /** No key occurs twice. */
  predicate Distintas(s: seq<string>)
  {
    forall i, j :: 0 <= i < j < |s| ==> s[i] != s[j]
  }

  /** A key not yet listed can go last. */
  lemma DistintasAgregar(s: seq<string>, k: string)
    requires Distintas(s) && k !in s
    ensures Distintas(s + [k])
  {
    var t := s + [k];
    forall i, j | 0 <= i < j < |t| ensures t[i] != t[j] {
      if j == |s| {
        assert t[i] == s[i];
      } else {
        assert t[i] == s[i] && t[j] == s[j];
      }
    }
  }

  /** `s` without the key `k`, the others in order: the keys left after `dict.pop(k)`. */
  function SinClave(s: seq<string>, k: string): (r: seq<string>)
    ensures forall x :: x in r <==> x in s && x != k
    ensures |r| <= |s|
  {
    if s == [] then []
    else
      var r := SinClave(s[..|s| - 1], k);
      assert forall x :: x in s <==> x in s[..|s| - 1] || x == s[|s| - 1];
      r + (if s[|s| - 1] == k then [] else [s[|s| - 1]])
  }

  /** Removing a key from distinct keys leaves them distinct. */
  lemma {:induction false} SinClaveDistintas(s: seq<string>, k: string)
    requires Distintas(s)
    ensures Distintas(SinClave(s, k))
    decreases |s|
  {
    if s != [] {
      var ini := s[..|s| - 1];
      assert Distintas(ini);
      SinClaveDistintas(ini, k);
      assert s[|s| - 1] !in ini;
      assert s[|s| - 1] !in SinClave(ini, k);
    }
  }

  /** A map to which a new key is added holds one more value. */
  lemma ValoresAgregar<K, V>(m: map<K, V>, k: K, v: V)
    requires k !in m
    ensures m[k := v].Values == m.Values + {v}
  {
    var n := m[k := v];
    forall x | x in n.Values ensures x in m.Values + {v} {
      var j :| j in n && n[j] == x;
      if j != k {
        assert m[j] == x;
      }
    }
    forall x | x in m.Values + {v} ensures x in n.Values {
      if x == v {
        assert n[k] == x;
      } else {
        var j :| j in m && m[j] == x;
        assert n[j] == x;
      }
    }
  }

  /** The normalised names of the products a dictionary holds. */
  function NombresDe(m: map<string, Producto>): set<string>
    reads m.Values
  {
    set q | q in m.Values :: Norm(q.nombre)
  }

  /** The values of the products a dictionary holds, by key. */
  function TablaDe(m: map<string, Producto>): (t: map<string, Datos>)
    reads m.Values
    ensures forall k :: k in t <==> k in m
  {
    map k | k in m :: m[k].Valor()
  }

  /** Storing a product under a key stores its values there. */
  lemma TablaPoner(m: map<string, Producto>, k: string, p: Producto)
    ensures TablaDe(m[k := p]) == TablaDe(m)[k := p.Valor()]
  {
  }

  /** Adding a product under a new key adds its normalised name to the names. */
  lemma NombresAgregar(m: map<string, Producto>, k: string, p: Producto)
    requires k !in m
    ensures NombresDe(m[k := p]) == NombresDe(m) + {Norm(p.nombre)}
  {
    ValoresAgregar(m, k, p);
  }

  /** Distinct keys are as many as the set they form. */
  lemma {:induction false} CardinalDistintas(s: seq<string>)
    requires Distintas(s)
    ensures |set x | x in s| == |s|
    decreases |s|
  {
    if s != [] {
      var ini := s[..|s| - 1];
      CardinalDistintas(ini);
      assert (set x | x in s) == (set x | x in ini) + {s[|s| - 1]};
      assert s[|s| - 1] !in ini;
    }
  }

  // ---------------------------------------------------------------------------
  // search and listing on a list of products
  // ---------------------------------------------------------------------------

  /** The products of `vs`, in order, whose normalised name contains `q`. */
  function Coincidencias(vs: seq<Producto>, q: string): (r: seq<Producto>)
    reads vs
    ensures |r| <= |vs|
    ensures forall i :: 0 <= i < |r| ==> r[i] in vs && Contiene(Norm(r[i].nombre), q)
  {
    if vs == [] then []
    else
      var ultimo := vs[|vs| - 1];
      Coincidencias(vs[..|vs| - 1], q) + if Contiene(Norm(ultimo.nombre), q) then [ultimo] else []
  }

  /** No matching product is missed. */
  lemma {:induction false} CoincidenciasCompletas(vs: seq<Producto>, q: string)
    ensures forall i :: 0 <= i < |vs| && Contiene(Norm(vs[i].nombre), q) ==> vs[i] in Coincidencias(vs, q)
    decreases |vs|
  {
    if vs != [] {
      var ini, ultimo := vs[..|vs| - 1], vs[|vs| - 1];
      CoincidenciasCompletas(ini, q);
      var previo := Coincidencias(ini, q);
      var r := Coincidencias(vs, q);
      var extra := if Contiene(Norm(ultimo.nombre), q) then [ultimo] else [];
      assert r == previo + extra;
      forall i | 0 <= i < |vs| && Contiene(Norm(vs[i].nombre), q) ensures vs[i] in r {
        if i < |ini| {
          assert vs[i] == ini[i] && ini[i] in previo;
          var j :| 0 <= j < |previo| && previo[j] == vs[i];
          assert r[j] == vs[i];
        } else {
          assert vs[i] == ultimo && extra == [ultimo];
          assert r[|previo|] == vs[i];
        }
      }
    }
  }

  /** Each product paired with its sort key for `buscar_por_nombre`: its normalised name. */
  function PorNombre(vs: seq<Producto>): (r: seq<(Clave, Producto)>)
    reads vs
    ensures |r| == |vs|
    ensures forall i :: 0 <= i < |vs| ==> r[i] == ([Norm(vs[i].nombre)], vs[i])
  {
    seq(|vs|, i reads vs requires 0 <= i < |vs| => ([Norm(vs[i].nombre)], vs[i]))
  }

  /** Each product paired with its sort key for `listar_todos`: normalised name, then id. */
  function PorNombreEId(vs: seq<Producto>): (r: seq<(Clave, Producto)>)
    reads vs
    ensures |r| == |vs|
    ensures forall i :: 0 <= i < |vs| ==> r[i] == ([Norm(vs[i].nombre), vs[i].id], vs[i])
  {
    seq(|vs|, i reads vs requires 0 <= i < |vs| => ([Norm(vs[i].nombre), vs[i].id], vs[i]))
  }

  /** The products of a keyed list, keys dropped. */
  function Segundos<A, B>(s: seq<(A, B)>): (r: seq<B>)
    ensures |r| == |s|
    ensures forall i :: 0 <= i < |s| ==> r[i] == s[i].1
  {
    seq(|s|, i requires 0 <= i < |s| => s[i].1)
  }

  /** Taking the first element of `x` out of `x`, and the same element out of a permutation
      `y` of `x`, leaves two permutations. */
  lemma QuitarUno<T>(x: seq<T>, y: seq<T>, j: nat)
    requires 0 < |x| && j < |y| && y[j] == x[0] && multiset(x) == multiset(y)
    ensures multiset(x[1..]) == multiset(y[..j] + y[j + 1..])
  {
    assert x == [x[0]] + x[1..];
    assert y == y[..j] + [y[j]] + y[j + 1..];
    assert multiset(x) == multiset{x[0]} + multiset(x[1..]);
    assert multiset(y) == multiset(y[..j]) + multiset{y[j]} + multiset(y[j + 1..]);
    assert multiset(y[..j] + y[j + 1..]) == multiset(y[..j]) + multiset(y[j + 1..]);
    forall z ensures multiset(x[1..])[z] == multiset(y[..j] + y[j + 1..])[z] {
      assert multiset(x)[z] == multiset(y)[z];
    }
  }

  /** Dropping the keys of two lists holding the same pairs leaves the same values. */
  lemma {:induction false} SegundosPermutacion<A, B>(x: seq<(A, B)>, y: seq<(A, B)>)
    requires multiset(x) == multiset(y)
    ensures multiset(Segundos(x)) == multiset(Segundos(y))
    decreases |x|
  {
    if x != [] {
      assert x[0] in multiset(y);
      var j :| 0 <= j < |y| && y[j] == x[0];
      QuitarUno(x, y, j);
      SegundosPermutacion(x[1..], y[..j] + y[j + 1..]);
      SegundosPaso(x, y, j);
    }
  }

  /** The step of `SegundosPermutacion`: putting the same pair back on both sides. */
  lemma SegundosPaso<A, B>(x: seq<(A, B)>, y: seq<(A, B)>, j: nat)
    requires 0 < |x| && j < |y| && y[j] == x[0]
    requires multiset(Segundos(x[1..])) == multiset(Segundos(y[..j] + y[j + 1..]))
    ensures multiset(Segundos(x)) == multiset(Segundos(y))
  {
    var a, b, c := Segundos(y[..j]), Segundos(y[j + 1..]), Segundos(x[1..]);
    assert Segundos(x) == [x[0].1] + c;
    assert Segundos(y) == a + [x[0].1] + b;
    assert Segundos(y[..j] + y[j + 1..]) == a + b;
    calc {
      multiset(Segundos(x));
      multiset{x[0].1} + multiset(c);
      multiset{x[0].1} + multiset(a + b);
      multiset(a) + multiset{x[0].1} + multiset(b);
      multiset(Segundos(y));
    }
  }

  /** One key on each side: Python's tuple order is the order of the strings. */
  lemma ClaveUnaCadena(a: string, b: string)
    ensures ClaveMenor([a], [b]) == CadenaMenor(a, b)
  {
    assert [a][1..] == [] && [b][1..] == [];
    assert !Lex(CadenaMenor, [], []);
  }

  /** Sorting a list of products keyed by their normalised name. */
  function OrdenarPorNombre(vs: seq<Producto>): (r: seq<Producto>)
    reads vs
    ensures |r| == |vs|
  {
    Segundos(Ordenar(PorNombre(vs)))
  }

  /** What `resultados.sort(key=...)` promises: the same products, by normalised name, and
      products with the same normalised name in their original order. */
  lemma OrdenarPorNombreCorrecto(vs: seq<Producto>)
    ensures var r := OrdenarPorNombre(vs);
            && multiset(r) == multiset(vs)
            && (forall i, j :: 0 <= i < j < |r| ==> !CadenaMenor(Norm(r[j].nombre), Norm(r[i].nombre)))
            && (forall k :: ConClave(PorNombre(r), k) == ConClave(PorNombre(vs), k))
  {
    var x := PorNombre(vs);
    var o := Ordenar(x);
    var r := Segundos(o);
    forall i | 0 <= i < |o| ensures o[i].0 == [Norm(o[i].1.nombre)] {
      assert o[i] in multiset(x);
    }
    assert PorNombre(r) == o;
    assert Segundos(x) == vs;
    SegundosPermutacion(o, x);
    forall i, j | 0 <= i < j < |r| ensures !CadenaMenor(Norm(r[j].nombre), Norm(r[i].nombre)) {
      ClaveUnaCadena(Norm(r[j].nombre), Norm(r[i].nombre));
    }
    forall k ensures ConClave(PorNombre(r), k) == ConClave(PorNombre(vs), k) {
      OrdenarEstable(x, k);
    }
  }

  /** Sorting a list of products keyed by normalised name, then identifier. */
  function OrdenarPorNombreEId(vs: seq<Producto>): (r: seq<Producto>)
    reads vs
    ensures |r| == |vs|
  {
    Segundos(Ordenar(PorNombreEId(vs)))
  }

  /** What `productos_lista.sort(key=...)` promises: the same products, by normalised name
      and, between equal names, by identifier. */
  lemma OrdenarPorNombreEIdCorrecto(vs: seq<Producto>)
    ensures var r := OrdenarPorNombreEId(vs);
            && multiset(r) == multiset(vs)
            && (forall i, j :: 0 <= i < j < |r| ==>
                  !ClaveMenor([Norm(r[j].nombre), r[j].id], [Norm(r[i].nombre), r[i].id]))
  {
    var x := PorNombreEId(vs);
    var o := Ordenar(x);
    var r := Segundos(o);
    forall i | 0 <= i < |o| ensures o[i].0 == [Norm(o[i].1.nombre), o[i].1.id] {
      assert o[i] in multiset(x);
    }
    assert Segundos(x) == vs;
    SegundosPermutacion(o, x);
  }

  /** Total quantity of a list of products: `sum(p.get_cantidad() for p in ...)`. */
  function Unidades(vs: seq<Producto>): int
    reads vs
  {
    if vs == [] then 0 else Unidades(vs[..|vs| - 1]) + vs[|vs| - 1].cantidad
  }

  /** What one product is worth: `p.get_cantidad() * p.get_precio()`. */
  function Importe(p: Producto): real
    reads p
  {
    p.cantidad as real * p.precio
  }

  /** Total value of a list of products, before rounding. */
  function ValorTotal(vs: seq<Producto>): real
    reads vs
  {
    if vs == [] then 0.0 else ValorTotal(vs[..|vs| - 1]) + Importe(vs[|vs| - 1])
  }

  /** Products whose quantities are not negative add up to a total that is not negative,
      and to no less than any one of their quantities. */
  lemma {:induction false} UnidadesCotas(vs: seq<Producto>)
    requires forall i :: 0 <= i < |vs| ==> vs[i].cantidad >= 0
    ensures Unidades(vs) >= 0
    ensures forall i :: 0 <= i < |vs| ==> vs[i].cantidad <= Unidades(vs)
    decreases |vs|
  {
    if vs != [] {
      UnidadesCotas(vs[..|vs| - 1]);
      assert forall i :: 0 <= i < |vs| - 1 ==> vs[..|vs| - 1][i] == vs[i];
    }
  }

  /** Taking one product out of a list takes its quantity out of the units. */
  lemma {:induction false} UnidadesQuitar(vs: seq<Producto>, i: nat)
    requires i < |vs|
    ensures Unidades(vs) == Unidades(vs[..i] + vs[i + 1..]) + vs[i].cantidad
    decreases |vs|
  {
    var w, l := vs[..|vs| - 1], vs[|vs| - 1];
    if i == |vs| - 1 {
      assert vs[..i] + vs[i + 1..] == w;
    } else {
      var q := w[..i] + w[i + 1..];
      UnidadesQuitar(w, i);
      assert vs[..i] + vs[i + 1..] == q + [l];
      assert (q + [l])[..|q|] == q;
    }
  }

  /** Taking one product out of a list takes what it is worth out of the value. */
  lemma {:induction false} ValorQuitar(vs: seq<Producto>, i: nat)
    requires i < |vs|
    ensures ValorTotal(vs) == ValorTotal(vs[..i] + vs[i + 1..]) + Importe(vs[i])
    decreases |vs|
  {
    var w, l := vs[..|vs| - 1], vs[|vs| - 1];
    if i == |vs| - 1 {
      assert vs[..i] + vs[i + 1..] == w;
    } else {
      var q := w[..i] + w[i + 1..];
      ValorQuitar(w, i);
      assert vs[..i] + vs[i + 1..] == q + [l];
      assert (q + [l])[..|q|] == q;
    }
  }

  /** The units depend only on which products are listed, not on their order. */
  lemma {:induction false} UnidadesPermutacion(a: seq<Producto>, b: seq<Producto>)
    requires multiset(a) == multiset(b)
    ensures Unidades(a) == Unidades(b)
    decreases |a|
  {
    if a == [] {
      assert |b| == |multiset(b)| == 0;
    } else {
      assert a[0] in multiset(b);
      var j :| 0 <= j < |b| && b[j] == a[0];
      QuitarUno(a, b, j);
      UnidadesPermutacion(a[1..], b[..j] + b[j + 1..]);
      UnidadesQuitar(a, 0);
      UnidadesQuitar(b, j);
      assert a[..0] + a[1..] == a[1..];
    }
  }

  /** The value depends only on which products are listed, not on their order. */
  lemma {:induction false} ValorPermutacion(a: seq<Producto>, b: seq<Producto>)
    requires multiset(a) == multiset(b)
    ensures ValorTotal(a) == ValorTotal(b)
    decreases |a|
  {
    if a == [] {
      assert |b| == |multiset(b)| == 0;
    } else {
      assert a[0] in multiset(b);
      var j :| 0 <= j < |b| && b[j] == a[0];
      QuitarUno(a, b, j);
      ValorPermutacion(a[1..], b[..j] + b[j + 1..]);
      ValorQuitar(a, 0);
      ValorQuitar(b, j);
      assert a[..0] + a[1..] == a[1..];
    }
  }

  /** In distinct keys, dropping the key at position `i` removes exactly that position. */
  lemma {:induction false} SinClavePosicion(s: seq<string>, i: nat)
    requires Distintas(s) && i < |s|
    ensures SinClave(s, s[i]) == s[..i] + s[i + 1..]
    decreases |s|
  {
    var w, k := s[..|s| - 1], s[i];
    assert Distintas(w);
    if i == |s| - 1 {
      SinClaveAusente(w, k);
      assert s[..i] + s[i + 1..] == w;
    } else {
      assert w[i] == k;
      SinClavePosicion(w, i);
      assert s[..i] + s[i + 1..] == (w[..i] + w[i + 1..]) + [s[|s| - 1]];
    }
  }

  /** Dropping a key that is not there changes nothing. */
  lemma {:induction false} SinClaveAusente(s: seq<string>, k: string)
    requires k !in s
    ensures SinClave(s, k) == s
    decreases |s|
  {
    if s != [] {
      SinClaveAusente(s[..|s| - 1], k);
      assert s == s[..|s| - 1] + [s[|s| - 1]];
    }
  }

  /** The products of `t` in the key order `o`: what `values()` gives. */
  function EnOrden(t: map<string, Producto>, o: seq<string>): (vs: seq<Producto>)
    requires forall k :: k in o ==> k in t
    ensures |vs| == |o|
    ensures forall i :: 0 <= i < |o| ==> vs[i] == t[o[i]]
  {
    seq(|o|, i requires 0 <= i < |o| => t[o[i]])
  }

  /** Storing a product under a new key, last in the key order, adds its quantity to the
      units and its worth to the value. */
  lemma TotalesAgregar(t: map<string, Producto>, o: seq<string>, k: string, p: Producto)
    requires forall x :: x in o ==> x in t
    requires k !in t
    ensures Unidades(EnOrden(t[k := p], o + [k])) == Unidades(EnOrden(t, o)) + p.cantidad
    ensures ValorTotal(EnOrden(t[k := p], o + [k])) == ValorTotal(EnOrden(t, o)) + Importe(p)
  {
    var antes, despues := EnOrden(t, o), EnOrden(t[k := p], o + [k]);
    assert despues == antes + [p];
    assert despues[..|antes|] == antes;
  }

  /** Removing a key from distinct keys takes its product's quantity out of the units and
      its worth out of the value. */
  lemma TotalesQuitarClave(t: map<string, Producto>, o: seq<string>, k: string)
    requires forall x :: x in o ==> x in t
    requires Distintas(o) && k in o
    ensures forall x :: x in SinClave(o, k) ==> x in t - {k}
    ensures Unidades(EnOrden(t - {k}, SinClave(o, k))) == Unidades(EnOrden(t, o)) - t[k].cantidad
    ensures ValorTotal(EnOrden(t - {k}, SinClave(o, k))) == ValorTotal(EnOrden(t, o)) - Importe(t[k])
  {
    var i :| 0 <= i < |o| && o[i] == k;
    SinClavePosicion(o, i);
    EnOrdenQuitar(t, o, i);
    UnidadesQuitar(EnOrden(t, o), i);
    ValorQuitar(EnOrden(t, o), i);
  }

  /** Dropping position `i` of distinct keys, and its key from the map, drops position `i`
      of the values. */
  lemma EnOrdenQuitar(t: map<string, Producto>, o: seq<string>, i: nat)
    requires forall x :: x in o ==> x in t
    requires Distintas(o) && i < |o|
    ensures forall x :: x in o[..i] + o[i + 1..] ==> x in t - {o[i]}
    ensures EnOrden(t - {o[i]}, o[..i] + o[i + 1..]) == EnOrden(t, o)[..i] + EnOrden(t, o)[i + 1..]
  {
    var resto := o[..i] + o[i + 1..];
    forall j | 0 <= j < |resto|
      ensures resto[j] != o[i] && resto[j] in t
    {
      if j < i {
        assert resto[j] == o[j];
      } else {
        assert resto[j] == o[j + 1];
      }
    }
  }

  // ---------------------------------------------------------------------------
  // from_dict on values
  // ---------------------------------------------------------------------------

  /** Reads the products' dictionaries in order; the first that fails decides the error. */
  function Decodificar(items: seq<Dict>): (r: Result<seq<Datos>, Excepcion>)
    ensures r.Ok? ==> |r.value| == |items|
  {
    if items == [] then Ok([])
    else
      match Decodificar(items[..|items| - 1])
      case Err(e) => Err(e)
      case Ok(ds) =>
        match DesdeDict(items[|items| - 1])
        case Err(e) => Err(e)
        case Ok(d) => Ok(ds + [d])
  }

  /** The dictionary `from_dict` fills, as its key order and its values: each product is
      stored under its own identifier; a repeated identifier keeps its first position and
      takes the later value. */
  function Llenar(ds: seq<Datos>): (r: (seq<string>, map<string, Datos>))
    ensures Distintas(r.0)
    ensures forall k :: k in r.1 <==> k in r.0
    ensures forall k :: k in r.1 ==> r.1[k].id == k
  {
    if ds == [] then ([], map[])
    else
      var previo := Llenar(ds[..|ds| - 1]);
      var d := ds[|ds| - 1];
      (if d.id in previo.1 then previo.0 else previo.0 + [d.id], previo.1[d.id := d])
  }

  /** The identifiers stored are exactly those of the products. */
  lemma {:induction false} LlenarClaves(ds: seq<Datos>)
    ensures forall k :: k in Llenar(ds).1 <==> exists i :: 0 <= i < |ds| && ds[i].id == k
    decreases |ds|
  {
    if ds != [] {
      var ini, d := ds[..|ds| - 1], ds[|ds| - 1];
      LlenarClaves(ini);
      assert Llenar(ds).1 == Llenar(ini).1[d.id := d];
      forall k ensures k in Llenar(ds).1 <==> exists i :: 0 <= i < |ds| && ds[i].id == k {
        if k == d.id {
          assert ds[|ds| - 1].id == k;
        } else {
          if k in Llenar(ini).1 {
            var i :| 0 <= i < |ini| && ini[i].id == k;
            assert ds[i].id == k;
          }
          if exists i :: 0 <= i < |ds| && ds[i].id == k {
            var i :| 0 <= i < |ds| && ds[i].id == k;
            assert ini[i].id == k;
          }
        }
      }
    }
  }

  /** Last one wins: the value stored under an identifier is the last product holding it. */
  lemma {:induction false} LlenarUltimo(ds: seq<Datos>, i: nat)
    requires i < |ds| && forall j :: i < j < |ds| ==> ds[j].id != ds[i].id
    ensures ds[i].id in Llenar(ds).1 && Llenar(ds).1[ds[i].id] == ds[i]
    decreases |ds|
  {
    var ini, d := ds[..|ds| - 1], ds[|ds| - 1];
    assert Llenar(ds).1 == Llenar(ini).1[d.id := d];
    if i < |ini| {
      assert ds[i].id != d.id;
      LlenarUltimo(ini, i);
    }
  }

  /** Products with distinct identifiers fill the dictionary in their own order. */
  lemma {:induction false} LlenarDistintos(ds: seq<Datos>)
    requires forall i, j :: 0 <= i < j < |ds| ==> ds[i].id != ds[j].id
    ensures |Llenar(ds).0| == |ds|
    ensures forall i :: 0 <= i < |ds| ==> Llenar(ds).0[i] == ds[i].id && Llenar(ds).1[ds[i].id] == ds[i]
    decreases |ds|
  {
    if ds != [] {
      var ini, d := ds[..|ds| - 1], ds[|ds| - 1];
      assert ds == ini + [d];
      forall i | 0 <= i < |ini| ensures ini[i].id != d.id {
        assert ini[i] == ds[i];
      }
      LlenarDistintos(ini);
      LlenarDistintosPaso(ini, d);
    }
  }

  /** The step of `LlenarDistintos`: a new identifier goes last, under its own value. */
  lemma LlenarDistintosPaso(ini: seq<Datos>, d: Datos)
    requires |Llenar(ini).0| == |ini|
    requires forall i :: 0 <= i < |ini| ==> Llenar(ini).0[i] == ini[i].id && Llenar(ini).1[ini[i].id] == ini[i]
    requires forall i :: 0 <= i < |ini| ==> ini[i].id != d.id
    ensures var ds := ini + [d];
            && |Llenar(ds).0| == |ds|
            && forall i :: 0 <= i < |ds| ==> Llenar(ds).0[i] == ds[i].id && Llenar(ds).1[ds[i].id] == ds[i]
  {
    LlenarPaso(ini, d);
    var previo := Llenar(ini);
    var ds := ini + [d];
    assert d.id !in previo.0;
    assert Llenar(ds) == (previo.0 + [d.id], previo.1[d.id := d]);
    forall i | 0 <= i < |ds| ensures Llenar(ds).0[i] == ds[i].id && Llenar(ds).1[ds[i].id] == ds[i] {
      if i < |ini| {
        assert ds[i] == ini[i];
      }
    }
  }

  /** The inventory's dictionary form: `{"productos": [...]}`. */
  type DictInventario = map<string, seq<Dict>>

  // ---------------------------------------------------------------------------
  // the inventory
  // ---------------------------------------------------------------------------

  class Inventario {
    /** The dictionary's keys, in the order `values()` visits them. */
    var orden: seq<string>
    var productos: map<string, Producto>
    var nombresIndex: set<string>

    /** The keys listed once each and exactly those of the dictionary, and the name index
        equal to the normalised names of the stored products. */
    ghost predicate Valid()
      reads this, productos.Values
    {
      && Distintas(orden)
      && (forall k :: k in productos <==> k in orden)
      && nombresIndex == Nombres()
    }

    /** `{self._norm(p.nombre) for p in self.productos.values()}`. */
    function Nombres(): set<string>
      reads this, productos.Values
    {
      NombresDe(productos)
    }

    /** `self.productos.values()`, in dictionary order. */
    function Valores(): (vs: seq<Producto>)
      reads this, productos.Values
      requires Valid()
      ensures |vs| == |orden|
      ensures forall i :: 0 <= i < |orden| ==> vs[i] == productos[orden[i]]
    {
      EnOrden(productos, orden)
    }

    /** The values list every stored product, once per key. */
    lemma ValoresCompletos()
      requires Valid()
      ensures |Valores()| == |productos|
      ensures forall p :: p in Valores() <==> p in productos.Values
    {
      CardinalDistintas(orden);
      assert productos.Keys == set x | x in orden;
      forall p | p in productos.Values ensures p in Valores() {
        var k :| k in productos && productos[k] == p;
        var i :| 0 <= i < |orden| && orden[i] == k;
        assert Valores()[i] == p;
      }
    }

    /** `Inventario()`: empty. */
    constructor ()
      ensures Valid() && orden == [] && productos == map[] && nombresIndex == {}
    {
      orden := [];
      productos := map[];
      nombresIndex := {};
    }

    /** `_reconstruir_index`. */
    method ReconstruirIndex()
      modifies this`nombresIndex
      ensures nombresIndex == Nombres()
    {
      nombresIndex := NombresDe(productos);
    }

    /** `agregar_producto`: a trimmed identifier already used raises ValueError and changes
        nothing; otherwise the product goes in under it, last in order, and its normalised
        name joins the index. */
    method AgregarProducto(producto: Producto) returns (error: Option<Excepcion>)
      requires Valid()
      modifies this
      ensures Valid()
      ensures Strip(producto.id) in old(productos) ==>
                error == Some(ValueError) && productos == old(productos) && orden == old(orden)
                && nombresIndex == old(nombresIndex)
      ensures Strip(producto.id) !in old(productos) ==>
                && error == None
                && productos == old(productos)[Strip(producto.id) := producto]
                && orden == old(orden) + [Strip(producto.id)]
                && nombresIndex == old(nombresIndex) + {Norm(producto.nombre)}
    {
      var pid := Strip(producto.id);
      if pid in productos {
        return Some(ValueError);
      }
      NombresAgregar(productos, pid, producto);
      DistintasAgregar(orden, pid);
      ghost var nombres := NombresDe(productos[pid := producto]);
      productos := productos[pid := producto];
      orden := orden + [pid];
      nombresIndex := nombresIndex + {Norm(producto.nombre)};
      assert Nombres() == nombres;
      error := None;
    }

    /** `eliminar_producto`: a trimmed identifier that is not a key raises KeyError and
        changes nothing; otherwise exactly that key goes, the others keep their products and
        their order, and the index is rebuilt. */
    method EliminarProducto(productoId: string) returns (error: Option<Excepcion>)
      requires Valid()
      modifies this
      ensures Valid()
      ensures Strip(productoId) !in old(productos) ==>
                error == Some(KeyError) && productos == old(productos) && orden == old(orden)
                && nombresIndex == old(nombresIndex)
      ensures Strip(productoId) in old(productos) ==>
                && error == None
                && productos == old(productos) - {Strip(productoId)}
                && orden == SinClave(old(orden), Strip(productoId))
    {
      var pid := Strip(productoId);
      if pid !in productos {
        return Some(KeyError);
      }
      SinClaveDistintas(orden, pid);
      productos := productos - {pid};
      orden := SinClave(orden, pid);
      ReconstruirIndex();
      error := None;
    }

    /** `actualizar_producto`: a trimmed identifier that is not a key raises KeyError;
        otherwise the product under it takes the quantity and then the price given, as
        `Actualizar` says, and no other product changes. */
    method ActualizarProducto(productoId: string, nuevaCantidad: Option<int>, nuevoPrecio: Option<real>)
      returns (error: Option<Excepcion>)
      requires Valid()
      modifies productos.Values
      ensures Valid()
      ensures Strip(productoId) !in productos ==>
                error == Some(KeyError) && forall p :: p in productos.Values ==> p.Valor() == old(p.Valor())
      ensures Strip(productoId) in productos ==>
                && (productos[Strip(productoId)].Valor(), error) ==
                     Actualizar(old(productos[Strip(productoId)].Valor()), nuevaCantidad, nuevoPrecio)
                && forall p :: p in productos.Values && p != productos[Strip(productoId)] ==> p.Valor() == old(p.Valor())
    {
      var pid := Strip(productoId);
      if pid !in productos {
        return Some(KeyError);
      }
      var producto := productos[pid];
      error := None;
      if nuevaCantidad.Some? {
        error := producto.SetCantidad(nuevaCantidad.value);
      }
      if error == None && nuevoPrecio.Some? {
        error := producto.SetPrecio(nuevoPrecio.value);
      }
      assert forall p :: p in productos.Values ==> p.nombre == old(p.nombre);
      assert Nombres() == old(Nombres());
    }

    /** `buscar_por_nombre`: nothing for a query that normalises to empty; otherwise the
        products whose normalised name contains the normalised query, sorted by name. No
        more results than keys, and no later result has a smaller normalised name. */
    function BuscarPorNombre(nombre: string): (r: seq<Producto>)
      reads this, productos.Values
      requires Valid()
      ensures TodoEspacio(nombre) ==> r == []
      ensures |r| <= |orden|
      ensures forall i, j :: 0 <= i < j < |r| ==> !CadenaMenor(Norm(r[j].nombre), Norm(r[i].nombre))
    {
      var consulta := Norm(nombre);
      if consulta == "" then []
      else
        var c := Coincidencias(Valores(), consulta);
        OrdenarPorNombreCorrecto(c);
        OrdenarPorNombre(c)
    }

    /** The search: empty for an empty query; otherwise every stored product whose name
        matches, each once per key holding it, sorted by normalised name, and in dictionary
        order between equal names. */
    lemma BuscarPorNombreCorrecto(nombre: string)
      requires Valid()
      ensures Norm(nombre) == "" ==> BuscarPorNombre(nombre) == []
      ensures var r, q := BuscarPorNombre(nombre), Norm(nombre);
              q != "" ==>
                && (forall p :: p in r <==> p in productos.Values && Contiene(Norm(p.nombre), q))
                && multiset(r) == multiset(Coincidencias(Valores(), q))
                && (forall i, j :: 0 <= i < j < |r| ==> !CadenaMenor(Norm(r[j].nombre), Norm(r[i].nombre)))
                && (forall k :: ConClave(PorNombre(r), k) == ConClave(PorNombre(Coincidencias(Valores(), q)), k))
    {
      var q := Norm(nombre);
      if q != "" {
        var c := Coincidencias(Valores(), q);
        CoincidenciasCompletas(Valores(), q);
        OrdenarPorNombreCorrecto(c);
        ValoresCompletos();
        var r := BuscarPorNombre(nombre);
        forall p ensures p in r <==> p in productos.Values && Contiene(Norm(p.nombre), q) {
          assert p in r <==> p in multiset(c);
          if p in productos.Values && Contiene(Norm(p.nombre), q) {
            var i :| 0 <= i < |Valores()| && Valores()[i] == p;
          }
        }
      }
    }

    /** `listar_todos`: every stored product, sorted by normalised name and identifier: one
        entry per key, and no later entry has a smaller (name, identifier) pair. */
    function ListarTodos(): (r: seq<Producto>)
      reads this, productos.Values
      requires Valid()
      ensures |r| == |orden|
      ensures forall i, j :: 0 <= i < j < |r| ==>
                !ClaveMenor([Norm(r[j].nombre), r[j].id], [Norm(r[i].nombre), r[i].id])
    {
      OrdenarPorNombreEIdCorrecto(Valores());
      OrdenarPorNombreEId(Valores())
    }

    /** The listing holds one entry per key, the stored products and no others, in order of
        (normalised name, identifier). */
    lemma ListarTodosCorrecto()
      requires Valid()
      ensures var r := ListarTodos();
              && |r| == |productos|
              && multiset(r) == multiset(Valores())
              && (forall p :: p in r <==> p in productos.Values)
              && (forall i, j :: 0 <= i < j < |r| ==>
                    !ClaveMenor([Norm(r[j].nombre), r[j].id], [Norm(r[i].nombre), r[i].id]))
    {
      OrdenarPorNombreEIdCorrecto(Valores());
      ValoresCompletos();
      var r := ListarTodos();
      assert |r| == |multiset(r)| == |multiset(Valores())|;
      forall p ensures p in r <==> p in productos.Values {
        assert p in r <==> p in multiset(Valores());
      }
    }

    /** `obtener_producto`: the product under the trimmed identifier, if any. */
    function ObtenerProducto(productoId: string): (r: Option<Producto>)
      reads this
      ensures r.Some? <==> Strip(productoId) in productos
      ensures r.Some? ==> r.value == productos[Strip(productoId)] && r.value in productos.Values
    {
      var pid := Strip(productoId);
      if pid in productos then Some(productos[pid]) else None
    }

    /** `resumen_inventario`: how many keys, how many units, and the total value (the last
        one before Python's `round(valor, 2)`). */
    function ResumenInventario(): (r: (int, int, real))
      reads this, productos.Values
      requires Valid()
      ensures r.0 == |orden| == |Valores()|
      ensures r.1 == Unidades(Valores()) && r.2 == ValorTotal(Valores())
    {
      ValoresCompletos();
      (|productos|, Unidades(Valores()), ValorTotal(Valores()))
    }

    /** The summary counts the products a listing shows, and, when no quantity is negative,
        units no fewer than any one product holds. */
    lemma ResumenCorrecto()
      requires Valid()
      ensures ResumenInventario().0 == |ListarTodos()| == |orden|
      ensures (forall p :: p in productos.Values ==> p.cantidad >= 0) ==>
                && ResumenInventario().1 >= 0
                && forall p :: p in productos.Values ==> p.cantidad <= ResumenInventario().1
    {
      ListarTodosCorrecto();
      ValoresCompletos();
      if forall p :: p in productos.Values ==> p.cantidad >= 0 {
        var vs := Valores();
        UnidadesCotas(vs);
        forall p | p in productos.Values ensures p.cantidad <= Unidades(vs) {
          var i :| 0 <= i < |vs| && vs[i] == p;
        }
      }
    }

    /** The units and the value are the totals over the listing: they do not depend on the
        order in which the dictionary holds its keys. */
    lemma ResumenListado()
      requires Valid()
      ensures ResumenInventario().1 == Unidades(ListarTodos())
      ensures ResumenInventario().2 == ValorTotal(ListarTodos())
    {
      ListarTodosCorrecto();
      UnidadesPermutacion(Valores(), ListarTodos());
      ValorPermutacion(Valores(), ListarTodos());
    }

    /** The values of the stored products, in dictionary order. */
    function DatosEnOrden(): (ds: seq<Datos>)
      reads this, productos.Values
      requires Valid()
      ensures |ds| == |orden|
      ensures forall i :: 0 <= i < |orden| ==> ds[i] == productos[orden[i]].Valor()
    {
      seq(|orden|, i reads this, productos.Values requires 0 <= i < |orden| && orden[i] in productos =>
        productos[orden[i]].Valor())
    }

    /** `to_dict`: the products' dictionaries, in dictionary order, under "productos": one
        entry per key, each read back by `from_dict` as the values stored under that key. */
    function ToDict(): (m: DictInventario)
      reads this, productos.Values
      requires Valid()
      ensures "productos" in m && |m["productos"]| == |orden|
      ensures forall i :: 0 <= i < |orden| ==> DesdeDict(m["productos"][i]) == Ok(productos[orden[i]].Valor())
    {
      map["productos" := seq(|orden|, i reads this, productos.Values requires 0 <= i < |orden| && orden[i] in productos =>
        productos[orden[i]].ToDict())]
    }

    /** Round trip on values: the dictionaries `to_dict` writes read back as the stored
        products' values, in dictionary order. */
    lemma ToDictDecodificar()
      requires Valid()
      ensures Decodificar(ToDict()["productos"]) == Ok(DatosEnOrden())
    {
      var items := ToDict()["productos"];
      var ds := DatosEnOrden();
      forall i | 0 <= i < |items| ensures DesdeDict(items[i]) == Ok(ds[i]) {
        DesdeDictADict(ds[i]);
      }
      DecodificarTodos(items, ds);
    }

    /** Reading them back keys each product by its own identifier: the keys obtained are
        the stored products' identifiers, which may differ from the trimmed keys they were
        stored under. */
    lemma LlenarIdentificadores()
      requires Valid()
      ensures forall k :: k in Llenar(DatosEnOrden()).1 <==> exists p :: p in productos.Values && p.id == k
    {
      var ds := DatosEnOrden();
      var vs := Valores();
      LlenarClaves(ds);
      ValoresCompletos();
      forall k ensures k in Llenar(ds).1 <==> exists p :: p in productos.Values && p.id == k {
        if k in Llenar(ds).1 {
          var i :| 0 <= i < |ds| && ds[i].id == k;
          assert vs[i] in productos.Values && vs[i].id == k;
        }
        if exists p :: p in productos.Values && p.id == k {
          var p :| p in productos.Values && p.id == k;
          var i :| 0 <= i < |vs| && vs[i] == p;
          assert orden[i] in orden;
          assert ds[i] == vs[i].Valor();
        }
      }
    }

    /** When every key already is its product's identifier, reading back gives the same
        keys, in the same order, with the same values. */
    lemma LlenarMismaTabla()
      requires Valid()
      requires forall k :: k in productos ==> productos[k].id == k
      ensures Llenar(DatosEnOrden()) == (orden, TablaDe(productos))
    {
      var ds := DatosEnOrden();
      forall i | 0 <= i < |ds| ensures ds[i].id == orden[i] {
        assert ds[i] == productos[orden[i]].Valor();
      }
      LlenarDistintos(ds);
      var m := Llenar(ds).1;
      assert Llenar(ds).0 == orden;
      forall k | k in productos ensures k in m && m[k] == TablaDe(productos)[k] {
        var i :| 0 <= i < |orden| && orden[i] == k;
        assert ds[i].id == k;
      }
      assert m == TablaDe(productos);
    }

    /** `prod = Producto.from_dict(item)` and `self.productos[prod.get_id()] = prod`: a new
        product with the values read goes in under its own identifier, replacing any product
        there, and a new key goes last in order. */
    method Poner(d: Datos)
      requires Distintas(orden) && forall k :: k in productos <==> k in orden
      modifies this`productos, this`orden
      ensures Distintas(orden) && forall k :: k in productos <==> k in orden
      ensures orden == if d.id in old(productos) then old(orden) else old(orden) + [d.id]
      ensures TablaDe(productos) == old(TablaDe(productos))[d.id := d]
    {
      var prod := new Producto(d.id, d.nombre, d.cantidad, d.precio);
      TablaPoner(productos, d.id, prod);
      ghost var tabla := TablaDe(productos[d.id := prod]);
      if d.id !in productos {
        DistintasAgregar(orden, d.id);
        orden := orden + [d.id];
      }
      productos := productos[d.id := prod];
      assert TablaDe(productos) == tabla;
    }

    /** `from_dict`: a fresh inventory filled from the list under "productos" (none when the
        key is missing), one new product per entry, each under its own identifier, the last
        of a repeated identifier winning; the first entry that cannot be read raises its
        error. */
    static method FromDict(data: DictInventario) returns (r: Result<Inventario, Excepcion>)
      ensures var items := if "productos" in data then data["productos"] else [];
              && (r.Err? <==> Decodificar(items).Err?)
              && (r.Err? ==> r.error == Decodificar(items).error)
              && (r.Ok? ==> && fresh(r.value) && r.value.Valid()
                            && (r.value.orden, TablaDe(r.value.productos)) == Llenar(Decodificar(items).value))
    {
      var items := if "productos" in data then data["productos"] else [];
      var inv := new Inventario();
      for i := 0 to |items|
        invariant fresh(inv) && Decodificar(items[..i]).Ok?
        invariant inv.orden == Llenar(Decodificar(items[..i]).value).0
        invariant TablaDe(inv.productos) == Llenar(Decodificar(items[..i]).value).1
        invariant Distintas(inv.orden) && forall k :: k in inv.productos <==> k in inv.orden
      {
        match DesdeDict(items[i]) {
          case Err(e) =>
            DecodificarError(items, i);
            return Err(e);
          case Ok(d) =>
            DecodificarPaso(items, i);
            LlenarPaso(Decodificar(items[..i]).value, d);
            inv.Poner(d);
        }
      }
      assert items[..|items|] == items;
      inv.ReconstruirIndex();
      r := Ok(inv);
    }
  }

  /** When every dictionary reads as the value at its position, the list reads as them. */
  lemma {:induction false} DecodificarTodos(items: seq<Dict>, ds: seq<Datos>)
    requires |items| == |ds|
    requires forall i :: 0 <= i < |items| ==> DesdeDict(items[i]) == Ok(ds[i])
    ensures Decodificar(items) == Ok(ds)
    decreases |items|
  {
    if items != [] {
      DecodificarTodos(items[..|items| - 1], ds[..|ds| - 1]);
      assert ds == ds[..|ds| - 1] + [ds[|ds| - 1]];
    }
  }

  /** One more readable entry adds its value at the end. */
  lemma DecodificarPaso(items: seq<Dict>, i: nat)
    requires i < |items| && Decodificar(items[..i]).Ok? && DesdeDict(items[i]).Ok?
    ensures Decodificar(items[..i + 1]) == Ok(Decodificar(items[..i]).value + [DesdeDict(items[i]).value])
  {
    assert items[..i + 1][..i] == items[..i];
    assert items[..i + 1][i] == items[i];
  }

  /** One more value fills one more entry of the dictionary. */
  lemma LlenarPaso(ds: seq<Datos>, d: Datos)
    ensures var previo := Llenar(ds);
            Llenar(ds + [d]) == (if d.id in previo.1 then previo.0 else previo.0 + [d.id], previo.1[d.id := d])
  {
    assert (ds + [d])[..|ds|] == ds;
  }

  /** A failing entry makes the whole list fail with the error of the first failure. */
  lemma DecodificarError(items: seq<Dict>, i: nat)
    requires i < |items| && Decodificar(items[..i]).Ok? && DesdeDict(items[i]).Err?
    ensures Decodificar(items) == Err(DesdeDict(items[i]).error)
  {
    DecodificarErrorPrefijo(items, i, |items|);
    assert items[..|items|] == items;
  }

  lemma {:induction false} DecodificarErrorPrefijo(items: seq<Dict>, i: nat, n: nat)
    requires i < n <= |items| && Decodificar(items[..i]).Ok? && DesdeDict(items[i]).Err?
    ensures Decodificar(items[..n]) == Err(DesdeDict(items[i]).error)
    decreases n
  {
    assert items[..n][..n - 1] == items[..n - 1];
    if n > i + 1 {
      DecodificarErrorPrefijo(items, i, n - 1);
    }
  }

  /** `actualizar_producto` on the values of one product: the quantity is set first, then
      the price; a negative value raises ValueError and stops there, so a valid quantity
      followed by a negative price stays applied. */
  function Actualizar(d: Datos, nuevaCantidad: Option<int>, nuevoPrecio: Option<real>): (Datos, Option<Excepcion>)
  {
    if nuevaCantidad.Some? && nuevaCantidad.value < 0 then (d, Some(ValueError))
    else
      var d1 := if nuevaCantidad.Some? then d.(cantidad := nuevaCantidad.value) else d;
      if nuevoPrecio.Some? && nuevoPrecio.value < 0.0 then (d1, Some(ValueError))
      else (if nuevoPrecio.Some? then d1.(precio := nuevoPrecio.value) else d1, None)
  }

  /** The update succeeds exactly when neither given value is negative, and then sets both;
      it never touches the identifier or the name; and it is partial: a valid quantity
      with a negative price is applied before the error. */
  lemma ActualizarCorrecto(d: Datos, nuevaCantidad: Option<int>, nuevoPrecio: Option<real>)
    ensures var (r, error) := Actualizar(d, nuevaCantidad, nuevoPrecio);
            && r.id == d.id && r.nombre == d.nombre
            && (error == None <==>
                  (nuevaCantidad.None? || nuevaCantidad.value >= 0) && (nuevoPrecio.None? || nuevoPrecio.value >= 0.0))
            && (error == None ==>
                  r.cantidad == (if nuevaCantidad.Some? then nuevaCantidad.value else d.cantidad)
                  && r.precio == (if nuevoPrecio.Some? then nuevoPrecio.value else d.precio))
            && (error != None ==> error == Some(ValueError))
            && (nuevaCantidad.Some? && nuevaCantidad.value >= 0 && nuevoPrecio.Some? && nuevoPrecio.value < 0.0 ==>
                  r == d.(cantidad := nuevaCantidad.value))
  {
  }
}
