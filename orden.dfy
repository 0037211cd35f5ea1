/** Python's ordering of strings and of tuples of strings, and the stable sort that
    `list.sort(key=...)` performs, over a list paired with its precomputed keys. */
module Orden {

  /** `menor` is a strict total order: irreflexive, transitive and trichotomous. */
  ghost predicate OrdenEstricto<T(!new)>(menor: (T, T) -> bool)
  {
    && (forall x :: !menor(x, x))
    && (forall x, y, z :: menor(x, y) && menor(y, z) ==> menor(x, z))
    && (forall x, y :: menor(x, y) || x == y || menor(y, x))
  }

  /** Lexicographic `<` on sequences, given `<` on their elements: the first differing
      element decides, and a proper prefix is smaller. This is how Python compares two
      strings (by code point) and two tuples. */
  predicate Lex<T(==)>(menor: (T, T) -> bool, a: seq<T>, b: seq<T>)
    decreases |a|
  {
    b != [] && (a == [] || menor(a[0], b[0]) || (a[0] == b[0] && Lex(menor, a[1..], b[1..])))
  }

  lemma {:induction false} LexIrreflexivo<T(!new)>(menor: (T, T) -> bool, a: seq<T>)
    requires OrdenEstricto(menor)
    ensures !Lex(menor, a, a)
    decreases |a|
  {
    if a != [] {
      LexIrreflexivo(menor, a[1..]);
    }
  }

  lemma {:induction false} LexTransitivo<T(!new)>(menor: (T, T) -> bool, a: seq<T>, b: seq<T>, c: seq<T>)
    requires OrdenEstricto(menor)
    requires Lex(menor, a, b) && Lex(menor, b, c)
    ensures Lex(menor, a, c)
    decreases |a|
  {
    if a != [] && a[0] == b[0] && b[0] == c[0] {
      LexTransitivo(menor, a[1..], b[1..], c[1..]);
    }
  }

  lemma {:induction false} LexTricotomia<T(!new)>(menor: (T, T) -> bool, a: seq<T>, b: seq<T>)
    requires OrdenEstricto(menor)
    ensures Lex(menor, a, b) || a == b || Lex(menor, b, a)
    decreases |a|
  {
    if a != [] && b != [] && a[0] == b[0] {
      LexTricotomia(menor, a[1..], b[1..]);
      if a[1..] == b[1..] {
        assert a == [a[0]] + a[1..] && b == [b[0]] + b[1..];
      }
    }
  }

  function MenorCaracter(x: char, y: char): bool
  {
    x < y
  }

  /** Python's `a < b` on `str`. */
  function CadenaMenor(a: string, b: string): bool
  {
    Lex(MenorCaracter, a, b)
  }

  /** Python's `a < b` on tuples of `str`, the sort keys used by the inventory. */
  function ClaveMenor(a: seq<string>, b: seq<string>): bool
  {
    Lex(CadenaMenor, a, b)
  }

  /** Strings are totally ordered by Python's `<`. */
  lemma CadenaOrdenEstricto()
    ensures OrdenEstricto(CadenaMenor)
  {
    assert OrdenEstricto(MenorCaracter);
    forall a: string ensures !CadenaMenor(a, a) {
      LexIrreflexivo(MenorCaracter, a);
    }
    forall a: string, b: string, c: string | CadenaMenor(a, b) && CadenaMenor(b, c)
      ensures CadenaMenor(a, c)
    {
      LexTransitivo(MenorCaracter, a, b, c);
    }
    forall a: string, b: string ensures CadenaMenor(a, b) || a == b || CadenaMenor(b, a) {
      LexTricotomia(MenorCaracter, a, b);
    }
  }

  /** Tuples of strings are totally ordered by Python's `<`. */
  lemma ClaveOrdenEstricto()
    ensures OrdenEstricto(ClaveMenor)
  {
    CadenaOrdenEstricto();
    forall a: seq<string> ensures !ClaveMenor(a, a) {
      LexIrreflexivo(CadenaMenor, a);
    }
    forall a: seq<string>, b: seq<string>, c: seq<string> | ClaveMenor(a, b) && ClaveMenor(b, c)
      ensures ClaveMenor(a, c)
    {
      LexTransitivo(CadenaMenor, a, b, c);
    }
    forall a: seq<string>, b: seq<string> ensures ClaveMenor(a, b) || a == b || ClaveMenor(b, a) {
      LexTricotomia(CadenaMenor, a, b);
    }
  }

  /** An element paired with its sort key. */
  type Clave = seq<string>

  /** Sorted by key, in the sense of Python's sort: no later key is smaller. */
  ghost predicate Ordenada<T>(s: seq<(Clave, T)>)
  {
    forall i, j :: 0 <= i < j < |s| ==> !ClaveMenor(s[j].0, s[i].0)
  }

  /** Inserts `x` after every element whose key is not greater than its own. */
  function Insertar<T(==)>(x: (Clave, T), s: seq<(Clave, T)>): (r: seq<(Clave, T)>)
    ensures multiset(r) == multiset(s) + multiset{x}
    ensures |r| == |s| + 1
    ensures forall y :: y in r ==> y == x || y in s
  {
    if s == [] then [x]
    else if ClaveMenor(x.0, s[0].0) then [x] + s
    else
      assert s == [s[0]] + s[1..];
      [s[0]] + Insertar(x, s[1..])
  }

  lemma {:induction false} InsertarOrdenada<T>(x: (Clave, T), s: seq<(Clave, T)>)
    requires Ordenada(s)
    ensures Ordenada(Insertar(x, s))
    decreases |s|
  {
    ClaveOrdenEstricto();
    if s != [] {
      if ClaveMenor(x.0, s[0].0) {
        var r := [x] + s;
        forall i, j | 0 <= i < j < |r| ensures !ClaveMenor(r[j].0, r[i].0) {
          if i == 0 && j > 1 {
            assert !ClaveMenor(s[j - 1].0, s[0].0);
          }
        }
      } else {
        InsertarOrdenada(x, s[1..]);
        var t := Insertar(x, s[1..]);
        var r := [s[0]] + t;
        forall i, j | 0 <= i < j < |r| ensures !ClaveMenor(r[j].0, r[i].0) {
          if i == 0 {
            assert r[j] in t;
            if r[j] != x {
              var k :| 0 <= k < |s[1..]| && s[1..][k] == r[j];
              assert s[k + 1] == r[j];
            }
          }
        }
      }
    }
  }

  /** `sorted(s, key=...)`: insertion sort, taking the elements in list order. */
  function Ordenar<T(==)>(s: seq<(Clave, T)>): (r: seq<(Clave, T)>)
    ensures multiset(r) == multiset(s)
    ensures |r| == |s|
    ensures Ordenada(r)
  {
    if s == [] then []
    else
      var r := Insertar(s[|s| - 1], Ordenar(s[..|s| - 1]));
      InsertarOrdenada(s[|s| - 1], Ordenar(s[..|s| - 1]));
      assert s == s[..|s| - 1] + [s[|s| - 1]];
      r
  }

  /** The elements of `s` whose key is `k`, in list order. */
  function ConClave<T>(s: seq<(Clave, T)>, k: Clave): (r: seq<(Clave, T)>)
    ensures |r| <= |s|
  {
    if s == [] then []
    else (if s[0].0 == k then [s[0]] else []) + ConClave(s[1..], k)
  }

  lemma {:induction false} ConClaveConcat<T>(a: seq<(Clave, T)>, b: seq<(Clave, T)>, k: Clave)
    ensures ConClave(a + b, k) == ConClave(a, k) + ConClave(b, k)
    decreases |a|
  {
    if a != [] {
      ConClaveConcat(a[1..], b, k);
      assert (a + b)[1..] == a[1..] + b;
    } else {
      assert a + b == b;
    }
  }

  lemma {:induction false} ConClaveAusente<T>(s: seq<(Clave, T)>, k: Clave)
    requires forall i :: 0 <= i < |s| ==> s[i].0 != k
    ensures ConClave(s, k) == []
    decreases |s|
  {
    if s != [] {
      ConClaveAusente(s[1..], k);
    }
  }

  /** Inserting into a sorted list puts `x` after every element with an equal key. */
  lemma {:induction false} ConClaveInsertar<T>(x: (Clave, T), s: seq<(Clave, T)>, k: Clave)
    requires Ordenada(s)
    ensures ConClave(Insertar(x, s), k) == ConClave(s, k) + (if x.0 == k then [x] else [])
    decreases |s|
  {
    ClaveOrdenEstricto();
    if s == [] {
    } else if ClaveMenor(x.0, s[0].0) {
      ConClaveConcat([x], s, k);
      if x.0 == k {
        forall i | 0 <= i < |s| ensures s[i].0 != k {
          if i > 0 { assert !ClaveMenor(s[i].0, s[0].0); }
        }
        ConClaveAusente(s, k);
      }
    } else {
      ConClaveInsertar(x, s[1..], k);
      assert ConClave(s, k) == (if s[0].0 == k then [s[0]] else []) + ConClave(s[1..], k);
      ConClaveConcat([s[0]], Insertar(x, s[1..]), k);
    }
  }

  /** The sort is stable: elements with equal keys keep their relative order. */
  lemma {:induction false} OrdenarEstable<T>(s: seq<(Clave, T)>, k: Clave)
    ensures ConClave(Ordenar(s), k) == ConClave(s, k)
    decreases |s|
  {
    if s != [] {
      var ini, x := s[..|s| - 1], s[|s| - 1];
      var cola := if x.0 == k then [x] else [];
      assert s == ini + [x];
      assert ConClave([x], k) == cola by {
        assert [x][1..] == [];
      }
      calc {
        ConClave(Ordenar(s), k);
        ConClave(Insertar(x, Ordenar(ini)), k);
        { ConClaveInsertar(x, Ordenar(ini), k); }
        ConClave(Ordenar(ini), k) + cola;
        { OrdenarEstable(ini, k); }
        ConClave(ini, k) + cola;
        { ConClaveConcat(ini, [x], k); }
        ConClave(s, k);
      }
    }
  }
}
