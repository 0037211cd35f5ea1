/** The string built-ins the exercises rely on, restricted to ASCII: `str.strip()`,
    `str.lower()`, the substring test `q in s`, `str.split(sep)` and its inverse
    `sep.join(parts)`, and the decimal text of integers (`str(n)` / `int(s)`) and of
    two-decimal prices (`str(x)` / `float(s)` for a price held in cents). */
module Texto {
  import opened Comun

  // ---------------------------------------------------------------------------
  // strip / lower
  // ---------------------------------------------------------------------------

  /** The ASCII characters for which Python's `str.isspace()` holds. */
  predicate EsEspacio(c: char)
  {
    c == ' ' || c == '\t' || c == '\n' || c == '\r' || c == '\U{0B}' || c == '\U{0C}'
    || ('\U{1C}' <= c <= '\U{1F}')
  }

  /** A string with no whitespace at either end. */
  predicate SinBordes(s: string)
  {
    s == [] || (!EsEspacio(s[0]) && !EsEspacio(s[|s| - 1]))
  }

  predicate TodoEspacio(s: string)
  {
    forall k :: 0 <= k < |s| ==> EsEspacio(s[k])
  }

  /** Number of leading whitespace characters. */
  function Inicio(s: string): (n: nat)
    ensures n <= |s|
    ensures forall j :: 0 <= j < n ==> EsEspacio(s[j])
    ensures n < |s| ==> !EsEspacio(s[n])
  {
    if s != [] && EsEspacio(s[0]) then 1 + Inicio(s[1..]) else 0
  }

  /** Length of `s` once its trailing whitespace is removed. */
  function Fin(s: string): (n: nat)
    ensures n <= |s|
    ensures forall j :: n <= j < |s| ==> EsEspacio(s[j])
    ensures n > 0 ==> !EsEspacio(s[n - 1])
  {
    if s != [] && EsEspacio(s[|s| - 1]) then Fin(s[..|s| - 1]) else |s|
  }

  /** `s.strip()`: `s` without its leading and trailing whitespace. */
  function Strip(s: string): (r: string)
    ensures SinBordes(r)
    ensures |r| <= |s|
    ensures forall c :: c in r ==> c in s
    ensures r == [] <==> TodoEspacio(s)
  {
    StripCorrecto(s);
    s[Inicio(s)..][..Fin(s[Inicio(s)..])]
  }

  /** The trimmed slice keeps only characters of `s`, and is empty exactly when `s` is all
      whitespace. */
  lemma StripCorrecto(s: string)
    ensures var t := s[Inicio(s)..];
            && (forall c :: c in t[..Fin(t)] ==> c in s)
            && (t[..Fin(t)] == [] <==> TodoEspacio(s))
  {
    StripConserva(s);
    StripVacio(s);
  }

  /** Every character of the trimmed slice comes from `s`. */
  lemma StripConserva(s: string)
    ensures var t := s[Inicio(s)..];
            forall c :: c in t[..Fin(t)] ==> c in s
  {
    var t := s[Inicio(s)..];
    var r := t[..Fin(t)];
    forall c | c in r
      ensures c in s
    {
      var j :| 0 <= j < |r| && r[j] == c;
      assert s[Inicio(s) + j] == c;
    }
  }

  /** The trimmed slice is empty exactly when `s` is all whitespace. */
  lemma StripVacio(s: string)
    ensures var t := s[Inicio(s)..];
            t[..Fin(t)] == [] <==> TodoEspacio(s)
  {
    var t := s[Inicio(s)..];
    if TodoEspacio(s) {
      assert Inicio(s) == |s|;
    } else {
      var k :| 0 <= k < |s| && !EsEspacio(s[k]);
      assert Inicio(s) <= k;
      assert !EsEspacio(t[k - Inicio(s)]);
      assert k - Inicio(s) < Fin(t);
    }
  }

  /** Stripping leaves a string that already has no whitespace ends as it is. */
  lemma StripSinBordes(s: string)
    requires SinBordes(s)
    ensures Strip(s) == s
  {
    assert Inicio(s) == 0;
    assert Fin(s) == |s|;
  }

  /** `strip()` is idempotent. */
  lemma StripIdempotente(s: string)
    ensures Strip(Strip(s)) == Strip(s)
  {
    StripSinBordes(Strip(s));
  }

  /** ASCII `str.lower()` of one character. */
  function Minuscula(c: char): char
  {
    if 'A' <= c <= 'Z' then (c as int + 32) as char else c
  }

  /** `s.lower()`: every ASCII capital replaced by its small letter. */
  function Lower(s: string): (r: string)
    ensures |r| == |s|
    ensures forall k :: 0 <= k < |s| ==> r[k] == Minuscula(s[k])
    ensures forall k :: 0 <= k < |r| ==> !('A' <= r[k] <= 'Z')
    ensures forall k :: 0 <= k < |s| && !('A' <= s[k] <= 'Z') ==> r[k] == s[k]
  {
    seq(|s|, k requires 0 <= k < |s| => Minuscula(s[k]))
  }

  /** A text with no ASCII capital is its own lower-case form. */
  lemma LowerSinMayusculas(s: string)
    requires forall k :: 0 <= k < |s| ==> !('A' <= s[k] <= 'Z')
    ensures Lower(s) == s
  {
  }

  /** `lower()` is idempotent. */
  lemma LowerIdempotente(s: string)
    ensures Lower(Lower(s)) == Lower(s)
  {
    LowerSinMayusculas(Lower(s));
  }

  // ---------------------------------------------------------------------------
  // substring test
  // ---------------------------------------------------------------------------

  /** `q` occurs in `s` starting at position `i`. */
  predicate ApareceEn(s: string, q: string, i: int)
  {
    0 <= i && i + |q| <= |s| && s[i..i + |q|] == q
  }

  /** Python's `q in s` for strings, written as the scan it performs. */
  predicate Contiene(s: string, q: string)
    decreases |s|
  {
    (|q| <= |s| && s[..|q|] == q) || (s != [] && Contiene(s[1..], q))
  }

  /** The scan agrees with "some position of `s` starts an occurrence of `q`". */
  lemma ContieneSii(s: string, q: string)
    ensures Contiene(s, q) <==> exists i :: ApareceEn(s, q, i)
  {
    if Contiene(s, q) {
      ContieneAparece(s, q);
    }
    if exists i :: ApareceEn(s, q, i) {
      var i :| ApareceEn(s, q, i);
      ApareceContiene(s, q, i);
    }
  }

  /** A successful scan has found some position where `q` starts. */
  lemma {:induction false} ContieneAparece(s: string, q: string)
    requires Contiene(s, q)
    ensures exists i :: ApareceEn(s, q, i)
    decreases |s|
  {
    if |q| <= |s| && s[..|q|] == q {
      assert s[0..0 + |q|] == s[..|q|];
      assert ApareceEn(s, q, 0);
    } else {
      ContieneAparece(s[1..], q);
      var i :| ApareceEn(s[1..], q, i);
      assert s[1..][i..i + |q|] == s[i + 1..i + 1 + |q|];
      assert ApareceEn(s, q, i + 1);
    }
  }

  /** An occurrence at position `i` is found by the scan. */
  lemma {:induction false} ApareceContiene(s: string, q: string, i: int)
    requires ApareceEn(s, q, i)
    ensures Contiene(s, q)
    decreases i
  {
    if i == 0 {
      assert s[..|q|] == s[0..0 + |q|];
    } else {
      assert s[1..][i - 1..i - 1 + |q|] == s[i..i + |q|];
      ApareceContiene(s[1..], q, i - 1);
    }
  }

  /** The empty query is in every string. */
  lemma ContieneVacio(s: string)
    ensures Contiene(s, "")
  {
    assert s[..0] == "";
  }

  // ---------------------------------------------------------------------------
  // split / join
  // ---------------------------------------------------------------------------

  /** `s.split(sep)` for a one-character separator: never empty, and no piece holds `sep`. */
  function Dividir(s: string, sep: char): (r: seq<string>)
    ensures |r| >= 1
    ensures forall k :: 0 <= k < |r| ==> sep !in r[k]
  {
    if s == [] then [""]
    else if s[0] == sep then [""] + Dividir(s[1..], sep)
    else
      var resto := Dividir(s[1..], sep);
      [[s[0]] + resto[0]] + resto[1..]
  }

  /** Universal-newline reading, as `open(ruta, "r")` does: each `\r\n` and each lone `\r`
      becomes `\n`; every other character is kept. */
  function TraducirSaltos(s: string): (r: string)
    ensures '\r' !in r
    ensures |r| <= |s|
  {
    if s == [] then []
    else if s[0] == '\r' then
      "\n" + TraducirSaltos(if |s| > 1 && s[1] == '\n' then s[2..] else s[1..])
    else [s[0]] + TraducirSaltos(s[1..])
  }

  /** Text without a carriage return is read as written. */
  lemma {:induction false} TraducirSinRetorno(s: string)
    requires '\r' !in s
    ensures TraducirSaltos(s) == s
    decreases |s|
  {
    if s != [] {
      assert s[0] != '\r';
      TraducirSinRetorno(s[1..]);
      assert s == [s[0]] + s[1..];
    }
  }

  /** `sep.join(partes)`. */
  function Unir(partes: seq<string>, sep: char): string
    requires |partes| >= 1
  {
    if |partes| == 1 then partes[0] else partes[0] + [sep] + Unir(partes[1..], sep)
  }

  /** Splitting a string that starts with a separator-free piece `a`. */
  lemma {:induction false} DividirPrefijo(a: string, t: string, sep: char)
    requires sep !in a
    ensures Dividir(a + t, sep) == [a + Dividir(t, sep)[0]] + Dividir(t, sep)[1..]
    decreases |a|
  {
    if a != [] {
      assert (a + t)[0] == a[0] && (a + t)[1..] == a[1..] + t;
      DividirPrefijo(a[1..], t, sep);
      assert [a[0]] + (a[1..] + Dividir(t, sep)[0]) == a + Dividir(t, sep)[0];
    } else {
      assert a + t == t;
      assert a + Dividir(t, sep)[0] == Dividir(t, sep)[0];
      assert Dividir(t, sep) == [Dividir(t, sep)[0]] + Dividir(t, sep)[1..];
    }
  }

  /** Splitting undoes joining when no piece holds the separator. */
  lemma {:induction false} DividirUnir(partes: seq<string>, sep: char)
    requires |partes| >= 1
    requires forall k :: 0 <= k < |partes| ==> sep !in partes[k]
    ensures Dividir(Unir(partes, sep), sep) == partes
    decreases |partes|
  {
    if |partes| == 1 {
      DividirPrefijo(partes[0], "", sep);
      assert partes[0] + "" == partes[0];
    } else {
      var resto := Unir(partes[1..], sep);
      DividirUnir(partes[1..], sep);
      assert Dividir([sep] + resto, sep) == [""] + partes[1..];
      assert Unir(partes, sep) == partes[0] + ([sep] + resto);
      DividirPrefijo(partes[0], [sep] + resto, sep);
      assert partes[0] + "" == partes[0];
      assert [partes[0]] + partes[1..] == partes;
    }
  }

  /** Joining undoes splitting. */
  lemma {:induction false} UnirDividir(s: string, sep: char)
    ensures Unir(Dividir(s, sep), sep) == s
    decreases |s|
  {
    if s != [] {
      UnirDividir(s[1..], sep);
      var resto := Dividir(s[1..], sep);
      if s[0] == sep {
        assert Dividir(s, sep)[1..] == resto;
      } else {
        var r := Dividir(s, sep);
        assert r[0] == [s[0]] + resto[0] && r[1..] == resto[1..];
        if |resto| == 1 {
          assert Unir(r, sep) == [s[0]] + resto[0];
        } else {
          assert Unir(resto, sep) == resto[0] + [sep] + Unir(resto[1..], sep);
          assert Unir(r, sep) == [s[0]] + resto[0] + [sep] + Unir(r[1..], sep);
        }
      }
    }
  }

  // ---------------------------------------------------------------------------
  // decimal integers: str(n) and int(s)
  // ---------------------------------------------------------------------------

  predicate EsDigito(c: char)
  {
    '0' <= c <= '9'
  }

  predicate SoloDigitos(s: string)
  {
    forall k :: 0 <= k < |s| ==> EsDigito(s[k])
  }

  function Digito(d: nat): (c: char)
    requires d < 10
    ensures EsDigito(c)
  {
    ('0' as int + d) as char
  }

  /** Value of a (possibly empty) run of decimal digits, most significant first. */
  function ValorDigitos(s: string): nat
    requires SoloDigitos(s)
  {
    if s == [] then 0
    else ValorDigitos(s[..|s| - 1]) * 10 + (s[|s| - 1] as int - '0' as int)
  }

  /** `str(n)` for a non-negative `n`: digits only, no leading zero. */
  function FormatoNat(n: nat): (r: string)
    ensures |r| >= 1 && SoloDigitos(r)
    ensures |r| > 1 ==> r[0] != '0'
  {
    if n < 10 then [Digito(n)] else FormatoNat(n / 10) + [Digito(n % 10)]
  }

  /** `int(s)` for a run of digits; `None` stands for the `ValueError`. */
  function LeerNat(s: string): Option<nat>
  {
    if s != [] && SoloDigitos(s) then Some(ValorDigitos(s)) else None
  }

  lemma {:induction false} ValorFormatoNat(n: nat)
    ensures ValorDigitos(FormatoNat(n)) == n
    decreases n
  {
    if n >= 10 {
      ValorFormatoNat(n / 10);
      var r := FormatoNat(n);
      assert r[..|r| - 1] == FormatoNat(n / 10);
    }
  }

  /** Reading back the text of a natural number gives that number. */
  lemma LeerFormatoNat(n: nat)
    ensures LeerNat(FormatoNat(n)) == Some(n)
  {
    ValorFormatoNat(n);
  }

  /** `str(i)` for any integer. */
  function FormatoEntero(i: int): (r: string)
    ensures |r| >= 1 && forall k :: 0 <= k < |r| ==> EsDigito(r[k]) || r[k] == '-'
  {
    if i < 0 then "-" + FormatoNat(-i) else FormatoNat(i)
  }

  /** `int(s)` on an already stripped `s`: an optional sign followed by digits. */
  function LeerEntero(s: string): Option<int>
  {
    if s != [] && (s[0] == '-' || s[0] == '+') then
      match LeerNat(s[1..])
      case Some(n) => var v: int := n; Some(if s[0] == '-' then -v else v)
      case None => None
    else
      match LeerNat(s)
      case Some(n) => Some(n)
      case None => None
  }

  /** `int(str(i)) == i`. */
  lemma LeerFormatoEntero(i: int)
    ensures LeerEntero(FormatoEntero(i)) == Some(i)
  {
    if i < 0 {
      LeerFormatoNat(-i);
      assert FormatoEntero(i)[1..] == FormatoNat(-i);
    } else {
      LeerFormatoNat(i);
    }
  }

  // ---------------------------------------------------------------------------
  // two-decimal prices held in cents: str(x) and float(s)
  // ---------------------------------------------------------------------------

  /** The fraction digits Python prints for `f` hundredths: at least one, no trailing zero. */
  function Fraccion(f: nat): (r: string)
    requires f < 100
    ensures 1 <= |r| <= 2 && SoloDigitos(r)
  {
    if f % 10 == 0 then [Digito(f / 10)] else [Digito(f / 10), Digito(f % 10)]
  }

  /** `str(c / 100)` for a price of `c` cents, e.g. "3.0", "2.5", "0.05", "-1.25". */
  function FormatoPrecio(c: int): (r: string)
    ensures |r| >= 3
    ensures forall k :: 0 <= k < |r| ==> EsDigito(r[k]) || r[k] == '-' || r[k] == '.'
    ensures EsDigito(r[|r| - 1])
  {
    var a := if c < 0 then -c else c;
    (if c < 0 then "-" else "") + FormatoNat(a / 100) + "." + Fraccion(a % 100)
  }

  /** Cents denoted by an integer part and at most two fraction digits. */
  function Centavos(ent: string, frac: string): nat
    requires SoloDigitos(ent) && SoloDigitos(frac) && |frac| <= 2
  {
    ValorDigitos(ent) * 100 + (if |frac| == 1 then ValorDigitos(frac) * 10 else ValorDigitos(frac))
  }

  /** `float(s)` on an unsigned stripped `s` of the form `d`, `d.`, `.d` or `d.d`, with at
      most two fraction digits, in cents. */
  function LeerDecimal(s: string): Option<nat>
  {
    var partes := Dividir(s, '.');
    if |partes| == 1 then
      if s != [] && SoloDigitos(s) then Some(ValorDigitos(s) * 100) else None
    else if |partes| == 2 && SoloDigitos(partes[0]) && SoloDigitos(partes[1])
            && |partes[0]| + |partes[1]| >= 1 && |partes[1]| <= 2 then
      Some(Centavos(partes[0], partes[1]))
    else
      None
  }

  /** `float(s)` in cents, with an optional sign; `None` stands for the `ValueError`. */
  function LeerPrecio(s: string): Option<int>
  {
    if s != [] && (s[0] == '-' || s[0] == '+') then
      match LeerDecimal(s[1..])
      case Some(n) => var v: int := n; Some(if s[0] == '-' then -v else v)
      case None => None
    else
      match LeerDecimal(s)
      case Some(n) => Some(n)
      case None => None
  }

  /** The fraction digits of `f` hundredths stand for `f` hundredths. */
  lemma CentavosFraccion(ent: string, f: nat)
    requires f < 100 && SoloDigitos(ent)
    ensures Centavos(ent, Fraccion(f)) == ValorDigitos(ent) * 100 + f
  {
    var frac := Fraccion(f);
    if f % 10 == 0 {
      assert frac[..0] == [];
    } else {
      assert frac[..1] == [Digito(f / 10)];
      assert [Digito(f / 10)][..0] == [];
      assert ValorDigitos([Digito(f / 10)]) == f / 10;
      assert ValorDigitos(frac) == (f / 10) * 10 + f % 10;
    }
  }

  lemma LeerFormatoDecimal(a: nat)
    ensures LeerDecimal(FormatoNat(a / 100) + "." + Fraccion(a % 100)) == Some(a)
  {
    var ent, frac := FormatoNat(a / 100), Fraccion(a % 100);
    DividirUnir([ent, frac], '.');
    assert Unir([ent, frac], '.') == ent + "." + frac;
    ValorFormatoNat(a / 100);
    CentavosFraccion(ent, a % 100);
  }

  /** `float(str(x)) == x` for a price of whole cents. */
  lemma LeerFormatoPrecio(c: int)
    ensures LeerPrecio(FormatoPrecio(c)) == Some(c)
  {
    var a: nat := if c < 0 then -c else c;
    var cuerpo := FormatoNat(a / 100) + "." + Fraccion(a % 100);
    LeerFormatoDecimal(a);
    assert LeerDecimal(cuerpo) == Some(a);
    var s := FormatoPrecio(c);
    if c < 0 {
      assert s == "-" + cuerpo;
      assert s[0] == '-' && s[1..] == cuerpo;
    } else {
      assert s == cuerpo;
      assert EsDigito(cuerpo[0]);
      assert cuerpo[0] != '-' && cuerpo[0] != '+';
    }
  }
}
