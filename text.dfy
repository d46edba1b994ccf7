/** Character-level helpers: the `\s` class of JavaScript regular expressions,
    ASCII upper-casing, whitespace stripping, substring search, splitting, and
    the licence-plate pattern shared by quota intake and the fleet form. */
module Text {

  /** JavaScript's `\s`: white space and line terminators. */
  predicate EsEspacio(c: char)
  {
    c == ' ' || c == '\t' || c == '\n' || c == '\r' || c == '\U{B}' || c == '\U{C}' ||
    c == '\U{A0}' || c == '\U{1680}' || ('\U{2000}' <= c <= '\U{200A}') ||
    c == '\U{2028}' || c == '\U{2029}' || c == '\U{202F}' || c == '\U{205F}' ||
    c == '\U{3000}' || c == '\U{FEFF}'
  }

  predicate EsLetra(c: char)
  {
    'A' <= c <= 'Z' || 'a' <= c <= 'z'
  }

  predicate EsDigito(c: char)
  {
    '0' <= c <= '9'
  }

  function MayusculaChar(c: char): char
  {
    if 'a' <= c <= 'z' then (c as int - 32) as char else c
  }

  /** `toUpperCase`, on the ASCII letters (see README for the rest of Unicode). */
  function Mayusculas(s: string): (r: string)
    ensures |r| == |s|
    ensures forall i :: 0 <= i < |s| ==> r[i] == MayusculaChar(s[i])
  {
    if s == [] then [] else [MayusculaChar(s[0])] + Mayusculas(s[1..])
  }

  /** `replace(/\s/g, "")`. */
  function SinEspacios(s: string): (r: string)
    ensures |r| <= |s|
    ensures forall i :: 0 <= i < |r| ==> !EsEspacio(r[i])
  {
    if s == [] then []
    else if EsEspacio(s[0]) then SinEspacios(s[1..])
    else [s[0]] + SinEspacios(s[1..])
  }

  /** Stripping keeps every character that is not white space, as often as
      it occurs; with `SinEspaciosConcat` this fixes their order too. */
  lemma {:induction false} SinEspaciosConserva(s: string)
    ensures forall c :: !EsEspacio(c) ==> multiset(SinEspacios(s))[c] == multiset(s)[c]
  {
    if s != [] {
      SinEspaciosConserva(s[1..]);
      assert s == [s[0]] + s[1..];
      assert multiset(s) == multiset{s[0]} + multiset(s[1..]);
    }
  }

  /** Stripping a string without white space leaves it as it is. */
  lemma {:induction false} SinEspaciosIdentidad(s: string)
    requires forall i :: 0 <= i < |s| ==> !EsEspacio(s[i])
    ensures SinEspacios(s) == s
  {
    if s != [] {
      SinEspaciosIdentidad(s[1..]);
    }
  }

  /** Stripping is idempotent. */
  lemma SinEspaciosIdempotente(s: string)
    ensures SinEspacios(SinEspacios(s)) == SinEspacios(s)
  {
    SinEspaciosIdentidad(SinEspacios(s));
  }

  predicate EsPrefijo(t: string, s: string)
  {
    |t| <= |s| && s[..|t|] == t
  }

  /** `t` occurs in `s` at position `k`. */
  predicate OcurreEn(s: string, t: string, k: int)
  {
    0 <= k && k + |t| <= |s| && s[k..k + |t|] == t
  }

  /** `s.includes(t)`. */
  function Contiene(s: string, t: string): bool
    decreases |s|
  {
    EsPrefijo(t, s) || (s != [] && Contiene(s[1..], t))
  }

  /** `includes` finds `t` exactly when it occurs at some position of `s`. */
  lemma {:induction false} ContieneSii(s: string, t: string)
    ensures Contiene(s, t) <==> exists k :: OcurreEn(s, t, k)
    decreases |s|
  {
    if EsPrefijo(t, s) {
      assert OcurreEn(s, t, 0);
    } else if s != [] {
      ContieneSii(s[1..], t);
      if Contiene(s[1..], t) {
        var k :| OcurreEn(s[1..], t, k);
        assert s[k + 1..k + 1 + |t|] == s[1..][k..k + |t|];
        assert OcurreEn(s, t, k + 1);
      }
      if exists k :: OcurreEn(s, t, k) {
        var k :| OcurreEn(s, t, k);
        assert k != 0;
        assert s[1..][k - 1..k - 1 + |t|] == s[k..k + |t|];
        assert OcurreEn(s[1..], t, k - 1);
      }
    }
  }

  /** `s.split(sep)`: the pieces between separators, at least one. */
  function Dividir(s: string, sep: char): (r: seq<string>)
    ensures |r| >= 1
    decreases |s|
  {
    if s == [] then [[]]
    else if s[0] == sep then [[]] + Dividir(s[1..], sep)
    else
      var resto := Dividir(s[1..], sep);
      [[s[0]] + resto[0]] + resto[1..]
  }

  /** No piece of a split holds the separator. */
  lemma {:induction false} DividirPiezas(s: string, sep: char)
    ensures forall k :: 0 <= k < |Dividir(s, sep)| ==> sep !in Dividir(s, sep)[k]
    decreases |s|
  {
    if s != [] {
      DividirPiezas(s[1..], sep);
      if s[0] != sep {
        var resto := Dividir(s[1..], sep);
        assert Dividir(s, sep) == [[s[0]] + resto[0]] + resto[1..];
        assert sep !in resto[0];
        assert forall k :: 1 <= k < |Dividir(s, sep)| ==> Dividir(s, sep)[k] == resto[k];
      }
    }
  }

  /** A string without the separator splits into itself. */
  lemma {:induction false} DividirSinSeparador(s: string, sep: char)
    requires sep !in s
    ensures Dividir(s, sep) == [s]
    decreases |s|
  {
    if s != [] {
      assert sep !in s[1..];
      DividirSinSeparador(s[1..], sep);
      assert [s[0]] + s[1..] == s;
    }
  }

  /** The first piece ends at the first separator. */
  lemma {:induction false} DividirPrimero(p: string, sep: char, r: string)
    requires sep !in p
    ensures Dividir(p + [sep] + r, sep) == [p] + Dividir(r, sep)
    decreases |p|
  {
    var s := p + [sep] + r;
    if p == [] {
      assert s == [sep] + r;
      assert s[1..] == r;
    } else {
      assert s[0] == p[0];
      assert s[1..] == p[1..] + [sep] + r;
      assert sep !in p[1..];
      DividirPrimero(p[1..], sep, r);
      assert [p[0]] + p[1..] == p;
    }
  }

  predicate Letras(t: string)
  {
    forall i :: 0 <= i < |t| ==> EsLetra(t[i])
  }

  predicate Digitos(t: string)
  {
    forall i :: 0 <= i < |t| ==> EsDigito(t[i])
  }

  /** `[A-Z]{3}\s?\d{3}` with the case-insensitive flag; `e` is 1 when the
      optional white space is present. */
  predicate FormatoAntiguo(s: string, e: nat)
  {
    e <= 1 && |s| == 6 + e &&
    Letras(s[..3]) && (e == 1 ==> EsEspacio(s[3])) && Digitos(s[3 + e..])
  }

  /** `[A-Z]{2}\s?\d{3}\s?[A-Z]{2}` with the case-insensitive flag; `e1`, `e2`
      say which optional white spaces are present. */
  predicate FormatoMercosur(s: string, e1: nat, e2: nat)
  {
    e1 <= 1 && e2 <= 1 && |s| == 7 + e1 + e2 &&
    Letras(s[..2]) && (e1 == 1 ==> EsEspacio(s[2])) &&
    Digitos(s[2 + e1..5 + e1]) && (e2 == 1 ==> EsEspacio(s[5 + e1])) &&
    Letras(s[5 + e1 + e2..])
  }

  /** The whole-string pattern of the plate field. */
  predicate PatronPatente(s: string)
  {
    FormatoAntiguo(s, 0) || FormatoAntiguo(s, 1) ||
    FormatoMercosur(s, 0, 0) || FormatoMercosur(s, 1, 0) ||
    FormatoMercosur(s, 0, 1) || FormatoMercosur(s, 1, 1)
  }

  /** The plate field's rule: at least 6 characters and the pattern. The
      length rule adds nothing, since every string the pattern accepts has 6
      to 9 characters. */
  function PatenteValida(s: string): (ok: bool)
    ensures ok <==> PatronPatente(s)
    ensures ok ==> 6 <= |s| <= 9
  {
    |s| >= 6 && PatronPatente(s)
  }

  /** The characters of a normalised plate: upper-case ASCII letters and digits. */
  predicate Canonico(c: char)
  {
    'A' <= c <= 'Z' || EsDigito(c)
  }

  predicate TodoCanonico(t: string)
  {
    forall i :: 0 <= i < |t| ==> Canonico(t[i])
  }

  /** A valid plate, upper-cased and stripped of white space, is six or seven
      upper-case letters and digits: the canonical form used for comparisons. */
  lemma PatenteNormalizada(s: string)
    requires PatenteValida(s)
    ensures var n := SinEspacios(Mayusculas(s));
            (|n| == 6 || |n| == 7) && TodoCanonico(n)
  {
    if FormatoAntiguo(s, 0) {
      AntiguaNormalizada(s, 0);
    } else if FormatoAntiguo(s, 1) {
      AntiguaNormalizada(s, 1);
    } else if FormatoMercosur(s, 0, 0) {
      MercosurNormalizada(s, 0, 0);
    } else if FormatoMercosur(s, 1, 0) {
      MercosurNormalizada(s, 1, 0);
    } else if FormatoMercosur(s, 0, 1) {
      MercosurNormalizada(s, 0, 1);
    } else {
      MercosurNormalizada(s, 1, 1);
    }
  }

  /** The old format `LLL DDD`, with or without the space. */
  lemma AntiguaNormalizada(s: string, e: nat)
    requires FormatoAntiguo(s, e)
    ensures var n := SinEspacios(Mayusculas(s));
            |n| == 6 && TodoCanonico(n)
  {
    var u := Mayusculas(s);
    assert s[..3] == s[0..3] && s[3 + e..] == s[3 + e..|s|];
    TramoCanonico(s, 0, 3);
    TramoCanonico(s, 3 + e, |s|);
    if e == 0 {
      SinEspaciosIdentidad(u);
    } else {
      QuitaUnEspacio(u, 3);
    }
  }

  /** A run of letters or digits upper-cases to canonical characters. */
  lemma TramoCanonico(s: string, lo: nat, hi: nat)
    requires lo <= hi <= |s| && (Letras(s[lo..hi]) || Digitos(s[lo..hi]))
    ensures forall i :: lo <= i < hi ==> Canonico(MayusculaChar(s[i]))
  {
    forall i | lo <= i < hi ensures Canonico(MayusculaChar(s[i])) {
      assert s[lo..hi][i - lo] == s[i];
    }
  }

  /** Outside its optional spaces, an upper-cased Mercosur plate is canonical. */
  lemma MercosurCanonico(s: string, e1: nat, e2: nat)
    requires FormatoMercosur(s, e1, e2)
    ensures forall i :: 0 <= i < |s| && (e1 == 0 || i != 2) && (e2 == 0 || i != 5 + e1) ==>
      Canonico(MayusculaChar(s[i]))
  {
    assert s[..2] == s[0..2] && s[5 + e1 + e2..] == s[5 + e1 + e2..|s|];
    TramoCanonico(s, 0, 2);
    TramoCanonico(s, 2 + e1, 5 + e1);
    TramoCanonico(s, 5 + e1 + e2, |s|);
  }

  /** The Mercosur format `LL DDD LL`, with or without each space. */
  lemma MercosurNormalizada(s: string, e1: nat, e2: nat)
    requires FormatoMercosur(s, e1, e2)
    ensures var n := SinEspacios(Mayusculas(s));
            |n| == 7 && TodoCanonico(n)
  {
    var u := Mayusculas(s);
    MercosurCanonico(s, e1, e2);
    if e1 == 0 && e2 == 0 {
      SinEspaciosIdentidad(u);
    } else if e2 == 0 {
      QuitaUnEspacio(u, 2);
    } else if e1 == 0 {
      QuitaUnEspacio(u, 5);
    } else {
      QuitaDosEspacios(u, 2, 6);
    }
  }

  lemma QuitaUnEspacio(u: string, k: nat)
    requires k < |u| && EsEspacio(u[k])
    requires forall i :: 0 <= i < |u| && i != k ==> Canonico(u[i])
    ensures |SinEspacios(u)| == |u| - 1 && TodoCanonico(SinEspacios(u))
  {
    assert u == u[..k] + [u[k]] + u[k + 1..];
    SinEspaciosPartes(u[..k], u[k], u[k + 1..]);
  }

  lemma QuitaDosEspacios(u: string, k1: nat, k2: nat)
    requires k1 < k2 < |u| && EsEspacio(u[k1]) && EsEspacio(u[k2])
    requires forall i :: 0 <= i < |u| && i != k1 && i != k2 ==> Canonico(u[i])
    ensures |SinEspacios(u)| == |u| - 2 && TodoCanonico(SinEspacios(u))
  {
    var x, v := u[..k1], u[k1 + 1..];
    forall i | 0 <= i < |v| && i != k2 - k1 - 1 ensures Canonico(v[i]) {
      assert v[i] == u[k1 + 1 + i];
    }
    assert v[k2 - k1 - 1] == u[k2];
    QuitaUnEspacio(v, k2 - k1 - 1);
    assert TodoCanonico(x) by {
      forall i | 0 <= i < |x| ensures Canonico(x[i]) { assert x[i] == u[i]; }
    }
    assert u == x + ([u[k1]] + v);
    PrefijoEspacio(x, u[k1], v);
    TodoCanonicoConcat(x, SinEspacios(v));
  }

  lemma TodoCanonicoConcat(x: string, y: string)
    requires TodoCanonico(x) && TodoCanonico(y)
    ensures TodoCanonico(x + y)
  {
    forall i | 0 <= i < |x + y| ensures Canonico((x + y)[i]) {
      if i >= |x| { assert (x + y)[i] == y[i - |x|]; }
    }
  }

  /** Stripping `x c y` where only `c` is white space leaves `x y`. */
  lemma SinEspaciosPartes(x: string, c: char, y: string)
    requires TodoCanonico(x) && TodoCanonico(y)
    requires EsEspacio(c)
    ensures SinEspacios(x + [c] + y) == x + y
  {
    assert x + [c] + y == x + ([c] + y);
    PrefijoEspacio(x, c, y);
    SinEspaciosIdentidad(y);
  }

  /** Stripping `x c y` where `x` is canonical and `c` white space keeps `x`
      and strips `y`. */
  lemma PrefijoEspacio(x: string, c: char, y: string)
    requires TodoCanonico(x) && EsEspacio(c)
    ensures SinEspacios(x + ([c] + y)) == x + SinEspacios(y)
  {
    SinEspaciosConcat(x, [c] + y);
    SinEspaciosIdentidad(x);
    assert ([c] + y)[1..] == y;
  }

  lemma {:induction false} SinEspaciosConcat(x: string, y: string)
    ensures SinEspacios(x + y) == SinEspacios(x) + SinEspacios(y)
  {
    if x == [] {
      assert x + y == y;
    } else {
      assert (x + y)[0] == x[0];
      assert (x + y)[1..] == x[1..] + y;
      SinEspaciosConcat(x[1..], y);
    }
  }
}
