/** The text the favorites store keeps: `JSON.stringify` of an array of
    integer ids, and the reading of that text back into ids. The reader
    takes `[`, decimal integers separated by `,` without spaces, `]`, and
    rejects leading zeros as JSON does; apart from the JSON spelling `-0`,
    what it accepts is exactly what `JSON.stringify` writes
    (`DecodificarInverso`). */
module Json {
  import opened Opcion

  predicate EsDigito(c: char)
  {
    '0' <= c <= '9'
  }

  predicate TodoDigitos(s: string)
  {
    forall i :: 0 <= i < |s| ==> EsDigito(s[i])
  }

  function DigitoChar(d: nat): (c: char)
    requires d < 10
    ensures EsDigito(c)
  {
    ('0' as int + d) as char
  }

  function ValorDigito(c: char): (d: nat)
    requires EsDigito(c)
    ensures d < 10
  {
    c as int - '0' as int
  }

  /** The decimal digits of `n`, most significant first, with no leading
      zero. */
  function NatATexto(n: nat): (s: string)
    ensures |s| > 0 && TodoDigitos(s)
    ensures |s| == 1 <==> n < 10
    ensures n >= 1 ==> s[0] != '0'
  {
    if n < 10 then [DigitoChar(n)] else NatATexto(n / 10) + [DigitoChar(n % 10)]
  }

  /** The number a string of decimal digits denotes. */
  function ValorDecimal(ds: string): nat
    requires TodoDigitos(ds)
  {
    if ds == [] then 0 else ValorDecimal(ds[..|ds| - 1]) * 10 + ValorDigito(ds[|ds| - 1])
  }

  lemma {:induction false} ValorNatATexto(n: nat)
    ensures ValorDecimal(NatATexto(n)) == n
  {
    if n >= 10 {
      ValorNatATexto(n / 10);
      var s := NatATexto(n);
      assert s[..|s| - 1] == NatATexto(n / 10);
    }
  }

  /** How `JSON.stringify` writes an integer (of magnitude below 10^21,
      where it switches to exponent form). */
  function IntATexto(i: int): (s: string)
    ensures |s| > 0
  {
    if i < 0 then "-" + NatATexto(-i) else NatATexto(i)
  }

  /** The elements written one after the other, separated by commas. */
  function Unir(xs: seq<int>): (s: string)
    ensures xs != [] ==> |s| > 0
  {
    if xs == [] then ""
    else if |xs| == 1 then IntATexto(xs[0])
    else IntATexto(xs[0]) + "," + Unir(xs[1..])
  }

  /** `JSON.stringify(favoritos)` for an array of integers. */
  function Codificar(xs: seq<int>): (s: string)
    ensures |s| >= 2 && s[0] == '[' && s[|s| - 1] == ']'
  {
    "[" + Unir(xs) + "]"
  }

  /** The length of the run of digits at the start of `s`. */
  function Digitos(s: string): (k: nat)
    ensures k <= |s|
    ensures TodoDigitos(s[..k])
    ensures k < |s| ==> !EsDigito(s[k])
  {
    if s == [] || !EsDigito(s[0]) then 0
    else
      var k := 1 + Digitos(s[1..]);
      assert s[..k] == [s[0]] + s[1..][..k - 1];
      k
  }

  /** Reads a natural number at the start of `s`; returns it with the rest.
      A run of digits that starts with `0` and has more digits after it is
      not a JSON number, so it is rejected. */
  function LeerNat(s: string): (r: Option<(nat, string)>)
    ensures r.Some? ==> |r.value.1| < |s|
    ensures r.Some? ==> r.value.1 == [] || !EsDigito(r.value.1[0])
  {
    var k := Digitos(s);
    if k == 0 || (k > 1 && s[0] == '0') then None else Some((ValorDecimal(s[..k]), s[k..]))
  }

  /** Reads an integer, with an optional leading minus sign. */
  function LeerInt(s: string): (r: Option<(int, string)>)
    ensures r.Some? ==> |r.value.1| < |s|
  {
    if s != [] && s[0] == '-' then
      match LeerNat(s[1..])
      case None => None
      case Some((n, resto)) => Some((-(n as int), resto))
    else
      match LeerNat(s)
      case None => None
      case Some((n, resto)) => Some((n as int, resto))
  }

  /** Reads integers separated by commas up to the end of `s`. */
  function LeerElementos(s: string): (r: Option<seq<int>>)
    ensures r.Some? ==> r.value != []
    decreases |s|
  {
    match LeerInt(s)
    case None => None
    case Some((x, resto)) =>
      if resto == [] then Some([x])
      else if resto[0] != ',' then None
      else
        match LeerElementos(resto[1..])
        case None => None
        case Some(xs) => Some([x] + xs)
  }

  /** `JSON.parse` followed by `Array.isArray`, on the canonical form:
      `Some(ids)` when the text is an array of integers, `None` otherwise. */
  function Decodificar(s: string): Option<seq<int>>
  {
    if |s| >= 2 && s[0] == '[' && s[|s| - 1] == ']' then
      var cuerpo := s[1..|s| - 1];
      if cuerpo == [] then Some([]) else LeerElementos(cuerpo)
    else None
  }

  lemma {:induction false} DigitosConcat(t: string, resto: string)
    requires TodoDigitos(t)
    requires resto == [] || !EsDigito(resto[0])
    ensures Digitos(t + resto) == |t|
  {
    if t != [] {
      assert (t + resto)[1..] == t[1..] + resto;
      DigitosConcat(t[1..], resto);
    } else {
      assert t + resto == resto;
    }
  }

  lemma LeerNatTexto(n: nat, resto: string)
    requires resto == [] || !EsDigito(resto[0])
    ensures LeerNat(NatATexto(n) + resto) == Some((n, resto))
  {
    var t := NatATexto(n);
    DigitosConcat(t, resto);
    assert (t + resto)[..|t|] == t;
    assert (t + resto)[|t|..] == resto;
    ValorNatATexto(n);
  }

  lemma LeerIntTexto(x: int, resto: string)
    requires resto == [] || resto[0] == ','
    ensures LeerInt(IntATexto(x) + resto) == Some((x, resto))
  {
    if x < 0 {
      LeerNegativoTexto(-x, resto);
      assert IntATexto(x) == "-" + NatATexto(-x);
    } else {
      LeerSinSignoTexto(x, resto);
      assert IntATexto(x) == NatATexto(x);
    }
  }

  lemma LeerNegativoTexto(n: nat, resto: string)
    requires resto == [] || resto[0] == ','
    ensures LeerInt("-" + NatATexto(n) + resto) == Some((-(n as int), resto))
  {
    var t := NatATexto(n);
    var s := "-" + t + resto;
    assert s[1..] == t + resto;
    LeerNatTexto(n, resto);
  }

  lemma LeerSinSignoTexto(n: nat, resto: string)
    requires resto == [] || resto[0] == ','
    ensures LeerInt(NatATexto(n) + resto) == Some((n as int, resto))
  {
    var t := NatATexto(n);
    var s := t + resto;
    assert s[0] == t[0] && EsDigito(t[0]);
    LeerNatTexto(n, resto);
  }

  lemma LeerElementosUltimo(s: string, x: int)
    requires LeerInt(s) == Some((x, ""))
    ensures LeerElementos(s) == Some([x])
  {
  }

  lemma LeerElementosSiguiente(s: string, x: int, r: string, xs: seq<int>)
    requires LeerInt(s) == Some((x, "," + r))
    requires LeerElementos(r) == Some(xs)
    ensures LeerElementos(s) == Some([x] + xs)
  {
    assert ("," + r)[1..] == r;
  }

  lemma {:induction false} LeerElementosUnir(xs: seq<int>)
    requires xs != []
    ensures LeerElementos(Unir(xs)) == Some(xs)
  {
    if |xs| == 1 {
      LeerIntTexto(xs[0], "");
      assert IntATexto(xs[0]) + "" == IntATexto(xs[0]);
      LeerElementosUltimo(Unir(xs), xs[0]);
      assert xs == [xs[0]];
    } else {
      var r := Unir(xs[1..]);
      assert Unir(xs) == IntATexto(xs[0]) + ("," + r);
      LeerIntTexto(xs[0], "," + r);
      LeerElementosUnir(xs[1..]);
      LeerElementosSiguiente(Unir(xs), xs[0], r, xs[1..]);
      assert [xs[0]] + xs[1..] == xs;
    }
  }

  /** Reading back what was written gives the same ids, in the same order. */
  lemma DecodificarCodificar(xs: seq<int>)
    ensures Decodificar(Codificar(xs)) == Some(xs)
  {
    var s := Codificar(xs);
    assert s[1..|s| - 1] == Unir(xs);
    if xs != [] {
      LeerElementosUnir(xs);
    }
  }

  /** The JSON spelling `-0` of the number zero: the only text the reader
      accepts that `JSON.stringify` would not write. */
  ghost predicate SinMenosCero(s: string)
  {
    forall i :: 0 <= i < |s| - 1 ==> !(s[i] == '-' && s[i + 1] == '0')
  }

  /** A digit string worth at least 1 when its first digit is not `0`. */
  lemma {:induction false} ValorPositivo(ds: string)
    requires TodoDigitos(ds) && ds != [] && ds[0] != '0'
    ensures ValorDecimal(ds) >= 1
    decreases |ds|
  {
    if |ds| > 1 {
      var inicio := ds[..|ds| - 1];
      assert inicio[0] == ds[0];
      ValorPositivo(inicio);
    }
  }

  /** A digit string without a leading zero is the text of its value. */
  lemma {:induction false} NatATextoValor(ds: string)
    requires TodoDigitos(ds) && ds != [] && (|ds| == 1 || ds[0] != '0')
    ensures NatATexto(ValorDecimal(ds)) == ds
    decreases |ds|
  {
    var inicio, d := ds[..|ds| - 1], ds[|ds| - 1];
    var v := ValorDigito(d);
    assert DigitoChar(v) == d;
    if |ds| == 1 {
      assert inicio == [];
      assert ds == [d];
    } else {
      assert inicio[0] == ds[0];
      ValorPositivo(inicio);
      NatATextoValor(inicio);
      var n := ValorDecimal(ds);
      assert n == ValorDecimal(inicio) * 10 + v;
      assert n / 10 == ValorDecimal(inicio) && n % 10 == v;
      assert ds == inicio + [d];
    }
  }

  /** What `LeerNat` reads is the text of the number it returns. */
  lemma LeerNatInverso(s: string)
    requires LeerNat(s).Some?
    ensures s == NatATexto(LeerNat(s).value.0) + LeerNat(s).value.1
  {
    var k := Digitos(s);
    NatATextoValor(s[..k]);
    assert s == s[..k] + s[k..];
  }

  /** What `LeerInt` reads is the text of the integer it returns, unless
      it was `-0`. */
  lemma LeerIntInverso(s: string)
    requires SinMenosCero(s) && LeerInt(s).Some?
    ensures s == IntATexto(LeerInt(s).value.0) + LeerInt(s).value.1
  {
    if s != [] && s[0] == '-' {
      LeerNegativoInverso(s);
      var n := LeerNat(s[1..]).value.0;
      assert LeerInt(s).value.0 == -(n as int);
      assert IntATexto(-(n as int)) == "-" + NatATexto(n);
    } else {
      LeerNatInverso(s);
      var n := LeerNat(s).value.0;
      assert LeerInt(s).value.0 == n as int;
      assert IntATexto(n as int) == NatATexto(n);
    }
  }

  lemma LeerNegativoInverso(s: string)
    requires SinMenosCero(s) && s != [] && s[0] == '-' && LeerNat(s[1..]).Some?
    ensures LeerNat(s[1..]).value.0 >= 1
    ensures s == "-" + NatATexto(LeerNat(s[1..]).value.0) + LeerNat(s[1..]).value.1
  {
    var t := s[1..];
    LeerNatInverso(t);
    var n := LeerNat(t).value.0;
    assert s[1] == NatATexto(n)[0];
    assert s == [s[0]] + t;
  }

  lemma SinMenosCeroTrozo(s: string, a: nat, b: nat)
    requires SinMenosCero(s) && a <= b <= |s|
    ensures SinMenosCero(s[a..b])
  {
    forall i | 0 <= i < b - a - 1
      ensures !(s[a..b][i] == '-' && s[a..b][i + 1] == '0')
    {
      assert s[a..b][i] == s[a + i] && s[a..b][i + 1] == s[a + i + 1];
    }
  }

  /** `LeerElementos` on a text whose first integer ends it. */
  lemma LeerElementosFin(s: string)
    requires LeerElementos(s).Some? && LeerInt(s).value.1 == []
    ensures LeerElementos(s).value == [LeerInt(s).value.0]
  {
  }

  /** `LeerElementos` on a text whose first integer is followed by more. */
  lemma LeerElementosResto(s: string)
    requires LeerElementos(s).Some? && LeerInt(s).value.1 != []
    ensures var resto := LeerInt(s).value.1;
            resto[0] == ',' && LeerElementos(resto[1..]).Some? &&
            LeerElementos(s).value == [LeerInt(s).value.0] + LeerElementos(resto[1..]).value
  {
  }

  lemma UnirCons(x: int, ys: seq<int>)
    requires ys != []
    ensures Unir([x] + ys) == IntATexto(x) + "," + Unir(ys)
  {
    assert ([x] + ys)[1..] == ys;
  }

  /** What follows the first comma keeps the property of having no `-0`. */
  lemma SinMenosCeroResto(s: string, c: string, t: string)
    requires SinMenosCero(s) && s == c + "," + t
    ensures SinMenosCero(t)
  {
    assert s[|c| + 1..|s|] == t;
    SinMenosCeroTrozo(s, |c| + 1, |s|);
  }

  /** The first integer of a list that ends the text. */
  lemma LeerElementosInversoFin(s: string)
    requires SinMenosCero(s) && LeerElementos(s).Some? && LeerInt(s).value.1 == []
    ensures Unir(LeerElementos(s).value) == s
  {
    LeerIntInverso(s);
    LeerElementosFin(s);
    assert s == IntATexto(LeerInt(s).value.0) + [];
  }

  /** The first integer of a list that goes on after a comma, and the text
      of the rest. */
  lemma LeerElementosCola(s: string)
    requires SinMenosCero(s) && LeerElementos(s).Some? && LeerInt(s).value.1 != []
    ensures var x, t := LeerInt(s).value.0, LeerInt(s).value.1[1..];
            SinMenosCero(t) && LeerElementos(t).Some? && |t| < |s| &&
            s == IntATexto(x) + "," + t &&
            LeerElementos(s).value == [x] + LeerElementos(t).value
  {
    LeerIntInverso(s);
    LeerElementosResto(s);
    var x, resto := LeerInt(s).value.0, LeerInt(s).value.1;
    var t := resto[1..];
    assert resto == "," + t;
    SinMenosCeroResto(s, IntATexto(x), t);
  }

  /** A list of elements that was read is written back as the same text. */
  lemma {:induction false} LeerElementosInverso(s: string)
    requires SinMenosCero(s) && LeerElementos(s).Some?
    ensures Unir(LeerElementos(s).value) == s
    decreases |s|
  {
    if LeerInt(s).value.1 == [] {
      LeerElementosInversoFin(s);
    } else {
      LeerElementosCola(s);
      var x, t := LeerInt(s).value.0, LeerInt(s).value.1[1..];
      LeerElementosInverso(t);
      UnirCons(x, LeerElementos(t).value);
    }
  }

  /** Only the text `JSON.stringify` writes is read as a list: any other
      text the reader accepts would contain `-0`. */
  lemma DecodificarInverso(s: string, xs: seq<int>)
    requires SinMenosCero(s)
    requires Decodificar(s) == Some(xs)
    ensures Codificar(xs) == s
  {
    var cuerpo := s[1..|s| - 1];
    assert s == [s[0]] + cuerpo + [s[|s| - 1]];
    if cuerpo != [] {
      SinMenosCeroTrozo(s, 1, |s| - 1);
      LeerElementosInverso(cuerpo);
    }
  }

  /** A leading zero makes `JSON.parse` throw; the reader refuses it too. */
  lemma DecodificarCeroInicial()
    ensures Decodificar("[01]") == None
  {
    var c := "[01]"[1..3];
    assert c == "01";
    assert Digitos(c) == 2 by {
      assert c[1..] == "1";
      assert "1"[1..] == [];
    }
  }

  /** `-0` is read as zero, which is written back as `0`. */
  lemma DecodificarMenosCero()
    ensures Decodificar("[-0]") == Some([0])
    ensures Codificar([0]) == "[0]"
  {
    var c := "[-0]"[1..3];
    assert c == "-0";
    assert c[1..] == "0";
    assert Digitos("0") == 1 by {
      assert "0"[1..] == [];
    }
    assert "0"[..1] == "0" && "0"[1..] == [];
    assert ValorDecimal("0") == 0 by {
      assert "0"[..0] == [];
    }
  }
}
