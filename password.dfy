/**
 * `generarPassword` of the registration route: three guaranteed characters
 * (a digit, an upper-case letter, a symbol), nine more drawn from the full
 * alphabet, then a shuffle.
 *
 * Every `Math.floor(Math.random() * n)` becomes an index parameter below
 * `n`. The shuffle `split('').sort(() => Math.random() - 0.5)` yields some
 * permutation of the characters; it is given as a list of choices: at step
 * k the character at position `elecciones[k]` of those not yet taken is
 * taken next. Every permutation has such a list.
 */
module Password {

  const LONGITUD: nat := 12
  const MINUSCULAS: string := "abcdefghijklmnopqrstuvwxyz"
  const MAYUSCULAS: string := "ABCDEFGHIJKLMNOPQRSTUVWXYZ"
  const DIGITOS: string := "0123456789"
  const ESPECIALES: string := "!@#$%^&*"
  /** `caracteres`: the same 70 characters in the same order. */
  const CARACTERES: string := MINUSCULAS + MAYUSCULAS + DIGITOS + ESPECIALES

  /** A choice list for shuffling `n` characters. */
  ghost predicate EleccionesValidas(n: nat, elecciones: seq<nat>)
  {
    |elecciones| == n && forall k :: 0 <= k < n ==> elecciones[k] < n - k
  }

  /** The shuffle: it only reorders, so the multiset of characters is kept. */
  function Mezclar(s: string, elecciones: seq<nat>): (r: string)
    requires EleccionesValidas(|s|, elecciones)
    ensures |r| == |s| && multiset(r) == multiset(s)
    decreases |s|
  {
    if s == [] then []
    else
      var j := elecciones[0];
      assert s == s[..j] + [s[j]] + s[j + 1..];
      [s[j]] + Mezclar(s[..j] + s[j + 1..], elecciones[1..])
  }

  /** The characters of the password before the shuffle. */
  ghost function SinMezclar(digito: nat, mayuscula: nat, especial: nat, resto: seq<nat>): (r: string)
    requires digito < |DIGITOS| && mayuscula < |MAYUSCULAS| && especial < |ESPECIALES|
    requires forall k :: 0 <= k < |resto| ==> resto[k] < |CARACTERES|
    ensures |r| == 3 + |resto|
    ensures r[0] in DIGITOS && r[1] in MAYUSCULAS && r[2] in ESPECIALES
  {
    [DIGITOS[digito], MAYUSCULAS[mayuscula], ESPECIALES[especial]]
      + seq(|resto|, k requires 0 <= k < |resto| => CARACTERES[resto[k]])
  }

  /** Drawing one more character appends it. */
  lemma SinMezclarPaso(digito: nat, mayuscula: nat, especial: nat, resto: seq<nat>, n: nat)
    requires digito < |DIGITOS| && mayuscula < |MAYUSCULAS| && especial < |ESPECIALES|
    requires forall k :: 0 <= k < |resto| ==> resto[k] < |CARACTERES|
    requires n < |resto|
    ensures SinMezclar(digito, mayuscula, especial, resto[..n + 1])
         == SinMezclar(digito, mayuscula, especial, resto[..n]) + [CARACTERES[resto[n]]]
  {
    var a := SinMezclar(digito, mayuscula, especial, resto[..n + 1]);
    var b := SinMezclar(digito, mayuscula, especial, resto[..n]) + [CARACTERES[resto[n]]];
    assert |a| == |b|;
    forall i | 0 <= i < |a|
      ensures a[i] == b[i]
    {
      if i >= 3 {
        assert a[i] == CARACTERES[resto[..n + 1][i - 3]];
      }
    }
  }

  /** The three guaranteed characters are drawn from the full alphabet too. */
  lemma ClasesEnAlfabeto(c: char)
    ensures (c in DIGITOS || c in MAYUSCULAS || c in ESPECIALES) ==> c in CARACTERES
  {
  }

  /** Any reordering of the unshuffled characters keeps the three
      guaranteed ones. */
  lemma ReordenacionConservaClases(digito: nat, mayuscula: nat, especial: nat, resto: seq<nat>, p: string)
    requires digito < |DIGITOS| && mayuscula < |MAYUSCULAS| && especial < |ESPECIALES|
    requires forall k :: 0 <= k < |resto| ==> resto[k] < |CARACTERES|
    requires multiset(p) == multiset(SinMezclar(digito, mayuscula, especial, resto))
    ensures exists k :: 0 <= k < |p| && p[k] in DIGITOS
    ensures exists k :: 0 <= k < |p| && p[k] in MAYUSCULAS
    ensures exists k :: 0 <= k < |p| && p[k] in ESPECIALES
  {
    var s := SinMezclar(digito, mayuscula, especial, resto);
    assert s[0] == DIGITOS[digito] && s[1] == MAYUSCULAS[mayuscula] && s[2] == ESPECIALES[especial];
    assert s[0] in multiset(p) && s[1] in multiset(p) && s[2] in multiset(p);
    var a :| 0 <= a < |p| && p[a] == s[0];
    var b :| 0 <= b < |p| && p[b] == s[1];
    var c :| 0 <= c < |p| && p[c] == s[2];
  }

  /** Every character before the shuffle is in the alphabet. */
  lemma SinMezclarEnAlfabeto(digito: nat, mayuscula: nat, especial: nat, resto: seq<nat>)
    requires digito < |DIGITOS| && mayuscula < |MAYUSCULAS| && especial < |ESPECIALES|
    requires forall k :: 0 <= k < |resto| ==> resto[k] < |CARACTERES|
    ensures forall i :: 0 <= i < |SinMezclar(digito, mayuscula, especial, resto)| ==>
              SinMezclar(digito, mayuscula, especial, resto)[i] in CARACTERES
  {
    var s := SinMezclar(digito, mayuscula, especial, resto);
    ClasesEnAlfabeto(DIGITOS[digito]);
    ClasesEnAlfabeto(MAYUSCULAS[mayuscula]);
    ClasesEnAlfabeto(ESPECIALES[especial]);
    forall i | 3 <= i < |s|
      ensures s[i] in CARACTERES
    {
      assert s[i] == CARACTERES[resto[i - 3]];
    }
  }

  /** A reordering draws on the same characters. */
  lemma ReordenacionEnAlfabeto(s: string, p: string)
    requires multiset(p) == multiset(s)
    requires forall i :: 0 <= i < |s| ==> s[i] in CARACTERES
    ensures forall k :: 0 <= k < |p| ==> p[k] in CARACTERES
  {
    forall k | 0 <= k < |p|
      ensures p[k] in CARACTERES
    {
      assert p[k] in multiset(s);
      var i :| 0 <= i < |s| && s[i] == p[k];
    }
  }

  /** The password has twelve characters, all from the alphabet, with at
      least one digit, one upper-case letter and one symbol; it is a
      reordering of the three guaranteed characters and the nine drawn. */
  method GenerarPassword(digito: nat, mayuscula: nat, especial: nat, resto: seq<nat>, elecciones: seq<nat>)
    returns (p: string)
    requires digito < |DIGITOS| && mayuscula < |MAYUSCULAS| && especial < |ESPECIALES|
    requires |resto| == LONGITUD - 3 && forall k :: 0 <= k < |resto| ==> resto[k] < |CARACTERES|
    requires EleccionesValidas(LONGITUD, elecciones)
    ensures |p| == LONGITUD
    ensures exists k :: 0 <= k < |p| && p[k] in DIGITOS
    ensures exists k :: 0 <= k < |p| && p[k] in MAYUSCULAS
    ensures exists k :: 0 <= k < |p| && p[k] in ESPECIALES
    ensures forall k :: 0 <= k < |p| ==> p[k] in CARACTERES
    ensures multiset(p) == multiset(SinMezclar(digito, mayuscula, especial, resto))
  {
    var password: string := [];
    password := password + [DIGITOS[digito]];
    password := password + [MAYUSCULAS[mayuscula]];
    password := password + [ESPECIALES[especial]];
    assert password == SinMezclar(digito, mayuscula, especial, resto[..0]);
    for i := 3 to LONGITUD
      invariant password == SinMezclar(digito, mayuscula, especial, resto[..i - 3])
    {
      SinMezclarPaso(digito, mayuscula, especial, resto, i - 3);
      password := password + [CARACTERES[resto[i - 3]]];
    }
    assert resto[..LONGITUD - 3] == resto;
    p := Mezclar(password, elecciones);
    ReordenacionConservaClases(digito, mayuscula, especial, resto, p);
    SinMezclarEnAlfabeto(digito, mayuscula, especial, resto);
    ReordenacionEnAlfabeto(password, p);
  }
}
