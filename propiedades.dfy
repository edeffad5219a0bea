/** The `Propiedad` record every page works on, and the two string
    operations the listing search uses: `String.prototype.toLowerCase` and
    `String.prototype.includes`. */
module Propiedades {

  /** One real-estate listing as the static data file delivers it.
      `precio` is a whole number of currency units. */
  datatype Propiedad = Propiedad(
    id: int,
    titulo: string,
    ciudad: string,
    tipo: string,
    ambientes: int,
    metrosCuadrados: int,
    precio: int,
    imagen: string)

  /** The capitals `toLowerCase` maps here: the ASCII capitals and the
      Latin-1 capitals U+00C0 to U+00DE except the multiplication sign
      U+00D7. */
  predicate EsMayuscula(c: char)
  {
    'A' <= c <= 'Z' || ('\U{C0}' <= c <= '\U{DE}' && c != '\U{D7}')
  }

  /** Lower-case mapping of one character: a capital moves up by 32 to its
      small letter; every other character is kept. */
  function LowerChar(c: char): (d: char)
    ensures EsMayuscula(c) ==> d as int == c as int + 32
    ensures !EsMayuscula(c) ==> d == c
    ensures !EsMayuscula(d)
  {
    if EsMayuscula(c) then (c as int + 32) as char else c
  }

  /** `s.toLowerCase()`, character by character: no capital is left, and
      what was not a capital is untouched. */
  function Lower(s: string): (r: string)
    ensures |r| == |s|
    ensures forall i :: 0 <= i < |s| ==> r[i] == LowerChar(s[i])
    ensures forall i :: 0 <= i < |r| ==> !EsMayuscula(r[i])
    ensures forall i :: 0 <= i < |s| && !EsMayuscula(s[i]) ==> r[i] == s[i]
  {
    seq(|s|, i requires 0 <= i < |s| => LowerChar(s[i]))
  }

  /** The only characters that lower-case to the ASCII letter `c` are `c`
      and its capital. */
  lemma LowerCharLetra(x: char, c: char)
    requires 'a' <= c <= 'z' && LowerChar(x) == c
    ensures x == c || x as int == c as int - 32
  {
  }

  /** Lower-casing twice is lower-casing once. */
  lemma LowerIdempotent(s: string)
    ensures Lower(Lower(s)) == Lower(s)
  {
    assert forall i :: 0 <= i < |s| ==> LowerChar(LowerChar(s[i])) == LowerChar(s[i]);
  }

  /** `q` occurs in `s` starting at position `k`. */
  ghost predicate OccursAt(s: string, q: string, k: int)
  {
    0 <= k && k + |q| <= |s| && s[k..k + |q|] == q
  }

  /** `q` is a contiguous piece of `s` (the meaning of `s.includes(q)`). */
  ghost predicate IsSubstring(s: string, q: string)
  {
    exists k :: OccursAt(s, q, k)
  }

  /** `s.includes(q)`, computed by trying each starting position in turn. */
  function Includes(s: string, q: string): bool
    decreases |s|
  {
    if q <= s then true
    else if s == [] then false
    else Includes(s[1..], q)
  }

  /** An occurrence in the tail is an occurrence one position later. */
  lemma OccursAtTail(s: string, q: string, k: int)
    requires s != [] && OccursAt(s[1..], q, k)
    ensures OccursAt(s, q, k + 1)
  {
    assert s[k + 1..k + 1 + |q|] == s[1..][k..k + |q|];
  }

  /** An occurrence past the first position is an occurrence in the tail. */
  lemma OccursAtFromTail(s: string, q: string, k: int)
    requires s != [] && 0 < k && OccursAt(s, q, k)
    ensures OccursAt(s[1..], q, k - 1)
  {
    assert s[1..][k - 1..k - 1 + |q|] == s[k..k + |q|];
  }

  /** When `q` is not a prefix of `s`, it occurs in `s` exactly when it
      occurs in the tail. */
  lemma IsSubstringTail(s: string, q: string)
    requires s != [] && !(q <= s)
    ensures IsSubstring(s, q) <==> IsSubstring(s[1..], q)
  {
    if IsSubstring(s[1..], q) {
      var k :| OccursAt(s[1..], q, k);
      OccursAtTail(s, q, k);
    }
    if IsSubstring(s, q) {
      var k :| OccursAt(s, q, k);
      assert k != 0;
      OccursAtFromTail(s, q, k);
    }
  }

  /** The computed search agrees with the meaning of `includes`, in both
      directions. */
  lemma {:induction false} IncludesIsSubstring(s: string, q: string)
    ensures Includes(s, q) <==> IsSubstring(s, q)
    decreases |s|
  {
    if q <= s {
      assert OccursAt(s, q, 0);
    } else if s == [] {
    } else {
      assert Includes(s, q) == Includes(s[1..], q);
      IncludesIsSubstring(s[1..], q);
      IsSubstringTail(s, q);
    }
  }

  /** The lower-cased text holds the ASCII letter `c` only if the text holds
      `c` or its capital. */
  lemma LetraEnLower(s: string, c: char)
    requires 'a' <= c <= 'z' && c !in s && (c as int - 32) as char !in s
    ensures c !in Lower(s)
  {
    forall i | 0 <= i < |s|
      ensures Lower(s)[i] != c
    {
      if Lower(s)[i] == c {
        LowerCharLetra(s[i], c);
      }
    }
  }

  /** A lower-case query one of whose letters occurs in `s` neither small
      nor capital is not found in the lower-cased `s`. */
  lemma SinLetraNoIncluye(s: string, q: string, j: nat)
    requires j < |q| && 'a' <= q[j] <= 'z'
    requires q[j] !in s && (q[j] as int - 32) as char !in s
    ensures !Includes(Lower(s), q)
  {
    var t := Lower(s);
    LetraEnLower(s, q[j]);
    forall k | 0 <= k < |t|
      ensures !OccursAt(t, q, k)
    {
      if k + |q| <= |t| {
        assert t[k..k + |q|][j] == t[k + j];
      }
    }
    IncludesIsSubstring(t, q);
  }

  /** The empty query is found in every string. */
  lemma IncludesEmpty(s: string)
    ensures Includes(s, "")
  {
    assert "" <= s;
  }
}
