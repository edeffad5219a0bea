/** `obtenerRecomendaciones`: up to two listings like a reference listing,
    for the detail page. */
module Recomendaciones {
  import opened Secuencias
  import opened Propiedades

  /** The most listings returned. */
  const Limite: nat := 2

  /** The filter test as written: a different id, the same city and type,
      and a price within `rango = precio * 0.2` of the reference, both ends
      included. Arithmetic is exact (real numbers). */
  predicate Similar(ref: Propiedad, p: Propiedad)
  {
    var rango := ref.precio as real * 0.2;
    p.id != ref.id &&
    p.ciudad == ref.ciudad &&
    p.tipo == ref.tipo &&
    p.precio as real >= ref.precio as real - rango &&
    p.precio as real <= ref.precio as real + rango
  }

  /** The price band in whole numbers: `0.8 * p <= q <= 1.2 * p`. */
  predicate EnBanda(ref: Propiedad, p: Propiedad)
  {
    5 * p.precio >= 4 * ref.precio && 5 * p.precio <= 6 * ref.precio
  }

  lemma SimilarEnBanda(ref: Propiedad, p: Propiedad)
    ensures Similar(ref, p) <==>
            p.id != ref.id && p.ciudad == ref.ciudad && p.tipo == ref.tipo && EnBanda(ref, p)
  {
  }

  /** All the qualifying listings, in input order. */
  function Candidatas(ref: Propiedad, ps: seq<Propiedad>): seq<Propiedad>
  {
    Filter(ps, p => Similar(ref, p))
  }

  /** `propiedades.filter(...).slice(0, 2)`. */
  function ObtenerRecomendaciones(ref: Propiedad, ps: seq<Propiedad>): (r: seq<Propiedad>)
    ensures |r| <= Limite
    ensures forall p :: p in r ==> p in ps && p.id != ref.id
    ensures forall p :: p in r ==> p.ciudad == ref.ciudad && p.tipo == ref.tipo
    ensures forall p :: p in r ==> EnBanda(ref, p)
    ensures r <= Candidatas(ref, ps)
    ensures |r| == Min(Limite, |Candidatas(ref, ps)|)
    ensures IsSubsequence(r, ps)
  {
    var c := Candidatas(ref, ps);
    var r := JsSlice(c, 0, Limite);
    PrefixIsSubsequence(r, c);
    SubsequenceTransitive(r, c, ps);
    r
  }

  /** With at most two qualifying listings, all of them are returned. */
  lemma PocasCandidatas(ref: Propiedad, ps: seq<Propiedad>)
    requires |Candidatas(ref, ps)| <= Limite
    ensures ObtenerRecomendaciones(ref, ps) == Candidatas(ref, ps)
  {
  }

  /** A qualifying listing is left out only when the limit is reached. */
  lemma SoloFaltanPorLimite(ref: Propiedad, ps: seq<Propiedad>)
    ensures forall p :: p in Candidatas(ref, ps) && p !in ObtenerRecomendaciones(ref, ps) ==>
                        |ObtenerRecomendaciones(ref, ps)| == Limite
  {
  }
}
