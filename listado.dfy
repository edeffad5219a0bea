/** The listing page component (`ListaPropiedades`): the search and price
    filter, the page arithmetic over the filtered list, and the component
    state that the search box, the two price boxes and the two page buttons
    update. */
module Listado {
  import opened Secuencias
  import opened Propiedades
  import opened Opcion

  /** Listings shown per page. */
  const ItemsPorPagina: nat := 12

  /** A price bound as the component holds it: `None` is `null` (an empty
      input box), `Some(v)` the number typed in. */
  type Cota = Option<int>

  /** JavaScript truthiness of a bound: `null` and the number 0 are falsy. */
  predicate Activa(c: Cota)
  {
    c.Some? && c.value != 0
  }

  /** The search part of the filter: the lower-cased query occurs in the
      lower-cased title, city or type. */
  predicate CoincideBusqueda(p: Propiedad, busqueda: string)
  {
    var q := Lower(busqueda);
    Includes(Lower(p.titulo), q) || Includes(Lower(p.ciudad), q) || Includes(Lower(p.tipo), q)
  }

  /** The price part of the filter: each bound is tested only when it is
      truthy, so a bound of 0 imposes nothing. */
  predicate DentroRango(p: Propiedad, minPrecio: Cota, maxPrecio: Cota)
  {
    (if Activa(minPrecio) then p.precio >= minPrecio.value else true) &&
    (if Activa(maxPrecio) then p.precio <= maxPrecio.value else true)
  }

  predicate Coincide(p: Propiedad, busqueda: string, minPrecio: Cota, maxPrecio: Cota)
  {
    CoincideBusqueda(p, busqueda) && DentroRango(p, minPrecio, maxPrecio)
  }

  /** `filtradas`: the listings that match the query and the bounds. */
  function Filtrar(ps: seq<Propiedad>, busqueda: string, minPrecio: Cota, maxPrecio: Cota): seq<Propiedad>
  {
    Filter(ps, p => Coincide(p, busqueda, minPrecio, maxPrecio))
  }

  /** What a listing must satisfy to be shown, stated with the meaning of
      `includes` rather than the search that computes it. */
  ghost predicate Aceptada(p: Propiedad, busqueda: string, minPrecio: Cota, maxPrecio: Cota)
  {
    var q := Lower(busqueda);
    (IsSubstring(Lower(p.titulo), q) || IsSubstring(Lower(p.ciudad), q) || IsSubstring(Lower(p.tipo), q)) &&
    (Activa(minPrecio) ==> p.precio >= minPrecio.value) &&
    (Activa(maxPrecio) ==> p.precio <= maxPrecio.value)
  }

  lemma CoincideAceptada(p: Propiedad, busqueda: string, minPrecio: Cota, maxPrecio: Cota)
    ensures Coincide(p, busqueda, minPrecio, maxPrecio) <==> Aceptada(p, busqueda, minPrecio, maxPrecio)
  {
    var q := Lower(busqueda);
    IncludesIsSubstring(Lower(p.titulo), q);
    IncludesIsSubstring(Lower(p.ciudad), q);
    IncludesIsSubstring(Lower(p.tipo), q);
  }

  /** Every shown listing is accepted, every accepted listing is shown, and
      the shown listings keep the order of the input. */
  lemma FiltrarCorrecto(ps: seq<Propiedad>, busqueda: string, minPrecio: Cota, maxPrecio: Cota)
    ensures forall p :: p in Filtrar(ps, busqueda, minPrecio, maxPrecio) <==>
                        p in ps && Aceptada(p, busqueda, minPrecio, maxPrecio)
    ensures IsSubsequence(Filtrar(ps, busqueda, minPrecio, maxPrecio), ps)
    ensures |Filtrar(ps, busqueda, minPrecio, maxPrecio)| <= |ps|
  {
    forall p | p in ps {
      CoincideAceptada(p, busqueda, minPrecio, maxPrecio);
    }
  }

  /** With both bounds truthy, every shown price lies between them. */
  lemma FiltrarEntreCotas(ps: seq<Propiedad>, busqueda: string, a: int, b: int)
    requires a != 0 && b != 0
    ensures forall p :: p in Filtrar(ps, busqueda, Some(a), Some(b)) ==> a <= p.precio <= b
  {
  }

  /** An empty query and no bounds show the input unchanged. */
  lemma FiltrarSinCriterios(ps: seq<Propiedad>)
    ensures Filtrar(ps, "", None, None) == ps
  {
    forall p | p in ps
      ensures Coincide(p, "", None, None)
    {
      IncludesEmpty(Lower(p.titulo));
    }
    FilterAll(ps, p => Coincide(p, "", None, None));
  }

  /** A bound of 0 behaves exactly like no bound, for the minimum and for
      the maximum. */
  lemma CotaCeroSinEfecto(ps: seq<Propiedad>, busqueda: string, minPrecio: Cota, maxPrecio: Cota)
    ensures Filtrar(ps, busqueda, Some(0), maxPrecio) == Filtrar(ps, busqueda, None, maxPrecio)
    ensures Filtrar(ps, busqueda, minPrecio, Some(0)) == Filtrar(ps, busqueda, minPrecio, None)
  {
    FilterAgree(ps, p => Coincide(p, busqueda, Some(0), maxPrecio), p => Coincide(p, busqueda, None, maxPrecio));
    FilterAgree(ps, p => Coincide(p, busqueda, minPrecio, Some(0)), p => Coincide(p, busqueda, minPrecio, None));
  }

  /** Filtering the filtered list again changes nothing. */
  lemma FiltrarIdempotente(ps: seq<Propiedad>, busqueda: string, minPrecio: Cota, maxPrecio: Cota)
    ensures Filtrar(Filtrar(ps, busqueda, minPrecio, maxPrecio), busqueda, minPrecio, maxPrecio)
         == Filtrar(ps, busqueda, minPrecio, maxPrecio)
  {
    FilterIdempotent(ps, p => Coincide(p, busqueda, minPrecio, maxPrecio));
  }

  /** The query "casa" is found in a title and, independently, in a city
      name, whatever the case of the letters. */
  lemma BusquedaCasaCoincide(a: Propiedad, b: Propiedad)
    requires a.titulo == "Casa en el centro"
    requires b.ciudad == "Casablanca"
    ensures CoincideBusqueda(a, "casa") && CoincideBusqueda(b, "casa")
  {
    assert Lower("casa") == "casa";
    assert Lower("Casa en el centro")[..4] == "casa";
    assert Lower("Casablanca")[..4] == "casa";
  }

  /** "casa" is not found in a text without an `s`, whatever its case. */
  lemma CasaNoIncluida(t: string)
    requires 's' !in t && 'S' !in t
    ensures !Includes(Lower(t), Lower("casa"))
  {
    var q := "casa";
    assert Lower(q) == q;
    assert q[2] == 's' && ('s' as int - 32) as char == 'S';
    SinLetraNoIncluye(t, q, 2);
  }

  lemma SinEse(t: string)
    requires t == "Departamento" || t == "Lima" || t == "Oficina"
    ensures 's' !in t && 'S' !in t
  {
  }

  /** The query "casa" matches none of the title "Departamento", the city
      "Lima" and the type "Oficina": none of them holds an `s`. */
  lemma BusquedaCasaNoCoincide(c: Propiedad)
    requires c.titulo == "Departamento" && c.ciudad == "Lima" && c.tipo == "Oficina"
    ensures !CoincideBusqueda(c, "casa")
  {
    SinEse(c.titulo);
    SinEse(c.ciudad);
    SinEse(c.tipo);
    CasaNoIncluida(c.titulo);
    CasaNoIncluida(c.ciudad);
    CasaNoIncluida(c.tipo);
  }

  lemma FiltrarTres(a: Propiedad, b: Propiedad, c: Propiedad, f: Propiedad -> bool)
    requires f(a) && f(b) && !f(c)
    ensures Filter([a, b, c], f) == [a, b]
  {
    assert [a, b, c] == [a] + [b, c] && [b, c] == [b] + [c] && [c] == [c] + [];
    FilterCons(c, [], f);
    FilterCons(b, [c], f);
    FilterCons(a, [b, c], f);
  }

  /** The "casa" scenario on the whole filter: with no price bounds, the two
      matching listings are shown, in order, and the third is not. */
  lemma BusquedaCasaFiltrar(a: Propiedad, b: Propiedad, c: Propiedad)
    requires a.titulo == "Casa en el centro"
    requires b.ciudad == "Casablanca"
    requires c.titulo == "Departamento" && c.ciudad == "Lima" && c.tipo == "Oficina"
    ensures Filtrar([a, b, c], "casa", None, None) == [a, b]
  {
    BusquedaCasaCoincide(a, b);
    BusquedaCasaNoCoincide(c);
    FiltrarTres(a, b, c, p => Coincide(p, "casa", None, None));
  }

  /** `totalPaginas = Math.ceil(n / ITEMS_POR_PAGINA)`. */
  function CantidadPaginas(n: nat): (t: nat)
    ensures n <= t * ItemsPorPagina
    ensures t > 0 ==> (t - 1) * ItemsPorPagina < n
    ensures t == 0 <==> n == 0
  {
    if n % ItemsPorPagina == 0 then n / ItemsPorPagina else n / ItemsPorPagina + 1
  }

  /** `propiedadesVisibles`: the slice of the filtered list from
      `(pagina - 1) * 12` to that index plus 12. */
  function Ventana<T>(filtradas: seq<T>, pagina: int): (r: seq<T>)
    ensures |r| <= ItemsPorPagina
  {
    var inicio := (pagina - 1) * ItemsPorPagina;
    JsSlice(filtradas, inicio, inicio + ItemsPorPagina)
  }

  /** For a page number of at least 1, the window is the clipped range
      `(pagina - 1) * 12 .. pagina * 12`, and it is empty past the last page. */
  lemma VentanaRango<T>(filtradas: seq<T>, pagina: int)
    requires pagina >= 1
    ensures var inicio := Min((pagina - 1) * ItemsPorPagina, |filtradas|);
            Ventana(filtradas, pagina) == filtradas[inicio..Min(pagina * ItemsPorPagina, |filtradas|)]
    ensures pagina > CantidadPaginas(|filtradas|) ==> Ventana(filtradas, pagina) == []
    ensures pagina <= CantidadPaginas(|filtradas|) ==> Ventana(filtradas, pagina) != []
  {
    var t := CantidadPaginas(|filtradas|);
    if pagina > t {
      assert (pagina - 1) * ItemsPorPagina >= t * ItemsPorPagina;
    } else {
      assert (pagina - 1) * ItemsPorPagina <= (t - 1) * ItemsPorPagina;
    }
  }

  /** The windows of pages `1..k` one after the other. */
  function Paginas<T>(filtradas: seq<T>, k: nat): seq<T>
  {
    if k == 0 then [] else Paginas(filtradas, k - 1) + Ventana(filtradas, k)
  }

  /** The first `k` pages put together are the first `12 * k` listings. */
  lemma {:induction false} PaginasPrefijo<T>(filtradas: seq<T>, k: nat)
    ensures Paginas(filtradas, k) == filtradas[..Min(k * ItemsPorPagina, |filtradas|)]
  {
    if k > 0 {
      PaginasPrefijo(filtradas, k - 1);
      VentanaRango(filtradas, k);
      var a := Min((k - 1) * ItemsPorPagina, |filtradas|);
      var b := Min(k * ItemsPorPagina, |filtradas|);
      assert filtradas[..a] + filtradas[a..b] == filtradas[..b];
    }
  }

  /** Pages `1..totalPaginas` cover the filtered list exactly once, in
      order. */
  lemma PaginasCubren<T>(filtradas: seq<T>)
    ensures Paginas(filtradas, CantidadPaginas(|filtradas|)) == filtradas
  {
    PaginasPrefijo(filtradas, CantidadPaginas(|filtradas|));
  }

  /** Twenty-five listings make three pages, and the third shows only the
      twenty-fifth. */
  lemma VeinticincoEnTresPaginas<T>(filtradas: seq<T>)
    requires |filtradas| == 25
    ensures CantidadPaginas(|filtradas|) == 3
    ensures Ventana(filtradas, 3) == [filtradas[24]]
  {
  }

  /** The component's state. `propiedades` is the prop it is rendered with;
      the four variables are its `useState` slots. */
  class ListaPropiedades {
    const propiedades: seq<Propiedad>
    var busqueda: string
    var minPrecio: Cota
    var maxPrecio: Cota
    var paginaActual: int

    function Filtradas(): seq<Propiedad>
      reads this
    {
      Filtrar(propiedades, busqueda, minPrecio, maxPrecio)
    }

    function TotalPaginas(): nat
      reads this
    {
      CantidadPaginas(|Filtradas()|)
    }

    function PropiedadesVisibles(): seq<Propiedad>
      reads this
    {
      Ventana(Filtradas(), paginaActual)
    }

    /** The current page is always a real page, or page 1 when there is
        none. */
    ghost predicate Valid()
      reads this
    {
      1 <= paginaActual <= Max(1, TotalPaginas())
    }

    constructor (propiedades: seq<Propiedad>)
      ensures Valid()
      ensures this.propiedades == propiedades
      ensures busqueda == "" && minPrecio == None && maxPrecio == None && paginaActual == 1
      ensures Filtradas() == propiedades
    {
      this.propiedades := propiedades;
      busqueda := "";
      minPrecio := None;
      maxPrecio := None;
      paginaActual := 1;
      FiltrarSinCriterios(propiedades);
    }

    /** `handleAnterior`. */
    method Anterior()
      requires Valid()
      modifies this`paginaActual
      ensures Valid()
      ensures paginaActual == if old(paginaActual) > 1 then old(paginaActual) - 1 else old(paginaActual)
    {
      if paginaActual > 1 {
        paginaActual := paginaActual - 1;
      }
    }

    /** `handleSiguiente`. */
    method Siguiente()
      requires Valid()
      modifies this`paginaActual
      ensures Valid()
      ensures paginaActual == if old(paginaActual) < TotalPaginas() then old(paginaActual) + 1 else old(paginaActual)
    {
      if paginaActual < TotalPaginas() {
        paginaActual := paginaActual + 1;
      }
    }

    /** The effect on `[busqueda, minPrecio, maxPrecio]`: React runs it
        only after one of them has taken a new value. */
    method ReiniciarPagina(cambio: bool)
      modifies this`paginaActual
      ensures paginaActual == if cambio then 1 else old(paginaActual)
      ensures cambio ==> Valid()
      ensures old(Valid()) ==> Valid()
    {
      if cambio {
        paginaActual := 1;
      }
    }

    /** Typing in the search box, followed by the reset effect. */
    method CambiarBusqueda(q: string)
      requires Valid()
      modifies this`busqueda, this`paginaActual
      ensures Valid()
      ensures busqueda == q
      ensures paginaActual == if q != old(busqueda) then 1 else old(paginaActual)
    {
      var cambio := q != busqueda;
      busqueda := q;
      ReiniciarPagina(cambio);
    }

    /** Editing the minimum price box, followed by the reset effect. */
    method CambiarMinPrecio(c: Cota)
      requires Valid()
      modifies this`minPrecio, this`paginaActual
      ensures Valid()
      ensures minPrecio == c
      ensures paginaActual == if c != old(minPrecio) then 1 else old(paginaActual)
    {
      var cambio := c != minPrecio;
      minPrecio := c;
      ReiniciarPagina(cambio);
    }

    /** Editing the maximum price box, followed by the reset effect. */
    method CambiarMaxPrecio(c: Cota)
      requires Valid()
      modifies this`maxPrecio, this`paginaActual
      ensures Valid()
      ensures maxPrecio == c
      ensures paginaActual == if c != old(maxPrecio) then 1 else old(paginaActual)
    {
      var cambio := c != maxPrecio;
      maxPrecio := c;
      ReiniciarPagina(cambio);
    }
  }
}
