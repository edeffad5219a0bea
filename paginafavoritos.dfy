/** The favorites page (`FavoritosPage`): the fetched listings kept to the
    favorite ids, and the loading gate in front of them. */
module PaginaFavoritos {
  import opened Secuencias
  import opened Propiedades
  import UseFavoritos

  /** `favoritas`: the fetched listings whose id is a favorite. */
  function Favoritas(ps: seq<Propiedad>, favoritos: seq<int>): (r: seq<Propiedad>)
    ensures forall p :: p in r <==> p in ps && p.id in favoritos
    ensures IsSubsequence(r, ps)
    ensures |r| <= |ps|
    ensures favoritos == [] ==> r == []
  {
    Filter(ps, (p: Propiedad) => p.id in favoritos)
  }

  /** Only which ids are favorites matters, not their order or repetition:
      the result follows the order of the fetched listings. */
  lemma FavoritasSoloPertenencia(ps: seq<Propiedad>, f1: seq<int>, f2: seq<int>)
    requires forall i :: i in f1 <==> i in f2
    ensures Favoritas(ps, f1) == Favoritas(ps, f2)
  {
    FilterAgree(ps, (p: Propiedad) => p.id in f1, (p: Propiedad) => p.id in f2);
  }

  /** What the page shows. */
  datatype Vista = Cargando | SinFavoritos | Tarjetas(favoritas: seq<Propiedad>)

  class FavoritosPage {
    const hook: UseFavoritos.Favoritos
    var propiedades: seq<Propiedad>
    var loading: bool

    /** The first render: no listings yet, loading. */
    constructor (almacen: UseFavoritos.Almacenamiento)
      ensures fresh(hook) && hook.almacen == almacen
      ensures hook.favoritos == [] && !hook.montado
      ensures propiedades == [] && loading
    {
      hook := new UseFavoritos.Favoritos(almacen);
      propiedades := [];
      loading := true;
    }

    /** The fetched data arrives: `setPropiedades(data)` then
        `setLoading(false)`. */
    method Recibir(data: seq<Propiedad>)
      modifies this`propiedades, this`loading
      ensures propiedades == data && !loading
    {
      propiedades := data;
      loading := false;
    }

    function FavoritasActuales(): seq<Propiedad>
      reads this, hook
    {
      Favoritas(propiedades, hook.favoritos)
    }

    /** While loading only the loading message is shown; afterwards the
        cards of the favorite listings, or the "no favorites" message when
        there are none. */
    function Mostrar(): (v: Vista)
      reads this, hook
      ensures loading ==> v == Cargando
      ensures !loading && hook.favoritos == [] ==> v == SinFavoritos
      ensures !loading ==> (v == SinFavoritos <==> FavoritasActuales() == [])
      ensures v.Tarjetas? ==> v.favoritas == FavoritasActuales() && v.favoritas != []
    {
      if loading then Cargando
      else
        var favoritas := FavoritasActuales();
        if |favoritas| > 0 then Tarjetas(favoritas) else SinFavoritos
    }
  }
}
