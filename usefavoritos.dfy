/** The `useFavoritos` hook: the list of favorite ids, the flag that says
    the component is mounted on the client, the load effect that restores
    the list from browser storage, the effect that writes it back, and the
    toggle and membership test it hands out. */
module UseFavoritos {
  import opened Opcion
  import opened Secuencias
  import Json

  /** The storage key. */
  const Clave: string := "favoritos"

  /** `agregarFavorito`'s update: drop every occurrence of a present id,
      append an absent one. */
  function Alternar(favoritos: seq<int>, id: int): (r: seq<int>)
    ensures id in favoritos ==> id !in r && IsSubsequence(r, favoritos)
    ensures id in favoritos ==> forall j :: j != id ==> multiset(r)[j] == multiset(favoritos)[j]
    ensures id !in favoritos ==> |r| == |favoritos| + 1 && r[..|favoritos|] == favoritos && r[|favoritos|] == id
  {
    if id in favoritos then Filter(favoritos, f => f != id) else favoritos + [id]
  }

  /** After a toggle `esFavorito(id)` is negated and every other id keeps
      its answer. */
  lemma AlternarPertenencia(favoritos: seq<int>, id: int, j: int)
    ensures j in Alternar(favoritos, id) <==> if j == id then id !in favoritos else j in favoritos
  {
    if id in favoritos && j != id {
      assert multiset(Alternar(favoritos, id))[j] == multiset(favoritos)[j];
    }
  }

  /** Toggling an absent id twice gives back exactly the original list. */
  lemma AlternarDosVecesAusente(favoritos: seq<int>, id: int)
    requires id !in favoritos
    ensures Alternar(Alternar(favoritos, id), id) == favoritos
  {
    var f := (x: int) => x != id;
    FilterAppend(favoritos, [id], f);
    FilterAll(favoritos, f);
  }

  /** Toggling a present id twice gives back the same members, with the id
      moved to the end. */
  lemma AlternarDosVecesPresente(favoritos: seq<int>, id: int)
    requires id in favoritos
    ensures var r := Alternar(Alternar(favoritos, id), id);
            |r| > 0 && r[|r| - 1] == id && r[..|r| - 1] == Alternar(favoritos, id) &&
            forall j :: j in r <==> j in favoritos
  {
    forall j
      ensures j in Alternar(Alternar(favoritos, id), id) <==> j in favoritos
    {
      AlternarPertenencia(favoritos, id, j);
      AlternarPertenencia(Alternar(favoritos, id), id, j);
    }
  }

  /** No id occurs twice. */
  ghost predicate SinRepetidos(xs: seq<int>)
  {
    forall x :: multiset(xs)[x] <= 1
  }

  lemma AlternarSinRepetidos(favoritos: seq<int>, id: int)
    requires SinRepetidos(favoritos)
    ensures SinRepetidos(Alternar(favoritos, id))
  {
    var r := Alternar(favoritos, id);
    if id !in favoritos {
      assert r == favoritos + [id];
      assert multiset(r) == multiset(favoritos) + multiset{id};
    }
  }

  /** What the load effect takes from storage: the ids, when the stored
      text is there, is not empty, and reads as an array. */
  function Cargados(datos: map<string, string>): Option<seq<int>>
  {
    if Clave in datos && datos[Clave] != "" then Json.Decodificar(datos[Clave]) else None
  }

  /** Text the persist effect wrote is read back by a later load as the
      same list. */
  lemma CargadosTrasGuardar(datos: map<string, string>, xs: seq<int>)
    ensures Cargados(datos[Clave := Json.Codificar(xs)]) == Some(xs)
  {
    Json.DecodificarCodificar(xs);
  }

  /** Stored text with a leading zero is not loaded: `JSON.parse` throws on
      it and the error is caught, so the list stays as it is. */
  lemma CargadosCeroInicial(datos: map<string, string>)
    requires Clave in datos && datos[Clave] == "[01]"
    ensures Cargados(datos) == None
  {
    Json.DecodificarCeroInicial();
  }

  /** `localStorage`: one string per key, shared by every hook instance. */
  class Almacenamiento {
    var datos: map<string, string>

    constructor (datos: map<string, string>)
      ensures this.datos == datos
    {
      this.datos := datos;
    }
  }

  class Favoritos {
    const almacen: Almacenamiento
    var favoritos: seq<int>
    var montado: bool

    /** Once mounted, storage holds the encoding of the current list. */
    ghost predicate Persistido()
      reads this, almacen
    {
      montado ==> Clave in almacen.datos && almacen.datos[Clave] == Json.Codificar(favoritos)
    }

    /** The first render: an empty list, not yet mounted, nothing written. */
    constructor (almacen: Almacenamiento)
      ensures this.almacen == almacen
      ensures favoritos == [] && !montado
      ensures Persistido()
    {
      this.almacen := almacen;
      favoritos := [];
      montado := false;
    }

    /** `esFavorito`. */
    function EsFavorito(id: int): bool
      reads this
    {
      id in favoritos
    }

    /** The persist effect, run after `favoritos` or `isMounted` changes:
        it writes only once mounted. */
    method Guardar()
      modifies almacen`datos
      ensures Persistido()
      ensures almacen.datos == if montado then old(almacen.datos)[Clave := Json.Codificar(favoritos)]
                               else old(almacen.datos)
    {
      if montado {
        almacen.datos := almacen.datos[Clave := Json.Codificar(favoritos)];
      }
    }

    /** The load effect that runs once on mount, then the persist effect
        that the change of `isMounted` triggers. */
    method Montar()
      requires !montado
      modifies this`montado, this`favoritos, almacen`datos
      ensures montado
      ensures favoritos == match Cargados(old(almacen.datos))
                           case Some(xs) => xs
                           case None => old(favoritos)
      ensures almacen.datos == old(almacen.datos)[Clave := Json.Codificar(favoritos)]
      ensures Persistido()
    {
      montado := true;
      var guardados := Cargados(almacen.datos);
      match guardados {
        case Some(xs) => favoritos := xs;
        case None =>
      }
      Guardar();
    }

    /** `agregarFavorito`, then the persist effect its change triggers. */
    method AgregarFavorito(id: int)
      modifies this`favoritos, almacen`datos
      ensures favoritos == Alternar(old(favoritos), id)
      ensures EsFavorito(id) == !old(EsFavorito(id))
      ensures forall j :: j != id ==> EsFavorito(j) == old(EsFavorito(j))
      ensures almacen.datos == if montado then old(almacen.datos)[Clave := Json.Codificar(favoritos)]
                               else old(almacen.datos)
      ensures Persistido()
    {
      ghost var antes := favoritos;
      favoritos := Alternar(favoritos, id);
      forall j
        ensures EsFavorito(j) == (if j == id then id !in antes else j in antes)
      {
        AlternarPertenencia(antes, id, j);
      }
      Guardar();
    }
  }

  /** A later session restores what an earlier one left: the toggled list
      survives unmounting and mounting a new hook on the same storage. */
  method SesionesSucesivas(almacen: Almacenamiento, id: int) returns (antes: seq<int>, despues: seq<int>)
    modifies almacen
    ensures despues == antes
  {
    var primera := new Favoritos(almacen);
    primera.Montar();
    primera.AgregarFavorito(id);
    antes := primera.favoritos;
    CargadosTrasGuardar(old(almacen.datos), antes);
    var segunda := new Favoritos(almacen);
    segunda.Montar();
    despues := segunda.favoritos;
  }
}
