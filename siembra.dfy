/**
 * What `crearCategoriasDefault` does to the category store, stated over any
 * list of entries: each entry is saved under the next fresh id when its
 * name is free for the user, and refused by the `(nombre, usuario)` unique
 * index otherwise. The predicates below describe the store part-way through
 * the walk; the lemmas extend the walk by one entry and read off what a
 * whole walk leaves behind.
 */
module Siembra {
  import opened Modelos
  import opened Categorias
  import opened Catalogo

  /** Entries that seeding can walk: pairwise distinct names, each accepted
      by the schema. */
  ghost predicate EntradasAceptables(todas: seq<Entrada>)
  {
    && (forall j, k :: 0 <= j < k < |todas| ==> todas[j].nombre != todas[k].nombre)
    && (forall j :: 0 <= j < |todas| ==> todas[j].nombre != "" && TipoValido(todas[j].tipo))
  }

  lemma CatalogoAceptable()
    ensures EntradasAceptables(CATALOGO)
  {
    CatalogoValido();
    NombresDistintos();
  }

  /** The categories `cats` hold what seeding has done to `cats0` after
      walking the first `i` entries of `todas` with fresh ids from `n0`:
      the old categories are untouched, the only new ids are `n0 + j` for
      walked entries `j`, entry `j` was saved exactly when its name was free
      at the start, and what was saved is that entry as a default category. */
  ghost predicate SiembraHasta(todas: seq<Entrada>, cats0: map<Id, Categoria>, cats: map<Id, Categoria>,
                               n0: nat, i: nat, u: Id)
    requires i <= |todas|
  {
    && (forall k :: k in cats0 ==> k < n0 && k in cats && cats[k] == cats0[k])
    && (forall k :: k in cats ==> k in cats0 || n0 <= k < n0 + i)
    && (forall j :: 0 <= j < i ==> (n0 + j in cats <==> !NombreOcupado(cats0, u, todas[j].nombre)))
    && (forall j :: 0 <= j < i && n0 + j in cats ==> cats[n0 + j] == Sembrada(todas[j], u))
  }

  /** One step of seeding. Since the names walked so far all differ from
      the next entry's, that name is taken now exactly when it was taken at
      the start; saving the entry when it is free, or skipping it when it is
      taken, extends the walk by one entry. */
  lemma SiembraPaso(todas: seq<Entrada>, cats0: map<Id, Categoria>, cats: map<Id, Categoria>, n0: nat, i: nat, u: Id)
    requires i < |todas| && EntradasAceptables(todas)
    requires SiembraHasta(todas, cats0, cats, n0, i, u)
    ensures n0 + i !in cats
    ensures NombreOcupado(cats, u, todas[i].nombre) <==> NombreOcupado(cats0, u, todas[i].nombre)
    ensures !NombreOcupado(cats0, u, todas[i].nombre) ==>
              SiembraHasta(todas, cats0, cats[n0 + i := Sembrada(todas[i], u)], n0, i + 1, u)
    ensures NombreOcupado(cats0, u, todas[i].nombre) ==> SiembraHasta(todas, cats0, cats, n0, i + 1, u)
  {
    var nombre := todas[i].nombre;
    forall k | k in cats && k !in cats0 && cats[k].usuario == u
      ensures cats[k].nombre != nombre
    {
      assert cats[n0 + (k - n0)] == Sembrada(todas[k - n0], u);
    }
    if NombreOcupado(cats, u, nombre) {
      var k :| k in cats && cats[k].usuario == u && cats[k].nombre == nombre;
      assert k in cats0 && cats0[k] == cats[k];
    }
    if NombreOcupado(cats0, u, nombre) {
      var k :| k in cats0 && cats0[k].usuario == u && cats0[k].nombre == nombre;
      assert k in cats && cats[k] == cats0[k];
    }
  }

  /** The store after saving the entries of `todas` one after the other
      from `cats0`, entry `j` under id `n0 + j`, each refused when the user
      already holds its name at that moment; and whether every save went
      through. */
  ghost function Sembrado(todas: seq<Entrada>, cats0: map<Id, Categoria>, n0: nat, u: Id, i: nat): (map<Id, Categoria>, bool)
    requires i <= |todas|
  {
    if i == 0 then (cats0, true)
    else
      var antes := Sembrado(todas, cats0, n0, u, i - 1);
      if NombreOcupado(antes.0, u, todas[i - 1].nombre) then (antes.0, false)
      else (antes.0[n0 + i - 1 := Sembrada(todas[i - 1], u)], antes.1)
  }

  /** The save of entry `i - 1` in `Sembrado`, read through `SiembraPaso`. */
  lemma SembradoPaso(todas: seq<Entrada>, cats0: map<Id, Categoria>, n0: nat, u: Id, i: nat)
    requires 0 < i <= |todas| && EntradasAceptables(todas)
    requires SiembraHasta(todas, cats0, Sembrado(todas, cats0, n0, u, i - 1).0, n0, i - 1, u)
    ensures SiembraHasta(todas, cats0, Sembrado(todas, cats0, n0, u, i).0, n0, i, u)
    ensures Sembrado(todas, cats0, n0, u, i).1
              == (Sembrado(todas, cats0, n0, u, i - 1).1 && !NombreOcupado(cats0, u, todas[i - 1].nombre))
  {
    var antes := Sembrado(todas, cats0, n0, u, i - 1);
    SiembraPaso(todas, cats0, antes.0, n0, i - 1, u);
    if NombreOcupado(cats0, u, todas[i - 1].nombre) {
      assert Sembrado(todas, cats0, n0, u, i) == (antes.0, false);
    } else {
      assert Sembrado(todas, cats0, n0, u, i) == (antes.0[n0 + i - 1 := Sembrada(todas[i - 1], u)], antes.1);
    }
  }

  /** What the sequential saves amount to: entry `j` is stored exactly when
      its name was free before seeding began (the entries' own names never
      collide), and the seeding succeeds exactly when all names were free. */
  lemma {:induction false} SembradoCumple(todas: seq<Entrada>, cats0: map<Id, Categoria>, n0: nat, u: Id, i: nat)
    requires i <= |todas| && EntradasAceptables(todas)
    requires forall k :: k in cats0 ==> k < n0
    ensures SiembraHasta(todas, cats0, Sembrado(todas, cats0, n0, u, i).0, n0, i, u)
    ensures Sembrado(todas, cats0, n0, u, i).1 <==>
              forall j :: 0 <= j < i ==> !NombreOcupado(cats0, u, todas[j].nombre)
  {
    if i > 0 {
      SembradoCumple(todas, cats0, n0, u, i - 1);
      SembradoPaso(todas, cats0, n0, u, i);
    }
  }

  /** Once every entry is walked, the user holds every name: either from
      before seeding, or from the entry just saved. */
  lemma SiembraOcupaTodos(todas: seq<Entrada>, cats0: map<Id, Categoria>, cats: map<Id, Categoria>, n0: nat, u: Id)
    requires SiembraHasta(todas, cats0, cats, n0, |todas|, u)
    ensures forall j :: 0 <= j < |todas| ==> NombreOcupado(cats, u, todas[j].nombre)
  {
    forall j | 0 <= j < |todas|
      ensures NombreOcupado(cats, u, todas[j].nombre)
    {
      if NombreOcupado(cats0, u, todas[j].nombre) {
        var k :| k in cats0 && cats0[k].usuario == u && cats0[k].nombre == todas[j].nombre;
        assert k in cats && cats[k] == cats0[k];
      } else {
        assert cats[n0 + j] == Sembrada(todas[j], u);
      }
    }
  }

  /** The ids `n0`, ..., `n0 + n - 1`: a seeding of `n` entries can use no others. */
  function Rango(n0: nat, n: nat): (r: set<nat>)
    ensures |r| == n
    ensures forall k :: k in r <==> n0 <= k < n0 + n
  {
    if n == 0 then {} else Rango(n0, n - 1) + {n0 + n - 1}
  }

  /** Seeding a user who already holds every name adds nothing: every save
      is refused, so a second seeding leaves the store as the first one left
      it. */
  lemma SiembraRepetidaNoCambia(todas: seq<Entrada>, cats0: map<Id, Categoria>, cats: map<Id, Categoria>, n0: nat, u: Id)
    requires SiembraHasta(todas, cats0, cats, n0, |todas|, u)
    requires forall j :: 0 <= j < |todas| ==> NombreOcupado(cats0, u, todas[j].nombre)
    ensures cats == cats0
  {
    forall k | k in Rango(n0, |todas|)
      ensures k !in cats
    {
      assert NombreOcupado(cats0, u, todas[k - n0].nombre);
    }
    assert cats.Keys == cats0.Keys;
  }

  /** A seeding that found none of the names taken adds one category per
      entry. */
  lemma SiembraCompletaCuenta(todas: seq<Entrada>, cats0: map<Id, Categoria>, cats: map<Id, Categoria>, n0: nat, u: Id)
    requires SiembraHasta(todas, cats0, cats, n0, |todas|, u)
    requires forall i :: 0 <= i < |todas| ==> !NombreOcupado(cats0, u, todas[i].nombre)
    ensures |cats| == |cats0| + |todas|
  {
    var nuevas := Rango(n0, |todas|);
    forall k | k in nuevas
      ensures k in cats
    {
      assert !NombreOcupado(cats0, u, todas[k - n0].nombre);
      assert n0 + (k - n0) in cats;
    }
    assert cats.Keys == cats0.Keys + nuevas;
    assert |cats.Keys| == |cats0.Keys| + |nuevas|;
  }

  /** After seeding the catalog with both fallback names free, the user has
      both fallback categories that deletion looks up. */
  lemma SiembraCompletaFallbacks(cats0: map<Id, Categoria>, cats: map<Id, Categoria>, n0: nat, u: Id)
    requires SiembraHasta(CATALOGO, cats0, cats, n0, |CATALOGO|, u)
    requires forall i :: 0 <= i < |CATALOGO| ==> !NombreOcupado(cats0, u, CATALOGO[i].nombre)
    requires NombresUnicos(cats)
    ensures forall t :: TipoValido(t) ==> ObtenerDefaultId(cats, u, t).Some?
  {
    CatalogoTieneFallbacks();
    forall t | TipoValido(t)
      ensures ObtenerDefaultId(cats, u, t).Some?
    {
      var i :| 0 <= i < |CATALOGO| && CATALOGO[i].nombre == NombreDefault(t) && CATALOGO[i].tipo == t;
      assert cats[n0 + i] == Sembrada(CATALOGO[i], u);
      assert EsDefaultDe(cats, n0 + i, u, t);
    }
  }
}
