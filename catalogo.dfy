/**
 * The constant catalog `categoriasDefault`: four income categories and
 * eight expense categories, each with a name, a type and a sort order.
 * Seeding copies it for a user; deletion relies on two of its names.
 */
module Catalogo {
  import opened Modelos
  import opened Categorias

  datatype Entrada = Entrada(nombre: string, tipo: string, orden: int)

  const INGRESOS: seq<Entrada> := [
    Entrada("💰 Salario", INGRESO, 1),
    Entrada("📈 Inversiones", INGRESO, 2),
    Entrada("💻 Freelance", INGRESO, 3),
    Entrada("✨ Otros Ingresos", INGRESO, 4)
  ]

  const EGRESOS: seq<Entrada> := [
    Entrada("🍽️ Alimentación", EGRESO, 1),
    Entrada("🚗 Transporte", EGRESO, 2),
    Entrada("📱 Servicios", EGRESO, 3),
    Entrada("🏠 Hogar", EGRESO, 4),
    Entrada("🏥 Salud", EGRESO, 5),
    Entrada("🎮 Entretenimiento", EGRESO, 6),
    Entrada("📚 Educación", EGRESO, 7),
    Entrada("📝 Otros Gastos", EGRESO, 8)
  ]

  /** `[...categoriasDefault.ingresos, ...categoriasDefault.egresos]`, the
      order in which seeding walks the catalog. */
  const CATALOGO: seq<Entrada> := INGRESOS + EGRESOS

  /** The category seeding makes of an entry for user `u`. */
  function Sembrada(e: Entrada, u: Id): Categoria
  {
    Categoria(e.nombre, e.tipo, u, true, e.orden, true)
  }

  /** A list of entries all of type `tipo` numbered 1, 2, ... in order. */
  ghost predicate Numerada(es: seq<Entrada>, tipo: string)
  {
    forall i :: 0 <= i < |es| ==> es[i].tipo == tipo && es[i].orden == i + 1
  }

  lemma IngresosNumerados()
    ensures |INGRESOS| == 4 && Numerada(INGRESOS, INGRESO)
  {
    forall i | 0 <= i < |INGRESOS|
      ensures INGRESOS[i].tipo == INGRESO && INGRESOS[i].orden == i + 1
    {
      if i == 0 {} else if i == 1 {} else if i == 2 {} else {}
    }
  }

  lemma EgresosNumerados()
    ensures |EGRESOS| == 8 && Numerada(EGRESOS, EGRESO)
  {
    forall i | 0 <= i < |EGRESOS|
      ensures EGRESOS[i].tipo == EGRESO && EGRESOS[i].orden == i + 1
    {
      if i == 0 {} else if i == 1 {} else if i == 2 {} else if i == 3 {}
      else if i == 4 {} else if i == 5 {} else if i == 6 {} else {}
    }
  }

  /** Every entry yields a category the schema accepts. */
  lemma CatalogoValido()
    ensures |CATALOGO| == 12
    ensures forall i :: 0 <= i < |CATALOGO| ==> CATALOGO[i].nombre != "" && TipoValido(CATALOGO[i].tipo)
  {
    IngresosNumerados();
    EgresosNumerados();
    forall i | 0 <= i < |CATALOGO|
      ensures CATALOGO[i].nombre != "" && TipoValido(CATALOGO[i].tipo)
    {
      if i < 4 {
        assert CATALOGO[i] == INGRESOS[i];
      } else {
        assert CATALOGO[i] == EGRESOS[i - 4];
      }
      assert |CATALOGO[i].nombre| > 0;
    }
  }

  /** The first character of each name, in catalog order: all twelve differ. */
  const INICIALES: seq<char> := ['💰', '📈', '💻', '✨', '🍽', '🚗', '📱', '🏠', '🏥', '🎮', '📚', '📝']

  lemma InicialesDelCatalogo()
    ensures |CATALOGO| == |INICIALES|
    ensures forall i :: 0 <= i < |CATALOGO| ==> |CATALOGO[i].nombre| > 0 && CATALOGO[i].nombre[0] == INICIALES[i]
  {
    forall i | 0 <= i < |CATALOGO|
      ensures |CATALOGO[i].nombre| > 0 && CATALOGO[i].nombre[0] == INICIALES[i]
    {
      if i < 4 {
        assert CATALOGO[i] == INGRESOS[i];
      } else {
        assert CATALOGO[i] == EGRESOS[i - 4];
      }
    }
  }

  /** The twelve names are pairwise distinct, so one seeding never collides
      with itself under the `(nombre, usuario)` unique index. */
  lemma NombresDistintos()
    ensures forall i, j :: 0 <= i < j < |CATALOGO| ==> CATALOGO[i].nombre != CATALOGO[j].nombre
  {
    InicialesDelCatalogo();
    forall i, j | 0 <= i < j < |CATALOGO|
      ensures CATALOGO[i].nombre != CATALOGO[j].nombre
    {
      assert INICIALES[i] != INICIALES[j];
    }
  }

  /** The names that `getDefaultCategoryId` looks up are in the catalog,
      with the type it looks them up under. */
  lemma CatalogoTieneFallbacks()
    ensures CATALOGO[3] == Entrada(OTROS_INGRESOS, INGRESO, 4)
    ensures CATALOGO[11] == Entrada(OTROS_GASTOS, EGRESO, 8)
    ensures forall t :: TipoValido(t) ==>
              exists i :: 0 <= i < |CATALOGO| && CATALOGO[i].nombre == NombreDefault(t) && CATALOGO[i].tipo == t
  {
    assert CATALOGO[3] == INGRESOS[3];
    assert CATALOGO[11] == EGRESOS[7];
    forall t | TipoValido(t)
      ensures exists i :: 0 <= i < |CATALOGO| && CATALOGO[i].nombre == NombreDefault(t) && CATALOGO[i].tipo == t
    {
      if t == INGRESO {
        assert CATALOGO[3].nombre == NombreDefault(t);
      } else {
        assert EGRESO != INGRESO by { assert EGRESO[0] != INGRESO[0]; }
        assert CATALOGO[11].nombre == NombreDefault(t);
      }
    }
  }
}
