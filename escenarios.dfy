/**
 * End-to-end scenarios whose ensures state the replies: a user is seeded,
 * creates a category of their own, books transactions against it and then
 * deletes or renames categories. Each method starts from an empty store.
 */
module Escenarios {
  import opened Modelos
  import opened Categorias
  import opened Catalogo
  import opened Transacciones
  import opened Siembra
  import opened Api

  /** A fresh store after seeding user 1: the seeding succeeds, ids 0 to
      11 hold the catalog in order and nothing else is stored. */
  method TiendaSembrada() returns (a: Almacen, r: Result<()>)
    ensures fresh(a) && a.Valid()
    ensures r.Ok?
    ensures a.siguienteId == 12 && a.transacciones == map[]
    ensures SiembraHasta(CATALOGO, map[], a.categorias, 0, |CATALOGO|, 1)
    ensures forall k: Id :: k in a.categorias <==> k < 12
    ensures forall k: Id :: k < 12 ==> a.categorias[k] == Sembrada(CATALOGO[k], 1)
  {
    a := new Almacen();
    CatalogoValido();
    CatalogoAceptable();
    r := a.CrearCategoriasDefault(1);
    SembradoCumple(CATALOGO, map[], 0, 1, |CATALOGO|);
    forall k: Id | k < 12
      ensures k in a.categorias && a.categorias[k] == Sembrada(CATALOGO[k], 1)
    {
      assert !NombreOcupado(map[], 1, CATALOGO[k].nombre);
      assert a.categorias[0 + k] == Sembrada(CATALOGO[k], 1);
    }
  }

  /** Seeding a new user succeeds with twelve categories; seeding the same
      user again is refused by the unique index and adds nothing. */
  method SembrarDosVeces() returns (primera: Result<()>, segunda: Result<()>, total: nat)
    ensures primera.Ok? && segunda == Err(Failure) && total == 12
  {
    var a;
    a, primera := TiendaSembrada();
    ghost var cats1 := a.categorias;
    CatalogoValido();
    CatalogoAceptable();
    SiembraCompletaCuenta(CATALOGO, map[], cats1, 0, 1);
    SiembraOcupaTodos(CATALOGO, map[], cats1, 0, 1);
    assert NombreOcupado(cats1, 1, CATALOGO[0].nombre);
    segunda := a.CrearCategoriasDefault(1);
    SembradoCumple(CATALOGO, cats1, 12, 1, |CATALOGO|);
    SiembraRepetidaNoCambia(CATALOGO, cats1, a.categorias, 12, 1);
    total := |a.categorias|;
  }

  /** A name that does not start like any catalog name is not one. */
  lemma FueraDelCatalogo(nombre: string)
    requires |nombre| > 0 && nombre[0] !in INICIALES
    ensures forall j :: 0 <= j < |CATALOGO| ==> CATALOGO[j].nombre != nombre
  {
    InicialesDelCatalogo();
  }

  /** In the seeded store, no category is called "Gym". */
  lemma GymEsNuevo(cats: map<Id, Categoria>)
    requires forall k: Id :: k in cats <==> k < 12
    requires forall k: Id :: k < 12 ==> cats[k] == Sembrada(CATALOGO[k], 1)
    ensures !NombreOcupado(cats, 1, "Gym")
  {
    CatalogoValido();
    FueraDelCatalogo("Gym");
  }

  /** The seeded store after the user creates the expense category "Gym". */
  method CrearGym() returns (a: Almacen, gym: Id)
    ensures fresh(a) && a.Valid() && a.transacciones == map[]
    ensures forall k: Id :: k < 12 ==> k in a.categorias && a.categorias[k] == Sembrada(CATALOGO[k], 1)
    ensures gym in a.categorias && gym >= 12 && a.categorias[gym] == Categoria("Gym", EGRESO, 1, false, 0, true)
    ensures forall k: Id :: k in a.categorias <==> k < 12 || k == gym
  {
    var s;
    a, s := TiendaSembrada();
    GymEsNuevo(a.categorias);
    var g := a.CrearCategoria(1, CamposCategoria(Some("Gym"), Some(EGRESO), None));
    gym := g.value;
  }

  /** ... and books three expenses against it. */
  method TiendaConGym() returns (a: Almacen, gym: Id)
    ensures fresh(a) && a.Valid()
    ensures forall k: Id :: k < 12 ==> k in a.categorias && a.categorias[k] == Sembrada(CATALOGO[k], 1)
    ensures gym in a.categorias && gym >= 12 && a.categorias[gym] == Categoria("Gym", EGRESO, 1, false, 0, true)
    ensures |Referencias(a.transacciones, gym)| == 3
  {
    a, gym := CrearGym();
    var gasto := CamposTransaccion(None, Some(100), None, Some(EGRESO), Some(gym), None);
    var t1 := a.CrearTransaccion(1, gasto, 0);
    var t2 := a.CrearTransaccion(1, gasto, 0);
    var t3 := a.CrearTransaccion(1, gasto, 0);
    assert Referencias(a.transacciones, gym) == {t1.value, t2.value, t3.value};
  }

  /** Deleting "Gym": as written the handler answers 500 and changes
      nothing; as intended the three expenses move to the fallback
      "📝 Otros Gastos" (id 11) and the answer counts them. Deleting the
      fallback itself is refused. */
  method BorrarGym() returns (talComoEsta: Result<nat>, fallback: Result<nat>, r: Result<nat>)
    ensures talComoEsta == Err(Failure)
    ensures fallback == Err(BadRequest)
    ensures r == Ok(3)
  {
    var a, gym := TiendaConGym();
    talComoEsta := a.EliminarCategoriaTalComoEsta(1, gym);
    fallback := a.EliminarCategoria(1, 11);

    CatalogoTieneFallbacks();
    assert EGRESO != INGRESO by { assert EGRESO[0] != INGRESO[0]; }
    assert EsDefaultDe(a.categorias, 11, 1, EGRESO);
    r := a.EliminarCategoria(1, gym);
  }

  /** Renaming "Gym" to a name the user already has is refused. */
  method RenombrarGymAUnNombreOcupado() returns (r: Result<Categoria>)
    ensures r == Err(BadRequest)
  {
    var a, gym := CrearGym();
    assert CATALOGO[0] == INGRESOS[0];
    assert a.categorias[0].nombre == "💰 Salario";
    r := a.ActualizarCategoria(1, gym, CamposCategoria(Some("💰 Salario"), None, None));
  }

  /** Giving "Gym" a type outside the enum is refused; the handler as
      written would store it (see Fusionar). */
  method CambiarTipoDeGymAInvalido() returns (r: Result<Categoria>)
    ensures r == Err(Failure)
  {
    var a, gym := CrearGym();
    assert "gasto"[0] != EGRESO[0] && "gasto"[0] != INGRESO[0];
    r := a.ActualizarCategoria(1, gym, CamposCategoria(None, Some("gasto"), None));
  }

  /** Renaming "Gym" to a fresh name with an empty type keeps the type,
      the order and the flags. */
  method RenombrarGym() returns (r: Result<Categoria>)
    ensures r == Ok(Categoria("Gimnasio", EGRESO, 1, false, 0, true))
  {
    var a, gym := CrearGym();
    CatalogoValido();
    FueraDelCatalogo("Gimnasio");
    r := a.ActualizarCategoria(1, gym, CamposCategoria(Some("Gimnasio"), Some(""), None));
  }

  /** GET with `startDate` in the middle of day 1 and `tipo=egreso`: an
      expense earlier that same day still matches (the bound is the start of
      the day), an expense on day 0 and an income on day 2 do not. */
  method ListarDesdeElDiaUno() returns (r: seq<Id>)
    ensures r == [3]
  {
    var txs := map[
      1 := Transaccion(0, 500, None, EGRESO, 20, 1),
      2 := Transaccion(2 * DIA, 900, None, INGRESO, 21, 1),
      3 := Transaccion(DIA + 5, 300, None, EGRESO, 20, 1)];
    var q := Consulta(Some(DIA + 1000), None, Some(EGRESO));
    assert "ingreso"[0] != "egreso"[0];
    r := Listar(txs, 1, q);
    assert multiset(r) == multiset{3};
    assert r[0] in multiset(r);
  }

  /** PUT on a transaction id that does not exist, with a type outside the
      enum: the update validators answer first, so the reply is BadRequest
      rather than NotFound. */
  method ActualizarConTipoInvalido() returns (r: Result<Transaccion>)
    ensures r == Err(BadRequest)
  {
    var a := new Almacen();
    assert "gasto"[0] != EGRESO[0] && "gasto"[0] != INGRESO[0];
    r := a.ActualizarTransaccion(1, 7, CamposTransaccion(None, None, None, Some("gasto"), None, None));
  }
}
