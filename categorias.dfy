/**
 * The pure parts of the category routes: the `(nombre, usuario)` lookups
 * behind the unique index and the duplicate checks, the fallback lookup
 * `getDefaultCategoryId`, the field merge of PUT, and the bulk rewrite of
 * transactions that DELETE performs before removing a category.
 */
module Categorias {
  import opened Modelos

  /** The fixed names `getDefaultCategoryId` searches for. */
  const OTROS_INGRESOS: string := "✨ Otros Ingresos"
  const OTROS_GASTOS: string := "📝 Otros Gastos"

  function NombreDefault(tipo: string): string
  {
    if tipo == INGRESO then OTROS_INGRESOS else OTROS_GASTOS
  }

  /** `Categoria.findOne({ nombre, usuario })` finds something. */
  predicate NombreOcupado(cats: map<Id, Categoria>, usuario: Id, nombre: string)
  {
    exists k :: k in cats && cats[k].usuario == usuario && cats[k].nombre == nombre
  }

  /** The same query with `_id: { $ne: id }`, used when renaming. */
  predicate NombreOcupadoPorOtra(cats: map<Id, Categoria>, usuario: Id, nombre: string, id: Id)
  {
    exists k :: k in cats && k != id && cats[k].usuario == usuario && cats[k].nombre == nombre
  }

  /** The unique index `{ nombre: 1, usuario: 1 }`. */
  ghost predicate NombresUnicos(cats: map<Id, Categoria>)
  {
    forall a, b ::
      (a in cats && b in cats && cats[a].usuario == cats[b].usuario && cats[a].nombre == cats[b].nombre) ==> a == b
  }

  /** Every transaction references a category that exists. The source does
      not enforce this on creation; deletion must not break it. */
  ghost predicate Integridad(cats: map<Id, Categoria>, txs: map<Id, Transaccion>)
  {
    forall k :: k in txs ==> txs[k].categoria in cats
  }

  /** `c` matches the fallback query of `getDefaultCategoryId`. */
  predicate EsDefault(c: Categoria, usuario: Id, tipo: string)
  {
    c.nombre == NombreDefault(tipo) && c.usuario == usuario && c.tipo == tipo && c.isDefault
  }

  predicate EsDefaultDe(cats: map<Id, Categoria>, k: Id, usuario: Id, tipo: string)
  {
    k in cats && EsDefault(cats[k], usuario, tipo)
  }

  /** `getDefaultCategoryId(usuario, tipo)`: None is the thrown "not found".
      Under the unique index the match, when there is one, is the only one. */
  function ObtenerDefaultId(cats: map<Id, Categoria>, usuario: Id, tipo: string): (r: Option<Id>)
    requires NombresUnicos(cats)
    ensures r.Some? <==> exists k: Id :: EsDefaultDe(cats, k, usuario, tipo)
    ensures forall k: Id :: EsDefaultDe(cats, k, usuario, tipo) ==> r == Some(k)
  {
    if exists k: Id :: k in cats && EsDefault(cats[k], usuario, tipo) then
      var k: Id :| k in cats && EsDefault(cats[k], usuario, tipo);
      assert EsDefaultDe(cats, k, usuario, tipo);
      Some(k)
    else
      None
  }

  /** The body of PUT: only these three fields are read. */
  datatype CamposCategoria = CamposCategoria(nombre: Option<string>, tipo: Option<string>, orden: Option<int>)

  /** A JavaScript string is truthy when it is present and not empty. */
  predicate Presente(s: Option<string>)
  {
    s.Some? && s.value != ""
  }

  /** The object `nuevaCategoria` that PUT hands to `findByIdAndUpdate`,
      applied to the stored category: `nombre` and `tipo` with `||`, so a
      given non-empty value is written and an omitted or empty one keeps the
      old; `orden` is written whenever it is given, 0 included. usuario,
      isDefault and isVisible are not in the object and never change. */
  function Fusionar(c: Categoria, campos: CamposCategoria): (r: Categoria)
    ensures Presente(campos.nombre) ==> r.nombre == campos.nombre.value
    ensures !Presente(campos.nombre) ==> r.nombre == c.nombre
    ensures Presente(campos.tipo) ==> r.tipo == campos.tipo.value
    ensures !Presente(campos.tipo) ==> r.tipo == c.tipo
    ensures campos.orden.Some? ==> r.orden == campos.orden.value
    ensures campos.orden.None? ==> r.orden == c.orden
    ensures r.usuario == c.usuario && r.isDefault == c.isDefault && r.isVisible == c.isVisible
    ensures c.nombre != "" ==> r.nombre != ""
  {
    c.(nombre := if Presente(campos.nombre) then campos.nombre.value else c.nombre,
       tipo := if Presente(campos.tipo) then campos.tipo.value else c.tipo,
       orden := GetOr(campos.orden, c.orden))
  }

  /** As written, the merge lets any non-empty string through as `tipo`, and
      `findByIdAndUpdate` runs no validators unless `runValidators` is set:
      a stored category can leave the enum. */
  lemma FusionarAdmiteTipoInvalido()
    ensures var c := Categoria("Gym", EGRESO, 1, false, 0, true);
            var r := Fusionar(c, CamposCategoria(None, Some("gasto"), None));
            CategoriaValida(c) && !CategoriaValida(r)
  {
    var r := Fusionar(Categoria("Gym", EGRESO, 1, false, 0, true), CamposCategoria(None, Some("gasto"), None));
    assert r.tipo == "gasto";
    assert r.tipo[0] != EGRESO[0] && r.tipo[0] != INGRESO[0];
  }

  // ---------------------------------------------------------------------
  // Reassignment: `Transaccion.updateMany({ categoria: de }, { categoria: a })`
  // ---------------------------------------------------------------------

  /** Every transaction that referenced `de` now references `a`; every
      other transaction is as it was; no transaction is added or dropped. */
  function Reasignar(txs: map<Id, Transaccion>, de: Id, a: Id): (r: map<Id, Transaccion>)
    ensures r.Keys == txs.Keys
    ensures forall k :: k in Referencias(txs, de) ==> r[k] == txs[k].(categoria := a)
    ensures forall k :: k in txs && k !in Referencias(txs, de) ==> r[k] == txs[k]
  {
    map k | k in txs :: if txs[k].categoria == de then txs[k].(categoria := a) else txs[k]
  }

  /** The transactions that reference category `c`. */
  function Referencias(txs: map<Id, Transaccion>, c: Id): set<Id>
  {
    set k | k in txs && txs[k].categoria == c
  }

  /** `modifiedCount`: the documents whose content the update changed. */
  function Modificados(antes: map<Id, Transaccion>, despues: map<Id, Transaccion>): (r: set<Id>)
    ensures r <= antes.Keys && r <= despues.Keys
    ensures forall k :: k in antes && k in despues && antes[k] != despues[k] ==> k in r
    ensures antes == despues ==> r == {}
  {
    set k | k in antes && k in despues && antes[k] != despues[k]
  }

  /** After the rewrite every former reference to `de` points at `a`, no
      transaction references `de` any more, and each transaction differs
      from before at most in its category. */
  lemma ReasignarEfecto(txs: map<Id, Transaccion>, de: Id, a: Id)
    requires de != a
    ensures var r := Reasignar(txs, de, a);
      && r.Keys == txs.Keys
      && Referencias(r, de) == {}
      && (forall k :: k in Referencias(txs, de) ==> r[k].categoria == a)
      && (forall k :: k in txs ==> r[k].(categoria := txs[k].categoria) == txs[k])
      && (forall k :: k in txs && k !in Referencias(txs, de) ==> r[k] == txs[k])
  {
    var r := Reasignar(txs, de, a);
    forall k | k in r
      ensures r[k].categoria != de
    {
    }
  }

  /** The count reported by DELETE is the number of transactions that
      referenced the deleted category: every one of them is modified and no
      other. */
  lemma ReasignarCuenta(txs: map<Id, Transaccion>, de: Id, a: Id)
    requires de != a
    ensures Modificados(txs, Reasignar(txs, de, a)) == Referencias(txs, de)
  {
    var r := Reasignar(txs, de, a);
    forall k | k in Referencias(txs, de)
      ensures k in Modificados(txs, r)
    {
      assert r[k].categoria == a != de == txs[k].categoria;
    }
  }

  /** The fallback gains exactly the references of the deleted category. */
  lemma {:induction false} ReasignarSuma(txs: map<Id, Transaccion>, de: Id, a: Id)
    requires de != a
    ensures Referencias(Reasignar(txs, de, a), a) == Referencias(txs, a) + Referencias(txs, de)
    ensures |Referencias(Reasignar(txs, de, a), a)| == |Referencias(txs, a)| + |Referencias(txs, de)|
  {
    var r := Reasignar(txs, de, a);
    assert Referencias(r, a) == Referencias(txs, a) + Referencias(txs, de);
    assert Referencias(txs, a) !! Referencias(txs, de);
  }

  /** Rewriting to an existing category and then removing `de` keeps every
      reference resolvable; removing `de` while something still references
      it would not. */
  lemma ReasignarConservaIntegridad(cats: map<Id, Categoria>, txs: map<Id, Transaccion>, de: Id, a: Id)
    requires Integridad(cats, txs) && a in cats && de != a
    ensures Integridad(cats, Reasignar(txs, de, a))
    ensures Integridad(cats - {de}, Reasignar(txs, de, a))
  {
  }
}
