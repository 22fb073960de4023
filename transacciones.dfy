/**
 * The read side of the transaction routes: the query that GET builds from
 * `startDate`, `endDate` and `tipo`, the descending sort on `fecha`, and the
 * field-by-field update of PUT.
 *
 * Dates are milliseconds since the epoch. `startOfDay`/`endOfDay` are taken
 * in UTC: a day is the interval [d * DIA, (d + 1) * DIA - 1].
 */
module Transacciones {
  import opened Modelos

  const DIA: int := 86400000

  /** The day a point in time falls on (floor division). */
  function Dia(t: int): int
  {
    t / DIA
  }

  function InicioDelDia(t: int): int
  {
    Dia(t) * DIA
  }

  function FinDelDia(t: int): int
  {
    Dia(t) * DIA + DIA - 1
  }

  /** The query string of GET; None stands for a parameter that is absent or
      empty (both are falsy in the handler). */
  datatype Consulta = Consulta(startDate: Option<int>, endDate: Option<int>, tipo: Option<string>)

  /** The Mongo filter the handler builds: the caller's transactions, `$gte`
      the start of `startDate`'s day, `$lte` the end of `endDate`'s day, and
      the exact `tipo` when one is given. */
  predicate Coincide(t: Transaccion, usuario: Id, q: Consulta)
    ensures Coincide(t, usuario, q) ==> t.usuario == usuario
    ensures q == Consulta(None, None, None) ==> (Coincide(t, usuario, q) <==> t.usuario == usuario)
  {
    && t.usuario == usuario
    && (q.startDate.Some? ==> t.fecha >= InicioDelDia(q.startDate.value))
    && (q.endDate.Some? ==> t.fecha <= FinDelDia(q.endDate.value))
    && (q.tipo.Some? && q.tipo.value != "" ==> t.tipo == q.tipo.value)
  }

  /** Both date bounds are inclusive and whole-day: a transaction passes
      them exactly when its day lies between the two given days. */
  lemma FiltroPorDias(t: Transaccion, usuario: Id, q: Consulta)
    ensures Coincide(t, usuario, q) <==>
      && t.usuario == usuario
      && (q.startDate.Some? ==> Dia(q.startDate.value) <= Dia(t.fecha))
      && (q.endDate.Some? ==> Dia(t.fecha) <= Dia(q.endDate.value))
      && (q.tipo.Some? && q.tipo.value != "" ==> t.tipo == q.tipo.value)
  {
    var f := t.fecha;
    assert f == Dia(f) * DIA + f % DIA && 0 <= f % DIA < DIA;
    if q.startDate.Some? {
      var s := q.startDate.value;
      assert f >= InicioDelDia(s) <==> Dia(s) <= Dia(f);
    }
    if q.endDate.Some? {
      var e := q.endDate.value;
      assert f <= FinDelDia(e) <==> Dia(f) <= Dia(e);
    }
  }

  /** `ids` are transactions of `txs` sorted by `fecha`, newest first. */
  ghost predicate OrdenDescendente(txs: map<Id, Transaccion>, ids: seq<Id>)
  {
    && (forall i :: 0 <= i < |ids| ==> ids[i] in txs)
    && (forall i, j :: 0 <= i < j < |ids| ==> txs[ids[i]].fecha >= txs[ids[j]].fecha)
  }

  /** Puts `id` into the sorted list `ids` after every transaction that is
      not older than it. */
  method InsertarPorFecha(txs: map<Id, Transaccion>, ids: seq<Id>, id: Id) returns (r: seq<Id>)
    requires id in txs && OrdenDescendente(txs, ids)
    ensures OrdenDescendente(txs, r)
    ensures multiset(r) == multiset(ids) + multiset{id}
  {
    var k := 0;
    while k < |ids| && txs[ids[k]].fecha >= txs[id].fecha
      invariant 0 <= k <= |ids|
      invariant forall i :: 0 <= i < k ==> txs[ids[i]].fecha >= txs[id].fecha
    {
      k := k + 1;
    }
    r := ids[..k] + [id] + ids[k..];
    InsercionOrdenada(txs, ids, id, k);
    InsercionCuenta(ids, id, k);
  }

  /** Inserting `id` at a position `k` where everything before is not older
      and the element at `k` is older keeps the list sorted. */
  lemma InsercionOrdenada(txs: map<Id, Transaccion>, ids: seq<Id>, id: Id, k: nat)
    requires id in txs && OrdenDescendente(txs, ids) && k <= |ids|
    requires forall i :: 0 <= i < k ==> txs[ids[i]].fecha >= txs[id].fecha
    requires k < |ids| ==> txs[ids[k]].fecha < txs[id].fecha
    ensures OrdenDescendente(txs, ids[..k] + [id] + ids[k..])
  {
    var r := ids[..k] + [id] + ids[k..];
    forall i | 0 <= i < |r|
      ensures r[i] == if i < k then ids[i] else if i == k then id else ids[i - 1]
    {
    }
    forall i, j | 0 <= i < j < |r|
      ensures txs[r[i]].fecha >= txs[r[j]].fecha
    {
      if j < k {
        assert r[i] == ids[i] && r[j] == ids[j];
      } else if j == k {
        assert r[i] == ids[i] && r[j] == id;
      } else if i < k {
        assert r[i] == ids[i] && r[j] == ids[j - 1];
      } else if i == k {
        assert r[i] == id && r[j] == ids[j - 1];
        assert txs[ids[k]].fecha >= txs[ids[j - 1]].fecha || k == j - 1;
      } else {
        assert r[i] == ids[i - 1] && r[j] == ids[j - 1];
      }
    }
  }

  lemma InsercionCuenta(ids: seq<Id>, id: Id, k: nat)
    requires k <= |ids|
    ensures multiset(ids[..k] + [id] + ids[k..]) == multiset(ids) + multiset{id}
  {
    assert ids == ids[..k] + ids[k..];
  }

  /** GET /api/transacciones: every transaction of `txs` that matches the
      query appears exactly once, nothing else appears, and the result is
      sorted by `fecha`, newest first. Ties are left in an unspecified order,
      as the database leaves them. */
  method Listar(txs: map<Id, Transaccion>, usuario: Id, q: Consulta) returns (r: seq<Id>)
    ensures OrdenDescendente(txs, r)
    ensures forall id :: multiset(r)[id] == if id in txs && Coincide(txs[id], usuario, q) then 1 else 0
  {
    var pendientes := txs.Keys;
    r := [];
    while pendientes != {}
      invariant pendientes <= txs.Keys
      invariant OrdenDescendente(txs, r)
      invariant forall id ::
        multiset(r)[id] == if id in txs && id !in pendientes && Coincide(txs[id], usuario, q) then 1 else 0
      decreases pendientes
    {
      var id :| id in pendientes;
      pendientes := pendientes - {id};
      if Coincide(txs[id], usuario, q) {
        r := InsertarPorFecha(txs, r, id);
      }
    }
  }

  /** The update validators of `runValidators: true`: only the paths the
      body sets are checked, here the `tipo` enum. */
  predicate CamposValidos(c: CamposTransaccion)
  {
    c.tipo.Some? ==> TipoValido(c.tipo.value)
  }

  /** PUT /api/transacciones/:id: every field the body gives is written,
      every field it leaves out keeps its value, and an update that passes
      the validators keeps a valid transaction valid. */
  function AplicarCampos(t: Transaccion, c: CamposTransaccion): (r: Transaccion)
    ensures c.fecha.Some? ==> r.fecha == c.fecha.value
    ensures c.fecha.None? ==> r.fecha == t.fecha
    ensures c.monto.Some? ==> r.monto == c.monto.value
    ensures c.monto.None? ==> r.monto == t.monto
    ensures c.descripcion.Some? ==> r.descripcion == c.descripcion
    ensures c.descripcion.None? ==> r.descripcion == t.descripcion
    ensures c.tipo.Some? ==> r.tipo == c.tipo.value
    ensures c.tipo.None? ==> r.tipo == t.tipo
    ensures c.categoria.Some? ==> r.categoria == c.categoria.value
    ensures c.categoria.None? ==> r.categoria == t.categoria
    ensures c.usuario.Some? ==> r.usuario == c.usuario.value
    ensures c.usuario.None? ==> r.usuario == t.usuario
    ensures c == CamposTransaccion(None, None, None, None, None, None) ==> r == t
    ensures TransaccionValida(t) && CamposValidos(c) ==> TransaccionValida(r)
  {
    Transaccion(GetOr(c.fecha, t.fecha), GetOr(c.monto, t.monto),
                if c.descripcion.Some? then c.descripcion else t.descripcion,
                GetOr(c.tipo, t.tipo), GetOr(c.categoria, t.categoria), GetOr(c.usuario, t.usuario))
  }
}
