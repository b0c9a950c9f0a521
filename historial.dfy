/**
 * The movement history page: the movements query narrowed by the filters
 * present in the URL's search parameters, newest first, each row joined
 * with the name of the product it moves and the profile of its
 * responsible user.
 */
module Historial {
  import opened Js
  import opened Lists
  import opened Database

  /** A movement row with the name of its product, when the `productos(nombre)` join finds one. */
  datatype Fila = Fila(mov: Movimiento, producto: Option<string>)

  /** The name the join attaches: that of the product whose id is the row's `producto_id`, if any. */
  function JoinProducto(productos: map<string, Producto>, m: Movimiento): (f: Fila)
    ensures f.mov == m
    ensures f.producto.Some? <==> m.productoId in productos
    ensures f.producto.Some? ==> f.producto.value == productos[m.productoId].nombre
  {
    Fila(m, if m.productoId in productos then Some(productos[m.productoId].nombre) else None)
  }

  /** Every movement of the table, joined with its product. */
  function Joined(movimientos: seq<Movimiento>, productos: map<string, Producto>): (rows: seq<Fila>)
    ensures |rows| == |movimientos|
    ensures forall i :: 0 <= i < |rows| ==> rows[i] == JoinProducto(productos, movimientos[i])
  {
    seq(|movimientos|, i requires 0 <= i < |movimientos| => JoinProducto(productos, movimientos[i]))
  }

  /** The sort key of the history: the movement's date. */
  function Fecha(f: Fila): string
  {
    f.mov.fecha
  }

  /** `producto_id`, when set, is the movement's product. */
  predicate ProductoOk(params: Params, m: Movimiento)
  {
    Param(params, "producto_id") != "" ==> m.productoId == Param(params, "producto_id")
  }

  /** `tipo`, when set, is the movement's type. */
  predicate TipoOk(params: Params, m: Movimiento)
  {
    Param(params, "tipo") != "" ==> TipoName(m.tipo) == Param(params, "tipo")
  }

  /** `fecha_inicio`, when set, is not after the movement's date. */
  predicate DesdeOk(params: Params, m: Movimiento)
  {
    Param(params, "fecha_inicio") != "" ==> LexLe(Param(params, "fecha_inicio"), m.fecha)
  }

  /** `fecha_fin`, when set, is not before the movement's date. */
  predicate HastaOk(params: Params, m: Movimiento)
  {
    Param(params, "fecha_fin") != "" ==> LexLe(m.fecha, Param(params, "fecha_fin"))
  }

  /** `responsable`, when set, is the movement's responsible user. */
  predicate ResponsableOk(params: Params, m: Movimiento)
  {
    Param(params, "responsable") != "" ==> m.responsable == Param(params, "responsable")
  }

  /** The first two filters of the query. */
  predicate UpToTipo(params: Params, m: Movimiento)
  {
    ProductoOk(params, m) && TipoOk(params, m)
  }

  /** The first three filters of the query. */
  predicate UpToDesde(params: Params, m: Movimiento)
  {
    UpToTipo(params, m) && DesdeOk(params, m)
  }

  /** The first four filters of the query. */
  predicate UpToHasta(params: Params, m: Movimiento)
  {
    UpToDesde(params, m) && HastaOk(params, m)
  }

  /** The conjunction the query applies: one conjunct per non-empty parameter. */
  predicate Matches(params: Params, m: Movimiento)
  {
    UpToHasta(params, m) && ResponsableOk(params, m)
  }

  /** No parameter set: every movement matches. */
  lemma MatchesWithoutParams(params: Params, m: Movimiento)
    requires forall k :: k in params ==> params[k] == ""
    ensures Matches(params, m)
  {
  }

  /** Setting one more parameter can only narrow the result. */
  lemma MoreParamsNarrow(params: Params, key: string, value: string, m: Movimiento)
    requires Param(params, key) == ""
    requires Matches(params[key := value], m)
    ensures Matches(params, m)
  {
    assert forall k :: k != key ==> Param(params[key := value], k) == Param(params, k);
  }

  /** `if (searchParams.producto_id) query = query.eq('producto_id', …)`. */
  method ByProducto(query: seq<Fila>, all: seq<Fila>, params: Params) returns (r: seq<Fila>)
    requires SortedBy(query, Fecha, true) && multiset(query) == multiset(all)
    ensures SortedBy(r, Fecha, true)
    ensures forall f :: multiset(r)[f] == if ProductoOk(params, f.mov) then multiset(all)[f] else 0
  {
    r := query;
    var productoId := Param(params, "producto_id");
    if productoId != "" {
      r := Narrow(query, (f: Fila) => f.mov.productoId == productoId, Fecha, true);
    }
  }

  /** `if (searchParams.tipo) query = query.eq('tipo', …)`. */
  method ByTipo(query: seq<Fila>, all: seq<Fila>, params: Params) returns (r: seq<Fila>)
    requires SortedBy(query, Fecha, true)
    requires forall f :: multiset(query)[f] == if ProductoOk(params, f.mov) then multiset(all)[f] else 0
    ensures SortedBy(r, Fecha, true)
    ensures forall f :: multiset(r)[f] == if UpToTipo(params, f.mov) then multiset(all)[f] else 0
  {
    r := query;
    var tipo := Param(params, "tipo");
    if tipo != "" {
      r := Narrow(query, (f: Fila) => TipoName(f.mov.tipo) == tipo, Fecha, true);
    }
  }

  /** `if (searchParams.fecha_inicio) query = query.gte('fecha', …)`. */
  method ByDesde(query: seq<Fila>, all: seq<Fila>, params: Params) returns (r: seq<Fila>)
    requires SortedBy(query, Fecha, true)
    requires forall f :: multiset(query)[f] == if UpToTipo(params, f.mov) then multiset(all)[f] else 0
    ensures SortedBy(r, Fecha, true)
    ensures forall f :: multiset(r)[f] == if UpToDesde(params, f.mov) then multiset(all)[f] else 0
  {
    r := query;
    var fechaInicio := Param(params, "fecha_inicio");
    if fechaInicio != "" {
      r := Narrow(query, (f: Fila) => LexLe(fechaInicio, f.mov.fecha), Fecha, true);
    }
  }

  /** `if (searchParams.fecha_fin) query = query.lte('fecha', …)`. */
  method ByHasta(query: seq<Fila>, all: seq<Fila>, params: Params) returns (r: seq<Fila>)
    requires SortedBy(query, Fecha, true)
    requires forall f :: multiset(query)[f] == if UpToDesde(params, f.mov) then multiset(all)[f] else 0
    ensures SortedBy(r, Fecha, true)
    ensures forall f :: multiset(r)[f] == if UpToHasta(params, f.mov) then multiset(all)[f] else 0
  {
    r := query;
    var fechaFin := Param(params, "fecha_fin");
    if fechaFin != "" {
      r := Narrow(query, (f: Fila) => LexLe(f.mov.fecha, fechaFin), Fecha, true);
    }
  }

  /** `if (searchParams.responsable) query = query.eq('responsable', …)`. */
  method ByResponsable(query: seq<Fila>, all: seq<Fila>, params: Params) returns (r: seq<Fila>)
    requires SortedBy(query, Fecha, true)
    requires forall f :: multiset(query)[f] == if UpToHasta(params, f.mov) then multiset(all)[f] else 0
    ensures SortedBy(r, Fecha, true)
    ensures forall f :: multiset(r)[f] == if Matches(params, f.mov) then multiset(all)[f] else 0
  {
    r := query;
    var responsable := Param(params, "responsable");
    if responsable != "" {
      r := Narrow(query, (f: Fila) => f.mov.responsable == responsable, Fecha, true);
    }
  }

  /**
   * The movements query: all movements with their product name, ordered by
   * `fecha` descending, then narrowed once for each non-empty parameter.
   * A failed query yields no data.
   */
  method Query(movimientos: seq<Movimiento>, productos: map<string, Producto>, params: Params, queryFails: bool)
    returns (data: Option<seq<Fila>>)
    ensures queryFails <==> data.None?
    ensures data.Some? ==> SortedBy(data.value, Fecha, true)
    ensures data.Some? ==>
      forall f :: multiset(data.value)[f] == if Matches(params, f.mov) then multiset(Joined(movimientos, productos))[f] else 0
    ensures data.Some? && (forall k :: k in params ==> params[k] == "") ==>
      multiset(data.value) == multiset(Joined(movimientos, productos))
  {
    if queryFails {
      return None;
    }
    var all := Joined(movimientos, productos);
    var query := SortBy(all, Fecha, true);
    query := ByProducto(query, all, params);
    query := ByTipo(query, all, params);
    query := ByDesde(query, all, params);
    query := ByHasta(query, all, params);
    query := ByResponsable(query, all, params);
    data := Some(query);
    if forall k :: k in params ==> params[k] == "" {
      forall f: Fila ensures multiset(query)[f] == multiset(all)[f] {
        MatchesWithoutParams(params, f.mov);
      }
      assert multiset(query) == multiset(all);
    }
  }

  /** A profile row as the page reads it: `user_id` and `nombre`. */
  datatype PerfilRef = PerfilRef(userId: string, nombre: string)

  /** A history row with the `{ nombre }` of its responsible user's profile, or null. */
  datatype FilaConPerfil = FilaConPerfil(fila: Fila, perfil: Option<string>)

  /**
   * `perfiles?.find(p => p.user_id === responsable)`: the name of the first
   * listed profile of that user; null when there is none or the profiles
   * query returned no data.
   */
  function ProfileName(perfiles: Option<seq<PerfilRef>>, responsable: string): (r: Option<string>)
    ensures r.None? <==> perfiles.None? || forall j :: 0 <= j < |perfiles.value| ==> perfiles.value[j].userId != responsable
    ensures r.Some? ==> exists i :: 0 <= i < |perfiles.value| && perfiles.value[i].userId == responsable &&
                                  r.value == perfiles.value[i].nombre &&
                                  forall j :: 0 <= j < i ==> perfiles.value[j].userId != responsable
  {
    if perfiles.None? then None
    else
      var found := FindFirst(perfiles.value, (p: PerfilRef) => p.userId == responsable);
      if found.None? then None else Some(found.value.nombre)
  }

  /**
   * `movimientosWithProfiles`: every row kept in place with all its fields,
   * plus the profile name of its responsible user; no data gives the empty list.
   */
  function WithProfiles(data: Option<seq<Fila>>, perfiles: Option<seq<PerfilRef>>): (r: seq<FilaConPerfil>)
    ensures data.None? ==> r == []
    ensures data.Some? ==> |r| == |data.value|
    ensures data.Some? ==> forall i :: 0 <= i < |r| ==>
      r[i].fila == data.value[i] && r[i].perfil == ProfileName(perfiles, data.value[i].mov.responsable)
  {
    if data.None? then []
    else
      var rows := data.value;
      seq(|rows|, i requires 0 <= i < |rows| => FilaConPerfil(rows[i], ProfileName(perfiles, rows[i].mov.responsable)))
  }

  /** The join keeps the history's order: its rows are still newest first. */
  lemma WithProfilesKeepsOrder(data: seq<Fila>, perfiles: Option<seq<PerfilRef>>)
    requires SortedBy(data, Fecha, true)
    ensures SortedBy(WithProfiles(Some(data), perfiles), (r: FilaConPerfil) => r.fila.mov.fecha, true)
  {
  }
}
