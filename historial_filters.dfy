/**
 * The history list's filter panel: five text filters initialised from the
 * page's search parameters, edited one at a time, turned back into search
 * parameters when applied, and cleared all at once. Also the labels a row
 * shows when its product or user join found nothing.
 */
module HistorialFiltros {
  import opened Js
  import opened Lists
  import opened Historial

  /** The five filter fields. */
  datatype Filtros = Filtros(productoId: string, tipo: string, fechaInicio: string, fechaFin: string, responsable: string)

  /** The name of a filter field, which is also its input's `name` and its search parameter. */
  datatype Clave = ProductoId | Tipo | FechaInicio | FechaFin | Responsable

  /** The fields in declaration order, the order `Object.entries(filters)` visits them. */
  const Claves: seq<Clave> := [ProductoId, Tipo, FechaInicio, FechaFin, Responsable]

  function Nombre(k: Clave): string
  {
    match k
    case ProductoId => "producto_id"
    case Tipo => "tipo"
    case FechaInicio => "fecha_inicio"
    case FechaFin => "fecha_fin"
    case Responsable => "responsable"
  }

  /** Distinct fields have distinct names. */
  lemma NombreInjective(k: Clave, q: Clave)
    ensures Nombre(k) == Nombre(q) ==> k == q
  {
  }

  function Get(f: Filtros, k: Clave): string
  {
    match k
    case ProductoId => f.productoId
    case Tipo => f.tipo
    case FechaInicio => f.fechaInicio
    case FechaFin => f.fechaFin
    case Responsable => f.responsable
  }

  /** Two filter states with the same value in every field are the same state. */
  lemma FiltrosExtensional(f: Filtros, g: Filtros)
    requires forall k :: Get(f, k) == Get(g, k)
    ensures f == g
  {
    assert Get(f, ProductoId) == Get(g, ProductoId) && Get(f, Tipo) == Get(g, Tipo);
    assert Get(f, FechaInicio) == Get(g, FechaInicio) && Get(f, FechaFin) == Get(g, FechaFin);
    assert Get(f, Responsable) == Get(g, Responsable);
  }

  /** The state where every field is empty. */
  const Vacios := Filtros("", "", "", "", "")

  /** `useState({ producto_id: searchParams.producto_id || '', … })`. */
  function InitFilters(params: Params): (f: Filtros)
    ensures forall k :: Get(f, k) == Param(params, Nombre(k))
  {
    Filtros(Param(params, "producto_id"), Param(params, "tipo"), Param(params, "fecha_inicio"),
            Param(params, "fecha_fin"), Param(params, "responsable"))
  }

  /** A page opened without search parameters starts with every filter empty. */
  lemma InitWithoutParams()
    ensures InitFilters(map[]) == Vacios
  {
  }

  /** `Object.entries(filters)`: each field's name with its value, in field order. */
  function Entries(f: Filtros): (es: seq<(string, string)>)
    ensures |es| == |Claves|
    ensures forall i :: 0 <= i < |es| ==> es[i] == (Nombre(Claves[i]), Get(f, Claves[i]))
  {
    seq(|Claves|, i requires 0 <= i < |Claves| => (Nombre(Claves[i]), Get(f, Claves[i])))
  }

  /** An entry whose value is not empty: the condition `if (value)`. */
  predicate NonEmpty(e: (string, string))
  {
    e.1 != ""
  }

  /** Every field's entry is among the entries, and every entry is some field's. */
  lemma EntriesMembership(f: Filtros, e: (string, string))
    ensures e in Entries(f) <==> exists k :: e == (Nombre(k), Get(f, k))
  {
    var es := Entries(f);
    if exists k :: e == (Nombre(k), Get(f, k)) {
      var k :| e == (Nombre(k), Get(f, k));
      var i := match k
        case ProductoId => 0
        case Tipo => 1
        case FechaInicio => 2
        case FechaFin => 3
        case Responsable => 4;
      assert es[i] == e;
    }
  }

  /**
   * Round trip: a page opened with the parameters that applying the filters
   * produces starts with the same filters.
   */
  lemma ApplyThenInit(f: Filtros)
    ensures InitFilters(ToParams(Filter(Entries(f), NonEmpty))) == f
  {
    var applied := Filter(Entries(f), NonEmpty);
    var g := InitFilters(ToParams(applied));
    forall k ensures Get(g, k) == Get(f, k) {
      var key := Nombre(k);
      ToParamsLookup(applied, key);
      if key in ToParams(applied) {
        var v := ToParams(applied)[key];
        FilterMembership(Entries(f), NonEmpty, (key, v));
        EntriesMembership(f, (key, v));
        var q :| (key, v) == (Nombre(q), Get(f, q));
        NombreInjective(k, q);
      } else {
        EntriesMembership(f, (key, Get(f, k)));
        FilterMembership(Entries(f), NonEmpty, (key, Get(f, k)));
      }
    }
    FiltrosExtensional(g, f);
  }

  /** Applying cleared filters produces no parameters at all. */
  lemma ApplyCleared()
    ensures Filter(Entries(Vacios), NonEmpty) == []
  {
    var es := Entries(Vacios);
    assert forall i :: 0 <= i < |es| ==> !NonEmpty(es[i]);
    var r := Filter(es, NonEmpty);
    if r != [] {
      FilterMembership(es, NonEmpty, r[0]);
    }
  }

  /** `movimiento.productos?.nombre || 'Producto no encontrado'`. */
  function ProductoLabel(f: FilaConPerfil): (shown: string)
    ensures f.fila.producto.Some? && f.fila.producto.value != "" ==> shown == f.fila.producto.value
    ensures f.fila.producto.None? || f.fila.producto.value == "" ==> shown == "Producto no encontrado"
  {
    OrElse(f.fila.producto, "Producto no encontrado")
  }

  /** `movimiento.perfiles?.nombre || 'Usuario desconocido'`. */
  function UsuarioLabel(f: FilaConPerfil): (shown: string)
    ensures f.perfil.Some? && f.perfil.value != "" ==> shown == f.perfil.value
    ensures f.perfil.None? || f.perfil.value == "" ==> shown == "Usuario desconocido"
  {
    OrElse(f.perfil, "Usuario desconocido")
  }

  /** A row whose responsible user has no listed profile shows 'Usuario desconocido'. */
  lemma UnknownUserLabel(rows: seq<Fila>, perfiles: Option<seq<PerfilRef>>, i: int)
    requires 0 <= i < |rows|
    requires perfiles.None? || forall j :: 0 <= j < |perfiles.value| ==> perfiles.value[j].userId != rows[i].mov.responsable
    ensures UsuarioLabel(WithProfiles(Some(rows), perfiles)[i]) == "Usuario desconocido"
  {
  }

  /** The `forEach` of `handleApplyFilters`: `params.set(key, value)` for each entry with a value. */
  method SetNonEmpty(entries: seq<(string, string)>) returns (params: seq<(string, string)>)
    ensures params == Filter(entries, NonEmpty)
  {
    params := [];
    for i := 0 to |entries|
      invariant params == Filter(entries[..i], NonEmpty)
    {
      var entry := entries[i];
      assert entries[..i + 1] == entries[..i] + [entry];
      FilterSnoc(entries[..i], entry, NonEmpty);
      if NonEmpty(entry) {
        params := params + [entry];
      }
    }
    assert entries[..|entries|] == entries;
  }

  class HistorialList {
    var filters: Filtros

    constructor (searchParams: Params)
      ensures filters == InitFilters(searchParams)
    {
      filters := InitFilters(searchParams);
    }

    /** `handleFilterChange`: the named field takes the new value; the others keep theirs. */
    method HandleFilterChange(name: Clave, value: string)
      modifies this`filters
      ensures Get(filters, name) == value
      ensures forall k :: k != name ==> Get(filters, k) == Get(old(filters), k)
    {
      match name
      case ProductoId => filters := filters.(productoId := value);
      case Tipo => filters := filters.(tipo := value);
      case FechaInicio => filters := filters.(fechaInicio := value);
      case FechaFin => filters := filters.(fechaFin := value);
      case Responsable => filters := filters.(responsable := value);
    }

    /**
     * `handleApplyFilters`: one parameter per non-empty field, in field
     * order; the result is the query of the `/historial` URL it navigates to.
     */
    method HandleApplyFilters() returns (params: seq<(string, string)>)
      ensures params == Filter(Entries(filters), NonEmpty)
    {
      params := SetNonEmpty(Entries(filters));
    }

    /** `handleClearFilters`: every field empty, and back to `/historial` with no parameters. */
    method HandleClearFilters() returns (nav: string)
      modifies this`filters
      ensures filters == Vacios
      ensures nav == HistorialPage
    {
      filters := Vacios;
      nav := HistorialPage;
    }
  }

  const HistorialPage := "/historial"
}
