/**
 * The product catalogue page: the products query ordered by name and
 * narrowed by the `search` and `categoria` search parameters, and the list
 * of distinct categories offered by the category filter.
 */
module Catalogo {
  import opened Js
  import opened Lists
  import opened Database

  /** The sort key of the catalogue. */
  function Nombre(p: Producto): string
  {
    p.nombre
  }

  /** `search`, when set, occurs in the product's name, ignoring case. */
  predicate SearchOk(params: Params, p: Producto)
  {
    Param(params, "search") != "" ==> ContainsIgnoringCase(p.nombre, Param(params, "search"))
  }

  /** `categoria`, when set, is exactly the product's category. */
  predicate CategoriaOk(params: Params, p: Producto)
  {
    Param(params, "categoria") != "" ==> p.categoria == Param(params, "categoria")
  }

  /**
   * The products query: all products ordered by `nombre`, narrowed by each
   * parameter that is set. A failed query shows the empty list.
   */
  method Query(table: seq<Producto>, params: Params, queryFails: bool) returns (productos: seq<Producto>)
    ensures queryFails ==> productos == []
    ensures SortedBy(productos, Nombre, false)
    ensures !queryFails ==>
              forall p :: multiset(productos)[p] == if SearchOk(params, p) && CategoriaOk(params, p) then multiset(table)[p] else 0
    ensures !queryFails && Param(params, "search") == "" && Param(params, "categoria") == "" ==>
      multiset(productos) == multiset(table)
  {
    if queryFails {
      return [];
    }
    var query := SortBy(table, Nombre, false);
    var search := Param(params, "search");
    if search != "" {
      query := Narrow(query, (p: Producto) => ContainsIgnoringCase(p.nombre, search), Nombre, false);
    }
    assert forall p: Producto :: multiset(query)[p] == if SearchOk(params, p) then multiset(table)[p] else 0;
    var categoria := Param(params, "categoria");
    if categoria != "" {
      query := Narrow(query, (p: Producto) => p.categoria == categoria, Nombre, false);
    }
    productos := query;
    if search == "" && categoria == "" {
      assert forall p: Producto :: multiset(productos)[p] == multiset(table)[p];
    }
  }

  /** A product listed once in the table is shown exactly when it passes both filters. */
  lemma ShownIffMatches(table: seq<Producto>, params: Params, productos: seq<Producto>, p: Producto)
    requires forall q :: multiset(productos)[q] == if SearchOk(params, q) && CategoriaOk(params, q) then multiset(table)[q] else 0
    requires p in table
    ensures p in productos <==> SearchOk(params, p) && CategoriaOk(params, p)
  {
    assert multiset(table)[p] > 0;
  }

  /** The key the categories query orders by. */
  function Categoria(p: Producto): string
  {
    p.categoria
  }

  /** The categories query: every row's category, ordered by category; a failed query has no data. */
  function CategoriasQuery(table: seq<Producto>, queryFails: bool): (data: Option<seq<Producto>>)
    ensures queryFails <==> data.None?
    ensures data.Some? ==> SortedBy(data.value, Categoria, false) && multiset(data.value) == multiset(table)
  {
    if queryFails then None else Some(SortBy(table, Categoria, false))
  }

  /** `.map((p) => p.categoria)`. */
  function Categorias(rows: seq<Producto>): (names: seq<string>)
    ensures |names| == |rows|
    ensures forall i :: 0 <= i < |rows| ==> names[i] == rows[i].categoria
  {
    seq(|rows|, i requires 0 <= i < |rows| => rows[i].categoria)
  }

  /** `filter(Boolean)` on strings: the non-empty ones. */
  predicate Truthy(s: string)
  {
    s != ""
  }

  /** A string as its own sort key. */
  function Texto(s: string): string
  {
    s
  }

  /**
   * `Array.from(new Set(data?.map(…).filter(Boolean) || []))`: the non-empty
   * categories, each once, in the order of their first occurrence.
   */
  function DistinctCategorias(data: Option<seq<Producto>>): (r: seq<string>)
    ensures data.None? ==> r == []
    ensures NoDuplicates(r)
    ensures forall c :: c in r <==> c != "" && data.Some? && exists i :: 0 <= i < |data.value| && data.value[i].categoria == c
    ensures data.Some? ==> forall i, j :: 0 <= i < j < |r| ==>
      IndexOf(Filter(Categorias(data.value), Truthy), r[i]) < IndexOf(Filter(Categorias(data.value), Truthy), r[j])
  {
    if data.None? then []
    else
      var names := Categorias(data.value);
      var present := Filter(names, Truthy);
      assert forall c :: c in present <==> c in names && Truthy(c) by {
        forall c ensures c in present <==> c in names && Truthy(c) {
          FilterMembership(names, Truthy, c);
        }
      }
      assert forall c :: c in names <==> exists i :: 0 <= i < |data.value| && data.value[i].categoria == c by {
        forall c | c in names ensures exists i :: 0 <= i < |data.value| && data.value[i].categoria == c {
          var i :| 0 <= i < |names| && names[i] == c;
          assert data.value[i].categoria == c;
        }
      }
      Distinct(present)
  }

  /**
   * Over rows that arrive ordered by category, the offered categories are
   * in strictly ascending order.
   */
  lemma CategoriasAscending(rows: seq<Producto>)
    requires SortedBy(rows, Categoria, false)
    ensures var r := DistinctCategorias(Some(rows));
            forall i, j :: 0 <= i < j < |r| ==> LexLe(r[i], r[j]) && r[i] != r[j]
  {
    var names := Categorias(rows);
    assert SortedBy(names, Texto, false);
    var present := Filter(names, Truthy);
    FilterSorted(names, Truthy, Texto, false);
    var r := DistinctCategorias(Some(rows));
    forall i, j | 0 <= i < j < |r| ensures LexLe(r[i], r[j]) && r[i] != r[j] {
      var a, b := IndexOf(present, r[i]), IndexOf(present, r[j]);
      assert r[i] in r;
      var k :| 0 <= k < |rows| && rows[k].categoria == r[i];
      assert names[k] == r[i];
      FilterMembership(names, Truthy, r[i]);
      assert 0 <= a < b < |present|;
      assert InOrder(Texto(present[a]), Texto(present[b]), false);
    }
  }
}
