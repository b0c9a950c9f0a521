/**
 * The dashboard's figures, computed from what its three queries return: the
 * exact product count, a sample of at most 1000 product rows for the
 * aggregates, and the five most recent movements with their joined product.
 */
module Dashboard {
  import opened Js
  import opened Lists
  import opened Database

  /** The aggregates read at most this many product rows. */
  const SampleSize := 1000

  /** The recent-movements list shows at most this many rows. */
  const RecentSize := 5

  /** Shown when a movement's product name is known neither from the map nor from its join. */
  const ProductoNoEncontrado := "Producto no encontrado"

  /** `productsCountResult.count || 0`: the exact count, or 0 when it is missing. */
  function TotalProducts(count: Option<nat>): (n: nat)
    ensures count.Some? ==> n == count.value
    ensures count.None? ==> n == 0
  {
    if count.Some? then count.value else 0
  }

  /** `.limit(1000)`: the rows the aggregates are computed over. */
  function Sample(table: seq<Producto>): (rows: seq<Producto>)
    ensures |rows| <= SampleSize && rows <= table
    ensures |table| <= SampleSize ==> rows == table
  {
    Limit(table, SampleSize)
  }

  // ---------------------------------------------------------------------
  // Low stock

  /** `productos.filter(p => p.stock < p.stock_minimo).length`. */
  function LowStockCount(productos: seq<Producto>): (n: nat)
    ensures n <= |productos|
  {
    |Filter(productos, IsLowStock)|
  }

  /** The count adds up over consecutive runs of rows. */
  lemma {:induction false} LowStockAdditive(a: seq<Producto>, b: seq<Producto>)
    ensures LowStockCount(a + b) == LowStockCount(a) + LowStockCount(b)
  {
    if a == [] {
      assert a + b == b;
    } else {
      assert (a + b)[1..] == a[1..] + b;
      LowStockAdditive(a[1..], b);
    }
  }

  /** One row counts exactly when its stock is strictly below its minimum; equality does not count. */
  lemma LowStockSingle(p: Producto)
    ensures LowStockCount([p]) == if p.stock < p.stockMinimo then 1 else 0
  {
    assert [p][1..] == [];
  }

  /** No row is low on stock exactly when the count is 0. */
  lemma {:induction false} LowStockNone(productos: seq<Producto>)
    ensures LowStockCount(productos) == 0 <==> forall i :: 0 <= i < |productos| ==> !IsLowStock(productos[i])
  {
    if productos != [] {
      LowStockNone(productos[1..]);
      assert forall i :: 1 <= i < |productos| ==> productos[i] == productos[1..][i - 1];
    }
  }

  /** Every row is low on stock exactly when the count is the number of rows. */
  lemma {:induction false} LowStockAll(productos: seq<Producto>)
    ensures LowStockCount(productos) == |productos| <==> forall i :: 0 <= i < |productos| ==> IsLowStock(productos[i])
  {
    if productos != [] {
      LowStockAll(productos[1..]);
      assert forall i :: 1 <= i < |productos| ==> productos[i] == productos[1..][i - 1];
    }
  }

  // ---------------------------------------------------------------------
  // Inventory value

  /** What one row adds to the inventory value. */
  function RowValue(p: Producto): int
  {
    p.stock * p.precioEntrada
  }

  /** `reduce((acc, product) => acc + product.stock * product.precio_entrada, acc)`, left to right. */
  function Reduce(productos: seq<Producto>, acc: int): int
    decreases |productos|
  {
    if productos == [] then acc else Reduce(productos[1..], acc + RowValue(productos[0]))
  }

  /** The inventory value: the fold started at 0. */
  function InventoryValue(productos: seq<Producto>): (v: int)
    ensures productos == [] ==> v == 0
  {
    Reduce(productos, 0)
  }

  /** The sum of the rows' values, taken from the last row backwards. */
  function ValueSum(productos: seq<Producto>): int
  {
    if productos == [] then 0
    else ValueSum(productos[..|productos| - 1]) + RowValue(productos[|productos| - 1])
  }

  /** The sum of a run of rows followed by one more row. */
  lemma ValueSumSnoc(s: seq<Producto>, p: Producto)
    ensures ValueSum(s + [p]) == ValueSum(s) + RowValue(p)
  {
    assert (s + [p])[..|s + [p]| - 1] == s;
  }

  /** The sum of two runs of rows is the sum of their sums. */
  lemma {:induction false} ValueSumAppend(a: seq<Producto>, b: seq<Producto>)
    ensures ValueSum(a + b) == ValueSum(a) + ValueSum(b)
  {
    if b == [] {
      assert a + b == a;
    } else {
      var c := b[..|b| - 1];
      var q := b[|b| - 1];
      assert b == c + [q];
      assert a + b == (a + c) + [q];
      ValueSumAppend(a, c);
      ValueSumSnoc(a + c, q);
      ValueSumSnoc(c, q);
    }
  }

  /** The fold from `acc` adds the rows' sum to `acc`. */
  lemma {:induction false} ReduceIsSum(productos: seq<Producto>, acc: int)
    ensures Reduce(productos, acc) == acc + ValueSum(productos)
  {
    if productos != [] {
      ReduceIsSum(productos[1..], acc + RowValue(productos[0]));
      assert productos == [productos[0]] + productos[1..];
      ValueSumAppend([productos[0]], productos[1..]);
      assert [productos[0]][..0] == [];
    }
  }

  /** The inventory value is the sum of stock times entry price over the rows. */
  lemma InventoryValueIsSum(productos: seq<Producto>)
    ensures InventoryValue(productos) == ValueSum(productos)
  {
    ReduceIsSum(productos, 0);
  }

  /** The inventory value of two runs of rows is the sum of their values. */
  lemma InventoryValueAdditive(a: seq<Producto>, b: seq<Producto>)
    ensures InventoryValue(a + b) == InventoryValue(a) + InventoryValue(b)
  {
    InventoryValueIsSum(a + b);
    InventoryValueIsSum(a);
    InventoryValueIsSum(b);
    ValueSumAppend(a, b);
  }

  /** With no negative stock or price, the value is not negative either. */
  lemma {:induction false} InventoryValueNonNegative(productos: seq<Producto>)
    requires forall i :: 0 <= i < |productos| ==> productos[i].stock >= 0 && productos[i].precioEntrada >= 0
    ensures InventoryValue(productos) >= 0
  {
    InventoryValueIsSum(productos);
    NonNegativeSum(productos);
  }

  lemma {:induction false} NonNegativeSum(productos: seq<Producto>)
    requires forall i :: 0 <= i < |productos| ==> productos[i].stock >= 0 && productos[i].precioEntrada >= 0
    ensures ValueSum(productos) >= 0
  {
    if productos != [] {
      var last := productos[|productos| - 1];
      NonNegativeSum(productos[..|productos| - 1]);
      assert RowValue(last) >= 0;
    }
  }

  // ---------------------------------------------------------------------
  // Recent movements and the product-name map

  /** The product joined to a movement row: its id and name. */
  datatype ProductoRef = ProductoRef(id: string, nombre: string)

  /** A movement row as `select('*, productos(id, nombre)')` returns it; the join may be null. */
  datatype MovimientoFila = MovimientoFila(mov: Movimiento, producto: Option<ProductoRef>)

  /** The key the recent movements are ordered by. */
  function FechaFila(f: MovimientoFila): string
  {
    f.mov.fecha
  }

  /** `.order('fecha', { ascending: false }).limit(5)` over the movement rows. */
  function Recent(rows: seq<MovimientoFila>): (r: seq<MovimientoFila>)
    ensures |r| == if |rows| < RecentSize then |rows| else RecentSize
    ensures SortedBy(r, FechaFila, true)
    ensures multiset(r) <= multiset(rows)
    ensures var sorted := SortBy(rows, FechaFila, true);
      forall i, k :: 0 <= i < |r| <= k < |sorted| ==> LexLe(sorted[k].mov.fecha, r[i].mov.fecha)
  {
    var sorted := SortBy(rows, FechaFila, true);
    var r := Limit(sorted, RecentSize);
    SortedPrefix(r, sorted, FechaFila, true);
    r
  }

  /** Whether row `i` contributes the entry `producto_id -> nombre` to the map. */
  predicate Contributes(rows: seq<MovimientoFila>, i: int, key: string)
  {
    0 <= i < |rows| && rows[i].producto.Some? && rows[i].mov.productoId == key
  }

  /**
   * `new Map(entries)`, with one entry `producto_id -> nombre` per row whose
   * join is not null, inserted in row order so that a later entry for the
   * same key replaces an earlier one.
   */
  function ProductMap(rows: seq<MovimientoFila>): map<string, string>
  {
    if rows == [] then map[]
    else
      var last := rows[|rows| - 1];
      var m := ProductMap(rows[..|rows| - 1]);
      if last.producto.Some? then m[last.mov.productoId := last.producto.value.nombre] else m
  }

  /** The map's keys are exactly the product ids of the rows whose join is not null. */
  lemma {:induction false} ProductMapKeys(rows: seq<MovimientoFila>, k: string)
    ensures k in ProductMap(rows) <==> exists i :: Contributes(rows, i, k)
  {
    if rows != [] {
      var init := rows[..|rows| - 1];
      ProductMapKeys(init, k);
      if k in ProductMap(init) {
        var i :| Contributes(init, i, k);
        assert Contributes(rows, i, k);
      }
      var last := rows[|rows| - 1];
      if exists i :: Contributes(rows, i, k) {
        var i :| Contributes(rows, i, k);
        if i < |init| {
          assert Contributes(init, i, k);
        } else {
          assert last.producto.Some? && last.mov.productoId == k;
        }
      }
      if k in ProductMap(rows) && k !in ProductMap(init) {
        assert last.producto.Some? && last.mov.productoId == k;
        assert Contributes(rows, |rows| - 1, k);
      }
    }
  }

  /** A key maps to the name joined to the last row that carries it: later entries win. */
  lemma {:induction false} ProductMapLastWins(rows: seq<MovimientoFila>, i: int)
    requires 0 <= i < |rows| && rows[i].producto.Some?
    requires forall j :: i < j < |rows| ==> !Contributes(rows, j, rows[i].mov.productoId)
    ensures var k := rows[i].mov.productoId;
      k in ProductMap(rows) && ProductMap(rows)[k] == rows[i].producto.value.nombre
  {
    var k := rows[i].mov.productoId;
    var init := rows[..|rows| - 1];
    if i < |rows| - 1 {
      forall j | i < j < |init|
        ensures !Contributes(init, j, k)
      {
        assert init[j] == rows[j];
        assert !Contributes(rows, j, k);
      }
      ProductMapLastWins(init, i);
      assert !Contributes(rows, |rows| - 1, k);
    }
  }

  /** `productMap.get(id) || joined?.nombre || 'Producto no encontrado'`. */
  function DisplayName(productMap: map<string, string>, row: MovimientoFila): (name: string)
    ensures var id := row.mov.productoId;
      name == ProductoNoEncontrado ||
      (id in productMap && name == productMap[id]) ||
      (row.producto.Some? && name == row.producto.value.nombre)
    ensures name != ""
    ensures var id := row.mov.productoId;
      id in productMap && productMap[id] != "" ==> name == productMap[id]
    ensures var id := row.mov.productoId;
      (id !in productMap || productMap[id] == "") && row.producto.Some? && row.producto.value.nombre != "" ==>
        name == row.producto.value.nombre
    ensures var id := row.mov.productoId;
      (id !in productMap || productMap[id] == "") && (row.producto.None? || row.producto.value.nombre == "") ==>
        name == ProductoNoEncontrado
  {
    var fromMap := if row.mov.productoId in productMap then Some(productMap[row.mov.productoId]) else None;
    var joined := if row.producto.Some? then Some(row.producto.value.nombre) else None;
    OrElse(fromMap, OrElse(joined, ProductoNoEncontrado))
  }

  /**
   * A listed row whose product is joined shows the name of the last listed
   * row with the same product, when that name is not empty.
   */
  lemma DisplayNameOfJoinedRow(rows: seq<MovimientoFila>, i: int)
    requires 0 <= i < |rows| && rows[i].producto.Some?
    ensures var id := rows[i].mov.productoId;
      var m := ProductMap(rows);
      id in m && (m[id] != "" ==> DisplayName(m, rows[i]) == m[id])
  {
    ProductMapKeys(rows, rows[i].mov.productoId);
  }

  /** A row without a joined product, and absent from the map, shows the fallback. */
  lemma DisplayNameWithoutJoin(productMap: map<string, string>, row: MovimientoFila)
    requires row.mov.productoId !in productMap && row.producto.None?
    ensures DisplayName(productMap, row) == ProductoNoEncontrado
  {
  }

  /** `movement.tipo === 'entrada' ? '+' : '-'`. */
  function Sign(t: Tipo): (c: char)
    ensures c == '+' <==> t == Entrada
  {
    if t == Entrada then '+' else '-'
  }

  /** Everything the dashboard shows, computed from the three query results. */
  datatype Resumen = Resumen(
    totalProducts: nat,
    lowStockProducts: nat,
    inventoryValue: int,
    lastMovements: seq<MovimientoFila>,
    productMap: map<string, string>)

  /**
   * The page's figures. A failed rows query yields null data, which
   * `data || []` turns into no rows: the aggregates are then 0 and no
   * movement is listed.
   */
  function Summary(count: Option<nat>, productTable: seq<Producto>, productsFail: bool,
                   movementTable: seq<MovimientoFila>, movementsFail: bool): (s: Resumen)
    ensures s.totalProducts == TotalProducts(count)
    ensures s.lowStockProducts <= SampleSize
    ensures s.lowStockProducts == if productsFail then 0 else LowStockCount(Sample(productTable))
    ensures s.inventoryValue == if productsFail then 0 else ValueSum(Sample(productTable))
    ensures |s.lastMovements| <= RecentSize
    ensures s.lastMovements == if movementsFail then [] else Recent(movementTable)
    ensures s.productMap == ProductMap(s.lastMovements)
  {
    var productos := if productsFail then [] else Sample(productTable);
    InventoryValueIsSum(productos);
    var recent := if movementsFail then [] else Recent(movementTable);
    Resumen(TotalProducts(count), LowStockCount(productos), InventoryValue(productos), recent, ProductMap(recent))
  }
}
