/**
 * The four record shapes of the inventory's tables: products, stock
 * movements, user profiles, and the externally managed user identity.
 * The optional `created_at` / `updated_at` audit columns are not modelled.
 */
module Database {
  import opened Js

  /** A movement's `tipo`: exactly one of 'entrada' (stock in) and 'salida' (stock out). */
  datatype Tipo = Entrada | Salida

  /** A profile's `rol`: exactly one of 'admin', 'empleado' and 'auditor'. */
  datatype Rol = Admin | Empleado | Auditor

  /** A product row; only `imagenUrl` may be null. Quantities and prices are integers. */
  datatype Producto = Producto(
    id: string,
    nombre: string,
    categoria: string,
    stock: int,
    stockMinimo: int,
    precioEntrada: int,
    precioSalida: int,
    proveedor: string,
    fechaRegistro: string,
    imagenUrl: Option<string>)

  /** A movement row: it refers to a product by `productoId` and to a user by `responsable`. */
  datatype Movimiento = Movimiento(
    id: string,
    productoId: string,
    tipo: Tipo,
    cantidad: int,
    motivo: string,
    responsable: string,
    fecha: string)

  /** A profile row, attached to the user whose id is `userId`. */
  datatype Perfil = Perfil(id: string, userId: string, nombre: string, rol: Rol)

  /** The identity the auth service returns. */
  datatype User = User(id: string, email: string)

  /** The text stored in the `tipo` column. */
  function TipoName(t: Tipo): string
  {
    match t
    case Entrada => "entrada"
    case Salida => "salida"
  }

  /** Reads the `tipo` column back; any other text is not a movement type. */
  function ParseTipo(s: string): (t: Option<Tipo>)
    ensures t.Some? <==> s == "entrada" || s == "salida"
  {
    if s == "entrada" then Some(Entrada)
    else if s == "salida" then Some(Salida)
    else None
  }

  /** Each movement type has its own column text, and that text reads back as the type. */
  lemma TipoRoundTrip(t: Tipo, u: Tipo)
    ensures ParseTipo(TipoName(t)) == Some(t)
    ensures TipoName(t) == TipoName(u) ==> t == u
  {
  }

  /** The text stored in the `rol` column. */
  function RolName(r: Rol): string
  {
    match r
    case Admin => "admin"
    case Empleado => "empleado"
    case Auditor => "auditor"
  }

  /** Reads the `rol` column back; any other text is not a role. */
  function ParseRol(s: string): (r: Option<Rol>)
    ensures r.Some? <==> s == "admin" || s == "empleado" || s == "auditor"
  {
    if s == "admin" then Some(Admin)
    else if s == "empleado" then Some(Empleado)
    else if s == "auditor" then Some(Auditor)
    else None
  }

  /** Each role has its own column text, and that text reads back as the role. */
  lemma RolRoundTrip(r: Rol, q: Rol)
    ensures ParseRol(RolName(r)) == Some(r)
    ensures RolName(r) == RolName(q) ==> r == q
  {
  }

  /** The columns of a product that the product form edits. */
  datatype ProductoDatos = ProductoDatos(
    nombre: string,
    categoria: string,
    stock: int,
    stockMinimo: int,
    precioEntrada: int,
    precioSalida: int,
    proveedor: string)

  /** The row `p` after `update({...datos, imagen_url})`: its id and registration date are kept. */
  function Updated(p: Producto, d: ProductoDatos, imagenUrl: Option<string>): (q: Producto)
    ensures q.id == p.id && q.fechaRegistro == p.fechaRegistro
    ensures q.nombre == d.nombre && q.categoria == d.categoria && q.stock == d.stock
    ensures q.stockMinimo == d.stockMinimo && q.precioEntrada == d.precioEntrada
    ensures q.precioSalida == d.precioSalida && q.proveedor == d.proveedor
    ensures q.imagenUrl == imagenUrl
  {
    Producto(p.id, d.nombre, d.categoria, d.stock, d.stockMinimo, d.precioEntrada,
             d.precioSalida, d.proveedor, p.fechaRegistro, imagenUrl)
  }

  /**
   * A product is low on stock when it holds strictly fewer units than its
   * minimum: at exactly the minimum it is not, one unit below it is.
   */
  predicate IsLowStock(p: Producto): (low: bool)
    ensures p.stock == p.stockMinimo ==> !low
    ensures p.stock + 1 == p.stockMinimo ==> low
  {
    p.stock < p.stockMinimo
  }
}
