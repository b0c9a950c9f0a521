/**
 * The stock-exit form: it lists the products, tracks the chosen product and
 * quantity, and on submit runs a fixed chain of checks before appending one
 * `salida` movement. It never changes a product's stock.
 */
module Salidas {
  import opened Js
  import opened Lists
  import opened Database
  import opened Backend

  /** The form's fields: `producto_id`, `cantidad`, `motivo` and `fecha`. */
  datatype SalidaDatos = SalidaDatos(productoId: string, cantidad: int, motivo: string, fecha: string)

  /** The names of the form's inputs. */
  datatype Campo = ProductoIdCampo | CantidadCampo | MotivoCampo | FechaCampo

  /** Why a submission is refused, in the order the checks run. */
  datatype Rechazo =
    | NoAutenticado
    | CantidadNoPositiva
    | ProductoNoSeleccionado
    | StockInsuficiente(stock: int, cantidad: int)

  /** The message shown for each refusal; never empty, so the form always shows it. */
  function Mensaje(r: Rechazo): (m: string)
    ensures |m| > 0
  {
    match r
    case NoAutenticado => "Usuario no autenticado"
    case CantidadNoPositiva => "La cantidad debe ser mayor a 0"
    case ProductoNoSeleccionado => "Producto no seleccionado"
    case StockInsuficiente(stock, cantidad) => StockMessage(stock, cantidad)
  }

  const StockPrefix := "Stock insuficiente. Stock actual: "
  const StockMiddle := ", cantidad solicitada: "

  /** The insufficient-stock message, with both numbers written in decimal. */
  function StockMessage(stock: int, cantidad: int): string
  {
    StockPrefix + IntString(stock) + StockMiddle + IntString(cantidad)
  }

  /** Both numbers can be read back from the insufficient-stock message. */
  lemma StockMessageNumbers(stock: int, cantidad: int)
    ensures var m := StockMessage(stock, cantidad);
      && |m| > |StockPrefix| && m[..|StockPrefix|] == StockPrefix
      && ParseNumber(m[|StockPrefix|..]) == stock
      && |m| >= |IntString(cantidad)| && ParseNumber(m[|m| - |IntString(cantidad)|..]) == cantidad
  {
    FourParts(StockPrefix, IntString(stock), StockMiddle, IntString(cantidad));
    ParseIntPrefix(stock, StockMiddle + IntString(cantidad));
    ParseIntString(cantidad);
  }

  /** Different refusals show different messages: the message tells which check failed, and with which numbers. */
  lemma MensajeInjective(a: Rechazo, b: Rechazo)
    ensures Mensaje(a) == Mensaje(b) ==> a == b
  {
    if Mensaje(a) == Mensaje(b) {
      if a.StockInsuficiente? {
        StockMessageNumbers(a.stock, a.cantidad);
      }
      if b.StockInsuficiente? {
        StockMessageNumbers(b.stock, b.cantidad);
      }
      if a.StockInsuficiente? && b.StockInsuficiente? {
        var m := Mensaje(a);
        assert a.stock == b.stock;
        var k := |StockPrefix + IntString(a.stock) + StockMiddle|;
        assert m[k..] == IntString(a.cantidad);
        assert m[k..] == IntString(b.cantidad);
        ParseIntString(a.cantidad);
        ParseIntString(b.cantidad);
      }
    }
  }

  /** Shown when a backend error carries no message. */
  const ErrorPorDefecto := "Error al registrar salida"

  const HistorialPage := "/historial"

  /**
   * `selectedProduct`: the first listed product whose id is the chosen one,
   * or null when no product is chosen or none has that id.
   */
  function SelectedProduct(productos: seq<Producto>, productoId: string): (r: Option<Producto>)
    ensures r.None? <==> productoId == "" || forall i :: 0 <= i < |productos| ==> productos[i].id != productoId
    ensures r.Some? ==> r.value.id == productoId && productoId != ""
    ensures r.Some? ==> exists i :: 0 <= i < |productos| && productos[i] == r.value &&
                                  forall j :: 0 <= j < i ==> productos[j].id != productoId
  {
    if productoId == "" then None else FindFirst(productos, (p: Producto) => p.id == productoId)
  }

  /**
   * The checks of `handleSubmit`, first failure wins: a signed-in user, a
   * positive quantity, a chosen product, and enough stock (`stock < cantidad`
   * is too little, so asking for the whole stock is accepted).
   */
  function Validate(user: Option<User>, cantidad: int, selected: Option<Producto>): (r: Option<Rechazo>)
    ensures r.None? <==> user.Some? && cantidad > 0 && selected.Some? && cantidad <= selected.value.stock
    ensures r == Some(NoAutenticado) <==> user.None?
    ensures r == Some(CantidadNoPositiva) <==> user.Some? && cantidad <= 0
    ensures r == Some(ProductoNoSeleccionado) <==> user.Some? && cantidad > 0 && selected.None?
    ensures r.Some? && r.value.StockInsuficiente? <==>
      user.Some? && cantidad > 0 && selected.Some? && selected.value.stock < cantidad
  {
    if user.None? then Some(NoAutenticado)
    else if cantidad <= 0 then Some(CantidadNoPositiva)
    else if selected.None? then Some(ProductoNoSeleccionado)
    else if selected.value.stock < cantidad then Some(StockInsuficiente(selected.value.stock, cantidad))
    else None
  }

  /** A quantity typed as text that does not start with a number reads as 0, which is refused. */
  lemma NonNumericQuantityRefused(u: User, value: string, selected: Option<Producto>)
    requires !StartsNumeric(value)
    ensures Validate(Some(u), ParseNumber(value), selected) == Some(CantidadNoPositiva)
  {
  }

  /** A quantity typed in exponent notation reads as its value: `1e3` asks for 1000 units. */
  lemma ExponentQuantity(u: User, p: Producto)
    requires p.stock < 1000
    ensures Validate(Some(u), ParseNumber("1e3"), Some(p)) == Some(StockInsuficiente(p.stock, 1000))
  {
    ExponentNotation(1, 3);
    assert DecimalString(1) + "e" + DecimalString(3) == "1e3";
    assert Pow10(3) == 1000;
  }

  /** Exactly the quantities from 1 up to the product's stock pass the checks. */
  lemma AcceptedQuantities(u: User, p: Producto, cantidad: int)
    ensures Validate(Some(u), cantidad, Some(p)).None? <==> 0 < cantidad <= p.stock
  {
  }

  /** The movement a valid submission records. */
  function SalidaMovement(id: string, datos: SalidaDatos, user: User): (m: Movimiento)
    ensures m.tipo == Salida && m.responsable == user.id
    ensures m.productoId == datos.productoId && m.cantidad == datos.cantidad
    ensures m.motivo == datos.motivo && m.fecha == datos.fecha
  {
    Movimiento(id, datos.productoId, Salida, datos.cantidad, datos.motivo, user.id, datos.fecha)
  }

  class SalidaForm {
    var productos: seq<Producto>
    var datos: SalidaDatos
    var error: string
    var loading: bool

    /** The empty form; `today` is the date the form starts with. */
    constructor (today: string)
      ensures productos == [] && datos == SalidaDatos("", 0, "", today)
      ensures error == "" && !loading
    {
      productos := [];
      datos := SalidaDatos("", 0, "", today);
      error := "";
      loading := false;
    }

    /** The product the form currently shows as chosen. */
    function Selected(): Option<Producto>
      reads this`productos, this`datos
    {
      SelectedProduct(productos, datos.productoId)
    }

    /** `loadProductos()`: the table's rows ordered by name; a failed query leaves the list as it was. */
    method LoadProductos(table: seq<Producto>, queryFails: bool)
      modifies this`productos
      ensures queryFails ==> productos == old(productos)
      ensures !queryFails ==> multiset(productos) == multiset(table) && SortedBy(productos, (p: Producto) => p.nombre, false)
    {
      if queryFails {
        return;
      }
      productos := SortBy(table, (p: Producto) => p.nombre, false);
    }

    /** `handleInputChange`: only the named field changes; `cantidad` is parsed, the others kept as text. */
    method HandleInputChange(campo: Campo, value: string)
      modifies this`datos
      ensures campo == ProductoIdCampo ==> datos == old(datos).(productoId := value)
      ensures campo == CantidadCampo ==> datos == old(datos).(cantidad := ParseNumber(value))
      ensures campo == MotivoCampo ==> datos == old(datos).(motivo := value)
      ensures campo == FechaCampo ==> datos == old(datos).(fecha := value)
    {
      match campo
      case ProductoIdCampo => datos := datos.(productoId := value);
      case CantidadCampo => datos := datos.(cantidad := ParseNumber(value));
      case MotivoCampo => datos := datos.(motivo := value);
      case FechaCampo => datos := datos.(fecha := value);
    }

    /**
     * `handleSubmit`: a refused submission shows its message and records
     * nothing; an accepted one inserts one `salida` movement by the user and
     * goes to the history page, or shows the backend's error. Products are
     * never touched.
     */
    method HandleSubmit(db: Store, user: Option<User>, newId: string, answer: Outcome)
      returns (nav: Option<string>)
      requires db.Valid()
      modifies this`error, this`loading, db`movimientos
      ensures db.Valid()
      ensures !loading
      ensures Validate(user, datos.cantidad, Selected()).Some? ==>
        && db.movimientos == old(db.movimientos)
        && error == Mensaje(Validate(user, datos.cantidad, Selected()).value)
        && nav.None?
      ensures Validate(user, datos.cantidad, Selected()).None? ==>
        && db.movimientos == old(db.movimientos) + (if answer.Ok? then [SalidaMovement(newId, datos, user.value)] else [])
        && error == (if answer.Ok? then "" else OrElse(Some(answer.message), ErrorPorDefecto))
        && nav == (if answer.Ok? then Some(HistorialPage) else None)
    {
      error := "";
      loading := true;
      nav := None;
      var rechazo := Validate(user, datos.cantidad, Selected());
      if rechazo.Some? {
        error := Mensaje(rechazo.value);
      } else {
        var movimiento := SalidaMovement(newId, datos, user.value);
        var r := db.InsertMovimiento(movimiento, answer);
        if r.Failed? {
          error := OrElse(Some(r.message), ErrorPorDefecto);
        } else {
          nav := Some(HistorialPage);
        }
      }
      loading := false;
      assert rechazo == Validate(user, datos.cantidad, Selected());
    }
  }

  /** The quantities typed in the scenario below read as the numbers they show. */
  lemma TypedQuantities()
    ensures ParseNumber("5") == 5 && ParseNumber("20") == 20
  {
    assert IntString(5) == "5";
    ParseIntString(5);
    assert IntString(20) == "20";
    ParseIntString(20);
  }

  /** The product of the scenario below: 10 units in stock. */
  const Tornillo := Producto("p1", "Tornillo", "Ferreteria", 10, 2, 5, 8, "Acme", "2024-01-01", None)

  /** A fresh store and a form that lists `Tornillo`, has it chosen, and asks for `cantidad` typed as text. */
  method ChooseTornillo(base: string, cantidad: string) returns (db: Store, form: SalidaForm)
    requires "productos" !in Split(base, '/')
    ensures fresh(db) && fresh(form)
    ensures db.Valid() && db.movimientos == []
    ensures form.Selected() == Some(Tornillo) && form.datos.cantidad == ParseNumber(cantidad)
  {
    db := new Store(base);
    form := new SalidaForm("2024-01-02");
    form.LoadProductos([Tornillo], false);
    assert |form.productos| == 1;
    assert form.productos[0] in multiset(form.productos);
    assert form.productos == [Tornillo];
    form.HandleInputChange(ProductoIdCampo, "p1");
    form.HandleInputChange(CantidadCampo, cantidad);
  }

  /** A first exit of 5 units of the only product, by `u`, accepted by the backend. */
  method FirstExit(base: string, u: User) returns (db: Store, form: SalidaForm)
    requires "productos" !in Split(base, '/')
    ensures fresh(db) && fresh(form)
    ensures db.Valid() && form.Selected() == Some(Tornillo)
    ensures |db.movimientos| == 1 && db.movimientos[0].tipo == Salida && db.movimientos[0].cantidad == 5
  {
    TypedQuantities();
    db, form := ChooseTornillo(base, "5");
    assert Validate(Some(u), 5, Some(Tornillo)) == None;
    var nav := form.HandleSubmit(db, Some(u), "m1", Ok);
    assert db.movimientos == [SalidaMovement("m1", form.datos, u)];
  }

  /** A further exit of 20 units of `Tornillo`, which holds 10: refused, and nothing is recorded. */
  method RefusedExit(db: Store, form: SalidaForm, u: User) returns (shown: string)
    requires db.Valid() && form.Selected() == Some(Tornillo)
    modifies db`movimientos, form`datos, form`error, form`loading
    ensures db.movimientos == old(db.movimientos)
    ensures shown == Mensaje(StockInsuficiente(10, 20))
  {
    TypedQuantities();
    form.HandleInputChange(CantidadCampo, "20");
    assert form.Selected() == Some(Tornillo);
    assert Validate(Some(u), 20, Some(Tornillo)) == Some(StockInsuficiente(10, 20));
    var nav := form.HandleSubmit(db, Some(u), "m2", Ok);
    shown := form.error;
  }

  /**
   * Product stock 10: an exit of 5 records exactly one `salida` movement of
   * 5; a following exit of 20 is refused for insufficient stock and records
   * nothing more.
   */
  method ExitScenario(base: string) returns (afterFirst: seq<Movimiento>, afterSecond: seq<Movimiento>, shown: string)
    requires "productos" !in Split(base, '/')
    ensures |afterFirst| == 1 && afterFirst[0].tipo == Salida && afterFirst[0].cantidad == 5
    ensures afterSecond == afterFirst
    ensures shown == Mensaje(StockInsuficiente(10, 20))
  {
    var u := User("u1", "u1@example.com");
    var db, form := FirstExit(base, u);
    afterFirst := db.movimientos;
    shown := RefusedExit(db, form, u);
    afterSecond := db.movimientos;
  }
}
