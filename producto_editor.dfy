/**
 * The product form, used both to create a product and to edit one: its
 * fields, the chosen image file, and the submit handler that writes the
 * row and manages the product's image in the storage bucket.
 */
module ProductoEditor {
  import opened Js
  import opened Database
  import opened Backend
  import opened Storage

  /** The names of the form's inputs. */
  datatype Campo =
    | NombreCampo | CategoriaCampo | StockCampo | StockMinimoCampo
    | PrecioEntradaCampo | PrecioSalidaCampo | ProveedorCampo

  /** The inputs whose text is parsed as a number. */
  predicate Numerico(c: Campo)
  {
    c.StockCampo? || c.StockMinimoCampo? || c.PrecioEntradaCampo? || c.PrecioSalidaCampo?
  }

  /** The form's first data: the edited product's fields, or empty text and zeros for a new one. */
  function InitialDatos(producto: Option<Producto>): (d: ProductoDatos)
    ensures producto.None? ==> d == ProductoDatos("", "", 0, 0, 0, 0, "")
    ensures producto.Some? ==>
              var p := producto.value;
              && d.nombre == p.nombre && d.categoria == p.categoria && d.stock == p.stock
              && d.stockMinimo == p.stockMinimo && d.precioEntrada == p.precioEntrada
              && d.precioSalida == p.precioSalida && d.proveedor == p.proveedor
  {
    if producto.None? then ProductoDatos("", "", 0, 0, 0, 0, "")
    else
      var p := producto.value;
      ProductoDatos(p.nombre, p.categoria, p.stock, p.stockMinimo, p.precioEntrada, p.precioSalida, p.proveedor)
  }

  /** Where the form goes after a successful save. */
  const ProductosPage := "/productos"

  /** Shown when a failure carries no message. */
  const ErrorAlGuardar := "Error al guardar producto"

  /** The message of the failure raised when nobody is signed in. */
  const NoAutenticado := "Usuario no autenticado"

  /** The backend's answers to the calls one submission may issue, in the order they are issued. */
  datatype Answers = Answers(remove: Outcome, upload: Outcome, write: Outcome, imageUpdate: Outcome)

  /** `error.message || 'Error al guardar producto'`. */
  function FailureText(message: string): (shown: string)
    ensures shown != ""
    ensures message != "" ==> shown == message
  {
    OrElse(Some(message), ErrorAlGuardar)
  }

  /**
   * The object an edit with a newly chosen file removes first: the path
   * recovered from the old URL, when that URL is set and has a bucket segment.
   */
  function OldImagePath(p: Producto): (path: Option<string>)
    ensures path.Some? <==> p.imagenUrl.Some? && p.imagenUrl.value != "" && ExtractPath(p.imagenUrl.value).Some?
    ensures path.Some? ==> path == ExtractPath(p.imagenUrl.value)
  {
    if OrNull(p.imagenUrl).None? then None else ExtractPath(p.imagenUrl.value)
  }

  /** The public URL an upload of `file` for product `id` at time `now` gets. */
  function UploadedUrl(base: string, id: string, now: nat, file: File): string
  {
    PublicUrl(base, UploadPath(id, now, file.name))
  }

  /**
   * The `imagen_url` an edit writes: the new upload's URL when a file was
   * chosen and its upload succeeded, otherwise the old URL (null when empty).
   */
  function EditedImagenUrl(p: Producto, file: Option<File>, base: string, now: nat, upload: Outcome): (url: Option<string>)
    ensures file.Some? && upload.Ok? ==> url == Some(UploadedUrl(base, p.id, now, file.value))
    ensures file.None? || upload.Failed? ==> url == OrNull(p.imagenUrl)
  {
    if file.Some? && upload.Ok? then Some(UploadedUrl(base, p.id, now, file.value)) else OrNull(p.imagenUrl)
  }

  /** The storage calls an edit issues: the old image's removal, if any, before the upload; none without a new file. */
  function EditCalls(p: Producto, file: Option<File>, now: nat): (calls: seq<StorageCall>)
    ensures file.None? ==> calls == []
    ensures file.Some? ==> (|calls| == 2 <==> OldImagePath(p).Some?) && 1 <= |calls| <= 2
    ensures file.Some? ==> calls[|calls| - 1] == Upload(UploadPath(p.id, now, file.value.name))
    ensures |calls| == 2 ==> OldImagePath(p).Some? && calls[0] == Remove(OldImagePath(p).value)
  {
    if file.None? then []
    else
      (if OldImagePath(p).Some? then [Remove(OldImagePath(p).value)] else []) + [Upload(UploadPath(p.id, now, file.value.name))]
  }

  /** The bucket after an edit's storage calls, each taking effect when the backend accepts it. */
  function EditObjects(objetos: set<string>, p: Producto, file: Option<File>, now: nat, answers: Answers): set<string>
  {
    if file.None? then objetos
    else
      var removed := if OldImagePath(p).Some? && answers.remove.Ok? then objetos - {OldImagePath(p).value} else objetos;
      if answers.upload.Ok? then removed + {UploadPath(p.id, now, file.value.name)} else removed
  }

  /** The row a creation inserts: the form's fields, no image, the creation time, and the id the backend assigns. */
  function NuevoProducto(id: string, d: ProductoDatos, fechaRegistro: string): (p: Producto)
    ensures p.id == id && p.imagenUrl.None? && p.fechaRegistro == fechaRegistro
    ensures Updated(p, d, None) == p
  {
    Producto(id, d.nombre, d.categoria, d.stock, d.stockMinimo, d.precioEntrada, d.precioSalida, d.proveedor,
             fechaRegistro, None)
  }

  /**
   * The created row as it ends up: with the uploaded image's URL only when
   * a file was chosen, the upload succeeded and the follow-up update was
   * accepted; without an image otherwise.
   */
  function CreatedRow(id: string, d: ProductoDatos, fechaRegistro: string, file: Option<File>, base: string, now: nat, answers: Answers): (row: Producto)
    ensures row.(imagenUrl := None) == NuevoProducto(id, d, fechaRegistro)
    ensures row.imagenUrl.Some? <==> file.Some? && answers.upload.Ok? && answers.imageUpdate.Ok?
    ensures row.imagenUrl.Some? ==> row.imagenUrl == Some(UploadedUrl(base, id, now, file.value))
  {
    var p := NuevoProducto(id, d, fechaRegistro);
    if file.Some? && answers.upload.Ok? && answers.imageUpdate.Ok? then p.(imagenUrl := Some(UploadedUrl(base, id, now, file.value)))
    else p
  }

  /**
   * An image an edit uploaded is the one a later edit with a new file
   * removes: the URL written into the row leads back to the uploaded object.
   */
  lemma EditedImageRemovedNextTime(p: Producto, d: ProductoDatos, file: File, base: string, now: nat)
    requires Bucket !in Split(base, '/')
    ensures var row := Updated(p, d, EditedImagenUrl(p, Some(file), base, now, Ok));
            OldImagePath(row) == Some(UploadPath(p.id, now, file.name))
  {
    var path := UploadPath(p.id, now, file.name);
    UploadDeleteRoundTrip(base, p.id, now, file.name);
    var url := UploadedUrl(base, p.id, now, file);
    assert |url| > |path|;
    assert EditedImagenUrl(p, Some(file), base, now, Ok) == Some(url);
  }

  /** Likewise for the image a creation attached to the new row. */
  lemma CreatedImageRemovedNextTime(id: string, d: ProductoDatos, fechaRegistro: string, file: File, base: string, now: nat, answers: Answers)
    requires Bucket !in Split(base, '/')
    requires answers.upload.Ok? && answers.imageUpdate.Ok?
    ensures OldImagePath(CreatedRow(id, d, fechaRegistro, Some(file), base, now, answers)) == Some(UploadPath(id, now, file.name))
  {
    var path := UploadPath(id, now, file.name);
    UploadDeleteRoundTrip(base, id, now, file.name);
    var url := UploadedUrl(base, id, now, file);
    assert |url| > |path|;
  }

  /**
   * The image part of an edit: with a new file, remove the old image when
   * the old URL is set, then upload the new one; the URL to write is the
   * upload's when it succeeded and the old one otherwise.
   */
  method ReplaceImage(db: Store, p: Producto, file: Option<File>, now: nat, answers: Answers) returns (imagenUrl: Option<string>)
    modifies db`objetos, db`storageCalls
    ensures imagenUrl == EditedImagenUrl(p, file, db.publicBase, now, answers.upload)
    ensures db.storageCalls == old(db.storageCalls) + EditCalls(p, file, now)
    ensures db.objetos == EditObjects(old(db.objetos), p, file, now, answers)
  {
    imagenUrl := OrNull(p.imagenUrl);
    if file.Some? {
      if OrNull(p.imagenUrl).Some? {
        var _ := DeleteProductImage(db, p.imagenUrl.value, answers.remove);
      }
      var uploaded := UploadProductImage(db, file.value, p.id, now, answers.upload);
      if uploaded.Some? {
        imagenUrl := uploaded;
      }
    }
  }

  /**
   * The image part of a creation: upload a chosen file and, when that
   * succeeds, write its URL into the new row; a failure of that write is
   * ignored.
   */
  method AttachImage(db: Store, id: string, file: Option<File>, now: nat, answers: Answers)
    requires db.Valid()
    modifies db`productos, db`objetos, db`storageCalls
    ensures db.Valid()
    ensures db.storageCalls == old(db.storageCalls) + (if file.Some? then [Upload(UploadPath(id, now, file.value.name))] else [])
    ensures db.objetos == if file.Some? && answers.upload.Ok? then old(db.objetos) + {UploadPath(id, now, file.value.name)} else old(db.objetos)
    ensures db.productos ==
              if file.Some? && answers.upload.Ok? && answers.imageUpdate.Ok? && id in old(db.productos)
              then old(db.productos)[id := old(db.productos)[id].(imagenUrl := Some(UploadedUrl(db.publicBase, id, now, file.value)))]
              else old(db.productos)
  {
    if file.Some? {
      var uploaded := UploadProductImage(db, file.value, id, now, answers.upload);
      if uploaded.Some? {
        var _ := db.SetImagenUrl(id, uploaded, answers.imageUpdate);
      }
    }
  }

  class ProductoForm {
    /** The product being edited, or none when the form creates one. */
    const producto: Option<Producto>
    var datos: ProductoDatos
    var imageFile: Option<File>
    var imagePreview: Option<string>
    var error: string
    var loading: bool

    constructor (producto: Option<Producto>)
      ensures this.producto == producto && datos == InitialDatos(producto)
      ensures imageFile.None? && imagePreview == (if producto.None? then None else OrNull(producto.value.imagenUrl))
      ensures error == "" && !loading
    {
      this.producto := producto;
      datos := InitialDatos(producto);
      imageFile := None;
      imagePreview := if producto.None? then None else OrNull(producto.value.imagenUrl);
      error := "";
      loading := false;
    }

    /** `handleInputChange`: only the named field changes; the four numeric ones are parsed, unparseable text giving 0. */
    method HandleInputChange(campo: Campo, value: string)
      modifies this`datos
      ensures campo == NombreCampo ==> datos == old(datos).(nombre := value)
      ensures campo == CategoriaCampo ==> datos == old(datos).(categoria := value)
      ensures campo == StockCampo ==> datos == old(datos).(stock := ParseNumber(value))
      ensures campo == StockMinimoCampo ==> datos == old(datos).(stockMinimo := ParseNumber(value))
      ensures campo == PrecioEntradaCampo ==> datos == old(datos).(precioEntrada := ParseNumber(value))
      ensures campo == PrecioSalidaCampo ==> datos == old(datos).(precioSalida := ParseNumber(value))
      ensures campo == ProveedorCampo ==> datos == old(datos).(proveedor := value)
    {
      var number := if Numerico(campo) then ParseNumber(value) else 0;
      match campo
      case NombreCampo => datos := datos.(nombre := value);
      case CategoriaCampo => datos := datos.(categoria := value);
      case StockCampo => datos := datos.(stock := number);
      case StockMinimoCampo => datos := datos.(stockMinimo := number);
      case PrecioEntradaCampo => datos := datos.(precioEntrada := number);
      case PrecioSalidaCampo => datos := datos.(precioSalida := number);
      case ProveedorCampo => datos := datos.(proveedor := value);
    }

    /** `handleImageChange`: a chosen file replaces the previous one and is previewed as `dataUrl`; no file changes nothing. */
    method HandleImageChange(file: Option<File>, dataUrl: string)
      modifies this`imageFile, this`imagePreview
      ensures file.Some? ==> imageFile == file && imagePreview == Some(dataUrl)
      ensures file.None? ==> imageFile == old(imageFile) && imagePreview == old(imagePreview)
    {
      if file.Some? {
        imageFile := file;
        imagePreview := Some(dataUrl);
      }
    }

    /** `handleRemoveImage`: forgets the chosen file and the preview; the stored URL is not touched. */
    method HandleRemoveImage()
      modifies this`imageFile, this`imagePreview
      ensures imageFile.None? && imagePreview.None?
    {
      imageFile := None;
      imagePreview := None;
    }

    /**
     * `handleSubmit`. Editing: with a new file, the old image is removed
     * (when there is one) and the new one uploaded; then the row is
     * rewritten with the form's fields and the chosen `imagen_url`.
     * Creating: refused when nobody is signed in; otherwise the row is
     * inserted without an image, and a chosen file is uploaded and its URL
     * written in a second update whose failure is ignored. Success goes
     * back to the product list; any failure shows its message.
     */
    method HandleSubmit(db: Store, user: Option<User>, newId: string, fechaRegistro: string, now: nat, answers: Answers)
      returns (nav: Option<string>)
      requires db.Valid()
      modifies this`error, this`loading, db`productos, db`objetos, db`storageCalls
      ensures db.Valid() && !loading
      ensures nav.Some? ==> nav.value == ProductosPage && error == ""
      ensures nav.None? ==> error != ""
      ensures producto.Some? ==>
                var p := producto.value;
                && nav.Some? == answers.write.Ok?
                && (answers.write.Failed? ==> error == FailureText(answers.write.message))
                && db.storageCalls == old(db.storageCalls) + EditCalls(p, imageFile, now)
                && db.objetos == EditObjects(old(db.objetos), p, imageFile, now, answers)
                && db.productos ==
                   if answers.write.Ok? && p.id in old(db.productos)
                   then old(db.productos)[p.id := Updated(old(db.productos)[p.id], datos, EditedImagenUrl(p, imageFile, db.publicBase, now, answers.upload))]
                   else old(db.productos)
      ensures producto.None? && user.None? ==>
                && nav.None? && error == NoAutenticado
                && db.productos == old(db.productos) && db.objetos == old(db.objetos) && db.storageCalls == old(db.storageCalls)
      ensures producto.None? && user.Some? ==>
                var inserted := answers.write.Ok? && newId !in old(db.productos);
                var upload := if inserted && imageFile.Some? then [Upload(UploadPath(newId, now, imageFile.value.name))] else [];
                && nav.Some? == inserted
                && (answers.write.Failed? ==> error == FailureText(answers.write.message))
                && (answers.write.Ok? && !inserted ==> error == DuplicateKey)
                && db.storageCalls == old(db.storageCalls) + upload
                && db.objetos == (if upload != [] && answers.upload.Ok? then old(db.objetos) + {upload[0].path} else old(db.objetos))
                && db.productos ==
                   if inserted
                   then old(db.productos)[newId := CreatedRow(newId, datos, fechaRegistro, imageFile, db.publicBase, now, answers)]
                   else old(db.productos)
    {
      error := "";
      loading := true;
      nav := None;
      if producto.Some? {
        nav := SubmitEdit(db, now, answers);
      } else {
        nav := SubmitCreate(db, user, newId, fechaRegistro, now, answers);
      }
      loading := false;
    }

    /** The editing branch of `handleSubmit`. */
    method SubmitEdit(db: Store, now: nat, answers: Answers) returns (nav: Option<string>)
      requires db.Valid() && producto.Some?
      modifies this`error, db`productos, db`objetos, db`storageCalls
      ensures db.Valid()
      ensures nav.Some? ==> nav.value == ProductosPage && error == old(error)
      ensures nav.None? ==> error != ""
      ensures
        var p := producto.value;
        && nav.Some? == answers.write.Ok?
        && (answers.write.Failed? ==> error == FailureText(answers.write.message))
        && db.storageCalls == old(db.storageCalls) + EditCalls(p, imageFile, now)
        && db.objetos == EditObjects(old(db.objetos), p, imageFile, now, answers)
        && db.productos ==
           if answers.write.Ok? && p.id in old(db.productos)
           then old(db.productos)[p.id := Updated(old(db.productos)[p.id], datos, EditedImagenUrl(p, imageFile, db.publicBase, now, answers.upload))]
           else old(db.productos)
    {
      nav := None;
      var p := producto.value;
      var imagenUrl := ReplaceImage(db, p, imageFile, now, answers);
      var r := db.UpdateProducto(p.id, datos, imagenUrl, answers.write);
      if r.Failed? {
        error := FailureText(r.message);
      } else {
        nav := Some(ProductosPage);
      }
    }

    /** The creating branch of `handleSubmit`. */
    method SubmitCreate(db: Store, user: Option<User>, newId: string, fechaRegistro: string, now: nat, answers: Answers)
      returns (nav: Option<string>)
      requires db.Valid()
      modifies this`error, db`productos, db`objetos, db`storageCalls
      ensures db.Valid()
      ensures nav.Some? ==> nav.value == ProductosPage && error == old(error)
      ensures nav.None? ==> error != ""
      ensures user.None? ==>
                && nav.None? && error == NoAutenticado
                && db.productos == old(db.productos) && db.objetos == old(db.objetos) && db.storageCalls == old(db.storageCalls)
      ensures user.Some? ==>
                var inserted := answers.write.Ok? && newId !in old(db.productos);
                var upload := if inserted && imageFile.Some? then [Upload(UploadPath(newId, now, imageFile.value.name))] else [];
                && nav.Some? == inserted
                && (answers.write.Failed? ==> error == FailureText(answers.write.message))
                && (answers.write.Ok? && !inserted ==> error == DuplicateKey)
                && db.storageCalls == old(db.storageCalls) + upload
                && db.objetos == (if upload != [] && answers.upload.Ok? then old(db.objetos) + {upload[0].path} else old(db.objetos))
                && db.productos ==
                   if inserted
                   then old(db.productos)[newId := CreatedRow(newId, datos, fechaRegistro, imageFile, db.publicBase, now, answers)]
                   else old(db.productos)
    {
      nav := None;
      if user.None? {
        error := NoAutenticado;
        return;
      }
      var nuevo := NuevoProducto(newId, datos, fechaRegistro);
      var r := db.InsertProducto(nuevo, answers.write);
      if r.Failed? {
        error := FailureText(r.message);
        return;
      }
      AttachImage(db, newId, imageFile, now, answers);
      nav := Some(ProductosPage);
    }
  }
}
