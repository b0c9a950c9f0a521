/**
 * The hosted backend, replaced by in-memory state: the `productos` table as
 * a map keyed by product id, the append-only `movimientos` table as a
 * sequence, the `perfiles` table as a map keyed by `user_id`, and the
 * `productos` storage bucket as a set of object paths together with the log
 * of calls issued to it. Whether a call succeeds is decided outside this
 * application, so every call takes the backend's answer as a parameter.
 */
module Backend {
  import opened Js
  import opened Database

  /** The backend's answer to one call: success, or an error carrying its message. */
  datatype Outcome = Ok | Failed(message: string)

  /** A call issued to the storage bucket. */
  datatype StorageCall = Upload(path: string) | Remove(path: string)

  /** What the table reports when an insert reuses an existing key. */
  const DuplicateKey := "duplicate key value violates unique constraint"

  class Store {
    var productos: map<string, Producto>
    var movimientos: seq<Movimiento>
    var perfiles: map<string, Perfil>
    var objetos: set<string>
    var storageCalls: seq<StorageCall>
    /** The public URL prefix of the storage service, before the bucket name. */
    const publicBase: string

    /** Rows are stored under their own key, and the URL prefix has no `productos` segment. */
    ghost predicate Valid()
      reads this`productos, this`perfiles
    {
      && (forall id :: id in productos ==> productos[id].id == id)
      && (forall u :: u in perfiles ==> perfiles[u].userId == u)
      && "productos" !in Split(publicBase, '/')
    }

    constructor (publicBase: string)
      requires "productos" !in Split(publicBase, '/')
      ensures Valid() && this.publicBase == publicBase
      ensures productos == map[] && movimientos == [] && perfiles == map[]
      ensures objetos == {} && storageCalls == []
    {
      this.publicBase := publicBase;
      productos, movimientos, perfiles := map[], [], map[];
      objetos, storageCalls := {}, [];
    }

    /** `from('movimientos').insert(m)`: appends `m` when the backend accepts it. */
    method InsertMovimiento(m: Movimiento, answer: Outcome) returns (r: Outcome)
      modifies this`movimientos
      ensures r == answer
      ensures movimientos == if answer.Ok? then old(movimientos) + [m] else old(movimientos)
    {
      r := answer;
      if answer.Ok? {
        movimientos := movimientos + [m];
      }
    }

    /** `from('productos').insert(p)`: adds the row, unless the backend fails or the id is taken. */
    method InsertProducto(p: Producto, answer: Outcome) returns (r: Outcome)
      requires Valid()
      modifies this`productos
      ensures Valid()
      ensures r.Ok? <==> answer.Ok? && p.id !in old(productos)
      ensures answer.Failed? ==> r == answer
      ensures answer.Ok? && p.id in old(productos) ==> r == Failed(DuplicateKey)
      ensures productos == if r.Ok? then old(productos)[p.id := p] else old(productos)
    {
      if answer.Failed? {
        r := answer;
      } else if p.id in productos {
        r := Failed(DuplicateKey);
      } else {
        r := Ok;
        productos := productos[p.id := p];
      }
    }

    /** `update({...datos, imagen_url}).eq('id', id)`: rewrites the row with that id, if any. */
    method UpdateProducto(id: string, datos: ProductoDatos, imagenUrl: Option<string>, answer: Outcome)
      returns (r: Outcome)
      requires Valid()
      modifies this`productos
      ensures Valid()
      ensures r == answer
      ensures productos ==
        if answer.Ok? && id in old(productos) then old(productos)[id := Updated(old(productos)[id], datos, imagenUrl)]
        else old(productos)
    {
      r := answer;
      if answer.Ok? && id in productos {
        productos := productos[id := Updated(productos[id], datos, imagenUrl)];
      }
    }

    /** `update({ imagen_url }).eq('id', id)`: changes only that row's image URL. */
    method SetImagenUrl(id: string, imagenUrl: Option<string>, answer: Outcome) returns (r: Outcome)
      requires Valid()
      modifies this`productos
      ensures Valid()
      ensures r == answer
      ensures productos ==
        if answer.Ok? && id in old(productos) then old(productos)[id := old(productos)[id].(imagenUrl := imagenUrl)]
        else old(productos)
    {
      r := answer;
      if answer.Ok? && id in productos {
        productos := productos[id := productos[id].(imagenUrl := imagenUrl)];
      }
    }

    /** `delete().eq('id', id)`: removes the row with that id, if any. */
    method DeleteProducto(id: string, answer: Outcome) returns (r: Outcome)
      requires Valid()
      modifies this`productos
      ensures Valid()
      ensures r == answer
      ensures productos == if answer.Ok? then old(productos) - {id} else old(productos)
    {
      r := answer;
      if answer.Ok? {
        productos := productos - {id};
      }
    }

    /** `from('perfiles').update({ nombre }).eq('user_id', userId)`: renames that user's profile, if any. */
    method UpdatePerfilNombre(userId: string, nombre: string, answer: Outcome) returns (r: Outcome)
      requires Valid()
      modifies this`perfiles
      ensures Valid()
      ensures r == answer
      ensures perfiles ==
        if answer.Ok? && userId in old(perfiles) then old(perfiles)[userId := old(perfiles)[userId].(nombre := nombre)]
        else old(perfiles)
    {
      r := answer;
      if answer.Ok? && userId in perfiles {
        perfiles := perfiles[userId := perfiles[userId].(nombre := nombre)];
      }
    }

    /** `from('perfiles').insert(p)`: adds the profile, unless the backend fails or the user already has one. */
    method InsertPerfil(p: Perfil, answer: Outcome) returns (r: Outcome)
      requires Valid()
      modifies this`perfiles
      ensures Valid()
      ensures r.Ok? <==> answer.Ok? && p.userId !in old(perfiles)
      ensures answer.Failed? ==> r == answer
      ensures answer.Ok? && p.userId in old(perfiles) ==> r == Failed(DuplicateKey)
      ensures perfiles == if r.Ok? then old(perfiles)[p.userId := p] else old(perfiles)
    {
      if answer.Failed? {
        r := answer;
      } else if p.userId in perfiles {
        r := Failed(DuplicateKey);
      } else {
        r := Ok;
        perfiles := perfiles[p.userId := p];
      }
    }

    /** `storage.from('productos').upload(path, …)`: stores the object when the backend accepts it. */
    method UploadObject(path: string, answer: Outcome) returns (r: Outcome)
      modifies this`objetos, this`storageCalls
      ensures r == answer
      ensures storageCalls == old(storageCalls) + [Upload(path)]
      ensures objetos == if answer.Ok? then old(objetos) + {path} else old(objetos)
    {
      r := answer;
      storageCalls := storageCalls + [Upload(path)];
      if answer.Ok? {
        objetos := objetos + {path};
      }
    }

    /** `storage.from('productos').remove([path])`: deletes the object when the backend accepts it. */
    method RemoveObject(path: string, answer: Outcome) returns (r: Outcome)
      modifies this`objetos, this`storageCalls
      ensures r == answer
      ensures storageCalls == old(storageCalls) + [Remove(path)]
      ensures objetos == if answer.Ok? then old(objetos) - {path} else old(objetos)
    {
      r := answer;
      storageCalls := storageCalls + [Remove(path)];
      if answer.Ok? {
        objetos := objetos - {path};
      }
    }
  }
}
