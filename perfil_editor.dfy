/**
 * The profile form: the signed-in user's display name (and e-mail, shown
 * but never saved), and the submit handler that renames the user's profile
 * or creates it as an `empleado` profile.
 */
module PerfilEditor {
  import opened Js
  import opened Database
  import opened Backend

  /** The form's fields: `nombre` and `email`. */
  datatype PerfilDatos = PerfilDatos(nombre: string, email: string)

  /** The names of the form's inputs. */
  datatype Campo = NombreCampo | EmailCampo

  const Exito := "Perfil actualizado correctamente"

  /** Shown when a failure carries no message. */
  const ErrorPorDefecto := "Error al actualizar perfil"

  /** The profile a user without one gets: their id, the typed name, and the `empleado` role. */
  function NuevoPerfil(id: string, user: User, nombre: string): (p: Perfil)
    ensures p.userId == user.id && p.nombre == nombre && p.rol == Empleado
  {
    Perfil(id, user.id, nombre, Empleado)
  }

  class PerfilForm {
    const user: User
    /** The user's profile as the page loaded it, or none. */
    const perfil: Option<Perfil>
    var datos: PerfilDatos
    var error: string
    var success: string
    var loading: bool

    constructor (user: User, perfil: Option<Perfil>)
      ensures this.user == user && this.perfil == perfil
      ensures datos == PerfilDatos(if perfil.None? then "" else perfil.value.nombre, user.email)
      ensures error == "" && success == "" && !loading
    {
      this.user := user;
      this.perfil := perfil;
      datos := PerfilDatos(if perfil.None? then "" else perfil.value.nombre, user.email);
      error := "";
      success := "";
      loading := false;
    }

    /** `handleInputChange`: only the named field changes. */
    method HandleInputChange(campo: Campo, value: string)
      modifies this`datos
      ensures campo == NombreCampo ==> datos == old(datos).(nombre := value)
      ensures campo == EmailCampo ==> datos == old(datos).(email := value)
    {
      match campo
      case NombreCampo => datos := datos.(nombre := value);
      case EmailCampo => datos := datos.(email := value);
    }

    /**
     * `handleSubmit`: with a loaded profile, renames the user's row; without
     * one, inserts a new `empleado` profile. Only the name is ever written,
     * never the e-mail. Success and error messages exclude each other.
     */
    method HandleSubmit(db: Store, newId: string, answer: Outcome)
      requires db.Valid()
      modifies this`error, this`success, this`loading, db`perfiles
      ensures db.Valid() && !loading
      ensures perfil.Some? ==>
                && db.perfiles == (if answer.Ok? && user.id in old(db.perfiles)
                                   then old(db.perfiles)[user.id := old(db.perfiles)[user.id].(nombre := datos.nombre)]
                                   else old(db.perfiles))
                && (success == Exito <==> answer.Ok?)
      ensures perfil.None? ==>
                && db.perfiles == (if answer.Ok? && user.id !in old(db.perfiles)
                                   then old(db.perfiles)[user.id := NuevoPerfil(newId, user, datos.nombre)]
                                   else old(db.perfiles))
                && (success == Exito <==> answer.Ok? && user.id !in old(db.perfiles))
      ensures success == Exito ==> error == ""
      ensures success == Exito && (perfil.None? || user.id in old(db.perfiles)) ==>
                user.id in db.perfiles && db.perfiles[user.id].nombre == datos.nombre
      ensures success == Exito && perfil.Some? && user.id in old(db.perfiles) ==>
                db.perfiles[user.id].rol == old(db.perfiles)[user.id].rol
      ensures success != Exito ==> success == "" && error != ""
      ensures answer.Failed? ==> error == OrElse(Some(answer.message), ErrorPorDefecto)
      ensures perfil.None? && answer.Ok? && user.id in old(db.perfiles) ==>
                error == OrElse(Some(DuplicateKey), ErrorPorDefecto)
    {
      error := "";
      success := "";
      loading := true;
      var r;
      if perfil.Some? {
        r := db.UpdatePerfilNombre(user.id, datos.nombre, answer);
      } else {
        r := db.InsertPerfil(NuevoPerfil(newId, user, datos.nombre), answer);
      }
      if r.Failed? {
        error := OrElse(Some(r.message), ErrorPorDefecto);
      } else {
        success := Exito;
      }
      loading := false;
    }
  }
}
