/**
 * The catalogue's client list: the search box and category filter, which
 * become the page's search parameters, and the delete button of each
 * product card, which removes that product's row after a confirmation.
 */
module CatalogoVista {
  import opened Js
  import opened Database
  import opened Backend

  /**
   * The search parameters of `/productos?…`: `search` before `categoria`,
   * each only when it is not empty.
   */
  function SearchParams(search: string, categoria: string): (params: seq<(string, string)>)
    ensures |params| <= 2
    ensures ("search", search) in params <==> search != ""
    ensures ("categoria", categoria) in params <==> categoria != ""
    ensures forall e :: e in params ==> e == ("search", search) || e == ("categoria", categoria)
    ensures |params| == 2 ==> params[0].0 == "search" && params[1].0 == "categoria"
  {
    (if search != "" then [("search", search)] else []) + (if categoria != "" then [("categoria", categoria)] else [])
  }

  /** Round trip: the list a search navigates to starts with the same search text and category. */
  lemma SearchRoundTrip(search: string, categoria: string)
    ensures Param(ToParams(SearchParams(search, categoria)), "search") == search
    ensures Param(ToParams(SearchParams(search, categoria)), "categoria") == categoria
  {
    var pairs := SearchParams(search, categoria);
    ToParamsLookup(pairs, "search");
    ToParamsLookup(pairs, "categoria");
    if "search" in ToParams(pairs) {
      assert ("search", ToParams(pairs)["search"]) in pairs;
    }
    if "categoria" in ToParams(pairs) {
      assert ("categoria", ToParams(pairs)["categoria"]) in pairs;
    }
  }

  /** The delete button of the product `id` is disabled exactly while that product is being deleted. */
  predicate DeleteDisabled(loading: Option<string>, id: string)
  {
    loading == Some(id)
  }

  /** While one product is being deleted, every other product's button stays enabled. */
  lemma OnlyDeletingIsDisabled(id: string, other: string)
    ensures DeleteDisabled(Some(id), other) <==> other == id
    ensures !DeleteDisabled(None, other)
  {
  }

  /** The text of the alert a failed delete shows. */
  function DeleteAlert(message: string): (shown: string)
    ensures |shown| > |message| && shown[|shown| - |message|..] == message
  {
    "Error al eliminar producto: " + message
  }

  class ProductosList {
    var search: string
    var categoria: string
    /** The id of the product being deleted, if any. */
    var loading: Option<string>

    /** The list opened with the page's search parameters. */
    constructor (searchParams: Params)
      ensures search == Param(searchParams, "search")
      ensures categoria == Param(searchParams, "categoria")
      ensures loading.None?
    {
      search := Param(searchParams, "search");
      categoria := Param(searchParams, "categoria");
      loading := None;
    }

    /** The search box's `onChange`. */
    method SetSearch(value: string)
      modifies this`search
      ensures search == value
    {
      search := value;
    }

    /** The category select's `onChange`. */
    method SetCategoria(value: string)
      modifies this`categoria
      ensures categoria == value
    {
      categoria := value;
    }

    /** `handleSearch`: the parameters set one after the other, ready for `/productos?…`. */
    method HandleSearch() returns (params: seq<(string, string)>)
      ensures params == SearchParams(search, categoria)
    {
      params := [];
      if search != "" {
        params := params + [("search", search)];
      }
      if categoria != "" {
        params := params + [("categoria", categoria)];
      }
    }

    /**
     * `handleDelete(id)`: nothing at all happens unless the user confirms.
     * Otherwise `loading` is `id` while the row is deleted and null
     * afterwards; exactly that row goes, and its image stays in storage. A
     * backend error leaves the table as it was and shows an alert.
     */
    method HandleDelete(db: Store, id: string, confirmed: bool, answer: Outcome)
      returns (alert: Option<string>, ghost loadingDuringDelete: Option<string>)
      requires db.Valid()
      modifies this`loading, db`productos
      ensures db.Valid()
      ensures db.storageCalls == old(db.storageCalls) && db.objetos == old(db.objetos)
      ensures !confirmed ==> loading == old(loading) && db.productos == old(db.productos) && alert.None?
      ensures confirmed ==> loadingDuringDelete == Some(id) && loading.None?
      ensures confirmed ==> db.productos == if answer.Ok? then old(db.productos) - {id} else old(db.productos)
      ensures confirmed ==> alert == if answer.Ok? then None else Some(DeleteAlert(answer.message))
    {
      alert := None;
      loadingDuringDelete := loading;
      if !confirmed {
        return;
      }
      loading := Some(id);
      loadingDuringDelete := loading;
      var r := db.DeleteProducto(id, answer);
      if r.Failed? {
        alert := Some(DeleteAlert(r.message));
      }
      loading := None;
    }
  }
}
