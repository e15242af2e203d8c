/**
 The HTTP handlers of the product backend as operations on an in-memory
 `productos` collection, run one request at a time. Each handler returns the
 internal outcome; `Products.ReportedStatus` gives the status the client sees.
 */
module ProductApi {
  import opened Wrappers
  import ObjectIds
  import opened Products

  class ProductStore {
    /** The collection, in natural order. */
    var documents: seq<Document>

    ghost predicate Valid()
      reads this
    {
      StoreInvariant(documents)
    }

    constructor ()
      ensures Valid() && documents == []
    {
      documents := [];
    }

    /** `GET /admin/productos/` (`obtener_productos`) */
    function ListProducts(): (r: seq<Producto>)
      reads this
      ensures |r| == if |documents| < MaxListed then |documents| else MaxListed
      ensures forall i :: 0 <= i < |r| ==> r[i] == ProductoHelper(documents[i])
      ensures Valid() ==> forall i :: 0 <= i < |r| ==> ValidProducto(r[i])
    {
      Serialize(ToList(documents))
    }

    /** `GET /cliente/productos/` (`obtener_productos_disponibles`) */
    function ListAvailable(): (r: seq<Producto>)
      reads this
      ensures |r| <= MaxListed
      ensures |r| <= |InStock(documents)| && r == Serialize(InStock(documents))[..|r|]
      ensures forall i :: 0 <= i < |r| ==> r[i].cantidadEnStock > 0
      ensures IsSubsequence(r, Serialize(documents))
      ensures |r| < MaxListed ==>
                forall i :: 0 <= i < |documents| && documents[i].fields.cantidadEnStock > 0 ==>
                  ProductoHelper(documents[i]) in r
    {
      AvailableInStock(documents);
      AvailableInOrder(documents);
      AvailableComplete(documents);
      AvailableFirstMatches(documents);
      Serialize(ToList(InStock(documents)))
    }

    /** `GET /admin/productos/{producto_id}` (`obtener_producto`) */
    function GetProduct(pid: string): (r: Response<Producto>)
      reads this
      ensures r.Ok? <==> Locate(documents, pid).Ok?
      ensures r.Ok? ==> r.body == ProductoHelper(documents[Locate(documents, pid).body])
      ensures r.Err? ==> r.cause == Locate(documents, pid).cause && ReportedStatus(r) == 500
    {
      match Locate(documents, pid)
      case Ok(i) => Ok(ProductoHelper(documents[i]))
      case Err(f) => Err(f)
    }

    /**
     `POST /admin/productos/` (`crear_producto`). `newId` is the `_id` that
     `insert_one` assigns; a client-supplied `id` is dropped.
     */
    method CreateProduct(p: Producto, newId: ObjectIds.ObjectId) returns (r: Response<Producto>)
      requires Valid()
      modifies this
      ensures Valid()
      ensures r.Err? ==> ReportedStatus(r) == if r.cause == ValidationError then 422 else 500
      ensures !ValidProducto(p) ==> r == Err(ValidationError)
      ensures ValidProducto(p) && IndexOf(old(documents), newId).Some? ==> r == Err(DuplicateKey)
      ensures r.Err? ==> documents == old(documents)
      ensures r.Ok? <==> ValidProducto(p) && IndexOf(old(documents), newId).None?
      ensures r.Ok? ==>
                documents == old(documents) + [Document(newId, Body(p))] &&
                r.body == ProductoHelper(Document(newId, Body(p))) &&
                r.body.id == Some(ObjectIds.ToString(newId))
    {
      if !ValidProducto(p) {
        return Err(ValidationError);
      }
      if IndexOf(documents, newId).Some? {
        return Err(DuplicateKey);
      }
      var d := Document(newId, Body(p));
      AppendKeepsInvariant(documents, d);
      documents := documents + [d];
      r := Ok(ProductoHelper(d));
    }

    /** `PUT /admin/productos/{producto_id}` (`actualizar_producto`): `$set` of every field but `id`. */
    method UpdateProduct(pid: string, p: Producto) returns (r: Response<Producto>)
      requires Valid()
      modifies this
      ensures Valid()
      ensures r.Err? ==> ReportedStatus(r) == if r.cause == ValidationError then 422 else 500
      ensures !ValidProducto(p) ==> r == Err(ValidationError)
      ensures ValidProducto(p) && Locate(old(documents), pid).Err? ==> r == Err(Locate(old(documents), pid).cause)
      ensures r.Err? ==> documents == old(documents)
      ensures r.Ok? <==> ValidProducto(p) && Locate(old(documents), pid).Ok?
      ensures r.Ok? ==>
                var i := Locate(old(documents), pid).body;
                documents == old(documents)[i := Document(old(documents)[i].id, Body(p))] &&
                r.body == ProductoHelper(documents[i])
    {
      if !ValidProducto(p) {
        return Err(ValidationError);
      }
      match Locate(documents, pid)
      case Err(f) =>
        r := Err(f);
      case Ok(i) =>
        documents := documents[i := Document(documents[i].id, Body(p))];
        r := Ok(ProductoHelper(documents[i]));
    }

    /** `DELETE /admin/productos/{producto_id}` (`eliminar_producto`) */
    method DeleteProduct(pid: string) returns (r: Response<string>)
      requires Valid()
      modifies this
      ensures Valid()
      ensures r.Err? ==> ReportedStatus(r) == 500
      ensures r.Err? ==> Locate(old(documents), pid).Err? && r.cause == Locate(old(documents), pid).cause
      ensures r.Err? ==> documents == old(documents)
      ensures r.Ok? <==> Locate(old(documents), pid).Ok?
      ensures r.Ok? ==>
                var i := Locate(old(documents), pid).body;
                documents == old(documents)[..i] + old(documents)[i + 1..] &&
                IndexOf(documents, old(documents)[i].id).None? &&
                r.body == "Producto eliminado exitosamente"
    {
      match Locate(documents, pid)
      case Err(f) =>
        r := Err(f);
      case Ok(i) =>
        ghost var was := documents;
        documents := documents[..i] + documents[i + 1..];
        assert forall j :: 0 <= j < |documents| ==> documents[j] == (if j < i then was[j] else was[j + 1]);
        r := Ok("Producto eliminado exitosamente");
    }

    /** `POST /cliente/comprar/` (`realizar_compra`) */
    method Purchase(c: Compra) returns (r: Response<Producto>)
      requires Valid()
      modifies this
      ensures Valid()
      ensures r.Err? ==> ReportedStatus(r) == if r.cause == ValidationError then 422 else 500
      ensures !ValidCompra(c) ==> r == Err(ValidationError)
      ensures ValidCompra(c) && Locate(old(documents), c.productoId).Err? ==>
                r == Err(Locate(old(documents), c.productoId).cause)
      ensures r.Err? ==> documents == old(documents)
      ensures r.Ok? <==>
                ValidCompra(c) && Locate(old(documents), c.productoId).Ok? &&
                old(documents)[Locate(old(documents), c.productoId).body].fields.cantidadEnStock >= c.cantidad
      ensures ValidCompra(c) && Locate(old(documents), c.productoId).Ok? && !r.Ok? ==> r == Err(InsufficientStock)
      ensures r.Ok? ==>
                var i := Locate(old(documents), c.productoId).body;
                var f := old(documents)[i].fields;
                documents == old(documents)[i := Document(old(documents)[i].id,
                                                          f.(cantidadEnStock := f.cantidadEnStock - c.cantidad))] &&
                TotalStock(documents) == TotalStock(old(documents)) - c.cantidad &&
                r.body == ProductoHelper(documents[i])
    {
      if !ValidCompra(c) {
        return Err(ValidationError);
      }
      match Locate(documents, c.productoId)
      case Err(f) =>
        r := Err(f);
      case Ok(i) =>
        var f := documents[i].fields;
        if f.cantidadEnStock < c.cantidad {
          return Err(InsufficientStock);
        }
        var d := Document(documents[i].id, f.(cantidadEnStock := f.cantidadEnStock - c.cantidad));
        TotalStockUpdate(documents, i, d);
        documents := documents[i := d];
        r := Ok(ProductoHelper(d));
    }
  }

  /**
   The admin table's edit button sends each listed `id` back to
   `GET /admin/productos/{producto_id}`, which answers with that same record.
   */
  lemma ListedProductRoundTrip(s: ProductStore, k: nat)
    requires s.Valid() && k < |s.ListProducts()|
    ensures s.GetProduct(s.ListProducts()[k].id.value) == Ok(s.ListProducts()[k])
  {
    ListedIdLocates(s.documents, k);
  }

  /** A product bought out of stock drops out of the client listing. */
  lemma SoldOutNotAvailable(s: ProductStore, i: nat)
    requires i < |s.documents| && s.documents[i].fields.cantidadEnStock == 0
    ensures ProductoHelper(s.documents[i]) !in s.ListAvailable()
  {
  }
}
