/**
 The pure part of the product backend: the request and response models with
 their field constraints, `producto_helper`, the `productos` collection seen as
 a sequence of documents in natural (stored) order, and the outcome of a
 request, which keeps apart the reason a handler failed from the HTTP status
 the client is shown.
 */
module Products {
  import opened Wrappers
  import ObjectIds

  /** The fields of a stored product document other than `_id`. */
  datatype Fields = Fields(nombre: string, descripcion: string, precio: real, cantidadEnStock: int)

  /** A document of the `productos` collection. */
  datatype Document = Document(id: ObjectIds.ObjectId, fields: Fields)

  /** The `Producto` model, used both for request bodies and for responses. */
  datatype Producto = Producto(id: Option<string>, nombre: string, descripcion: string, precio: real, cantidadEnStock: int)

  /** The `Compra` model, the body of a purchase request. */
  datatype Compra = Compra(productoId: string, cantidad: int)

  /** `precio: float = Field(..., gt=0)` and `cantidad_en_stock: int = Field(..., ge=0)` */
  predicate ValidProducto(p: Producto) {
    p.precio > 0.0 && p.cantidadEnStock >= 0
  }

  /** `cantidad: int = Field(..., gt=0)` */
  predicate ValidCompra(c: Compra) {
    c.cantidad > 0
  }

  predicate ValidFields(f: Fields) {
    f.precio > 0.0 && f.cantidadEnStock >= 0
  }

  /** `producto.dict(exclude={"id"})`: what the create and update handlers write. */
  function Body(p: Producto): (f: Fields)
    ensures ValidFields(f) <==> ValidProducto(p)
  {
    Fields(p.nombre, p.descripcion, p.precio, p.cantidadEnStock)
  }

  /** `producto_helper`: the response shape of a stored document. */
  function ProductoHelper(d: Document): (p: Producto)
    ensures p.id == Some(ObjectIds.ToString(d.id))
    ensures p.id.Some? && ObjectIds.Parse(p.id.value) == Some(d.id)
    ensures Body(p) == d.fields
    ensures ValidProducto(p) <==> ValidFields(d.fields)
  {
    ObjectIds.ParseToString(d.id);
    Producto(Some(ObjectIds.ToString(d.id)), d.fields.nombre, d.fields.descripcion,
             d.fields.precio, d.fields.cantidadEnStock)
  }

  predicate UniqueIds(ds: seq<Document>) {
    forall i, j :: 0 <= i < j < |ds| ==> ds[i].id != ds[j].id
  }

  predicate AllValid(ds: seq<Document>) {
    forall i :: 0 <= i < |ds| ==> ValidFields(ds[i].fields)
  }

  /**
   What every write to the collection keeps: `_id` is a unique key, and every
   stored document passed the `Producto` constraints, so that in particular
   every stored stock is non-negative.
   */
  predicate StoreInvariant(ds: seq<Document>) {
    UniqueIds(ds) && AllValid(ds)
  }

  /** The position of the document `find_one({"_id": id})` matches. */
  function IndexOf(ds: seq<Document>, id: ObjectIds.ObjectId): (r: Option<nat>)
    ensures r.Some? ==> r.value < |ds| && ds[r.value].id == id
    ensures r.Some? ==> forall j :: 0 <= j < r.value ==> ds[j].id != id
    ensures r.None? <==> forall j :: 0 <= j < |ds| ==> ds[j].id != id
  {
    if ds == [] then None
    else if ds[0].id == id then Some(0)
    else match IndexOf(ds[1..], id)
      case None => None
      case Some(k) => Some(k + 1)
  }

  /** Why a request failed. */
  datatype Failure =
    | ValidationError    // the body broke a constraint of the model; rejected before the handler runs
    | InvalidId          // `ObjectId(...)` raised on the path or body id
    | NotFound           // the handler raised `HTTPException(404, "Producto no encontrado")`
    | InsufficientStock  // the handler raised `HTTPException(400, "Stock insuficiente")`
    | DuplicateKey       // `insert_one` raised on an `_id` already present

  datatype Response<T> = Ok(body: T) | Err(cause: Failure)

  /** The status the handler meant to send for a failure. */
  function IntendedStatus(f: Failure): (s: nat)
    ensures s == 404 <==> f == NotFound
    ensures s == 400 <==> f == InsufficientStock
    ensures s == 422 <==> f == ValidationError
    ensures s == 500 <==> f == InvalidId || f == DuplicateKey
  {
    match f
    case ValidationError => 422
    case NotFound => 404
    case InsufficientStock => 400
    case InvalidId => 500
    case DuplicateKey => 500
  }

  /**
   The status the client receives. Every failure raised inside a handler's
   `try`, its own `HTTPException`s included, is caught by `except Exception`
   and re-raised as 500; only validation happens outside the `try`.
   */
  function ReportedStatus<T>(r: Response<T>): (s: nat)
    ensures r.Ok? ==> s == 200
    ensures r.Err? && r.cause != ValidationError ==> s == 500
    ensures r.Err? ==> (s == IntendedStatus(r.cause) <==> r.cause !in {NotFound, InsufficientStock})
  {
    match r
    case Ok(_) => 200
    case Err(ValidationError) => 422
    case Err(_) => 500
  }

  /** The `detail` of the error body; the 422 body's list of errors is not modelled. */
  function ReportedDetail(f: Failure): (d: Option<string>)
    ensures d.Some? <==> ReportedStatus(Response<()>.Err(f)) == 500
    ensures d.Some? ==> d.value == "Error interno del servidor"
  {
    if f == ValidationError then None else Some("Error interno del servidor")
  }

  /** `ObjectId(pid)` followed by `find_one`: where the document named by `pid` is stored. */
  function Locate(ds: seq<Document>, pid: string): (r: Response<nat>)
    ensures r.Ok? ==> ObjectIds.Parse(pid).Some? && r.body < |ds| && ds[r.body].id == ObjectIds.Parse(pid).value
    ensures r.Err? ==> r.cause == InvalidId || r.cause == NotFound
    ensures r == Err(InvalidId) <==> ObjectIds.Parse(pid).None?
    ensures r == Err(NotFound) <==>
              ObjectIds.Parse(pid).Some? && forall j :: 0 <= j < |ds| ==> ds[j].id != ObjectIds.Parse(pid).value
  {
    match ObjectIds.Parse(pid)
    case None => Err(InvalidId)
    case Some(id) =>
      match IndexOf(ds, id)
      case None => Err(NotFound)
      case Some(i) => Ok(i)
  }

  /** The list comprehension `[producto_helper(p) for p in productos]`. */
  function Serialize(ds: seq<Document>): (r: seq<Producto>)
    ensures |r| == |ds|
    ensures forall i :: 0 <= i < |ds| ==> r[i] == ProductoHelper(ds[i])
  {
    if ds == [] then [] else [ProductoHelper(ds[0])] + Serialize(ds[1..])
  }

  /** The matches of `find({"cantidad_en_stock": {"$gt": 0}})`, in stored order. */
  function InStock(ds: seq<Document>): (r: seq<Document>)
    ensures forall d :: d in r <==> d in ds && d.fields.cantidadEnStock > 0
  {
    if ds == [] then []
    else if ds[0].fields.cantidadEnStock > 0 then [ds[0]] + InStock(ds[1..])
    else InStock(ds[1..])
  }

  /** The batch size passed to `to_list`. */
  const MaxListed := 100

  /** `to_list(100)`: the first hundred results of a cursor. */
  function ToList<T>(s: seq<T>): (r: seq<T>)
    ensures |r| == if |s| < MaxListed then |s| else MaxListed
    ensures r <= s
  {
    if |s| <= MaxListed then s else s[..MaxListed]
  }

  /** `a` is `b` with some elements left out and the rest kept in order. */
  ghost predicate IsSubsequence<T>(a: seq<T>, b: seq<T>) {
    if a == [] then true
    else if b == [] then false
    else if a[0] == b[0] then IsSubsequence(a[1..], b[1..])
    else IsSubsequence(a, b[1..])
  }

  lemma {:induction false} InStockIsSubsequence(ds: seq<Document>)
    ensures IsSubsequence(InStock(ds), ds)
  {
    if ds != [] {
      InStockIsSubsequence(ds[1..]);
      if ds[0].fields.cantidadEnStock > 0 {
        assert InStock(ds)[1..] == InStock(ds[1..]);
      } else {
        SubsequenceSkip(InStock(ds), ds);
      }
    }
  }

  lemma {:induction false} SubsequenceSkip<T>(a: seq<T>, b: seq<T>)
    requires b != [] && IsSubsequence(a, b[1..])
    ensures IsSubsequence(a, b)
    decreases |b|, 0
  {
    if a != [] && a[0] == b[0] {
      SubsequenceDropFirst(a, b[1..]);
    }
  }

  lemma {:induction false} SubsequenceDropFirst<T>(a: seq<T>, b: seq<T>)
    requires a != [] && IsSubsequence(a, b)
    ensures IsSubsequence(a[1..], b)
    decreases |b|, 1
  {
    if a[0] != b[0] {
      SubsequenceDropFirst(a, b[1..]);
    }
    SubsequenceSkip(a[1..], b);
  }

  lemma {:induction false} PrefixIsSubsequence<T>(p: seq<T>, a: seq<T>, b: seq<T>)
    requires p <= a && IsSubsequence(a, b)
    ensures IsSubsequence(p, b)
    decreases |b|
  {
    if p != [] {
      assert b != [];
      if a[0] == b[0] {
        assert p[0] == b[0];
        PrefixIsSubsequence(p[1..], a[1..], b[1..]);
      } else {
        assert p[0] != b[0];
        PrefixIsSubsequence(p, a, b[1..]);
      }
    }
  }

  lemma {:induction false} SerializeSubsequence(a: seq<Document>, b: seq<Document>)
    requires IsSubsequence(a, b)
    ensures IsSubsequence(Serialize(a), Serialize(b))
    decreases |b|
  {
    if a != [] {
      assert Serialize(b)[1..] == Serialize(b[1..]);
      if a[0] == b[0] {
        assert Serialize(a)[1..] == Serialize(a[1..]);
        SerializeSubsequence(a[1..], b[1..]);
      } else {
        SerializeSubsequence(a, b[1..]);
        SubsequenceSkip(Serialize(a), Serialize(b));
      }
    }
  }

  /** The client listing holds only products with stock. */
  lemma AvailableInStock(ds: seq<Document>)
    ensures forall i :: 0 <= i < |Serialize(ToList(InStock(ds)))| ==> Serialize(ToList(InStock(ds)))[i].cantidadEnStock > 0
  {
    var matches := InStock(ds);
    var listed := ToList(matches);
    forall i | 0 <= i < |listed| ensures listed[i].fields.cantidadEnStock > 0 {
      assert listed[i] == matches[i];
      assert matches[i] in matches;
    }
  }

  /** The client listing keeps the stored order. */
  lemma AvailableInOrder(ds: seq<Document>)
    ensures IsSubsequence(Serialize(ToList(InStock(ds))), Serialize(ds))
  {
    var matches := InStock(ds);
    InStockIsSubsequence(ds);
    PrefixIsSubsequence(ToList(matches), matches, ds);
    SerializeSubsequence(ToList(matches), ds);
  }

  /** The client listing is the first matches of the in-stock query, as many as were listed. */
  lemma AvailableFirstMatches(ds: seq<Document>)
    ensures var r := Serialize(ToList(InStock(ds)));
            |r| <= |InStock(ds)| && r == Serialize(InStock(ds))[..|r|]
  {
    var matches := InStock(ds);
    var r := Serialize(ToList(matches));
    var all := Serialize(matches);
    assert |r| <= |all|;
    forall i | 0 <= i < |r| ensures r[i] == all[..|r|][i] {
      assert ToList(matches)[i] == matches[i];
    }
  }

  /** When the client listing is shorter than the batch size, no product with stock is missing from it. */
  lemma AvailableComplete(ds: seq<Document>)
    ensures |Serialize(ToList(InStock(ds)))| < MaxListed ==>
              forall i :: 0 <= i < |ds| && ds[i].fields.cantidadEnStock > 0 ==>
                ProductoHelper(ds[i]) in Serialize(ToList(InStock(ds)))
  {
    var matches := InStock(ds);
    if |ToList(matches)| < MaxListed {
      assert ToList(matches) == matches;
      forall i | 0 <= i < |ds| && ds[i].fields.cantidadEnStock > 0
        ensures ProductoHelper(ds[i]) in Serialize(matches)
      {
        assert ds[i] in ds;
        var k :| 0 <= k < |matches| && matches[k] == ds[i];
        assert Serialize(matches)[k] == ProductoHelper(ds[i]);
      }
    }
  }

  /** The sum of the stock over every stored document. */
  function TotalStock(ds: seq<Document>): int {
    if ds == [] then 0 else TotalStock(ds[..|ds| - 1]) + ds[|ds| - 1].fields.cantidadEnStock
  }

  /** Changing one document's stock changes the total by exactly that difference. */
  lemma {:induction false} TotalStockUpdate(ds: seq<Document>, i: nat, d: Document)
    requires i < |ds|
    ensures TotalStock(ds[i := d]) == TotalStock(ds) - ds[i].fields.cantidadEnStock + d.fields.cantidadEnStock
  {
    var n := |ds| - 1;
    if i < n {
      assert ds[i := d][..n] == ds[..n][i := d];
      TotalStockUpdate(ds[..n], i, d);
    } else {
      assert ds[i := d][..n] == ds[..n];
    }
  }

  /** A listed product's `id` names that same document again on a later request. */
  lemma ListedIdLocates(ds: seq<Document>, i: nat)
    requires UniqueIds(ds) && i < |ds|
    ensures Locate(ds, ProductoHelper(ds[i]).id.value) == Ok(i)
  {
    ObjectIds.ParseToString(ds[i].id);
  }

  /** The invariant holds of a document appended under a fresh id with valid fields. */
  lemma AppendKeepsInvariant(ds: seq<Document>, d: Document)
    requires StoreInvariant(ds) && IndexOf(ds, d.id).None? && ValidFields(d.fields)
    ensures StoreInvariant(ds + [d])
  {
  }
}
