/**
 The browser script of the catalog page: the three panels (admin login, admin,
 client), the admin session flag, the edit-mode state of the product form, and
 the requests its handlers decide to send. Network answers and dialog results
 are inputs; alerts are returned as their text.
 */
module Frontend {
  import opened Wrappers
  import opened JsParseInt
  import Products

  datatype Verb = Get | Post | Put | Delete

  datatype Payload =
    /** `productData`; `precio` keeps the input's text, its `parseFloat` is not modelled. */
    | ProductData(nombre: string, descripcion: string, precio: string, cantidadEnStock: JsNumber)
    /** `purchaseData` */
    | PurchaseData(productoId: string, cantidad: int)

  datatype Request = Request(verb: Verb, url: string, payload: Payload)

  /** A table reload a handler starts after it finishes (`fetchProducts`, `fetchAvailableProducts`). */
  datatype Refresh = NoRefresh | RefreshAdminTable | RefreshClientTable

  /** The panel-visibility state machine: all hidden, or exactly one panel shown. */
  datatype View = MainView | LoginView | AdminView | ClientView

  /** The values of the product form's inputs when it is submitted. */
  datatype ProductForm = ProductForm(name: string, desc: string, price: string, stock: string)

  /** How the save request ended: `fetch` threw, or a response came back. */
  datatype SaveOutcome = SaveThrew | SaveResponded(ok: bool)

  /** A JSON value as `response.json()` yields it. */
  datatype Json =
    | JNull
    | JBool(b: bool)
    | JNumber(n: real)
    | JString(s: string)
    | JArray(items: seq<Json>)
    | JObject(entries: seq<(string, Json)>)

  /** How `editProduct`'s request ended: `fetch` or `response.json()` threw, or the body parsed. */
  datatype LoadOutcome = LoadThrew | Loaded(body: Json)

  /**
   How `buyProduct`'s request ended: `BuyThrew` when `fetch` threw, or when
   `response.json()` threw on the body of a failed response, which also runs
   inside the `try`; otherwise the response and its body's `detail`.
   */
  datatype BuyOutcome = BuyThrew | BuyResponded(ok: bool, detail: string)

  const AdminProducts := "/admin/productos/"
  const Purchase := "/cliente/comprar/"
  const AdminUser := "admin"
  const AdminPassword := "admin123"

  /** JavaScript's truthiness, as `if (product)` tests it. */
  function Truthy(j: Json): (t: bool)
    ensures !t <==> j == JNull || j == JBool(false) || j == JNumber(0.0) || j == JString("")
  {
    match j
    case JNull => false
    case JBool(b) => b
    case JNumber(n) => n != 0.0
    case JString(s) => s != ""
    case JArray(_) => true
    case JObject(_) => true
  }

  /** A template literal `${x}` of a value that may be `null`. */
  function IdText(id: Option<string>): string {
    match id
    case Some(s) => s
    case None => "null"
  }

  /** The body the product form produces. */
  function FormPayload(form: ProductForm): (p: Payload)
    ensures p.ProductData? && p.nombre == form.name && p.descripcion == form.desc && p.precio == form.price
    ensures p.cantidadEnStock == ParseInt(form.stock)
  {
    ProductData(form.name, form.desc, form.price, ParseInt(form.stock))
  }

  /** The request the submit handler of `productForm` sends: PUT on the edited product, else POST. */
  function SaveRequest(isEditing: bool, editingProductId: Option<string>, form: ProductForm): (r: Request)
    ensures r.verb == Put <==> isEditing
    ensures r.verb == Post <==> !isEditing
    ensures r.url == if isEditing then AdminProducts + IdText(editingProductId) else AdminProducts
    ensures r.payload == FormPayload(form)
  {
    if isEditing then Request(Put, AdminProducts + IdText(editingProductId), FormPayload(form))
    else Request(Post, AdminProducts, FormPayload(form))
  }

  /**
   `buyProduct(productId)` after `prompt` answered `quantity` (`None` for
   Cancel): a request only for a non-null answer whose `parseInt` is a
   positive number, carrying that number.
   */
  function PurchaseRequest(productId: string, quantity: Option<string>): (r: Option<Request>)
    ensures r.Some? <==> quantity.Some? && ParseInt(quantity.value).Num? && ParseInt(quantity.value).value > 0
    ensures r.Some? ==>
              r.value.verb == Post && r.value.url == Purchase &&
              r.value.payload == PurchaseData(productId, ParseInt(quantity.value).value)
  {
    match quantity
    case None => None
    case Some(q) =>
      match ParseInt(q)
      case NaN => None
      case Num(n) => if n > 0 then Some(Request(Post, Purchase, PurchaseData(productId, n))) else None
  }

  /** What `buyProduct` shows and reloads once its request has ended. */
  function PurchaseFeedback(outcome: BuyOutcome): (r: (Option<string>, Refresh))
    ensures r.1 == RefreshClientTable <==> outcome.BuyResponded? && outcome.ok
    ensures r.1 != RefreshClientTable ==> r.1 == NoRefresh
    ensures outcome.BuyResponded? && !outcome.ok ==> r.0 == Some("Error al realizar la compra: " + outcome.detail)
    ensures outcome.BuyThrew? ==> r.0 == None
  {
    match outcome
    case BuyThrew => (None, NoRefresh)
    case BuyResponded(true, _) => (Some("Compra realizada exitosamente!"), RefreshClientTable)
    case BuyResponded(false, detail) => (Some("Error al realizar la compra: " + detail), NoRefresh)
  }

  /** The module-level variables of the script and the visibility of its three panels. */
  class Page {
    var loginVisible: bool   // `adminLoginSection` lacks the class `hidden`
    var adminVisible: bool   // `adminSection` lacks it
    var clientVisible: bool  // `clientSection` lacks it
    var isAdminLoggedIn: bool
    var isEditing: bool
    var editingProductId: Option<string>

    predicate AtMostOnePanel()
      reads this
    {
      !(loginVisible && adminVisible) && !(loginVisible && clientVisible) && !(adminVisible && clientVisible)
    }

    /** At most one panel is shown, and edit mode always has a product to edit. */
    ghost predicate Valid()
      reads this
    {
      AtMostOnePanel() && (isEditing <==> editingProductId.Some?)
    }

    ghost function Screen(): View
      reads this
    {
      if loginVisible then LoginView
      else if adminVisible then AdminView
      else if clientVisible then ClientView
      else MainView
    }

    /**
     Loading the script and its `DOMContentLoaded` handler, whatever panels the
     page's markup shows at first.
     */
    constructor (loginShown: bool, adminShown: bool, clientShown: bool)
      ensures Valid() && Screen() == MainView
      ensures !loginVisible && !adminVisible && !clientVisible
      ensures !isAdminLoggedIn && !isEditing && editingProductId == None
    {
      loginVisible, adminVisible, clientVisible := loginShown, adminShown, clientShown;
      isEditing := false;
      editingProductId := None;
      isAdminLoggedIn := false;
      new;
      BackToMain();
    }

    /** `showAdminLogin` */
    method ShowAdminLogin()
      modifies this`loginVisible, this`adminVisible, this`clientVisible
      ensures loginVisible && !adminVisible && !clientVisible
      ensures AtMostOnePanel() && Screen() == LoginView
    {
      loginVisible := true;
      adminVisible := false;
      clientVisible := false;
    }

    /** `showAdmin`: the admin panel if logged in, the login panel otherwise. */
    method ShowAdmin() returns (refresh: Refresh)
      modifies this`loginVisible, this`adminVisible, this`clientVisible
      ensures isAdminLoggedIn ==> adminVisible && !loginVisible && !clientVisible && refresh == RefreshAdminTable
      ensures !isAdminLoggedIn ==> loginVisible && !adminVisible && !clientVisible && refresh == NoRefresh
      ensures AtMostOnePanel() && Screen() == if isAdminLoggedIn then AdminView else LoginView
    {
      if isAdminLoggedIn {
        adminVisible := true;
        loginVisible := false;
        clientVisible := false;
        refresh := RefreshAdminTable;
      } else {
        ShowAdminLogin();
        refresh := NoRefresh;
      }
    }

    /** `showClient` */
    method ShowClient() returns (refresh: Refresh)
      modifies this`loginVisible, this`adminVisible, this`clientVisible
      ensures clientVisible && !loginVisible && !adminVisible && refresh == RefreshClientTable
      ensures AtMostOnePanel() && Screen() == ClientView
    {
      adminVisible := false;
      clientVisible := true;
      loginVisible := false;
      refresh := RefreshClientTable;
    }

    /** `backToMain` */
    method BackToMain()
      modifies this`loginVisible, this`adminVisible, this`clientVisible
      ensures !loginVisible && !adminVisible && !clientVisible
      ensures AtMostOnePanel() && Screen() == MainView
    {
      loginVisible := false;
      adminVisible := false;
      clientVisible := false;
    }

    /** `logoutAdmin` */
    method LogoutAdmin()
      modifies this`isAdminLoggedIn, this`loginVisible, this`adminVisible, this`clientVisible
      ensures !isAdminLoggedIn
      ensures !loginVisible && !adminVisible && !clientVisible
      ensures AtMostOnePanel() && Screen() == MainView
    {
      isAdminLoggedIn := false;
      BackToMain();
    }

    /** The submit handler of `adminLoginForm`. */
    method SubmitLogin(username: string, password: string) returns (refresh: Refresh, alert: Option<string>)
      requires AtMostOnePanel()
      modifies this`isAdminLoggedIn, this`loginVisible, this`adminVisible, this`clientVisible
      ensures AtMostOnePanel()
      ensures username == AdminUser && password == AdminPassword ==>
                isAdminLoggedIn && adminVisible && !loginVisible && !clientVisible &&
                refresh == RefreshAdminTable && alert == None
      ensures !(username == AdminUser && password == AdminPassword) ==>
                isAdminLoggedIn == old(isAdminLoggedIn) &&
                loginVisible == old(loginVisible) && adminVisible == old(adminVisible) &&
                clientVisible == old(clientVisible) &&
                refresh == NoRefresh && alert == Some("Usuario o contraseña incorrectos")
    {
      if username == AdminUser && password == AdminPassword {
        isAdminLoggedIn := true;
        loginVisible := false;
        refresh := ShowAdmin();
        alert := None;
      } else {
        refresh := NoRefresh;
        alert := Some("Usuario o contraseña incorrectos");
      }
    }

    /** The state effect of `editProduct(productId)`: edit mode when the loaded body is truthy. */
    method EditProduct(productId: string, outcome: LoadOutcome)
      requires Valid()
      modifies this`isEditing, this`editingProductId
      ensures Valid()
      ensures outcome.Loaded? && Truthy(outcome.body) ==> isEditing && editingProductId == Some(productId)
      ensures !(outcome.Loaded? && Truthy(outcome.body)) ==>
                isEditing == old(isEditing) && editingProductId == old(editingProductId)
    {
      if outcome.Loaded? && Truthy(outcome.body) {
        isEditing := true;
        editingProductId := Some(productId);
      }
    }

    /** The submit handler of `productForm`: the request it sends, then its effect once the request ends. */
    method SubmitProductForm(form: ProductForm, outcome: SaveOutcome) returns (request: Request, refresh: Refresh, alert: Option<string>)
      requires Valid()
      modifies this`isEditing, this`editingProductId
      ensures Valid()
      ensures request == SaveRequest(old(isEditing), old(editingProductId), form)
      ensures outcome == SaveResponded(true) ==>
                !isEditing && editingProductId == None &&
                refresh == RefreshAdminTable && alert == Some("Producto guardado exitosamente!")
      ensures outcome != SaveResponded(true) ==>
                isEditing == old(isEditing) && editingProductId == old(editingProductId) && refresh == NoRefresh
      ensures outcome == SaveResponded(false) ==> alert == Some("Error al guardar el producto")
      ensures outcome == SaveThrew ==> alert == None
    {
      request := SaveRequest(isEditing, editingProductId, form);
      refresh, alert := NoRefresh, None;
      match outcome
      case SaveThrew =>
      case SaveResponded(ok) =>
        if ok {
          alert := Some("Producto guardado exitosamente!");
          isEditing := false;
          editingProductId := None;
          refresh := RefreshAdminTable;
        } else {
          alert := Some("Error al guardar el producto");
        }
    }
  }

  /** In a consistent page, a PUT always names the product being edited, never `null`. */
  lemma PutTargetsEditedProduct(p: Page, form: ProductForm)
    requires p.Valid() && p.isEditing
    ensures SaveRequest(p.isEditing, p.editingProductId, form).url == AdminProducts + p.editingProductId.value
  {
  }

  /**
   Every purchase the page sends passes the backend's `Compra` validation: its
   quantity is positive.
   */
  lemma PurchaseRequestIsValidCompra(productId: string, quantity: Option<string>)
    requires PurchaseRequest(productId, quantity).Some?
    ensures var p := PurchaseRequest(productId, quantity).value.payload;
            p.PurchaseData? && Products.ValidCompra(Products.Compra(p.productoId, p.cantidad))
  {
  }

  /**
   A typed decimal quantity, with any leading spaces and any non-digit tail
   (as in "3", " 3" or "3.5"), is sent as that number.
   */
  lemma TypedQuantityIsSent(productId: string, w: string, n: nat, rest: string)
    requires forall i :: 0 <= i < |w| ==> IsStrWhiteSpace(w[i])
    requires n > 0 && (rest == [] || !IsDecimalDigit(rest[0]))
    ensures PurchaseRequest(productId, Some(w + RadixString(n, 10) + rest)) ==
              Some(Request(Post, Purchase, PurchaseData(productId, n)))
  {
    assert w + RadixString(n, 10) + rest == w + (RadixString(n, 10) + rest);
    LeadingWhiteSpace(w, RadixString(n, 10) + rest);
    DecimalNumeral(n, rest);
  }

  /** A stock typed as a decimal numeral, as a number input holds it, is sent as that number. */
  lemma TypedStockIsSent(form: ProductForm, n: nat)
    requires form.stock == RadixString(n, 10)
    ensures FormPayload(form).cantidadEnStock == Num(n)
  {
    assert form.stock == RadixString(n, 10) + "";
    DecimalNumeral(n, "");
  }

  /**
   The error body of a failed lookup, `{"detail": ...}`, is an object and so
   truthy: `editProduct` enters edit mode on it as on a loaded product.
   */
  lemma ErrorBodyIsTruthy(detail: string)
    ensures Truthy(JObject([("detail", JString(detail))]))
  {
  }

  /** An answer that starts with a minus sign never sends a purchase, whatever follows it. */
  lemma NegativeQuantityNotSent(productId: string, s: string)
    ensures PurchaseRequest(productId, Some("-" + s)) == None
  {
    MinusSign(s);
  }

  /** A zero quantity sends nothing. */
  lemma ZeroQuantityNotSent(productId: string, rest: string)
    requires rest == [] || !(IsDecimalDigit(rest[0]) || rest[0] == 'x' || rest[0] == 'X')
    ensures PurchaseRequest(productId, Some(RadixString(0, 10) + rest)) == None
  {
    DecimalNumeral(0, rest);
  }

  /**
   A purchase the backend rejects for a missing product or short stock is
   reported as a 500 whose detail is the generic message, so the alert never
   names the actual reason.
   */
  lemma RejectedPurchaseAlert(r: Products.Response<Products.Producto>)
    requires r.Err? && r.cause != Products.ValidationError
    ensures PurchaseFeedback(BuyResponded(Products.ReportedStatus(r) == 200, Products.ReportedDetail(r.cause).value)).0
              == Some("Error al realizar la compra: Error interno del servidor")
  {
    assert "Error al realizar la compra: " + "Error interno del servidor"
        == "Error al realizar la compra: Error interno del servidor";
  }

  /**
   Buying product "42" with the answer "3", and submitting "Widget" with stock
   "5" in create mode.
   */
  lemma Scenarios()
    ensures PurchaseRequest("42", Some("3")) == Some(Request(Post, Purchase, PurchaseData("42", 3)))
    ensures PurchaseRequest("42", None) == None && PurchaseRequest("42", Some("")) == None
    ensures SaveRequest(false, None, ProductForm("Widget", "", "9.99", "5")) ==
              Request(Post, AdminProducts, ProductData("Widget", "", "9.99", Num(5)))
  {
  }
}
