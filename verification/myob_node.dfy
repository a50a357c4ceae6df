/**
 * The node's `execute`: for every input item it builds a MYOB "Item" sales
 * order from the node parameters, POSTs it through `myobRequest`, and turns
 * the answer into output items.
 */
module MyobNode {
  import opened Wrappers
  import opened Js
  import opened MyobApi

  /** One `line` entry of the `linesItem` collection, as typed in the node's form. */
  datatype LineInput = LineInput(
    itemUid: string,
    qty: real,
    unitPrice: real,
    description: string,
    discountPercent: real,
    discountAmount: real,
    taxCodeUid: string,
    locationUid: string)

  /** An element of `linesItem`: the line sits under the key `line`. */
  datatype LineWrapper = LineWrapper(line: LineInput)

  /** A `{ UID: ... }` reference. */
  datatype UidRef = UidRef(uid: string)

  /** A MYOB item sales-order line; `None` is a key that is not set. */
  datatype OrderLine = OrderLine(
    item: UidRef,
    shipQuantity: real,
    unitPrice: real,
    description: Option<string>,
    discountPercent: Option<real>,
    discountAmount: Option<real>,
    taxCode: Option<UidRef>,
    location: Option<UidRef>)

  /** The node parameters as evaluated for one input item. */
  datatype NodeParams = NodeParams(
    baseUrl: string,
    resource: string,
    operation: string,
    linesItem: seq<LineWrapper>,
    customerUid: string,
    isTaxInclusive: bool,
    journalMemo: string,
    customerPo: string,
    promisedDate: string,
    freight: real,
    freightTaxCodeUid: string)

  /** The sales-order payload; `None` is a property left `undefined`. */
  datatype SalesOrder = SalesOrder(
    orderType: string,
    customer: UidRef,
    isTaxInclusive: bool,
    journalMemo: Option<string>,
    customerPurchaseOrderNumber: Option<string>,
    promisedDate: Option<string>,
    freight: Option<real>,
    freightTaxCode: Option<UidRef>,
    lines: seq<OrderLine>)

  /** One output item, `{ json: ... }`. */
  datatype OutputItem = OutputItem(json: Value)

  /** Why `execute` throws. */
  datatype ExecError =
    | NotImplemented          // `new Error('Operation not implemented')`
    | Thrown(error: Value)    // whatever the request helper threw

  const SalesOrderResource := "salesOrder"
  const CreateItemOperation := "createItem"
  const SalesOrderEndpoint := "/Sale/Order/Item"

  /** A text field is kept only when it is truthy, that is non-empty. */
  function TextIfSet(s: string): Option<string>
  {
    if Truthy(Str(s)) then Some(s) else None
  }

  /** A number field is kept only when it is truthy, that is non-zero. */
  function NumberIfSet(n: real): Option<real>
  {
    if Truthy(Num(n)) then Some(n) else None
  }

  /** A UID becomes a reference only when it is non-empty. */
  function RefIfSet(uid: string): Option<UidRef>
  {
    if Truthy(Str(uid)) then Some(UidRef(uid)) else None
  }

  /** Maps one form line to a MYOB line. */
  function MapLine(l: LineInput): (r: OrderLine)
    ensures r.item == UidRef(l.itemUid) && r.shipQuantity == l.qty && r.unitPrice == l.unitPrice
    ensures r.description.Some? <==> l.description != ""
    ensures r.description.Some? ==> r.description.value == l.description
    ensures r.discountPercent.Some? <==> l.discountPercent != 0.0
    ensures r.discountPercent.Some? ==> r.discountPercent.value == l.discountPercent
    ensures r.discountAmount.Some? <==> l.discountAmount != 0.0
    ensures r.discountAmount.Some? ==> r.discountAmount.value == l.discountAmount
    ensures r.taxCode.Some? <==> l.taxCodeUid != ""
    ensures r.taxCode.Some? ==> r.taxCode.value == UidRef(l.taxCodeUid)
    ensures r.location.Some? <==> l.locationUid != ""
    ensures r.location.Some? ==> r.location.value == UidRef(l.locationUid)
  {
    OrderLine(
      UidRef(l.itemUid), l.qty, l.unitPrice,
      TextIfSet(l.description),
      NumberIfSet(l.discountPercent),
      NumberIfSet(l.discountAmount),
      RefIfSet(l.taxCodeUid),
      RefIfSet(l.locationUid))
  }

  /** Unwraps each `line` and maps it, keeping the collection's order. */
  function MapLines(ws: seq<LineWrapper>): (r: seq<OrderLine>)
    ensures |r| == |ws|
    ensures forall k :: 0 <= k < |ws| ==> r[k] == MapLine(ws[k].line)
    decreases |ws|
  {
    if |ws| == 0 then [] else [MapLine(ws[0].line)] + MapLines(ws[1..])
  }

  /** The two discounts are decided independently: neither depends on the other input. */
  lemma DiscountsIndependent(l: LineInput, percent: real, amount: real)
    ensures MapLine(l.(discountAmount := amount)).discountPercent == MapLine(l).discountPercent
    ensures MapLine(l.(discountPercent := percent)).discountAmount == MapLine(l).discountAmount
    ensures percent != 0.0 && amount != 0.0 ==>
              var r := MapLine(l.(discountPercent := percent, discountAmount := amount));
              r.discountPercent == Some(percent) && r.discountAmount == Some(amount)
  {
  }

  /** Assembles the sales-order payload for one input item. */
  function BuildOrder(p: NodeParams): (o: SalesOrder)
    ensures o.orderType == "Item" && o.customer == UidRef(p.customerUid)
    ensures o.isTaxInclusive == p.isTaxInclusive
    ensures o.journalMemo.None? <==> p.journalMemo == ""
    ensures o.journalMemo.Some? ==> o.journalMemo.value == p.journalMemo
    ensures o.customerPurchaseOrderNumber.None? <==> p.customerPo == ""
    ensures o.customerPurchaseOrderNumber.Some? ==> o.customerPurchaseOrderNumber.value == p.customerPo
    ensures o.promisedDate.None? <==> p.promisedDate == ""
    ensures o.promisedDate.Some? ==> o.promisedDate.value == p.promisedDate
    ensures o.freight.None? <==> p.freight == 0.0
    ensures o.freight.Some? ==> o.freight.value == p.freight
    ensures o.freightTaxCode.None? <==> p.freightTaxCodeUid == ""
    ensures o.freightTaxCode.Some? ==> o.freightTaxCode.value == UidRef(p.freightTaxCodeUid)
    ensures |o.lines| == |p.linesItem|
    ensures forall k :: 0 <= k < |o.lines| ==> o.lines[k] == MapLine(p.linesItem[k].line)
  {
    SalesOrder(
      "Item",
      UidRef(p.customerUid),
      p.isTaxInclusive,
      TextIfSet(p.journalMemo),
      TextIfSet(p.customerPo),
      TextIfSet(p.promisedDate),
      NumberIfSet(p.freight),
      RefIfSet(p.freightTaxCodeUid),
      MapLines(p.linesItem))
  }

  // ---------- The payload as it goes on the wire ----------

  function RefJson(u: UidRef): Value
  {
    Obj(map["UID" := Str(u.uid)])
  }

  /** `{k}` when `present` holds, `{}` otherwise. */
  function KeyIf(present: bool, key: string): set<string>
  {
    if present then {key} else {}
  }

  /** The keys a line object carries: the mandatory ones and each optional one that is set. */
  function LineKeys(l: OrderLine): set<string>
  {
    {"Item", "ShipQuantity", "UnitPrice"}
    + KeyIf(l.description.Some?, "Description")
    + KeyIf(l.discountPercent.Some?, "DiscountPercent")
    + KeyIf(l.discountAmount.Some?, "DiscountAmount")
    + KeyIf(l.taxCode.Some?, "TaxCode")
    + KeyIf(l.location.Some?, "Location")
  }

  /** The value a line object holds under one of its keys. */
  function LineField(l: OrderLine, key: string): Value
    requires key in LineKeys(l)
  {
    if key == "Item" then RefJson(l.item)
    else if key == "ShipQuantity" then Num(l.shipQuantity)
    else if key == "UnitPrice" then Num(l.unitPrice)
    else if key == "Description" then Str(l.description.value)
    else if key == "DiscountPercent" then Num(l.discountPercent.value)
    else if key == "DiscountAmount" then Num(l.discountAmount.value)
    else if key == "TaxCode" then RefJson(l.taxCode.value)
    else RefJson(l.location.value)
  }

  /** The line object as serialised: a property left unset is not sent. */
  function LineJson(l: OrderLine): Value
  {
    Obj(map key | key in LineKeys(l) :: LineField(l, key))
  }

  function LinesJson(lines: seq<OrderLine>): (v: Value)
    ensures v.Arr? && |v.elems| == |lines|
    ensures forall k :: 0 <= k < |lines| ==> v.elems[k] == LineJson(lines[k])
  {
    Arr(seq(|lines|, k requires 0 <= k < |lines| => LineJson(lines[k])))
  }

  /** The keys the order object carries: the fixed ones and each optional one that is set. */
  function OrderKeys(o: SalesOrder): set<string>
  {
    {"OrderType", "Customer", "IsTaxInclusive", "Lines"}
    + KeyIf(o.journalMemo.Some?, "JournalMemo")
    + KeyIf(o.customerPurchaseOrderNumber.Some?, "CustomerPurchaseOrderNumber")
    + KeyIf(o.promisedDate.Some?, "PromisedDate")
    + KeyIf(o.freight.Some?, "Freight")
    + KeyIf(o.freightTaxCode.Some?, "FreightTaxCode")
  }

  /** The value the order object holds under one of its keys. */
  function OrderField(o: SalesOrder, key: string): Value
    requires key in OrderKeys(o)
  {
    if key == "OrderType" then Str(o.orderType)
    else if key == "Customer" then RefJson(o.customer)
    else if key == "IsTaxInclusive" then Bool(o.isTaxInclusive)
    else if key == "Lines" then LinesJson(o.lines)
    else if key == "JournalMemo" then Str(o.journalMemo.value)
    else if key == "CustomerPurchaseOrderNumber" then Str(o.customerPurchaseOrderNumber.value)
    else if key == "PromisedDate" then Str(o.promisedDate.value)
    else if key == "Freight" then Num(o.freight.value)
    else RefJson(o.freightTaxCode.value)
  }

  /** The order object as serialised: a property left `undefined` is not sent. */
  function OrderJson(o: SalesOrder): Value
  {
    Obj(map key | key in OrderKeys(o) :: OrderField(o, key))
  }

  /** Reading a line object's property yields the field under that key, or `undefined`. */
  lemma LineGet(l: OrderLine, key: string)
    ensures Get(LineJson(l), key) == if key in LineKeys(l) then LineField(l, key) else Undefined
  {
  }

  /** The line object carries exactly the keys of the fields that are set, the mandatory ones unchanged. */
  lemma LineObjectMandatory(l: OrderLine)
    ensures LineJson(l).fields.Keys == LineKeys(l)
    ensures Get(LineJson(l), "Item") == RefJson(l.item)
    ensures Get(LineJson(l), "ShipQuantity") == Num(l.shipQuantity)
    ensures Get(LineJson(l), "UnitPrice") == Num(l.unitPrice)
  {
    LineGet(l, "Item");
    LineGet(l, "ShipQuantity");
    LineGet(l, "UnitPrice");
  }

  /** The description and the discounts of a line are sent when set and absent otherwise. */
  lemma LineObjectTextAndDiscounts(l: OrderLine)
    ensures Get(LineJson(l), "Description") == if l.description.Some? then Str(l.description.value) else Undefined
    ensures Get(LineJson(l), "DiscountPercent") == if l.discountPercent.Some? then Num(l.discountPercent.value) else Undefined
    ensures Get(LineJson(l), "DiscountAmount") == if l.discountAmount.Some? then Num(l.discountAmount.value) else Undefined
  {
    LineGet(l, "Description");
    LineGet(l, "DiscountPercent");
    LineGet(l, "DiscountAmount");
  }

  /** The tax code and location references of a line are sent when set and absent otherwise. */
  lemma LineObjectRefs(l: OrderLine)
    ensures Get(LineJson(l), "TaxCode") == if l.taxCode.Some? then RefJson(l.taxCode.value) else Undefined
    ensures Get(LineJson(l), "Location") == if l.location.Some? then RefJson(l.location.value) else Undefined
  {
    LineGet(l, "TaxCode");
    LineGet(l, "Location");
  }

  /**
   * The serialised line carries the three mandatory keys and exactly those
   * optional keys whose form field is set.
   */
  lemma LineJsonKeys(l: LineInput)
    ensures LineJson(MapLine(l)).fields.Keys ==
              {"Item", "ShipQuantity", "UnitPrice"}
              + KeyIf(l.description != "", "Description")
              + KeyIf(l.discountPercent != 0.0, "DiscountPercent")
              + KeyIf(l.discountAmount != 0.0, "DiscountAmount")
              + KeyIf(l.taxCodeUid != "", "TaxCode")
              + KeyIf(l.locationUid != "", "Location")
  {
    var r := MapLine(l);
    LineObjectMandatory(r);
    assert r.description.Some? == (l.description != "");
    assert r.discountPercent.Some? == (l.discountPercent != 0.0);
    assert r.discountAmount.Some? == (l.discountAmount != 0.0);
    assert r.taxCode.Some? == (l.taxCodeUid != "");
    assert r.location.Some? == (l.locationUid != "");
  }

  /** The mandatory keys of the serialised line hold the form's values, unchanged. */
  lemma LineJsonMandatory(l: LineInput)
    ensures var v := LineJson(MapLine(l));
            && Get(v, "Item") == Obj(map["UID" := Str(l.itemUid)])
            && Get(v, "ShipQuantity") == Num(l.qty)
            && Get(v, "UnitPrice") == Num(l.unitPrice)
  {
    LineObjectMandatory(MapLine(l));
  }

  /**
   * The description and discount keys of the serialised line hold the form's
   * value when it is set (a non-empty text, a non-zero number) and read
   * `undefined` otherwise.
   */
  lemma LineJsonTextAndDiscounts(l: LineInput)
    ensures var v := LineJson(MapLine(l));
            && Get(v, "Description") == (if l.description != "" then Str(l.description) else Undefined)
            && Get(v, "DiscountPercent") == (if l.discountPercent != 0.0 then Num(l.discountPercent) else Undefined)
            && Get(v, "DiscountAmount") == (if l.discountAmount != 0.0 then Num(l.discountAmount) else Undefined)
  {
    LineObjectTextAndDiscounts(MapLine(l));
  }

  /** The tax code and location keys of the serialised line reference the form's UIDs when given. */
  lemma LineJsonRefs(l: LineInput)
    ensures var v := LineJson(MapLine(l));
            && Get(v, "TaxCode") == (if l.taxCodeUid != "" then Obj(map["UID" := Str(l.taxCodeUid)]) else Undefined)
            && Get(v, "Location") == (if l.locationUid != "" then Obj(map["UID" := Str(l.locationUid)]) else Undefined)
  {
    LineObjectRefs(MapLine(l));
  }

  /** Reading an order object's property yields the field under that key, or `undefined`. */
  lemma OrderGet(o: SalesOrder, key: string)
    ensures Get(OrderJson(o), key) == if key in OrderKeys(o) then OrderField(o, key) else Undefined
  {
  }

  /** The order object carries exactly the keys of the fields that are set, the fixed ones unchanged. */
  lemma OrderObjectFixed(o: SalesOrder)
    ensures OrderJson(o).fields.Keys == OrderKeys(o)
    ensures Get(OrderJson(o), "OrderType") == Str(o.orderType)
    ensures Get(OrderJson(o), "Customer") == RefJson(o.customer)
    ensures Get(OrderJson(o), "IsTaxInclusive") == Bool(o.isTaxInclusive)
    ensures Get(OrderJson(o), "Lines") == LinesJson(o.lines)
  {
    OrderGet(o, "OrderType");
    OrderGet(o, "Customer");
    OrderGet(o, "IsTaxInclusive");
    OrderGet(o, "Lines");
  }

  /** The memo and promised date are sent when set and absent otherwise. */
  lemma OrderObjectText(o: SalesOrder)
    ensures Get(OrderJson(o), "JournalMemo") == if o.journalMemo.Some? then Str(o.journalMemo.value) else Undefined
    ensures Get(OrderJson(o), "PromisedDate") == if o.promisedDate.Some? then Str(o.promisedDate.value) else Undefined
  {
    OrderGet(o, "JournalMemo");
    OrderGet(o, "PromisedDate");
  }

  /** The purchase-order number is sent when set and absent otherwise. */
  lemma OrderObjectPurchaseOrder(o: SalesOrder)
    ensures Get(OrderJson(o), "CustomerPurchaseOrderNumber") ==
              if o.customerPurchaseOrderNumber.Some? then Str(o.customerPurchaseOrderNumber.value) else Undefined
  {
    OrderGet(o, "CustomerPurchaseOrderNumber");
  }

  /** The freight and its tax code are sent when set and absent otherwise. */
  lemma OrderObjectFreight(o: SalesOrder)
    ensures Get(OrderJson(o), "Freight") == if o.freight.Some? then Num(o.freight.value) else Undefined
    ensures Get(OrderJson(o), "FreightTaxCode") == if o.freightTaxCode.Some? then RefJson(o.freightTaxCode.value) else Undefined
  {
    OrderGet(o, "Freight");
    OrderGet(o, "FreightTaxCode");
  }

  /**
   * The serialised order carries its four fixed keys and exactly those
   * optional keys whose parameter is set.
   */
  lemma OrderJsonKeys(p: NodeParams)
    ensures OrderJson(BuildOrder(p)).fields.Keys ==
              {"OrderType", "Customer", "IsTaxInclusive", "Lines"}
              + KeyIf(p.journalMemo != "", "JournalMemo")
              + KeyIf(p.customerPo != "", "CustomerPurchaseOrderNumber")
              + KeyIf(p.promisedDate != "", "PromisedDate")
              + KeyIf(p.freight != 0.0, "Freight")
              + KeyIf(p.freightTaxCodeUid != "", "FreightTaxCode")
  {
    var o := BuildOrder(p);
    OrderObjectFixed(o);
    assert o.journalMemo.Some? == (p.journalMemo != "");
    assert o.customerPurchaseOrderNumber.Some? == (p.customerPo != "");
    assert o.promisedDate.Some? == (p.promisedDate != "");
    assert o.freight.Some? == (p.freight != 0.0);
    assert o.freightTaxCode.Some? == (p.freightTaxCodeUid != "");
  }

  /** The fixed keys of the serialised order hold the parameters, unchanged. */
  lemma OrderJsonFixed(p: NodeParams)
    ensures var v := OrderJson(BuildOrder(p));
            && Get(v, "OrderType") == Str("Item")
            && Get(v, "Customer") == Obj(map["UID" := Str(p.customerUid)])
            && Get(v, "IsTaxInclusive") == Bool(p.isTaxInclusive)
  {
    OrderObjectFixed(BuildOrder(p));
  }

  /** `Lines` lists the serialised lines, one per form line, in form order. */
  lemma OrderJsonLines(p: NodeParams)
    ensures var v := Get(OrderJson(BuildOrder(p)), "Lines");
            && v.Arr?
            && |v.elems| == |p.linesItem|
            && (forall k :: 0 <= k < |p.linesItem| ==> v.elems[k] == LineJson(MapLine(p.linesItem[k].line)))
  {
    OrderObjectFixed(BuildOrder(p));
  }

  /**
   * The memo, purchase-order number and promised-date keys of the serialised
   * order hold the parameter when it is non-empty and read `undefined` otherwise.
   */
  lemma OrderJsonText(p: NodeParams)
    ensures var v := OrderJson(BuildOrder(p));
            && Get(v, "JournalMemo") == (if p.journalMemo != "" then Str(p.journalMemo) else Undefined)
            && Get(v, "CustomerPurchaseOrderNumber") == (if p.customerPo != "" then Str(p.customerPo) else Undefined)
            && Get(v, "PromisedDate") == (if p.promisedDate != "" then Str(p.promisedDate) else Undefined)
  {
    OrderObjectText(BuildOrder(p));
    OrderObjectPurchaseOrder(BuildOrder(p));
  }

  /**
   * The freight key holds the freight when it is non-zero and the freight tax
   * code references its UID when one is given; each reads `undefined` otherwise.
   */
  lemma OrderJsonFreight(p: NodeParams)
    ensures var v := OrderJson(BuildOrder(p));
            && Get(v, "Freight") == (if p.freight != 0.0 then Num(p.freight) else Undefined)
            && Get(v, "FreightTaxCode") ==
                 (if p.freightTaxCodeUid != "" then Obj(map["UID" := Str(p.freightTaxCodeUid)]) else Undefined)
  {
    OrderObjectFreight(BuildOrder(p));
  }

  // ---------- Output ----------

  /** The answer as a list of outputs: an array is spread, `null` or `undefined` becomes `{}`, anything else is one output. */
  function Normalize(res: Value): (out: seq<Value>)
    ensures res.Arr? ==> out == res.elems
    ensures Nullish(res) ==> out == [EmptyObject]
    ensures !res.Arr? && !Nullish(res) ==> out == [res]
    ensures |out| == 0 <==> res == Arr([])
  {
    if Truthy(res) && res.Arr? then res.elems
    else [if Nullish(res) then EmptyObject else res]
  }

  function AsItems(vs: seq<Value>): (r: seq<OutputItem>)
    ensures |r| == |vs| && forall k :: 0 <= k < |vs| ==> r[k].json == vs[k]
  {
    seq(|vs|, k requires 0 <= k < |vs| => OutputItem(vs[k]))
  }

  /** The request an item with the supported resource and operation issues. */
  function SalesOrderRequest(p: NodeParams, creds: Credentials): RequestOptions
  {
    BuildOptions(creds, "POST", SalesOrderEndpoint, OrderJson(BuildOrder(p)), map[], p.baseUrl)
  }

  /**
   * The loop body of `execute` for one input item. Any other resource or
   * operation throws without issuing a request; the supported pair issues
   * the order request, and the item's outcome is decided by the host's
   * answer to that one request alone.
   */
  function ProcessItem(p: NodeParams, creds: Credentials, host: RequestOptions -> HostOutcome)
    : (r: Result<seq<OutputItem>, ExecError>)
    ensures !(p.resource == SalesOrderResource && p.operation == CreateItemOperation) ==>
              r == Failure(NotImplemented)
    ensures p.resource == SalesOrderResource && p.operation == CreateItemOperation ==>
              r == PostOutputs(host(SalesOrderRequest(p, creds)))
  {
    if p.resource == SalesOrderResource && p.operation == CreateItemOperation then
      match Request(creds, "POST", SalesOrderEndpoint, OrderJson(BuildOrder(p)), map[], p.baseUrl, host)
      case Failure(e) => Failure(Thrown(e))
      case Success(res) => Success(AsItems(Normalize(res)))
    else
      Failure(NotImplemented)
  }

  /** What the item yields once the host has answered the order POST. */
  function PostOutputs(answer: HostOutcome): Result<seq<OutputItem>, ExecError>
  {
    match answer
    case Threw(e) => Failure(Thrown(e))
    case Returned(v) => Success(AsItems(Normalize(PostProcess("POST", v))))
  }

  /**
   * The order request is a POST of the serialised order to
   * `baseUrl + "/Sale/Order/Item"`, with no query string and the credentials' headers.
   */
  lemma SalesOrderRequestShape(p: NodeParams, creds: Credentials)
    ensures var req := SalesOrderRequest(p, creds);
            && req.httpMethod == "POST"
            && req.uri == p.baseUrl + SalesOrderEndpoint
            && req.body == OrderJson(BuildOrder(p))
            && req.qs == map[]
            && req.headers == Headers(creds)
  {
    var req := SalesOrderRequest(p, creds);
    assert req.uri == req.uri[..|p.baseUrl|] + req.uri[|p.baseUrl|..];
  }

  /** An `undefined` answer to the order POST outputs the synthetic `201 Created` object. */
  lemma UndefinedAnswerOutputsCreated()
    ensures PostOutputs(Returned(Undefined)) == Success([OutputItem(SyntheticCreated)])
  {
    SyntheticIsFullResponse();
    assert Normalize(SyntheticCreated) == [SyntheticCreated];
    assert AsItems([SyntheticCreated]) == [OutputItem(SyntheticCreated)];
  }

  /** A `null` answer outputs one empty object. */
  lemma NullAnswerOutputsEmptyObject()
    ensures PostOutputs(Returned(Null)) == Success([OutputItem(EmptyObject)])
  {
    assert AsItems([EmptyObject]) == [OutputItem(EmptyObject)];
  }

  /** A full response to the POST is output whole, as a single item: its body is not extracted. */
  lemma FullResponseOutputWhole(v: Value)
    requires IsFullResponse(v)
    ensures PostOutputs(Returned(v)) == Success([OutputItem(v)])
  {
    assert AsItems([v]) == [OutputItem(v)];
  }

  /** An array answer is spread: one output item per element, in order. */
  lemma ArrayAnswerSpread(xs: seq<Value>)
    ensures PostOutputs(Returned(Arr(xs))).Success?
    ensures |PostOutputs(Returned(Arr(xs))).value| == |xs|
    ensures forall k :: 0 <= k < |xs| ==> PostOutputs(Returned(Arr(xs))).value[k].json == xs[k]
  {
  }

  /** An answer yields no output item only when it is an empty array. */
  lemma NoOutputOnlyForEmptyArray(v: Value)
    ensures PostOutputs(Returned(v)).Success?
    ensures |PostOutputs(Returned(v)).value| == 0 <==> v == Arr([])
  {
    if v.Undefined? {
      SyntheticIsFullResponse();
    }
  }

  // ---------- The loop over input items ----------

  /** The host's request helper, as called for the item at a given index. */
  function HostFor(host: (nat, RequestOptions) -> HostOutcome, i: nat): RequestOptions -> HostOutcome
  {
    o => host(i, o)
  }

  /** The loop body of `execute` as a step over (item, index). */
  function StepFor(creds: Credentials, host: (nat, RequestOptions) -> HostOutcome)
    : (NodeParams, nat) -> Result<seq<OutputItem>, ExecError>
  {
    (p: NodeParams, i: nat) => ProcessItem(p, creds, HostFor(host, i))
  }

  /** What a step makes of each item, in input order. */
  function Outcomes<P, T, E>(items: seq<P>, step: (P, nat) -> Result<seq<T>, E>): (r: seq<Result<seq<T>, E>>)
    ensures |r| == |items|
    ensures forall i :: 0 <= i < |items| ==> r[i] == step(items[i], i)
  {
    seq(|items|, i requires 0 <= i < |items| => step(items[i], i))
  }

  /** The first `n` outcomes are all successes. */
  predicate AllSucceed<T, E>(outcomes: seq<Result<seq<T>, E>>, n: nat)
    requires n <= |outcomes|
  {
    forall j :: 0 <= j < n ==> outcomes[j].Success?
  }

  /** The outputs of the first `n` outcomes, appended in order. */
  function Collected<T, E>(outcomes: seq<Result<seq<T>, E>>, n: nat): seq<T>
    requires n <= |outcomes| && AllSucceed(outcomes, n)
  {
    if n == 0 then [] else Collected(outcomes, n - 1) + outcomes[n - 1].value
  }

  /**
   * The `for` loop of `execute`: runs the step on each item in order,
   * appending its outputs, and stops at the first step that throws.
   */
  method RunInOrder<P, T, E>(items: seq<P>, step: (P, nat) -> Result<seq<T>, E>)
    returns (r: Result<seq<T>, E>)
    ensures var outcomes := Outcomes(items, step);
            && (r.Success? <==> AllSucceed(outcomes, |items|))
            && (r.Success? ==> r.value == Collected(outcomes, |items|))
            && (r.Failure? ==>
                  exists k :: 0 <= k < |items| && AllSucceed(outcomes, k) && outcomes[k] == Failure(r.error))
  {
    ghost var outcomes := Outcomes(items, step);
    var acc: seq<T> := [];
    var i := 0;
    while i < |items|
      invariant i <= |items|
      invariant AllSucceed(outcomes, i)
      invariant acc == Collected(outcomes, i)
    {
      var res := step(items[i], i);
      if res.Failure? {
        return Failure(res.error);
      }
      acc := acc + res.value;
      i := i + 1;
    }
    return Success(acc);
  }

  /**
   * `execute`: every item is processed in input order; the outputs are
   * appended, and the first item that throws ends the run with its error.
   */
  method Execute(items: seq<NodeParams>, creds: Credentials, host: (nat, RequestOptions) -> HostOutcome)
    returns (r: Result<seq<OutputItem>, ExecError>)
    ensures var outcomes := Outcomes(items, StepFor(creds, host));
            && (r.Success? <==> AllSucceed(outcomes, |items|))
            && (r.Success? ==> r.value == Collected(outcomes, |items|))
            && (r.Failure? ==>
                  exists k :: 0 <= k < |items| && AllSucceed(outcomes, k) && outcomes[k] == Failure(r.error))
  {
    r := RunInOrder(items, StepFor(creds, host));
  }

  /** The outcome recorded for item `i` is what the loop body makes of it. */
  lemma OutcomeOfItem(items: seq<NodeParams>, creds: Credentials, host: (nat, RequestOptions) -> HostOutcome, i: nat)
    requires i < |items|
    ensures Outcomes(items, StepFor(creds, host))[i] == ProcessItem(items[i], creds, HostFor(host, i))
  {
  }

  /** Earlier items' outputs come first: the outputs of a prefix are a prefix of the outputs. */
  lemma {:induction false} CollectedPrefix<T, E>(outcomes: seq<Result<seq<T>, E>>, m: nat, n: nat)
    requires m <= n <= |outcomes| && AllSucceed(outcomes, n)
    ensures Collected(outcomes, m) <= Collected(outcomes, n)
    decreases n - m
  {
    if m < n {
      CollectedPrefix(outcomes, m, n - 1);
    }
  }

  /**
   * The outputs of item `k` sit contiguously right after those of the items
   * before it.
   */
  lemma {:induction false} ItemOutputsInPlace<T, E>(outcomes: seq<Result<seq<T>, E>>, k: nat, n: nat)
    requires k < n <= |outcomes| && AllSucceed(outcomes, n)
    ensures var all := Collected(outcomes, n);
            var start := |Collected(outcomes, k)|;
            var out := outcomes[k].value;
            start + |out| <= |all| && all[start..start + |out|] == out
  {
    CollectedPrefix(outcomes, k + 1, n);
    var all := Collected(outcomes, n);
    var before := Collected(outcomes, k);
    var out := outcomes[k].value;
    var pre := Collected(outcomes, k + 1);
    assert pre == before + out;
    assert |pre| <= |all| && all[..|pre|] == pre;
    forall i | 0 <= i < |out|
      ensures all[|before| + i] == out[i]
    {
      assert all[|before| + i] == pre[|before| + i];
    }
  }
}
