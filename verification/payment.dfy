/** The create-payment handler: validate the request, record the Order, sign a
    five-minute payload, send it to the gateway, record the pending
    OrderStatus, and answer with the payment link and the order id. The two
    database collections are sequences in a class; each library call (the two
    `create` writes, `jwt.sign`, `axios.post`) is an outcome passed in by the
    caller, so every combination of successes and failures can be stated. */
module Payment {
  import opened Js
  import opened Status

  /** A database-generated document id (`_id`). */
  type Id = string

  /** The request body's four fields, each possibly absent. */
  datatype CreatePaymentBody = CreatePaymentBody(
    school_id: Option<Value>,
    student_info: Option<Value>,
    order_amount: Option<Value>,
    gateway_name: Option<Value>)

  /** An Order document: no amount is stored on it. */
  datatype Order = Order(id: Id, school_id: Value, student_info: Value, gateway_name: Value)

  /** An OrderStatus document, linked to its Order by `collect_id`. */
  datatype OrderStatus = OrderStatus(collect_id: Id, order_amount: Value, status: Status, gateway_name: Value)

  /** The signed claims. */
  datatype Payload = Payload(collect_id: Id, order_amount: Value)

  /** A signed token: its claims, the issue time and the expiry, in seconds. */
  datatype Token = Token(payload: Payload, issuedAt: int, expiresAt: int)

  /** The body posted to the gateway: the claims plus the token. */
  datatype GatewayRequest = GatewayRequest(payload: Payload, token: Token)

  /** The settled outcome of a library call: its value, or the message of what it threw. */
  datatype Attempt<T> = Done(value: T) | Threw(message: string)

  /** The HTTP answer: 200 with the payment link and order id, 400, or 500. */
  datatype Reply =
    | Ok(payment_url: Value, order_id: Id)
    | BadRequest(message: string)
    | ServerError(error: string, details: string)

  const MissingFields := "Missing required fields"
  const CreationFailed := "Payment creation Failed"
  const DefaultGateway := "UPI"
  /** `expiresIn: "5m"`, in seconds. */
  const TokenLifetime := 300

  /** The validation: the three required fields must be truthy, so `0`, `""`,
      `false` and `null` are rejected as missing, while a negative amount passes. */
  predicate Complete(body: CreatePaymentBody) {
    Truthy(body.school_id) && Truthy(body.student_info) && Truthy(body.order_amount)
  }

  /** `gateway_name || "UPI"`. */
  function GatewayName(body: CreatePaymentBody): (g: Value)
    ensures Truthy(Some(g))
    ensures Truthy(body.gateway_name) ==> Some(g) == body.gateway_name
    ensures !Truthy(body.gateway_name) ==> g == Str(DefaultGateway)
  {
    if Truthy(body.gateway_name) then body.gateway_name.value else Str(DefaultGateway)
  }

  /** The Order written for a valid request: the school, the student and the
      chosen gateway, and not the amount. */
  function NewOrder(id: Id, body: CreatePaymentBody): Order
    requires Complete(body)
  {
    Order(id, body.school_id.value, body.student_info.value, GatewayName(body))
  }

  /** The OrderStatus written for a valid request: pending, for the new
      order, with the requested amount and the same gateway as the Order. */
  function InitialStatus(id: Id, body: CreatePaymentBody): OrderStatus
    requires Complete(body)
  {
    OrderStatus(id, body.order_amount.value, Pending, GatewayName(body))
  }

  /** The Order and its initial OrderStatus agree on the id and the gateway. */
  lemma RecordsLinked(id: Id, body: CreatePaymentBody)
    requires Complete(body)
    ensures InitialStatus(id, body).collect_id == NewOrder(id, body).id
    ensures InitialStatus(id, body).gateway_name == NewOrder(id, body).gateway_name
    ensures InitialStatus(id, body).status == Pending
    ensures Some(InitialStatus(id, body).order_amount) == body.order_amount
  {
  }

  /** `jwt.sign(payload, key, { expiresIn: "5m" })` at time `now` (seconds):
      the token carries the payload and expires five minutes after it is issued. */
  function IssueToken(payload: Payload, now: int): (t: Token)
    ensures t.payload == payload
    ensures t.issuedAt == now && t.expiresAt - t.issuedAt == TokenLifetime
  {
    Token(payload, now, now + TokenLifetime)
  }

  /** `response.data.redirect_url || null` on gateway data that is neither
      `undefined` nor `null`. */
  function PaymentUrl(data: Value): (u: Value)
    requires data != Null
    ensures Truthy(Prop(data, "redirect_url")) ==> Some(u) == Prop(data, "redirect_url")
    ensures !Truthy(Prop(data, "redirect_url")) ==> u == Null
  {
    var url := Prop(data, "redirect_url");
    if Truthy(url) then url.value else Null
  }

  /** The message `response.data.redirect_url` throws with when the gateway
      data is `undefined` or `null`. */
  function RedirectReadError(data: Option<Value>): string {
    "Cannot read properties of " + (if data.None? then "undefined" else "null") + " (reading 'redirect_url')"
  }

  /** The two collections the handler writes. */
  class PaymentService {
    var orders: seq<Order>
    var statuses: seq<OrderStatus>

    function OrderIds(): set<Id>
      reads this
    {
      set o | o in orders :: o.id
    }

    /** The store invariant: ids are unique, every OrderStatus belongs to an
        existing Order, and no Order has two OrderStatus records. */
    ghost predicate Valid()
      reads this
    {
      && (forall i, j :: 0 <= i < j < |orders| ==> orders[i].id != orders[j].id)
      && (forall i :: 0 <= i < |statuses| ==> statuses[i].collect_id in OrderIds())
      && (forall i, j :: 0 <= i < j < |statuses| ==> statuses[i].collect_id != statuses[j].collect_id)
    }

    /** Order `id` exists and has no OrderStatus. */
    ghost predicate Orphan(id: Id)
      reads this
    {
      id in OrderIds() && forall i :: 0 <= i < |statuses| ==> statuses[i].collect_id != id
    }

    constructor ()
      ensures Valid() && orders == [] && statuses == []
    {
      orders := [];
      statuses := [];
    }

    /** `createPayment`. `orderCreate` is the Order write (a fresh id, which the
        database guarantees is unused), `signing` the signing (the clock reading
        in seconds), `dispatch` the gateway call (the response's `data`), and
        `statusCreate` the OrderStatus write. `sent` is what was posted to the
        gateway, if anything. */
    method CreatePayment(body: CreatePaymentBody, orderCreate: Attempt<Id>, signing: Attempt<int>,
                         dispatch: Attempt<Option<Value>>, statusCreate: Attempt<()>)
      returns (reply: Reply, sent: Option<GatewayRequest>)
      requires Valid()
      requires orderCreate.Done? ==> orderCreate.value !in OrderIds()
      modifies this
      ensures Valid()
      // validation: a 400 exactly when a required field is falsy, and then nothing is written or sent
      ensures reply.BadRequest? <==> !Complete(body)
      ensures reply.BadRequest? ==> reply.message == MissingFields
      ensures !Complete(body) ==> orders == old(orders) && statuses == old(statuses) && sent.None?
      // the Order is written first, and only for a valid request
      ensures orders ==
        if Complete(body) && orderCreate.Done? then old(orders) + [NewOrder(orderCreate.value, body)]
        else old(orders)
      // the gateway is called only once the Order exists and the payload is signed
      ensures sent ==
        if Complete(body) && orderCreate.Done? && signing.Done?
        then Some(GatewayRequest(Payload(orderCreate.value, body.order_amount.value),
                                 IssueToken(Payload(orderCreate.value, body.order_amount.value), signing.value)))
        else None
      ensures sent.Some? ==> sent.value.token.expiresAt == sent.value.token.issuedAt + TokenLifetime
      // the OrderStatus is written last, and only after every earlier step succeeded
      ensures statuses ==
        if sent.Some? && dispatch.Done? && statusCreate.Done?
        then old(statuses) + [InitialStatus(orderCreate.value, body)]
        else old(statuses)
      // a failed sign, dispatch or status write is a 500 that leaves the new Order orphaned
      ensures Complete(body) && orderCreate.Done? && !(signing.Done? && dispatch.Done? && statusCreate.Done?)
        ==> reply.ServerError? && Orphan(orderCreate.value)
      ensures reply.ServerError? ==> reply.error == CreationFailed
      // the 200 answer
      ensures reply.Ok? <==> statuses != old(statuses) && !Nullish(dispatch.value)
      ensures reply.Ok? ==>
        reply == Ok(PaymentUrl(dispatch.value.value), orderCreate.value) &&
        orders == old(orders) + [NewOrder(orderCreate.value, body)] &&
        statuses == old(statuses) + [InitialStatus(orderCreate.value, body)]
    {
      sent := None;
      if !Complete(body) {
        reply := BadRequest(MissingFields);
        return;
      }
      var gateway := GatewayName(body);
      var amount := body.order_amount.value;

      if orderCreate.Threw? {
        reply := ServerError(CreationFailed, orderCreate.message);
        return;
      }
      var id := orderCreate.value;
      orders := orders + [Order(id, body.school_id.value, body.student_info.value, gateway)];
      assert id in OrderIds() by { assert orders[|orders| - 1].id == id; }

      var payload := Payload(id, amount);
      if signing.Threw? {
        reply := ServerError(CreationFailed, signing.message);
        return;
      }
      var token := IssueToken(payload, signing.value);

      sent := Some(GatewayRequest(payload, token));
      if dispatch.Threw? {
        reply := ServerError(CreationFailed, dispatch.message);
        return;
      }

      if statusCreate.Threw? {
        reply := ServerError(CreationFailed, statusCreate.message);
        return;
      }
      statuses := statuses + [OrderStatus(id, amount, Pending, gateway)];

      var data := dispatch.value;
      if Nullish(data) {
        reply := ServerError(CreationFailed, RedirectReadError(data));
        return;
      }
      reply := Ok(PaymentUrl(data.value), id);
    }
  }

  /** Validation rejects falsy values, not non-positive ones: an amount of 0
      and an empty school id are missing fields, a negative amount is not. */
  lemma ValidationIsTruthiness(student: Value)
    requires Truthy(Some(student))
    ensures !Complete(CreatePaymentBody(Some(Str("S1")), Some(student), Some(Num(0)), None))
    ensures !Complete(CreatePaymentBody(Some(Str("")), Some(student), Some(Num(500)), None))
    ensures Complete(CreatePaymentBody(Some(Str("S1")), Some(student), Some(Num(-500)), None))
  {
  }
}
