/** The status-check page: one input (a custom order id), a check handler that
    fetches the status record, and the badge and amount rows drawn from the
    fetched record. */
module StatusCheck {
  import opened Js
  import opened Text
  import opened Status
  import Table
  import React

  datatype Icon = CheckCircle | Clock | XCircle

  /** A status badge: its caption, colour and optional icon. */
  datatype Badge = Badge(caption: string, tone: Tone, icon: Option<Icon>)

  /** What `renderStatusBadge()` yields: nothing, a badge, an empty badge
      (a lookup that hit an inherited member of the mapping object, see
      `StatusBadgeAsWritten`), or the `TypeError` thrown by `toUpperCase` on a
      status that is not a string. */
  datatype BadgeView = NoBadge | Shown(badge: Badge) | Blank | Crash

  /** One amount row: shown with the text React draws for its amount after
      the `₹`, absent, for an amount of `0` the stray text `0` that React
      renders for `{0 && <row/>}`, or an amount React refuses as a child (a
      plain object), which abandons the render. */
  datatype Slot = AmountRow(text: seq<Value>) | Absent | StrayZero | NotAChild

  /** The result area under the input: nothing, the text `0` that React
      draws for `{0 && …}` when the result itself is `0`, the error box with
      the text React draws for the error, the details, or a render abandoned
      because the badge or a child threw. */
  datatype ResultView =
    | NoResult
    | ZeroText
    | ErrorBox(text: seq<Value>)
    | Details(badge: BadgeView, transactionAmount: Slot, orderAmount: Slot)
    | Crashed

  const FetchError := "Failed to fetch status"

  /** The record stored when the fetch fails. */
  const ErrorResult: Value := Obj(map["error" := Str(FetchError)])

  const SuccessBadge := Badge("SUCCESS", Green, Some(CheckCircle))
  const PendingBadge := Badge("PENDING", Yellow, Some(Clock))
  const FailedBadge := Badge("FAILED", Red, Some(XCircle))
  const UnknownBadge := Badge("UNKNOWN", Gray, None)

  /** The own keys of the `mapping` object literal's prototype,
      `Object.prototype`: `mapping[k]` is truthy for each of them. */
  const InheritedKeys: set<string> := {
    "constructor", "hasOwnProperty", "isPrototypeOf", "propertyIsEnumerable",
    "toLocaleString", "toString", "valueOf", "__proto__",
    "__defineGetter__", "__defineSetter__", "__lookupGetter__", "__lookupSetter__"
  }

  /** `!status || status.error`: no badge for no result or an error result. */
  predicate Suppressed(status: Option<Value>) {
    !Truthy(status) || Truthy(OptProp(status, "error"))
  }

  /** `renderStatusBadge()` with the mapping consulted by own keys only: exactly
      `success`, `pending` and `failed` (case-sensitive) get their own badge;
      any other string is gray, icon-less and captioned with its upper-cased
      text, or `UNKNOWN` when empty; a missing or `null` status is `UNKNOWN`;
      any other kind of status throws. */
  function StatusBadge(status: Option<Value>): (r: BadgeView)
    ensures r.NoBadge? <==> Suppressed(status)
    ensures !r.Blank?
    ensures !Suppressed(status) ==>
      var st := OptProp(status, "status");
      && (r == Shown(SuccessBadge) <==> st == Some(Str("success")))
      && (r == Shown(PendingBadge) <==> st == Some(Str("pending")))
      && (r == Shown(FailedBadge) <==> st == Some(Str("failed")))
      && (r.Crash? <==> !Nullish(st) && !st.value.Str?)
      && (Nullish(st) ==> r == Shown(UnknownBadge))
  {
    if Suppressed(status) then NoBadge
    else
      match OptProp(status, "status")
      case None => Shown(UnknownBadge)
      case Some(Null) => Shown(UnknownBadge)
      case Some(Str(s)) =>
        (match ParseStatus(s)
         case Success => Shown(SuccessBadge)
         case Pending => Shown(PendingBadge)
         case Failed => Shown(FailedBadge)
         case Other(_) =>
           var caption := ToUpper(s);
           Shown(Badge(if caption == "" then "UNKNOWN" else caption, Gray, None)))
      case Some(_) => Crash
  }

  /** Any status string other than the three lower-case keywords gets a gray,
      icon-less badge captioned with its upper-cased text (`UNKNOWN` if empty). */
  lemma OtherStatusBadge(status: Value, s: string)
    requires Truthy(Some(status)) && !Truthy(Prop(status, "error"))
    requires Prop(status, "status") == Some(Str(s))
    requires s != "success" && s != "pending" && s != "failed"
    ensures StatusBadge(Some(status)) ==
      Shown(Badge(if s == "" then "UNKNOWN" else ToUpper(s), Gray, None))
  {
  }

  /** `renderStatusBadge()` exactly as written: `mapping[status.status]` also
      finds the members every object inherits, so a status such as `toString`
      yields a truthy function instead of the gray fallback, and the badge is
      drawn with no caption and no colour. */
  function StatusBadgeAsWritten(status: Option<Value>): (r: BadgeView)
    ensures r.Blank? <==>
      !Suppressed(status) && OptProp(status, "status").Some? &&
      OptProp(status, "status").value.Str? && OptProp(status, "status").value.s in InheritedKeys
    ensures !r.Blank? ==> r == StatusBadge(status)
  {
    if !Suppressed(status) then
      match OptProp(status, "status")
      case Some(Str(s)) => if s in InheritedKeys then Blank else StatusBadge(status)
      case _ => StatusBadge(status)
    else StatusBadge(status)
  }

  /** The discrepancy: a record whose status names an inherited member, such
      as `toString`, gets an empty badge as written, where the fallback
      promises a gray badge captioned with the upper-cased status. */
  lemma InheritedKeyBadge(s: string)
    requires s in InheritedKeys
    ensures StatusBadgeAsWritten(Some(Obj(map["status" := Str(s)]))) == Blank
    ensures StatusBadge(Some(Obj(map["status" := Str(s)]))) == Shown(Badge(ToUpper(s), Gray, None))
  {
    StatusRecord(s);
    InheritedKeysAreOther(s);
    OtherStatusBadge(Obj(map["status" := Str(s)]), s);
  }

  /** A record holding only a status is a truthy, error-free record. */
  lemma StatusRecord(s: string)
    ensures Truthy(Some(Obj(map["status" := Str(s)])))
    ensures !Truthy(Prop(Obj(map["status" := Str(s)]), "error"))
    ensures Prop(Obj(map["status" := Str(s)]), "status") == Some(Str(s))
  {
  }

  /** No inherited member's name is empty or one of the three keywords. */
  lemma InheritedKeysAreOther(s: string)
    requires s in InheritedKeys
    ensures s != "" && s != "success" && s != "pending" && s != "failed"
  {
  }

  /** An amount row is attempted only for a truthy amount, and drawn unless
      the amount holds a plain object; `0` is not shown as a row but leaves the
      text `0` behind. */
  function AmountSlot(status: Value, field: string): (r: Slot)
    ensures r.AmountRow? || r.NotAChild? <==> Truthy(Prop(status, field))
    ensures r.NotAChild? <==> Truthy(Prop(status, field)) && React.HoldsObject(Prop(status, field).value)
    ensures r.AmountRow? ==> React.Child(Prop(status, field).value) == React.Texts(r.text)
    ensures r.StrayZero? <==> Prop(status, field) == Some(Num(0))
  {
    var a := Prop(status, field);
    if Truthy(a) then
      match React.Child(a.value)
      case Texts(text) => AmountRow(text)
      case Throws => NotAChild
    else if a == Some(Num(0)) then StrayZero
    else Absent
  }

  /** The badge or an amount row throws while the details are drawn. */
  predicate DetailsThrow(status: Value) {
    StatusBadgeAsWritten(Some(status)).Crash? ||
    AmountSlot(status, "transaction_amount").NotAChild? ||
    AmountSlot(status, "order_amount").NotAChild?
  }

  /** The result area as the page draws it: nothing for a falsy result
      except `0`, which React draws as text; for an error result, the box with the error as React draws it
      (empty for `true`); otherwise the badge exactly as written (blank for an
      inherited member's name) and the two amount rows. A plain object as the
      error or an amount, or a badge that throws, abandons the render. */
  function Result(status: Option<Value>): (r: ResultView)
    ensures r.NoResult? <==> !Truthy(status) && status != Some(Num(0))
    ensures r.ZeroText? <==> status == Some(Num(0))
    ensures r.ErrorBox? <==>
      Truthy(status) && Truthy(OptProp(status, "error")) &&
      !React.HoldsObject(OptProp(status, "error").value)
    ensures r.ErrorBox? ==> React.Child(OptProp(status, "error").value) == React.Texts(r.text)
    ensures r.Crashed? <==>
      Truthy(status) &&
      if Truthy(OptProp(status, "error")) then React.HoldsObject(OptProp(status, "error").value)
      else DetailsThrow(status.value)
    ensures r.Details? ==>
      r.badge == StatusBadgeAsWritten(status) && !r.badge.NoBadge? && !r.badge.Crash?
    ensures r.Details? ==>
      r.transactionAmount == AmountSlot(status.value, "transaction_amount") &&
      r.orderAmount == AmountSlot(status.value, "order_amount")
  {
    if status == Some(Num(0)) then ZeroText
    else if !Truthy(status) then NoResult
    else
      var e := OptProp(status, "error");
      if Truthy(e) then
        match React.Child(e.value)
        case Texts(text) => ErrorBox(text)
        case Throws => Crashed
      else if DetailsThrow(status.value) then Crashed
      else Details(StatusBadgeAsWritten(status),
                   AmountSlot(status.value, "transaction_amount"),
                   AmountSlot(status.value, "order_amount"))
  }

  /** An error that is a plain object abandons the render, and `error: true`
      draws an empty error box. */
  lemma ErrorChildren(code: Value)
    ensures Result(Some(Obj(map["error" := Obj(map["code" := code])]))) == Crashed
    ensures Result(Some(Obj(map["error" := Bool(true)]))) == ErrorBox([])
  {
    assert React.HoldsObject(Obj(map["code" := code]));
  }

  /** The result area with the corrected badge: it differs from the page as
      written only where that draws a blank badge. */
  function ResultIntended(status: Option<Value>): (r: ResultView)
    ensures r.Details? ==>
      r.badge == StatusBadge(status) && !r.badge.NoBadge? && !r.badge.Blank? && !r.badge.Crash?
    ensures !(Result(status).Details? && Result(status).badge.Blank?) ==> r == Result(status)
    ensures Result(status).Details? ==>
      r.Details? && r.transactionAmount == Result(status).transactionAmount &&
      r.orderAmount == Result(status).orderAmount
  {
    match Result(status)
    case Details(_, t, o) => Details(StatusBadge(status), t, o)
    case other => other
  }

  /** The page's state: the typed custom order id, the fetched record (`null`
      before any check) and the loading flag. */
  class StatusCheckPage {
    var customOrderId: string
    var status: Option<Value>
    var loading: bool

    /** While a check is in flight the previous result stays cleared. */
    ghost predicate Valid()
      reads this
    {
      loading ==> status == Some(Null)
    }

    constructor ()
      ensures Valid()
      ensures customOrderId == "" && status == Some(Null) && !loading
    {
      customOrderId := "";
      status := Some(Null);
      loading := false;
    }

    /** The input's change handler. */
    method Edit(text: string)
      requires Valid()
      modifies this`customOrderId
      ensures Valid()
      ensures customOrderId == text
    {
      customOrderId := text;
    }

    /** `handleCheck` up to its `await`: with an empty id nothing happens;
        otherwise loading starts and the previous result is cleared. */
    method BeginCheck() returns (requested: bool)
      requires Valid()
      modifies this
      ensures Valid()
      ensures requested <==> old(customOrderId) != ""
      ensures customOrderId == old(customOrderId)
      ensures requested ==> loading && status == Some(Null)
      ensures !requested ==> loading == old(loading) && status == old(status)
    {
      if customOrderId == "" {
        return false;
      }
      loading := true;
      status := Some(Null);
      requested := true;
    }

    /** `handleCheck` after its `await`: the response body, or the fixed error
        record on a rejection, becomes the result, and loading ends either way. */
    method FinishCheck(reply: Fetch)
      modifies this`status, this`loading
      ensures Valid()
      ensures !loading
      ensures status == if reply.Fetched? then reply.data else Some(ErrorResult)
    {
      match reply {
        case Fetched(data) =>
          status := data;
        case Rejected =>
          status := Some(ErrorResult);
      }
      loading := false;
    }

    /** The whole of `handleCheck` when the request settles with `reply`. */
    method HandleCheck(reply: Fetch) returns (requested: bool)
      requires Valid()
      modifies this
      ensures Valid()
      ensures requested <==> old(customOrderId) != ""
      ensures customOrderId == old(customOrderId)
      ensures requested ==> !loading
      ensures requested ==> status == if reply.Fetched? then reply.data else Some(ErrorResult)
      ensures !requested ==> loading == old(loading) && status == old(status)
    {
      requested := BeginCheck();
      if requested {
        FinishCheck(reply);
      }
    }

    /** What the result area shows for the current state. */
    function View(): (r: ResultView)
      reads this
      requires Valid()
      ensures loading ==> r == NoResult
    {
      Result(status)
    }
  }

  /** A failed check shows the error text and never a badge. */
  lemma FailedCheckShowsError()
    ensures Result(Some(ErrorResult)) == ErrorBox([Str(FetchError)])
    ensures StatusBadge(Some(ErrorResult)) == NoBadge
  {
  }

  /** Unlike the table, this page matches statuses case-sensitively: any other
      casing of `success`, such as `SUCCESS`, is green in the table but an
      unrecognised gray status here, captioned `SUCCESS` in both. */
  lemma CaseSensitivityContrast(s: string)
    requires EqualsIgnoringCase(s, "success") && s != "success"
    ensures Table.RenderValue(Table.Column(Table.StatusKey, "Status"), Str(s)) == Table.Badge(Green, "SUCCESS")
    ensures StatusBadge(Some(Obj(map["status" := Str(s)]))) == Shown(Badge("SUCCESS", Gray, None))
  {
    Table.StatusCaptionKnown(Table.Column(Table.StatusKey, "Status"), s);
    Table.SuccessForms(s);
    assert LowerChar(s[0]) == 's';
    StatusRecord(s);
    OtherStatusBadge(Obj(map["status" := Str(s)]), s);
  }
}
