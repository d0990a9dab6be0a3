/** The checkout step of the account modal: the pure selections (offer type, payment success URL,
    selected payment method, payment widget, loading guard) and the handlers that set and reset the
    component state around the remote order calls. A remote call is not executed: each handler
    takes the outcome of the calls it awaits as a parameter, and the calls it makes and the
    navigations it requests are appended to logs. */
module Checkout {
  import opened Wrappers
  import opened Strings

  // ---------------------------------------------------------------------------------------------
  // Entities

  /** An offer; whether it is a subscription (SVOD) offer is decided outside this file. */
  datatype Offer = Offer(id: string, isSvod: bool)

  datatype Order = Order(id: nat, requiredPaymentDetails: bool)

  datatype PaymentMethod = PaymentMethod(id: int, methodName: string, provider: string)

  /** How an awaited remote call ends: resolved with a value, rejected with an `Error` and its
      message, or rejected with something that is not an `Error`. */
  datatype Outcome<T> = Resolved(value: T) | Rejected(message: string) | RejectedOther

  /** A location: a path and its query parameters. */
  datatype Url = Url(path: string, query: map<string, string>)

  /** `addQueryParam(location, key, value)` */
  function AddQueryParam(loc: Url, key: string, value: string): Url {
    Url(loc.path, loc.query[key := value])
  }

  /** `removeQueryParam(location, key)` */
  function RemoveQueryParam(loc: Url, key: string): Url {
    Url(loc.path, loc.query - {key})
  }

  /** The site root, `/`. */
  const Root := Url("/", map[])

  /** A call of `navigate(to, { replace })`. */
  datatype Navigation = Navigation(to: Url, replace: bool)

  /** The remote calls the handlers make, with their arguments. */
  datatype RemoteCall =
    | UpdateOrder(orderId: nat, paymentMethodId: Option<int>, couponCode: string)
    | GetPaymentMethods
    | CreateOrder(offerId: string, paymentMethodId: Option<int>)
    | PaymentWithoutDetails
    | ReloadActiveSubscription

  /** The checkout store as this component reads it; `purchasingOffer` is whether the store's
      `purchasingOffers` is set. */
  datatype Store = Store(
    order: Option<Order>,
    offer: Option<Offer>,
    paymentMethods: Option<seq<PaymentMethod>>,
    purchasingOffer: bool)

  /** The coupon form: its value, its error message key and whether it is submitting. */
  datatype CouponForm = CouponForm(couponCode: string, couponError: Option<string>, submitting: bool)

  const CouponNotValid := "checkout.coupon_not_valid"

  /** The offer-selection view the stale-order and back-button paths lead to. */
  function ChooseOffer(loc: Url): Url {
    AddQueryParam(loc, "u", "choose-offer")
  }

  // ---------------------------------------------------------------------------------------------
  // Pure selections

  datatype OfferType = Svod | Tvod

  /** `offerType` (line 45). */
  function OfferTypeOf(offer: Option<Offer>): (t: OfferType)
    ensures t == Tvod <==> offer.Some? && !offer.value.isSvod
    ensures offer.None? ==> t == Svod
  {
    if offer.Some? && !offer.value.isSvod then Tvod else Svod
  }

  function OfferTypeName(t: OfferType): (name: string)
    ensures |name| > 0
  {
    match t
    case Svod => "svod"
    case Tvod => "tvod"
  }

  /** `paymentSuccessUrl` (lines 47-52): the root while offers are being purchased; otherwise the
      current location with `u=welcome` for a subscription and without `u` for a single purchase. */
  function PaymentSuccessUrl(loc: Url, t: OfferType, purchasingOffer: bool): (r: Url)
    ensures purchasingOffer ==> r == Root
    ensures !purchasingOffer ==> r.path == loc.path
    ensures !purchasingOffer ==> forall k :: k != "u" ==>
      (k in r.query <==> k in loc.query) && (k in r.query ==> r.query[k] == loc.query[k])
    ensures !purchasingOffer && t == Svod ==> "u" in r.query && r.query["u"] == "welcome"
    ensures !purchasingOffer && t == Tvod ==> "u" !in r.query
  {
    if purchasingOffer then Root
    else if t == Svod then AddQueryParam(loc, "u", "welcome")
    else RemoveQueryParam(loc, "u")
  }

  /** The two non-root success URLs differ only in the `u` parameter. */
  lemma SuccessUrlsDifferOnlyInU(loc: Url)
    ensures PaymentSuccessUrl(loc, Svod, false) == AddQueryParam(PaymentSuccessUrl(loc, Tvod, false), "u", "welcome")
  {
    var svod, tvod := PaymentSuccessUrl(loc, Svod, false), PaymentSuccessUrl(loc, Tvod, false);
    assert svod.query == tvod.query["u" := "welcome"];
  }

  /** The index of the first method with the given id at or after `from`. */
  function FirstWithIdFrom(methods: seq<PaymentMethod>, id: int, from: nat): (r: Option<nat>)
    requires from <= |methods|
    ensures r.Some? ==> from <= r.value < |methods| && methods[r.value].id == id
    ensures r.Some? ==> forall j | from <= j < r.value :: methods[j].id != id
    ensures r.None? ==> forall j | from <= j < |methods| :: methods[j].id != id
    decreases |methods| - from
  {
    if from == |methods| then None
    else if methods[from].id == id then Some(from)
    else FirstWithIdFrom(methods, id, from + 1)
  }

  /** `paymentMethods?.find((method) => method.id === paymentMethodId)` (line 190): the first
      method carrying the selected id; nothing without methods or without a selected id. */
  function SelectedMethod(methods: Option<seq<PaymentMethod>>, id: Option<int>): (r: Option<PaymentMethod>)
    ensures r.Some? <==> methods.Some? && id.Some? && exists i | 0 <= i < |methods.value| :: methods.value[i].id == id.value
    ensures r.Some? ==> exists i | 0 <= i < |methods.value| ::
      methods.value[i] == r.value && r.value.id == id.value && forall j | 0 <= j < i :: methods.value[j].id != id.value
  {
    if methods.None? || id.None? then None
    else
      match FirstWithIdFrom(methods.value, id.value, 0)
      case None => None
      case Some(i) => Some(methods.value[i])
  }

  /** The payment widget `renderPaymentMethod` shows. */
  datatype Widget = NoWidget | NoPaymentRequiredWidget | StripePaymentForm | AdyenCard | PayPalWidget

  /** `renderPaymentMethod` (lines 189-217). */
  function RenderPaymentMethod(order: Option<Order>, offerPresent: bool, selected: Option<PaymentMethod>): (w: Widget)
    ensures order.None? || !offerPresent ==> w == NoWidget
    ensures w == NoPaymentRequiredWidget <==> order.Some? && offerPresent && !order.value.requiredPaymentDetails
    ensures w == StripePaymentForm <==> (order.Some? && offerPresent && order.value.requiredPaymentDetails &&
      selected.Some? && selected.value.methodName == "card" && selected.value.provider == "stripe")
    ensures w == AdyenCard <==> (order.Some? && offerPresent && order.value.requiredPaymentDetails &&
      selected.Some? && selected.value.methodName == "card" && selected.value.provider != "stripe")
    ensures w == PayPalWidget <==> (order.Some? && offerPresent && order.value.requiredPaymentDetails &&
      selected.Some? && selected.value.methodName == "paypal")
  {
    if order.None? || !offerPresent then NoWidget
    else if !order.value.requiredPaymentDetails then NoPaymentRequiredWidget
    else if selected.Some? && selected.value.methodName == "card" then
      if selected.value.provider == "stripe" then StripePaymentForm else AdyenCard
    else if selected.Some? && selected.value.methodName == "paypal" then PayPalWidget
    else NoWidget
  }

  /** An order that needs no payment details shows the no-payment widget whatever method is selected. */
  lemma NoPaymentRequiredIgnoresMethod(order: Order, s1: Option<PaymentMethod>, s2: Option<PaymentMethod>)
    requires !order.requiredPaymentDetails
    ensures RenderPaymentMethod(Some(order), true, s1) == RenderPaymentMethod(Some(order), true, s2) == NoPaymentRequiredWidget
  {
  }

  /** The loading guard (line 220), with JavaScript truthiness: a method list is truthy even when
      empty, and the offer type is a non-empty string. */
  predicate ShowsLoading(store: Store) {
    store.offer.None? || store.order.None? || store.paymentMethods.None? || |OfferTypeName(OfferTypeOf(store.offer))| == 0
  }

  /** The `!offerType` test of the loading guard never fires. */
  lemma OfferTypeNeverBlocksCheckout(store: Store)
    ensures ShowsLoading(store) <==> store.offer.None? || store.order.None? || store.paymentMethods.None?
  {
  }

  // ---------------------------------------------------------------------------------------------
  // Error classification

  function DigitChar(d: nat): (c: char)
    requires d < 10
    ensures '0' <= c <= '9'
  {
    ['0', '1', '2', '3', '4', '5', '6', '7', '8', '9'][d]
  }

  /** The decimal rendering of an order id in a template literal. */
  function NatToString(n: nat): (s: string)
    ensures |s| > 0 && forall i | 0 <= i < |s| :: '0' <= s[i] <= '9'
  {
    if n < 10 then [DigitChar(n)] else NatToString(n / 10) + [DigitChar(n % 10)]
  }

  /** `Order with id ${order.id} not found`, the message of an order the server no longer knows. */
  function StaleOrderMarker(orderId: nat): (m: string)
    ensures '}' !in m
  {
    var digits := NatToString(orderId);
    assert '}' !in digits by {
      forall i | 0 <= i < |digits| ensures digits[i] != '}' { }
    }
    "Order with id " + digits + " not found"
  }

  /** The coupon handlers' test for a stale order (lines 64 and 88). */
  predicate IsStaleOrderError(message: string, orderId: nat) {
    Contains(message, StaleOrderMarker(orderId))
  }

  // As written at line 144: `Order with id ${order.id}} not found`, with a doubled brace.
  function StaleOrderMarkerAsWritten(orderId: nat): (m: string)
    ensures '}' in m
  {
    var m := "Order with id " + NatToString(orderId) + "} not found";
    assert m[|"Order with id " + NatToString(orderId)|] == '}';
    m
  }

  /** The payment-method handler's test for a stale order. */
  predicate ChangeHandlerSeesStaleOrder(message: string, orderId: nat) {
    Contains(message, StaleOrderMarkerAsWritten(orderId))
  }

  /** The payment-method handler's test never fires on a message without `}`; in particular it
      misses the stale-order message the coupon handlers recognise. */
  lemma ChangeHandlerMissesStaleOrder(message: string, orderId: nat)
    requires '}' !in message
    ensures !ChangeHandlerSeesStaleOrder(message, orderId)
    ensures IsStaleOrderError(StaleOrderMarker(orderId), orderId)
    ensures !ChangeHandlerSeesStaleOrder(StaleOrderMarker(orderId), orderId)
  {
    if ChangeHandlerSeesStaleOrder(message, orderId) {
      ContainsChar(message, StaleOrderMarkerAsWritten(orderId), '}');
    }
    ContainsSelf(StaleOrderMarker(orderId));
    if ChangeHandlerSeesStaleOrder(StaleOrderMarker(orderId), orderId) {
      ContainsChar(StaleOrderMarker(orderId), StaleOrderMarkerAsWritten(orderId), '}');
    }
  }

  /** With the marker the coupon handlers use, the stale-order message of every order is recognised,
      inside any longer message. */
  lemma StaleOrderRecognised(pre: string, post: string, orderId: nat)
    ensures IsStaleOrderError(pre + StaleOrderMarker(orderId) + post, orderId)
  {
    ContainsSelf(StaleOrderMarker(orderId));
    ContainsInContext(pre, StaleOrderMarker(orderId), post, StaleOrderMarker(orderId));
  }

  // ---------------------------------------------------------------------------------------------
  // The component state and its handlers

  class CheckoutSession {
    const location: Url
    var store: Store
    var paymentError: Option<string>
    var updatingOrder: bool
    var couponFormOpen: bool
    var couponCodeApplied: bool
    var paymentMethodId: Option<int>
    var form: CouponForm
    /** The navigations requested so far, oldest first. */
    var navigations: seq<Navigation>
    /** The remote calls made so far, oldest first. */
    var calls: seq<RemoteCall>

    /** The initial state of lines 24-28. */
    constructor (location: Url, store: Store)
      ensures this.location == location && this.store == store
      ensures paymentError == None && !updatingOrder && !couponFormOpen && !couponCodeApplied
      ensures paymentMethodId == None && form == CouponForm("", None, false)
      ensures navigations == [] && calls == []
    {
      this.location := location;
      this.store := store;
      paymentError := None;
      updatingOrder := false;
      couponFormOpen := false;
      couponCodeApplied := false;
      paymentMethodId := None;
      form := CouponForm("", None, false);
      navigations := [];
      calls := [];
    }

    /** What the component renders: the loading overlay, or the form with its payment widget. */
    function PaymentWidget(): (w: Option<Widget>)
      reads this
      ensures w.None? <==> store.offer.None? || store.order.None? || store.paymentMethods.None?
      ensures w.Some? ==> w.value == RenderPaymentMethod(store.order, true, SelectedMethod(store.paymentMethods, paymentMethodId))
    {
      OfferTypeNeverBlocksCheckout(store);
      if ShowsLoading(store) then None
      else Some(RenderPaymentMethod(store.order, store.offer.Some?, SelectedMethod(store.paymentMethods, paymentMethodId)))
    }

    /** The success URL the handlers navigate to. */
    function SuccessUrl(): Url
      reads this
    {
      PaymentSuccessUrl(location, OfferTypeOf(store.offer), store.purchasingOffer)
    }

    /** The render-time store update of lines 30-32: while an order update runs, the purchase of
        offers is forgotten. */
    method ClearPurchasingOfferWhileUpdating()
      modifies this
      ensures updatingOrder ==> store == old(store).(purchasingOffer := false)
      ensures !updatingOrder ==> store == old(store)
      ensures paymentError == old(paymentError) && updatingOrder == old(updatingOrder)
      ensures couponFormOpen == old(couponFormOpen) && couponCodeApplied == old(couponCodeApplied)
      ensures paymentMethodId == old(paymentMethodId) && form == old(form)
      ensures navigations == old(navigations) && calls == old(calls)
    {
      if updatingOrder {
        store := store.(purchasingOffer := false);
      }
    }

    /** The coupon update shared by both coupon handlers (lines 55-74 and 79-98): the order is
        updated only with a non-empty code and an order; the coupon counts as applied only when
        that update resolves; a stale order leads back to offer selection, any other `Error`
        marks the coupon as not valid; and the update flag ends false on every path. */
    method SubmitCouponCode(update: Outcome<()>)
      modifies this
      ensures !updatingOrder && !form.submitting
      ensures var attempted := form.couponCode != "" && store.order.Some?;
        && (couponCodeApplied <==> attempted && update.Resolved?)
        && calls == old(calls) + (if attempted then [UpdateOrder(store.order.value.id, paymentMethodId, form.couponCode)] else [])
        && navigations == old(navigations) +
          (if attempted && update.Rejected? && IsStaleOrderError(update.message, store.order.value.id)
           then [Navigation(ChooseOffer(location), true)] else [])
        && form.couponError ==
          (if attempted && update.Rejected? && !IsStaleOrderError(update.message, store.order.value.id)
           then Some(CouponNotValid) else old(form.couponError))
      ensures form.couponCode == old(form.couponCode)
      ensures store == old(store) && paymentError == old(paymentError)
      ensures couponFormOpen == old(couponFormOpen) && paymentMethodId == old(paymentMethodId)
    {
      updatingOrder := true;
      couponCodeApplied := false;
      if form.couponCode != "" && store.order.Some? {
        var order := store.order.value;
        calls := calls + [UpdateOrder(order.id, paymentMethodId, form.couponCode)];
        match update {
          case Resolved(_) =>
            couponCodeApplied := true;
          case Rejected(message) =>
            if IsStaleOrderError(message, order.id) {
              navigations := navigations + [Navigation(ChooseOffer(location), true)];
            } else {
              form := form.(couponError := Some(CouponNotValid));
            }
          case RejectedOther =>
        }
      }
      updatingOrder := false;
      form := form.(submitting := false);
    }

    /** `handleCouponFormSubmit` (lines 77-99): clears the coupon error, then submits the code. */
    method HandleCouponFormSubmit(update: Outcome<()>)
      modifies this
      ensures !updatingOrder && !form.submitting
      ensures var attempted := form.couponCode != "" && store.order.Some?;
        && (couponCodeApplied <==> attempted && update.Resolved?)
        && calls == old(calls) + (if attempted then [UpdateOrder(store.order.value.id, paymentMethodId, form.couponCode)] else [])
        && navigations == old(navigations) +
          (if attempted && update.Rejected? && IsStaleOrderError(update.message, store.order.value.id)
           then [Navigation(ChooseOffer(location), true)] else [])
        && form.couponError ==
          (if attempted && update.Rejected? && !IsStaleOrderError(update.message, store.order.value.id)
           then Some(CouponNotValid) else None)
      ensures form.couponCode == old(form.couponCode)
      ensures store == old(store) && paymentError == old(paymentError)
      ensures couponFormOpen == old(couponFormOpen) && paymentMethodId == old(paymentMethodId)
    {
      form := form.(couponError := None);
      SubmitCouponCode(update);
    }

    /** `handlePaymentMethodChange` (lines 133-150): records the parsed id and clears the payment
        error; with an order and a non-zero id, updates that same order with the new id and the
        current code, leaves the coupon marked as not applied, navigates without replacing only
        when the message contains the doubled-brace marker, and resets the update flag through
        `finally`. */
    method ChangePaymentMethod(toPaymentMethodId: int, update: Outcome<()>)
      modifies this
      ensures paymentMethodId == Some(toPaymentMethodId) && paymentError == None
      ensures !(store.order.Some? && toPaymentMethodId != 0) ==>
        && couponCodeApplied == old(couponCodeApplied) && updatingOrder == old(updatingOrder)
        && calls == old(calls) && navigations == old(navigations)
      ensures store.order.Some? && toPaymentMethodId != 0 ==>
        && !couponCodeApplied && !updatingOrder
        && calls == old(calls) + [UpdateOrder(store.order.value.id, Some(toPaymentMethodId), form.couponCode)]
        && navigations == old(navigations) +
          (if update.Rejected? && ChangeHandlerSeesStaleOrder(update.message, store.order.value.id)
           then [Navigation(ChooseOffer(location), false)] else [])
      ensures store == old(store) && form == old(form) && couponFormOpen == old(couponFormOpen)
    {
      paymentMethodId := Some(toPaymentMethodId);
      paymentError := None;
      if store.order.Some? && toPaymentMethodId != 0 {
        var order := store.order.value;
        updatingOrder := true;
        couponCodeApplied := false;
        calls := calls + [UpdateOrder(order.id, Some(toPaymentMethodId), form.couponCode)];
        var stale := update.Rejected? && ChangeHandlerSeesStaleOrder(update.message, order.id);
        navigations := navigations + (if stale then [Navigation(ChooseOffer(location), false)] else []);
        updatingOrder := false;
      }
    }

    /** A payment-method change followed by a coupon submit: both updates go to the same order,
        and the coupon update carries the newly selected method. */
    method ChangeMethodThenSubmitCoupon(toPaymentMethodId: int, change: Outcome<()>, update: Outcome<()>)
      modifies this
      ensures store == old(store) && form.couponCode == old(form.couponCode)
      ensures paymentMethodId == Some(toPaymentMethodId)
      ensures store.order.Some? && toPaymentMethodId != 0 && form.couponCode != "" ==>
        calls == old(calls) + [UpdateOrder(store.order.value.id, Some(toPaymentMethodId), form.couponCode),
                               UpdateOrder(store.order.value.id, Some(toPaymentMethodId), form.couponCode)]
    {
      ChangePaymentMethod(toPaymentMethodId, change);
      SubmitCouponCode(update);
    }

    /** `createNewOrder` in the effect of lines 101-122: without an offer, back to offer selection
        (replacing the entry); otherwise fetch the payment methods, select the first one's id and
        create the order with that same id. The calls are awaited without `try`: a rejection ends
        the function early and leaves the update flag set. */
    method CreateNewOrder(methods: Outcome<seq<PaymentMethod>>, create: Outcome<()>)
      modifies this
      ensures store.offer.None? ==>
        navigations == old(navigations) + [Navigation(ChooseOffer(location), true)] &&
        calls == old(calls) && updatingOrder == old(updatingOrder) &&
        couponCodeApplied == old(couponCodeApplied) && paymentMethodId == old(paymentMethodId)
      ensures store.offer.Some? && !methods.Resolved? ==>
        calls == old(calls) + [GetPaymentMethods] &&
        updatingOrder && !couponCodeApplied && paymentMethodId == old(paymentMethodId)
      ensures store.offer.Some? && methods.Resolved? ==>
        var first := if |methods.value| > 0 then Some(methods.value[0].id) else None;
        && paymentMethodId == first
        && calls == old(calls) + [GetPaymentMethods, CreateOrder(store.offer.value.id, first)]
        && !couponCodeApplied
        && (updatingOrder <==> !create.Resolved?)
      ensures store.offer.Some? ==> navigations == old(navigations)
      ensures store == old(store) && form == old(form) && paymentError == old(paymentError)
      ensures couponFormOpen == old(couponFormOpen)
    {
      if store.offer.None? {
        navigations := navigations + [Navigation(ChooseOffer(location), true)];
        return;
      }
      var offer := store.offer.value;
      updatingOrder := true;
      couponCodeApplied := false;
      calls := calls + [GetPaymentMethods];
      if !methods.Resolved? {
        return;
      }
      var ms := methods.value;
      paymentMethodId := if |ms| > 0 then Some(ms[0].id) else None;
      calls := calls + [CreateOrder(offer.id, paymentMethodId)];
      if !create.Resolved? {
        return;
      }
      updatingOrder := false;
    }

    /** The cleanup of the effect at lines 125-127: closing the checkout clears the order. */
    method Teardown()
      modifies this
      ensures store == old(store).(order := None)
      ensures paymentError == old(paymentError) && updatingOrder == old(updatingOrder)
      ensures couponFormOpen == old(couponFormOpen) && couponCodeApplied == old(couponCodeApplied)
      ensures paymentMethodId == old(paymentMethodId) && form == old(form)
      ensures navigations == old(navigations) && calls == old(calls)
    {
      store := store.(order := None);
    }

    /** `backButtonClickHandler` (lines 129-131): back to offer selection, as a new history entry. */
    method BackButtonClick()
      modifies this
      ensures navigations == old(navigations) + [Navigation(ChooseOffer(location), false)]
      ensures store == old(store) && paymentError == old(paymentError) && updatingOrder == old(updatingOrder)
      ensures couponFormOpen == old(couponFormOpen) && couponCodeApplied == old(couponCodeApplied)
      ensures paymentMethodId == old(paymentMethodId) && form == old(form) && calls == old(calls)
    {
      navigations := navigations + [Navigation(ChooseOffer(location), false)];
    }

    /** The redeem and close buttons of lines 239-240. */
    method SetCouponFormOpen(open: bool)
      modifies this
      ensures couponFormOpen == open
      ensures store == old(store) && paymentError == old(paymentError) && updatingOrder == old(updatingOrder)
      ensures couponCodeApplied == old(couponCodeApplied) && paymentMethodId == old(paymentMethodId)
      ensures form == old(form) && navigations == old(navigations) && calls == old(calls)
    {
      couponFormOpen := open;
    }

    /** The coupon input's change handler (line 238). */
    method CouponInputChange(code: string)
      modifies this
      ensures form == old(form).(couponCode := code)
      ensures store == old(store) && paymentError == old(paymentError) && updatingOrder == old(updatingOrder)
      ensures couponFormOpen == old(couponFormOpen) && couponCodeApplied == old(couponCodeApplied)
      ensures paymentMethodId == old(paymentMethodId) && navigations == old(navigations) && calls == old(calls)
    {
      form := form.(couponCode := code);
    }

    /** `handleNoPaymentRequiredSubmit` (lines 152-166): pay without details, reload the
        subscription and go to the success URL, replacing the entry; an `Error` from either call
        becomes the payment error; the update flag ends false on every path. */
    method HandleNoPaymentRequiredSubmit(payment: Outcome<()>, reload: Outcome<()>)
      modifies this
      ensures !updatingOrder
      ensures calls == old(calls) + [PaymentWithoutDetails] + (if payment.Resolved? then [ReloadActiveSubscription] else [])
      ensures navigations == old(navigations) +
        (if payment.Resolved? && reload.Resolved? then [Navigation(old(SuccessUrl()), true)] else [])
      ensures paymentError ==
        if payment.Rejected? then Some(payment.message)
        else if payment.Resolved? && reload.Rejected? then Some(reload.message)
        else None
      ensures store == old(store) && form == old(form) && couponFormOpen == old(couponFormOpen)
      ensures couponCodeApplied == old(couponCodeApplied) && paymentMethodId == old(paymentMethodId)
    {
      var successUrl := SuccessUrl();
      updatingOrder := true;
      paymentError := None;
      calls := calls + [PaymentWithoutDetails];
      match payment {
        case Rejected(message) =>
          paymentError := Some(message);
        case RejectedOther =>
        case Resolved(_) =>
          calls := calls + [ReloadActiveSubscription];
          match reload {
            case Rejected(message) =>
              paymentError := Some(message);
            case RejectedOther =>
            case Resolved(_) =>
              navigations := navigations + [Navigation(successUrl, true)];
          }
      }
      updatingOrder := false;
    }
  }
}
