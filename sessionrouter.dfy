/**
 * SessionRouter::chooseHandler, the `woocommerce_session_handler` filter:
 * WooCommerce's own cookie session on checkout and cart pages, the
 * headless SessionHandler everywhere else, decided on the request URI
 * alone.
 */
module SessionRouter {
  import opened Php

  datatype Handler = NativeHandler | HeadlessHandler

  /** The URI fragments that mark WooCommerce's own checkout flow. */
  const CheckoutFlowMarkers := ["checkout", "order-pay", "order-received", "cart"]

  /** Unanchored `str_contains` of any marker. */
  predicate IsCheckoutFlow(uri: string) {
    exists i :: 0 <= i < |CheckoutFlowMarkers| && IsSubstring(CheckoutFlowMarkers[i], uri)
  }

  /** SessionRouter::chooseHandler; a missing `REQUEST_URI` reads as ''. */
  function ChooseHandler(incoming: Handler, requestUri: Option<string>): Handler {
    var uri := if requestUri.Some? then requestUri.value else "";
    var flow := IsSubstring("checkout", uri) || IsSubstring("order-pay", uri)
      || IsSubstring("order-received", uri) || IsSubstring("cart", uri);
    if flow then NativeHandler else HeadlessHandler
  }

  // ---------------------------------------------------------------------------
  // Properties

  /** The native handler is chosen exactly when one of the four markers occurs in the URI. */
  lemma NativeIffMarker(incoming: Handler, uri: string)
    ensures ChooseHandler(incoming, Some(uri)) == NativeHandler <==> IsCheckoutFlow(uri)
  {
    if IsCheckoutFlow(uri) {
      var i :| 0 <= i < |CheckoutFlowMarkers| && IsSubstring(CheckoutFlowMarkers[i], uri);
    } else {
      assert !IsSubstring(CheckoutFlowMarkers[0], uri) && !IsSubstring(CheckoutFlowMarkers[1], uri);
      assert !IsSubstring(CheckoutFlowMarkers[2], uri) && !IsSubstring(CheckoutFlowMarkers[3], uri);
    }
  }

  /** No marker fits in an empty string, so a request without a URI gets the headless handler. */
  lemma MissingUriIsHeadless(incoming: Handler)
    ensures ChooseHandler(incoming, None) == HeadlessHandler
  {
    assert !IsSubstring("cart", "");
  }

  /** The result depends on the URI only. */
  lemma IgnoresIncoming(a: Handler, b: Handler, requestUri: Option<string>)
    ensures ChooseHandler(a, requestUri) == ChooseHandler(b, requestUri)
  {
  }

  /**
   * Containment is unanchored: every URI that mentions `headlesscart`, so
   * every route under `headlesscart/v1`, contains `cart` and is routed to
   * the native handler.
   */
  lemma HeadlessRoutesGoNative(incoming: Handler, uri: string)
    requires IsSubstring("headlesscart", uri)
    ensures ChooseHandler(incoming, Some(uri)) == NativeHandler
  {
    assert "headlesscart"[8..12] == "cart";
    SubstringAt("cart", "headlesscart", 8);
    SubstringTransitive("cart", "headlesscart", uri);
  }

  /** The cart route itself, `/wp-json/headlesscart/v1/cart`, gets the native handler. */
  lemma CartRouteGoesNative(incoming: Handler)
    ensures ChooseHandler(incoming, Some("/wp-json/headlesscart/v1/cart")) == NativeHandler
  {
    var uri := "/wp-json/headlesscart/v1/cart";
    assert uri[9..21] == "headlesscart";
    SubstringAt("headlesscart", uri, 9);
    HeadlessRoutesGoNative(incoming, uri);
  }
}
