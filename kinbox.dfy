/**
 * index.js of the Kinbox Pix parser: the canonicalisation of customer identifiers before
 * they are sent to the Meta Conversions API, the `user_data` map built from them, the
 * Purchase event the finalize route sends, and the required-field guards of the two POST
 * routes. The SHA-256 digest is the parameter `h`: every property holds for any digest.
 */
module KinboxPix {
  import opened Wrappers
  import opened JsValue
  import opened JsText

  /** What the two POST routes can throw before answering with status 400. */
  datatype RouteError =
    | Validation(message: string)   // `throw new Error(message)`
    | PhoneTypeError                // `.replace` looked up on a truthy phone that is not a string

  const CustomerIdRequired: string := "customerPlatformId obrigat\U{F3}rio"
  const AttachmentUrlRequired: string := "attachment_url obrigat\U{F3}rio"

  /** The `user_data` object: each present key holds a one-element list with a digest. */
  type UserData = map<string, seq<string>>

  /**
   * `normalizePhone`: a falsy phone becomes "", a string keeps only its digits, and any
   * other truthy value (a number, `true`, an array, an object) has no `replace` method,
   * so the call throws.
   */
  function NormalizePhone(phone: Json): (r: Result<string, RouteError>)
    ensures r.Failure? <==> Truthy(phone) && !phone.Str?
    ensures r.Failure? ==> r.error == PhoneTypeError
    ensures r.Success? ==> IsDigits(r.value)
    ensures r.Success? && phone.Str? ==> r.value == KeepDigits(phone.s)
    ensures r.Success? && !phone.Str? ==> r.value == ""
  {
    if !Truthy(phone) then Success("")
    else if phone.Str? then Success(KeepDigits(phone.s))
    else Failure(PhoneTypeError)
  }

  /** A missing, null or empty phone normalises to the empty string. */
  lemma NormalizePhoneOfMissing()
    ensures NormalizePhone(Undefined) == Success("")
    ensures NormalizePhone(Null) == Success("")
    ensures NormalizePhone(Str("")) == Success("")
  {
  }

  /** Normalising a normalised phone changes nothing. */
  lemma NormalizePhoneIdempotent(phone: Json)
    requires NormalizePhone(phone).Success?
    ensures NormalizePhone(Str(NormalizePhone(phone).value)) == NormalizePhone(phone)
  {
    var p := NormalizePhone(phone).value;
    if p != "" {
      KeepDigitsFixed(p);
    }
  }

  /** `sha256`: `String(x)`, trimmed and lower-cased, digested by `h`. */
  function Sha256(h: string -> string, x: Json): string {
    h(Canonical(ToJsString(x)))
  }

  /**
   * Strings that differ only in surrounding whitespace and in ASCII letter case hash
   * equally.
   */
  lemma Sha256Equivalent(h: string -> string, a: string, x: string, y: string, b: string)
    requires AllWhitespace(a) && AllWhitespace(b)
    requires |x| == |y| && forall i :: 0 <= i < |x| ==> SameIgnoringAsciiCase(x[i], y[i])
    ensures Sha256(h, Str(a + x + b)) == Sha256(h, Str(y))
  {
    CanonicalEquivalent(a, x, y, b);
  }

  /** Hashing the pre-processed form gives the same digest as hashing the raw value. */
  lemma Sha256OfCanonical(h: string -> string, x: Json)
    ensures Sha256(h, Str(Canonical(ToJsString(x)))) == Sha256(h, x)
  {
    CanonicalIdempotent(ToJsString(x));
  }

  /** For a string of digits the pre-processing does nothing: the digest is `h` of it. */
  lemma Sha256OfDigits(h: string -> string, s: string)
    requires IsDigits(s)
    ensures Sha256(h, Str(s)) == h(s)
  {
    CanonicalOfDigits(s);
  }

  /**
   * What a `user_data` map built from `phone` and `email` holds: `ph` exactly when the
   * phone is a string with a digit, holding the digest of its digits; `em` exactly when
   * the email is truthy, holding the digest of its trimmed, lower-cased text; nothing else.
   */
  ghost predicate IsUserDataOf(h: string -> string, phone: Json, email: Json, ud: UserData) {
    && ud.Keys <= {"ph", "em"}
    && ("ph" in ud <==> phone.Str? && HasDigit(phone.s))
    && ("ph" in ud ==> phone.Str? && ud["ph"] == [h(KeepDigits(phone.s))])
    && ("em" in ud <==> Truthy(email))
    && ("em" in ud ==> ud["em"] == [h(Canonical(ToJsString(email)))])
  }

  /** `getUserDataHashes`: starts from an empty map and adds `ph` and `em` when they apply. */
  method GetUserDataHashes(h: string -> string, phone: Json, email: Json)
    returns (r: Result<UserData, RouteError>)
    ensures r.Failure? <==> Truthy(phone) && !phone.Str?
    ensures r.Failure? ==> r.error == PhoneTypeError
    ensures r.Success? ==> IsUserDataOf(h, phone, email, r.value)
  {
    var ud: UserData := map[];
    var ph :- NormalizePhone(phone);
    if ph != "" {
      Sha256OfDigits(h, ph);
      ud := ud["ph" := [Sha256(h, Str(ph))]];
    }
    if Truthy(email) {
      ud := ud["em" := [Sha256(h, email)]];
    }
    KeepDigitsEmpty(if phone.Str? then phone.s else "");
    return Success(ud);
  }

  /**
   * A truthy email whose text is whitespace only (a string of blanks, an empty array)
   * still yields `em`, holding the digest of "".
   */
  lemma BlankEmail(h: string -> string, phone: Json, email: Json, ud: UserData)
    requires Truthy(email) && AllWhitespace(ToJsString(email))
    requires IsUserDataOf(h, phone, email, ud)
    ensures "em" in ud && ud["em"] == [h("")]
  {
    CanonicalOfWhitespace(ToJsString(email));
  }

  /** A blank string and an empty array both count as a present email. */
  lemma BlankEmailExamples()
    ensures Truthy(Str(" ")) && AllWhitespace(ToJsString(Str(" ")))
    ensures Truthy(Arr([])) && ToJsString(Arr([])) == ""
  {
  }

  /** The map depends on a phone string only through its digits. */
  lemma UserDataIgnoresPhoneFormatting(
    h: string -> string, p: string, q: string, email: Json, u: UserData, v: UserData)
    requires KeepDigits(p) == KeepDigits(q)
    requires IsUserDataOf(h, Str(p), email, u) && IsUserDataOf(h, Str(q), email, v)
    ensures u == v
  {
    KeepDigitsEmpty(p);
    KeepDigitsEmpty(q);
    assert u.Keys == v.Keys;
  }

  /** The `event_id` of the Purchase event: `kinbox-${sessionId}`. */
  function EventId(sessionId: Json): string {
    "kinbox-" + ToJsString(sessionId)
  }

  /** Distinct customer ids given as strings get distinct event ids. */
  lemma EventIdInjective(a: string, b: string)
    requires EventId(Str(a)) == EventId(Str(b))
    ensures a == b
  {
    assert a == EventId(Str(a))[7..];
    assert b == EventId(Str(b))[7..];
  }

  /** The one event of the body `sendPurchaseToMeta` posts; its time and value are left out. */
  datatype PurchaseEvent = PurchaseEvent(
    eventName: string,
    actionSource: string,
    eventId: string,
    userData: UserData,
    currency: string)

  /** The request body posted to the Conversions API: the `data` list and `test_event_code`. */
  datatype PurchaseBody = PurchaseBody(data: seq<PurchaseEvent>, testEventCode: Option<string>)

  /**
   * The body `sendPurchaseToMeta` posts for a session id, phone and email: one Purchase
   * event from `customer_chat` in BRL with the event id and user data above, and the
   * environment's test event code (empty when unset) beside `data` when it is set.
   */
  ghost predicate IsPurchaseBodyFor(
    h: string -> string, sessionId: Json, phone: Json, email: Json, testEventCode: string,
    body: PurchaseBody)
  {
    && |body.data| == 1
    && body.data[0].eventName == "Purchase"
    && body.data[0].actionSource == "customer_chat"
    && body.data[0].currency == "BRL"
    && body.data[0].eventId == "kinbox-" + ToJsString(sessionId)
    && IsUserDataOf(h, phone, email, body.data[0].userData)
    && body.testEventCode == if testEventCode == "" then None else Some(testEventCode)
  }

  /** `sendPurchaseToMeta` up to the post: the body it builds, or the error it throws. */
  method SendPurchaseToMeta(
    h: string -> string, sessionId: Json, phone: Json, email: Json, testEventCode: string)
    returns (r: Result<PurchaseBody, RouteError>)
    ensures r.Failure? <==> Truthy(phone) && !phone.Str?
    ensures r.Failure? ==> r.error == PhoneTypeError
    ensures r.Success? ==> IsPurchaseBodyFor(h, sessionId, phone, email, testEventCode, r.value)
  {
    var userData :- GetUserDataHashes(h, phone, email);
    var event := PurchaseEvent("Purchase", "customer_chat", EventId(sessionId), userData, "BRL");
    var body := PurchaseBody([event], None);
    if testEventCode != "" {
      body := body.(testEventCode := Some(testEventCode));
    }
    return Success(body);
  }

  /**
   * The guards of `/kinbox/parse`: the customer id is checked before the attachment URL.
   * On success the route echoes the customer id.
   */
  function ParseRequest(body: Json): (r: Result<Json, RouteError>)
    ensures !Truthy(Prop(body, "customerPlatformId")) ==> r == Failure(Validation(CustomerIdRequired))
    ensures Truthy(Prop(body, "customerPlatformId")) && !Truthy(Prop(body, "attachment_url")) ==>
      r == Failure(Validation(AttachmentUrlRequired))
    ensures r.Success? <==>
      Truthy(Prop(body, "customerPlatformId")) && Truthy(Prop(body, "attachment_url"))
    ensures r.Success? ==> r.value == Prop(body, "customerPlatformId")
  {
    var id := Prop(body, "customerPlatformId");
    if !Truthy(id) then Failure(Validation(CustomerIdRequired))
    else if !Truthy(Prop(body, "attachment_url")) then Failure(Validation(AttachmentUrlRequired))
    else Success(id)
  }

  /**
   * `/kinbox/finalizar`: the customer id is the only required field; it is also the
   * session id of the Purchase event sent with the body's phone and email.
   */
  method FinalizePurchase(h: string -> string, body: Json, testEventCode: string)
    returns (r: Result<PurchaseBody, RouteError>)
    ensures !Truthy(Prop(body, "customerPlatformId")) ==> r == Failure(Validation(CustomerIdRequired))
    ensures Truthy(Prop(body, "customerPlatformId")) ==>
      (r.Failure? <==> Truthy(Prop(body, "phone")) && !Prop(body, "phone").Str?)
    ensures r.Failure? && Truthy(Prop(body, "customerPlatformId")) ==> r.error == PhoneTypeError
    ensures r.Success? ==>
      IsPurchaseBodyFor(h, Prop(body, "customerPlatformId"), Prop(body, "phone"), Prop(body, "email"),
                        testEventCode, r.value)
  {
    var id := Prop(body, "customerPlatformId");
    if !Truthy(id) {
      return Failure(Validation(CustomerIdRequired));
    }
    r := SendPurchaseToMeta(h, id, Prop(body, "phone"), Prop(body, "email"), testEventCode);
  }
}
