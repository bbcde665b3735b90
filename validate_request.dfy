/** express_server/validateRequest.js: the checks on a medicine checkout request body and on
    the query string of the checkout search. `mongoose.Types.ObjectId.isValid` cannot be
    seen from here and is passed in as `isValidObjectId`. */
module ValidateRequest {
  import opened JsValues
  import opened Validation

  const TagIdRequired := "tagId property is required!"
  const TagIdInvalid := "Invalid ObjectId Received: tagId"
  const MedIdRequired := "medId property is required!"
  const MedIdInvalid := "Invalid ObjectId Received: medId"
  const QtyRequired := "qty property is required!"
  const QtyInvalid := "Qty value must be number type and must be greater than zero."

  /** `typeof v !== 'number' || v < 0` */
  predicate NotNonNegativeNumber(v: JsValue) {
    !v.Num? || v.x < 0.0
  }

  /** The checkout ladder, rung by rung, in the order the source tests them. */
  function CheckoutChecks(body: Document, isValidObjectId: JsValue -> bool): seq<Check> {
    var tagId, medId, qty := Field(body, "tagId"), Field(body, "medId"), Field(body, "qty");
    [ Check(Truthy(tagId), TagIdRequired),
      Check(isValidObjectId(tagId), TagIdInvalid),
      Check(Truthy(medId), MedIdRequired),
      Check(isValidObjectId(medId), MedIdInvalid),
      Check(Truthy(qty), QtyRequired),
      Check(!NotNonNegativeNumber(qty), QtyInvalid) ]
  }

  /** What an acceptable checkout body is: both ids present and valid, and a quantity that
      is a number above zero (0 is turned away as missing, negatives as invalid). */
  predicate AcceptableCheckout(body: Document, isValidObjectId: JsValue -> bool) {
    && Truthy(Field(body, "tagId")) && isValidObjectId(Field(body, "tagId"))
    && Truthy(Field(body, "medId")) && isValidObjectId(Field(body, "medId"))
    && Field(body, "qty").Num? && Field(body, "qty").x > 0.0
  }

  /** `validateMedCheckOut(requestBody)` */
  function ValidateMedCheckOut(body: Document, isValidObjectId: JsValue -> bool): (r: Verdict)
    ensures r == FirstFailure(CheckoutChecks(body, isValidObjectId))
    ensures r.Accepted? <==> AcceptableCheckout(body, isValidObjectId)
  {
    var checks := CheckoutChecks(body, isValidObjectId);
    FirstFailureAccepts(checks);
    var tagId, medId, qty := Field(body, "tagId"), Field(body, "medId"), Field(body, "qty");
    if !Truthy(tagId) then FirstFailureAt(checks, 0); Rejected(TagIdRequired)
    else if !isValidObjectId(tagId) then FirstFailureAt(checks, 1); Rejected(TagIdInvalid)
    else if !Truthy(medId) then FirstFailureAt(checks, 2); Rejected(MedIdRequired)
    else if !isValidObjectId(medId) then FirstFailureAt(checks, 3); Rejected(MedIdInvalid)
    else if !Truthy(qty) then FirstFailureAt(checks, 4); Rejected(QtyRequired)
    else if NotNonNegativeNumber(qty) then FirstFailureAt(checks, 5); Rejected(QtyInvalid)
    else Accepted
  }

  /** With both ids in order, the quantity alone decides: 0 is reported missing, a string
      such as "10" or a negative number is reported invalid, any number above 0 passes. */
  lemma QtyDecides(body: Document, isValidObjectId: JsValue -> bool)
    requires Truthy(Field(body, "tagId")) && isValidObjectId(Field(body, "tagId"))
    requires Truthy(Field(body, "medId")) && isValidObjectId(Field(body, "medId"))
    ensures Field(body, "qty") == Num(0.0) ==>
              ValidateMedCheckOut(body, isValidObjectId) == Rejected(QtyRequired)
    ensures (Field(body, "qty").Str? && Field(body, "qty").s != "") ==>
              ValidateMedCheckOut(body, isValidObjectId) == Rejected(QtyInvalid)
    ensures (Field(body, "qty").Num? && Field(body, "qty").x < 0.0) ==>
              ValidateMedCheckOut(body, isValidObjectId) == Rejected(QtyInvalid)
    ensures (Field(body, "qty").Num? && Field(body, "qty").x > 0.0) ==>
              ValidateMedCheckOut(body, isValidObjectId) == Accepted
  {
  }

  /** Properties other than tagId, medId and qty never change the verdict. */
  lemma CheckoutIgnoresOtherFields(body: Document, extra: Document, isValidObjectId: JsValue -> bool)
    requires "tagId" !in extra && "medId" !in extra && "qty" !in extra
    ensures ValidateMedCheckOut(body + extra, isValidObjectId)
         == ValidateMedCheckOut(body, isValidObjectId)
  {
    assert Field(body + extra, "tagId") == Field(body, "tagId");
    assert Field(body + extra, "medId") == Field(body, "medId");
    assert Field(body + extra, "qty") == Field(body, "qty");
  }

  /** The cases of the checkout unit tests, given the ObjectId verdicts they rely on. */
  lemma CheckoutTestCases(isValidObjectId: JsValue -> bool)
    requires !isValidObjectId(Str("12341234")) && !isValidObjectId(Str("abcd123"))
    requires isValidObjectId(Str("61920ce97b0b5044c4347cdc"))
    requires isValidObjectId(Str("5c0a7922c9d89830f4911426"))
    ensures ValidateMedCheckOut(map["medId" := Str("61920ce97b0b5044c4347cdc"), "qty" := Num(4.0)],
                                isValidObjectId) == Rejected(TagIdRequired)
    ensures ValidateMedCheckOut(map["tagId" := Str("12341234"),
                                    "medId" := Str("61920ce97b0b5044c4347cdc"), "qty" := Num(4.0)],
                                isValidObjectId) == Rejected(TagIdInvalid)
    ensures ValidateMedCheckOut(map["tagId" := Str("61920ce97b0b5044c4347cdc"), "qty" := Num(4.0)],
                                isValidObjectId) == Rejected(MedIdRequired)
    ensures ValidateMedCheckOut(map["tagId" := Str("61920ce97b0b5044c4347cdc"),
                                    "medId" := Str("abcd123"), "qty" := Num(5.0)],
                                isValidObjectId) == Rejected(MedIdInvalid)
    ensures ValidateMedCheckOut(map["tagId" := Str("5c0a7922c9d89830f4911426"),
                                    "medId" := Str("5c0a7922c9d89830f4911426")],
                                isValidObjectId) == Rejected(QtyRequired)
    ensures ValidateMedCheckOut(map["tagId" := Str("5c0a7922c9d89830f4911426"),
                                    "medId" := Str("5c0a7922c9d89830f4911426"), "qty" := Str("10")],
                                isValidObjectId) == Rejected(QtyInvalid)
    ensures ValidateMedCheckOut(map["tagId" := Str("5c0a7922c9d89830f4911426"),
                                    "medId" := Str("5c0a7922c9d89830f4911426"), "qty" := Num(10.0)],
                                isValidObjectId) == Accepted
  {
  }

  // ---------------------------------------------------------------------------
  // validateMedCheckOutSearchQueries

  const QueryRequired := "Request Query 'q' is required at checkout search."
  const QueryNotString := "Query String 'q' must be string and must not be null or empty."
  const QueryMalformed := "Malformed Query String. Invalid Search Params!"

  /** `q.includes('&') || q.includes('?') || q.includes('=')` */
  predicate HasSearchParamSyntax(q: string) {
    '&' in q || '?' in q || '=' in q
  }

  function SearchChecks(q: JsValue): seq<Check> {
    [ Check(Truthy(q), QueryRequired),
      Check(q.Str? && |q.s| >= 1, QueryNotString),
      Check(!(q.Str? && HasSearchParamSyntax(q.s)), QueryMalformed) ]
  }

  /** `validateMedCheckOutSearchQueries(requestQuery)` */
  function ValidateMedCheckOutSearchQueries(query: Document): (r: Verdict)
    ensures r == FirstFailure(SearchChecks(Field(query, "q")))
    ensures r.Accepted? <==>
              Field(query, "q").Str? && Field(query, "q").s != [] && !HasSearchParamSyntax(Field(query, "q").s)
  {
    var q := Field(query, "q");
    var checks := SearchChecks(q);
    FirstFailureAccepts(checks);
    if !Truthy(q) then FirstFailureAt(checks, 0); Rejected(QueryRequired)
    else if !q.Str? || q.s == [] then FirstFailureAt(checks, 1); Rejected(QueryNotString)
    else if HasSearchParamSyntax(q.s) then FirstFailureAt(checks, 2); Rejected(QueryMalformed)
    else Accepted
  }

  /** The second rung only ever fires for a value that is not a string: an empty string is
      already falsy, so it is reported as missing. */
  lemma SearchTypeRungOnlyForNonStrings(query: Document)
    requires ValidateMedCheckOutSearchQueries(query) == Rejected(QueryNotString)
    ensures !Field(query, "q").Str? && Truthy(Field(query, "q"))
  {
  }

  /** '+' and '-' are let through, although the comment above the function lists them. */
  lemma SignsPass(s: string)
    requires s != [] && !HasSearchParamSyntax(s)
    ensures ValidateMedCheckOutSearchQueries(map["q" := Str(s + "+-")]) == Accepted
  {
    assert Field(map["q" := Str(s + "+-")], "q") == Str(s + "+-");
    assert !HasSearchParamSyntax(s + "+-") by {
      forall c | c in s + "+-" ensures c != '&' && c != '?' && c != '='
      {
        var i :| 0 <= i < |s + "+-"| && (s + "+-")[i] == c;
        if i < |s| {
          assert c == s[i];
          assert c in s;
        }
      }
    }
  }

  /** The cases of the search unit tests. */
  lemma SearchTestCases()
    ensures ValidateMedCheckOutSearchQueries(map[]) == Rejected(QueryRequired)
    ensures ValidateMedCheckOutSearchQueries(map["q" := Str("")]) == Rejected(QueryRequired)
    ensures ValidateMedCheckOutSearchQueries(map["q" := Str("panadol?")]) == Rejected(QueryMalformed)
    ensures ValidateMedCheckOutSearchQueries(map["q" := Str("panadol&")]) == Rejected(QueryMalformed)
    ensures ValidateMedCheckOutSearchQueries(map["q" := Str("panadol=")]) == Rejected(QueryMalformed)
    ensures ValidateMedCheckOutSearchQueries(map["q" := Str("panadol")]) == Accepted
  {
    assert "panadol?"[7] == '?' && "panadol&"[7] == '&' && "panadol="[7] == '=';
  }
}
