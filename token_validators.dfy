/**
 * The input schemas of the spend endpoints: a new spend request, and a
 * parent's review decision.
 */
module TokenValidators {
  import opened Wrappers
  import opened Schema
  import opened Json
  import TokenService

  /** Longest spend reason accepted. */
  const MAX_REASON_LENGTH: nat := 200

  /** What the spend-request schema demands, field by field. */
  predicate SpendRequestAccepts(j: Json)
  {
    && j.JObject?
    && "amount" in j.fields && j.fields["amount"].JNumber?
    && IsSafeInteger(j.fields["amount"].n) && j.fields["amount"].n >= 1.0
    && "reason" in j.fields && j.fields["reason"].JString?
    && 1 <= |j.fields["reason"].s| <= MAX_REASON_LENGTH
    && ("referenceId" in j.fields ==> j.fields["referenceId"].JString?)
  }

  /**
   * Validates a spend-request body: a safe integer amount of at least 1, a
   * reason of 1 to 200 characters and an optional string reference. Unknown
   * keys are dropped.
   */
  function ParseSpendRequest(j: Json): (r: Parsed<TokenService.SpendInput>)
    ensures r.Valid? <==> SpendRequestAccepts(j)
    ensures r.Valid? ==>
              && r.value.amount == j.fields["amount"].n.Floor
              && r.value.amount as real == j.fields["amount"].n
              && 1 <= r.value.amount <= MAX_SAFE_INTEGER
              && r.value.reason == j.fields["reason"].s
              && 1 <= |r.value.reason| <= MAX_REASON_LENGTH
              && (r.value.referenceId.Some? <==> "referenceId" in j.fields)
              && (r.value.referenceId.Some? ==> r.value.referenceId.value == ClientRef(j.fields["referenceId"].s))
    ensures r.Invalid? ==> |r.issues| > 0
    ensures j.JObject? && "amount" in j.fields && j.fields["amount"].JNumber? && j.fields["amount"].n < 1.0 ==>
              r.Invalid? && Issue("amount", "Amount must be at least 1") in r.issues
    ensures j.JObject? && "reason" in j.fields && j.fields["reason"] == JString("") ==>
              r.Invalid? && Issue("reason", "Reason is required") in r.issues
  {
    if !j.JObject? then Invalid([Issue("", "Invalid input: expected object")])
    else
      var amount := Field(j, "amount");
      var reason := Field(j, "reason");
      var referenceId := Field(j, "referenceId");
      var issues :=
        IntegerIssues("amount", amount, 1, "Amount must be at least 1", None, "")
        + StringIssues("reason", reason, 1, "Reason is required", MAX_REASON_LENGTH,
                       "Too big: expected string to have <=200 characters")
        + OptionalStringIssues("referenceId", referenceId);
      if issues != [] then Invalid(issues)
      else
        var ref := OptionalStringOf(referenceId);
        Valid(TokenService.SpendInput(IntegerOf(amount), reason.value.s,
                                      if ref.Some? then Some(ClientRef(ref.value)) else None))
  }

  /** The body a client sends for a spend request. */
  function EncodeSpendRequest(input: TokenService.SpendInput): (j: Json)
    requires input.referenceId.None? || input.referenceId.value.ClientRef?
  {
    var fields := map["amount" := JNumber(input.amount as real), "reason" := JString(input.reason)];
    match input.referenceId
    case Some(ClientRef(t)) => JObject(fields["referenceId" := JString(t)])
    case None => JObject(fields)
  }

  /** Every spend request the schema allows survives being sent and validated. */
  lemma SpendRequestRoundTrip(input: TokenService.SpendInput)
    requires 1 <= input.amount <= MAX_SAFE_INTEGER
    requires 1 <= |input.reason| <= MAX_REASON_LENGTH
    requires input.referenceId.None? || input.referenceId.value.ClientRef?
    ensures ParseSpendRequest(EncodeSpendRequest(input)) == Valid(input)
  {
    var j := EncodeSpendRequest(input);
    assert (input.amount as real).Floor == input.amount;
    assert SpendRequestAccepts(j);
  }

  /** What the review schema demands: a status of exactly APPROVED or DENIED. */
  predicate ReviewAccepts(j: Json)
  {
    && j.JObject? && "status" in j.fields
    && (j.fields["status"] == JString("APPROVED") || j.fields["status"] == JString("DENIED"))
  }

  /** Validates a review body into the parent's decision. */
  function ParseReview(j: Json): (r: Parsed<TokenService.Decision>)
    ensures r.Valid? <==> ReviewAccepts(j)
    ensures r == Valid(TokenService.Approve) <==> ReviewAccepts(j) && j.fields["status"] == JString("APPROVED")
    ensures r == Valid(TokenService.Deny) <==> ReviewAccepts(j) && j.fields["status"] == JString("DENIED")
    ensures r.Invalid? ==> |r.issues| > 0
  {
    if !j.JObject? then Invalid([Issue("", "Invalid input: expected object")])
    else
      var status := Field(j, "status");
      if status == Some(JString("APPROVED")) then Valid(TokenService.Approve)
      else if status == Some(JString("DENIED")) then Valid(TokenService.Deny)
      else Invalid([Issue("status", "Invalid option: expected one of \"APPROVED\"|\"DENIED\"")])
  }

  function EncodeReview(d: TokenService.Decision): Json
  {
    JObject(map["status" := JString(if d == TokenService.Approve then "APPROVED" else "DENIED")])
  }

  /** Both decisions survive being sent and validated. */
  lemma ReviewRoundTrip(d: TokenService.Decision)
    ensures ParseReview(EncodeReview(d)) == Valid(d)
  {
  }
}
