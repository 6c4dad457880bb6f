/**
 * The response mapper: the fixed table of device response codes and the two functions
 * that turn a device reply body into success or an error carrying the code's description.
 */
module ResponseCode {
  import opened Outcomes

  /** The device's status codes and their descriptions. */
  const RESPONSE_CODE_MAP: map<int, string> := map[
    0 := "Successful request",
    1 := "Initializing",
    2 := "Internal Error",
    3 := "Invalid Request (A method did not exist, a method wasn\U{2019}t appropriate etc.)",
    4 := "Invalid Parameter (Out of range, invalid characters etc.)",
    5 := "Guarded (Unable to setup in current status etc.)",
    6 := "6 Time Out",
    100 := "Access Error",
    101 := "Other Errors",
    102 := "Wrong User Name",
    103 := "Wrong Password",
    104 := "Account Expired",
    105 := "Account Disconnected/Gone Off/Shut Down",
    106 := "Account Number Reached to the Limit",
    107 := "Server Maintenance",
    108 := "Invalid Account",
    109 := "License Error",
    110 := "Read Only Mode",
    111 := "Max Stations",
    112 := "Access Denied",
    113 := "There is a need to specify the additional destination Playlist",
    114 := "There is a need to create a new Playlist",
    115 := "Simultaneous logins has reached the upper limit",
    200 := "Linking in progress",
    201 := "Unlinking in progress"
  ]

  /** The 25 codes the table describes: 0 to 6, 100 to 115, 200 and 201. */
  predicate Tabled(code: int)
  {
    0 <= code <= 6 || 100 <= code <= 115 || code == 200 || code == 201
  }

  /** The description of a code; a code outside the table gets the empty string. */
  function MapResponseCode(code: int): (description: string)
    ensures description != "" <==> Tabled(code)
    ensures code in RESPONSE_CODE_MAP ==> description == RESPONSE_CODE_MAP[code]
  {
    if code in RESPONSE_CODE_MAP then RESPONSE_CODE_MAP[code] else ""
  }

  /** The distribution block of a decoded getFeatures reply. */
  datatype Distribution = Distribution(version: real, compatibleClient: seq<real>)

  /**
   * The JSON document of a reply after Go's key matching (keys match case-insensitively, so
   * the fields stand for whichever spelling the device used); each field may be missing.
   */
  datatype DistributionField = DistributionField(version: Option<real>, compatibleClient: Option<seq<real>>)
  datatype Envelope = Envelope(responseCode: Option<int>, distribution: Option<DistributionField>)

  /**
   * A reply body. `Malformed`: not JSON, a JSON value that is neither an object nor `null`,
   * or a response_code of the wrong type or outside the range of Go's `int`; both records fail
   * to decode it. The body `null` leaves both records untouched, like `{}`, and is
   * `Json(Envelope(None, None))`.
   * `MistypedDistribution`: a response_code that decodes, but a Distribution value (or one of
   * its fields) of the wrong type; only the features record, which holds that field, fails to
   * decode it. `Json`: a document both records decode.
   */
  datatype Body = Unreadable | Malformed | MistypedDistribution(code: Option<int>) | Json(envelope: Envelope)

  /** The Go records replies are decoded into; a missing field keeps its zero value. */
  datatype ReturnCodeResponse = ReturnCodeResponse(responseCode: int)
  datatype FeaturesResponse = FeaturesResponse(responseCode: int, distribution: Distribution)

  function DecodeReturnCode(e: Envelope): (r: ReturnCodeResponse)
    ensures e.responseCode.Some? ==> r.responseCode == e.responseCode.value
    ensures e.responseCode.None? ==> r.responseCode == 0
  {
    match e.responseCode
    case Some(code) => ReturnCodeResponse(code)
    case None => ReturnCodeResponse(0)
  }

  function DecodeDistribution(d: Option<DistributionField>): (r: Distribution)
    ensures d.Some? && d.value.version.Some? ==> r.version == d.value.version.value
    ensures d.Some? && d.value.compatibleClient.Some? ==> r.compatibleClient == d.value.compatibleClient.value
    ensures d.Some? && d.value.version.None? ==> r.version == 0.0
    ensures d.Some? && d.value.compatibleClient.None? ==> r.compatibleClient == []
    ensures d.None? ==> r == Distribution(0.0, [])
  {
    match d
    case None => Distribution(0.0, [])
    case Some(DistributionField(version, compatible)) =>
      Distribution(
        match version case Some(v) => v case None => 0.0,
        match compatible case Some(l) => l case None => [])
  }

  function DecodeFeatures(e: Envelope): (features: FeaturesResponse)
  {
    FeaturesResponse(DecodeReturnCode(e).responseCode, DecodeDistribution(e.distribution))
  }

  /** The returnCodeResponse record decodes the body: it ignores the Distribution key. */
  predicate StatusDecodes(body: Body)
  {
    body.Json? || body.MistypedDistribution?
  }

  function StatusRecord(body: Body): (record: ReturnCodeResponse)
    requires StatusDecodes(body)
  {
    if body.Json? then DecodeReturnCode(body.envelope) else DecodeReturnCode(Envelope(body.code, None))
  }

  /** The status record decodes with code 0. */
  predicate IsSuccess(body: Body)
  {
    StatusDecodes(body) && StatusRecord(body).responseCode == 0
  }

  /** The features record decodes with code 0. */
  predicate IsFeaturesSuccess(body: Body)
  {
    body.Json? && DecodeReturnCode(body.envelope).responseCode == 0
  }

  /** MapStatusResponse: success exactly for code 0; a read or decode failure comes first. */
  function MapStatusResponse(body: Body): (r: Outcome)
    ensures r.Done? <==> IsSuccess(body)
    ensures !r.Crashed?
    ensures body.Unreadable? ==> r == Failed(ReadError)
    ensures body.Malformed? ==> r == Failed(ParseError)
    ensures StatusDecodes(body) && !IsSuccess(body) ==>
      r == Failed(DeviceError(MapResponseCode(StatusRecord(body).responseCode)))
  {
    match body
    case Unreadable => Failed(ReadError)
    case Malformed => Failed(ParseError)
    case _ =>
      var code := StatusRecord(body).responseCode;
      if code != 0 then Failed(DeviceError(MapResponseCode(code))) else Done
  }

  /** MapFeaturesResponse: the decoded distribution block exactly for code 0. */
  function MapFeaturesResponse(body: Body): (r: Result<Distribution>)
    ensures r.Ok? <==> IsFeaturesSuccess(body)
    ensures r.Ok? ==> r.value == DecodeDistribution(body.envelope.distribution)
    ensures body.Unreadable? ==> r == Err(ReadError)
    ensures body.Malformed? || body.MistypedDistribution? ==> r == Err(ParseError)
    ensures body.Json? && !IsFeaturesSuccess(body) ==>
      r == Err(DeviceError(MapResponseCode(DecodeReturnCode(body.envelope).responseCode)))
  {
    match body
    case Unreadable => Err(ReadError)
    case Malformed => Err(ParseError)
    case MistypedDistribution(_) => Err(ParseError)
    case Json(e) =>
      var decoded := DecodeFeatures(e);
      if decoded.responseCode != 0 then Err(DeviceError(MapResponseCode(decoded.responseCode)))
      else Ok(decoded.distribution)
  }

  /** A non-zero code is a failure even when the table has no text for it. */
  lemma UnmappedCodeStillFails(code: int)
    requires code != 0 && !Tabled(code)
    ensures MapStatusResponse(Json(Envelope(Some(code), None))) == Failed(DeviceError(""))
    ensures MapFeaturesResponse(Json(Envelope(Some(code), None))) == Err(DeviceError(""))
  {
  }

  /** An envelope without a response_code field decodes to code 0 and counts as success. */
  lemma MissingCodeIsSuccess(d: Option<DistributionField>)
    ensures MapStatusResponse(Json(Envelope(None, d))) == Done
    ensures MapFeaturesResponse(Json(Envelope(None, d))) == Ok(DecodeDistribution(d))
  {
  }

  /** The body `null` (or `{}`) succeeds in both mappers, with the zero distribution block. */
  lemma NullBodySucceeds()
    ensures MapStatusResponse(Json(Envelope(None, None))) == Done
    ensures MapFeaturesResponse(Json(Envelope(None, None))) == Ok(Distribution(0.0, []))
  {
  }

  /** With code 0 the distribution block comes back as the device sent it. */
  lemma FeaturesPassedThrough(version: real, compatible: seq<real>)
    ensures MapFeaturesResponse(Json(Envelope(Some(0), Some(DistributionField(Some(version), Some(compatible))))))
         == Ok(Distribution(version, compatible))
  {
  }

  /**
   * Status and features mapping agree on whether a body is a success and on its error,
   * except for a mistyped Distribution block, which only the features record holds.
   */
  lemma MappersAgree(body: Body)
    requires !body.MistypedDistribution?
    ensures MapStatusResponse(body).Done? <==> MapFeaturesResponse(body).Ok?
    ensures MapFeaturesResponse(body).Err? ==> MapStatusResponse(body) == Failed(MapFeaturesResponse(body).error)
  {
  }

  /**
   * A mistyped Distribution block fails only getFeatures: the status mapper still decides by
   * the code, so with code 0 (or none) it succeeds while the features mapper gives ParseError.
   */
  lemma MappersDisagreeOnDistribution(code: Option<int>)
    ensures MapFeaturesResponse(MistypedDistribution(code)) == Err(ParseError)
    ensures MapStatusResponse(MistypedDistribution(code)) == MapStatusResponse(Json(Envelope(code, None)))
    ensures code == Some(0) || code == None ==> MapStatusResponse(MistypedDistribution(code)) == Done
  {
  }
}
