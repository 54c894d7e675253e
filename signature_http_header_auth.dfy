/**
 * `SignatureHttpHeaderAuthStrategy.ProcessTokenAuthorization`: the delegated
 * (third-party token) authorization header for a signature credential.
 * The HMAC computation of `OAuthGenerator` is not part of this model: the
 * generator hands everything it has been configured with to a `Signer`,
 * a function the caller supplies, which may fail with an OAuthException.
 * The wall clock is replaced by the number of seconds since 1970-01-01 UTC.
 */
module SignatureHttpHeaderAuth {
  import opened Wrappers
  import opened Strings
  import opened Decimal
  import opened Authentication

  /** `OAuthGenerator.HTTPMethod`; POST is the only member used here. */
  datatype HttpMethod = POST

  /** Everything the generator has been configured with when it is asked for a signature. */
  datatype SignatureInput = SignatureInput(
    consumerKey: Option<string>,
    consumerSecret: Option<string>,
    httpMethod: Option<HttpMethod>,
    token: Option<string>,
    tokenSecret: Option<string>,
    tokenTimestamp: Option<string>,
    requestUri: Option<string>)

  /** An OAuthException; its message text is not part of this model. */
  datatype OAuthException = OAuthException(message: string)

  /** `ComputeSignature` over a configured generator: a signature, or the exception it throws. */
  type Signer = SignatureInput -> Result<string, OAuthException>

  /** The signature generator, configured field by field before it signs. */
  class OAuthGenerator {
    const consumerKey: Option<string>
    const consumerSecret: Option<string>
    var httpMethod: Option<HttpMethod>
    var token: Option<string>
    var tokenSecret: Option<string>
    var tokenTimestamp: Option<string>
    var requestUri: Option<string>

    /** What the generator would sign now. */
    function Input(): SignatureInput
      reads this
    {
      SignatureInput(consumerKey, consumerSecret, httpMethod, token, tokenSecret, tokenTimestamp, requestUri)
    }

    constructor (consumerKey: Option<string>, consumerSecret: Option<string>)
      ensures Input() == SignatureInput(consumerKey, consumerSecret, None, None, None, None, None)
    {
      this.consumerKey := consumerKey;
      this.consumerSecret := consumerSecret;
      httpMethod, token, tokenSecret, tokenTimestamp, requestUri := None, None, None, None, None;
    }

    method SetHTTPMethod(m: HttpMethod)
      modifies this
      ensures Input() == old(Input()).(httpMethod := Some(m))
    {
      httpMethod := Some(m);
    }

    method SetToken(t: Option<string>)
      modifies this
      ensures Input() == old(Input()).(token := t)
    {
      token := t;
    }

    method SetTokenSecret(secret: Option<string>)
      modifies this
      ensures Input() == old(Input()).(tokenSecret := secret)
    {
      tokenSecret := secret;
    }

    method SetTokenTimestamp(timestamp: string)
      modifies this
      ensures Input() == old(Input()).(tokenTimestamp := Some(timestamp))
    {
      tokenTimestamp := Some(timestamp);
    }

    method SetRequestURI(uri: string)
      modifies this
      ensures Input() == old(Input()).(requestUri := Some(uri))
    {
      requestUri := Some(uri);
    }

    /** The signature over what the generator has been given; the generator does not change. */
    method ComputeSignature(signer: Signer) returns (r: Result<string, OAuthException>)
      ensures r == signer(Input())
    {
      r := signer(Input());
    }
  }

  /** The token timestamp: whole seconds since the epoch, in decimal. */
  function Timestamp(secondsSinceEpoch: nat): (s: string)
    ensures s != [] && AllDigits(s)
    ensures DigitsValue(s) == secondsSinceEpoch
  {
    DigitsValueOfNatToString(secondsSinceEpoch);
    NatToString(secondsSinceEpoch)
  }

  /**
   * The header value: "token=" token ",signature=" signature ",timestamp="
   * timestamp. It reads back as its three parts when the token and the
   * signature contain no ',' and the timestamp is a run of digits.
   */
  function AuthorizationValue(accessToken: string, sign: string, timestamp: string): (v: string)
    ensures ',' !in accessToken && ',' !in sign && timestamp != [] && AllDigits(timestamp) ==>
              ParseAuthorization(v) == Some((accessToken, sign, DigitsValue(timestamp)))
  {
    ParseOfAuthorizationText(accessToken, sign, timestamp);
    "token=" + (accessToken + (",signature=" + (sign + (",timestamp=" + timestamp))))
  }

  /**
   * What the generator is asked to sign: the credential's name and password
   * as consumer key and secret, POST, the access token and its secret, the
   * timestamp and the endpoint.
   */
  function DelegatedInput(signCredential: SignatureCredential, toknAuthorization: TokenAuthorization,
                          timestamp: string, endpointUrl: string): (input: SignatureInput)
    ensures input.consumerKey == signCredential.userName && input.consumerSecret == signCredential.password
    ensures input.httpMethod == Some(POST)
    ensures input.token == toknAuthorization.accessToken && input.tokenSecret == toknAuthorization.tokenSecret
    ensures input.tokenTimestamp == Some(timestamp) && input.requestUri == Some(endpointUrl)
  {
    SignatureInput(signCredential.userName, signCredential.password, Some(POST),
                   toknAuthorization.accessToken, toknAuthorization.tokenSecret,
                   Some(timestamp), Some(endpointUrl))
  }

  /**
   * The header map `ProcessTokenAuthorization` returns, or the OAuthException
   * it lets through. `authorizationHeader` stands for
   * `BaseConstants.PayPalAuthorizationMerchantHeader`. On success the map has
   * that one key; its value carries the signer's output for the delegated
   * input and the same timestamp the signer was given, and it reads back as
   * the token, the signature and the seconds passed in.
   */
  function TokenAuthorizationHeaders(signCredential: SignatureCredential, toknAuthorization: TokenAuthorization,
                                     endpointUrl: string, secondsSinceEpoch: nat, signer: Signer,
                                     authorizationHeader: string): (r: Result<map<string, string>, OAuthException>)
    ensures var signed := signer(DelegatedInput(signCredential, toknAuthorization, Timestamp(secondsSinceEpoch), endpointUrl));
            (r.Failure? <==> signed.Failure?)
            && (r.Failure? ==> r.error == signed.error)
            && (r.Success? ==>
                  r.value.Keys == {authorizationHeader}
                  && r.value[authorizationHeader]
                     == AuthorizationValue(AsString(toknAuthorization.accessToken), signed.value, Timestamp(secondsSinceEpoch))
                  && (',' !in AsString(toknAuthorization.accessToken) && ',' !in signed.value ==>
                        ParseAuthorization(r.value[authorizationHeader])
                        == Some((AsString(toknAuthorization.accessToken), signed.value, secondsSinceEpoch))))
  {
    var timestamp := Timestamp(secondsSinceEpoch);
    match signer(DelegatedInput(signCredential, toknAuthorization, timestamp, endpointUrl))
    case Failure(e) => Failure(e)
    case Success(sign) =>
      Success(map[authorizationHeader := AuthorizationValue(AsString(toknAuthorization.accessToken), sign, timestamp)])
  }

  /** The strategy for signature credentials, bound to the endpoint the call goes to. */
  class SignatureHttpHeaderAuthStrategy {
    const endpointUrl: string

    constructor (endpointUrl: string)
      ensures this.endpointUrl == endpointUrl
    {
      this.endpointUrl := endpointUrl;
    }

    /**
     * Configure a generator with the credential's user name and password,
     * POST, the access token and its secret, the timestamp (read once) and
     * the endpoint; sign; and return a map holding only the authorization
     * header. An OAuthException from signing propagates as it is.
     */
    method ProcessTokenAuthorization(signCredential: SignatureCredential, toknAuthorization: TokenAuthorization,
                                     secondsSinceEpoch: nat, signer: Signer, authorizationHeader: string)
      returns (r: Result<map<string, string>, OAuthException>)
      ensures r == TokenAuthorizationHeaders(signCredential, toknAuthorization, endpointUrl, secondsSinceEpoch,
                                             signer, authorizationHeader)
      ensures r.Success? ==> r.value.Keys == {authorizationHeader}
    {
      var headers: map<string, string> := map[];
      var signGenerator := new OAuthGenerator(signCredential.userName, signCredential.password);
      signGenerator.SetHTTPMethod(POST);
      signGenerator.SetToken(toknAuthorization.accessToken);
      signGenerator.SetTokenSecret(toknAuthorization.tokenSecret);
      var tokenTimeStamp := Timestamp(secondsSinceEpoch);
      signGenerator.SetTokenTimestamp(tokenTimeStamp);
      signGenerator.SetRequestURI(endpointUrl);
      assert signGenerator.Input() == DelegatedInput(signCredential, toknAuthorization, tokenTimeStamp, endpointUrl);
      var sign := signGenerator.ComputeSignature(signer);
      if sign.Failure? {
        return Failure(sign.error);
      }
      var authorization := AuthorizationValue(AsString(toknAuthorization.accessToken), sign.value, tokenTimeStamp);
      headers := headers[authorizationHeader := authorization];
      return Success(headers);
    }
  }

  // ---------------------------------------------------------------------------
  // Reading the header back

  /** What follows `prefix` in `s`, when `s` starts with it. */
  function StripPrefix(s: string, prefix: string): (r: Option<string>)
    ensures r.Some? <==> |prefix| <= |s| && s[..|prefix|] == prefix
    ensures r.Some? ==> s == prefix + r.value
  {
    if |prefix| <= |s| && s[..|prefix|] == prefix then
      assert s == prefix + s[|prefix|..];
      Some(s[|prefix|..])
    else None
  }

  /** `s` cut before its first ',': the text before it, and the rest starting with the ','. */
  function SplitAtComma(s: string): (r: Option<(string, string)>)
    ensures r.None? <==> ',' !in s
    ensures r.Some? ==> s == r.value.0 + r.value.1 && ',' !in r.value.0 && r.value.1 != [] && r.value.1[0] == ','
  {
    var comma := IndexOf(s, ',');
    if comma < 0 then None
    else
      assert s == s[..comma] + s[comma..];
      Some((s[..comma], s[comma..]))
  }

  /**
   * The access token, signature and timestamp in an authorization value, when
   * it has the shape "token=" t ",signature=" s ",timestamp=" digits, where t
   * and s contain no ','.
   */
  function ParseAuthorization(value: string): Option<(string, string, nat)> {
    match StripPrefix(value, "token=")
    case None => None
    case Some(afterToken) =>
      match SplitAtComma(afterToken)
      case None => None
      case Some((accessToken, rest)) =>
        match StripPrefix(rest, ",signature=")
        case None => None
        case Some(afterSign) =>
          match SplitAtComma(afterSign)
          case None => None
          case Some((sign, rest2)) =>
            match StripPrefix(rest2, ",timestamp=")
            case None => None
            case Some(timestamp) =>
              if timestamp == [] || !AllDigits(timestamp) then None
              else Some((accessToken, sign, DigitsValue(timestamp)))
  }

  lemma StripPrefixOfConcat(prefix: string, rest: string)
    ensures StripPrefix(prefix + rest, prefix) == Some(rest)
  {
    assert (prefix + rest)[..|prefix|] == prefix;
  }

  /** x + rest, with no ',' in x and rest starting with ',', splits back into x and rest. */
  lemma SplitAtCommaOfConcat(x: string, rest: string)
    requires ',' !in x && rest != [] && rest[0] == ','
    ensures SplitAtComma(x + rest) == Some((x, rest))
  {
    IndexOfConcat(x, rest, ',');
    assert (x + rest)[..|x|] == x && (x + rest)[|x|..] == rest;
  }

  /** The text of an authorization value reads back as its three parts, when they have the shape the parser expects. */
  lemma {:induction false} ParseOfAuthorizationText(accessToken: string, sign: string, timestamp: string)
    ensures ',' !in accessToken && ',' !in sign && timestamp != [] && AllDigits(timestamp) ==>
              ParseAuthorization("token=" + (accessToken + (",signature=" + (sign + (",timestamp=" + timestamp)))))
              == Some((accessToken, sign, DigitsValue(timestamp)))
  {
    if ',' !in accessToken && ',' !in sign && timestamp != [] && AllDigits(timestamp) {
      var rest2 := ",timestamp=" + timestamp;
      var afterSign := sign + rest2;
      var rest := ",signature=" + afterSign;
      var afterToken := accessToken + rest;
      StripPrefixOfConcat("token=", afterToken);
      SplitAtCommaOfConcat(accessToken, rest);
      StripPrefixOfConcat(",signature=", afterSign);
      SplitAtCommaOfConcat(sign, rest2);
      StripPrefixOfConcat(",timestamp=", timestamp);
    }
  }
}
