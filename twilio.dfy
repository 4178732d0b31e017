/**
 * The two objects of the Twilio Functions runtime that the handler builds and
 * changes in place: the HTTP response (`Twilio.Response`) and the access
 * token (`Twilio.jwt.AccessToken`). Only the setters the handler calls are
 * modelled; signing the token is not (see `Jwt`).
 */
module Twilio {
  import opened Wrappers

  /** One HTTP header line. */
  datatype Header = Header(name: string, value: string)

  /** The response as it is handed to the callback: status, headers and JSON body. */
  datatype ResponseData<B> = ResponseData(statusCode: int, headers: seq<Header>, body: B)

  /**
   * The mutable `Twilio.Response` object. A fresh response has status 200, no
   * headers and no body. The ghost counters record how many times the status
   * and the body were set, so that a caller can show each is set exactly once.
   */
  class Response<B> {
    var statusCode: int
    var headers: seq<Header>
    var body: Option<B>
    ghost var statusWrites: nat
    ghost var bodyWrites: nat

    constructor ()
      ensures statusCode == 200 && headers == [] && body == None
      ensures statusWrites == 0 && bodyWrites == 0
    {
      statusCode, headers, body := 200, [], None;
      statusWrites, bodyWrites := 0, 0;
    }

    /** `appendHeader(name, value)`: adds one header after those already present. */
    method AppendHeader(h: Header)
      modifies this
      ensures headers == old(headers) + [h]
      ensures statusCode == old(statusCode) && body == old(body)
      ensures statusWrites == old(statusWrites) && bodyWrites == old(bodyWrites)
    {
      headers := headers + [h];
    }

    /** `setStatusCode(code)`: replaces the status; headers and body stay. */
    method SetStatusCode(code: int)
      modifies this
      ensures statusCode == code
      ensures headers == old(headers) && body == old(body)
      ensures statusWrites == old(statusWrites) + 1 && bodyWrites == old(bodyWrites)
    {
      statusCode := code;
      statusWrites := statusWrites + 1;
    }

    /** `setBody(b)`: replaces the body; status and headers stay. */
    method SetBody(b: B)
      modifies this
      ensures body == Some(b)
      ensures statusCode == old(statusCode) && headers == old(headers)
      ensures statusWrites == old(statusWrites) && bodyWrites == old(bodyWrites) + 1
    {
      body := Some(b);
      bodyWrites := bodyWrites + 1;
    }

    /** What the callback receives; only a response whose body was set can be sent. */
    function Data(): ResponseData<B>
      reads this
      requires body.Some?
    {
      ResponseData(statusCode, headers, body.value)
    }
  }

  /** A capability scoping a token to one video room (`room` is undefined when not given). */
  datatype VideoGrant = VideoGrant(room: Option<string>)

  /**
   * The serialised token, kept as the claims it carries plus the key it is
   * signed with. The JWT encoding, the signature itself and the issue and
   * expiry timestamps derived from the clock are not modelled.
   */
  datatype Jwt = Jwt(
    accountSid: string,
    apiKeySid: string,
    signingKey: string,
    identity: Option<string>,
    grants: seq<VideoGrant>,
    ttl: int)

  /** The mutable `AccessToken`: fixed credentials and lifetime, identity and grants set afterwards. */
  class AccessToken {
    const accountSid: string
    const apiKeySid: string
    const apiKeySecret: string
    const ttl: int
    var identity: Option<string>
    var grants: seq<VideoGrant>

    constructor (accountSid: string, apiKeySid: string, apiKeySecret: string, ttl: int)
      ensures this.accountSid == accountSid && this.apiKeySid == apiKeySid
      ensures this.apiKeySecret == apiKeySecret && this.ttl == ttl
      ensures identity == None && grants == []
    {
      this.accountSid := accountSid;
      this.apiKeySid := apiKeySid;
      this.apiKeySecret := apiKeySecret;
      this.ttl := ttl;
      identity := None;
      grants := [];
    }

    /** `token.identity = id` */
    method SetIdentity(id: Option<string>)
      modifies this
      ensures identity == id && grants == old(grants)
    {
      identity := id;
    }

    /** `addGrant(g)`: appends one grant to those already present. */
    method AddGrant(g: VideoGrant)
      modifies this
      ensures grants == old(grants) + [g] && identity == old(identity)
    {
      grants := grants + [g];
    }

    /** `toJwt()`: the claims set on the token, signed with the API key secret. */
    function ToJwt(): Jwt
      reads this
    {
      Jwt(accountSid, apiKeySid, apiKeySecret, identity, grants, ttl)
    }
  }
}
