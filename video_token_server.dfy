/**
 * The request-decision pipeline of the video token handler: four checks run in
 * a fixed order, each ending the invocation with an error response, then an
 * optional room creation (where "room already exists" is tolerated), then a
 * token scoped to the caller's identity and room.
 *
 * The clock, the identifiers taken from the deployment's domain name and the
 * outcome of the room-creation call are inputs rather than calls.
 */
module VideoTokenServer {
  import opened Wrappers
  import opened Twilio

  /** Lifetime of every issued token, in seconds (four hours). */
  const MaxAllowedSessionDuration: int := 14400

  /** The video service's error code for "a room with this name already exists". */
  const RoomExistsCode: int := 53113

  const JsonContentType: Header := Header("Content-Type", "application/json")

  /** The deployment's configuration, read once per invocation and never changed. */
  datatype Config = Config(
    accountSid: string,
    apiKeySid: string,
    apiKeySecret: string,
    apiPasscode: string,
    apiPasscodeExpiry: int,  // epoch milliseconds
    roomType: string)

  /** The two numbers captured from the deployment's domain name. */
  datatype DomainIds = DomainIds(appID: string, serverlessID: string)

  /**
   * The `create_room` field as it arrives: absent (the destructuring default
   * `true` applies), a boolean, or any other value (including `null`).
   */
  datatype CreateRoomParam = Unset | Given(flag: bool) | NotBoolean

  /**
   * The request fields. A field that is absent, or for `passcode` a value that
   * is not a string (and so never strictly equal to one), is `None`.
   */
  datatype Event = Event(
    userIdentity: Option<string>,
    roomName: Option<string>,
    passcode: Option<string>,
    createRoom: CreateRoomParam)

  /** How the room-creation call ends: success, or an error carrying the service's code. */
  datatype RoomResult = Created | Failed(code: int)

  /** The arguments of a room-creation call: the unique name and the room type. */
  datatype RoomRequest = RoomRequest(uniqueName: Option<string>, roomType: string)

  /**
   * The JSON body: `{ error: { message, explanation } }`, whose two strings
   * are those of the error kind, or `{ token, room_type }`.
   */
  datatype Body =
    | ErrorBody(kind: ErrorKind)
    | TokenBody(token: Jwt, roomType: Option<string>)

  /** The five ways an invocation can be refused, with their status, message and explanation. */
  datatype ErrorKind =
    | InvalidParameter
    | PasscodeExpired
    | PasscodeIncorrect
    | MissingUserIdentity
    | RoomCreationFailed
  {
    function StatusCode(): (s: int)
      ensures s in {400, 401, 500}
    {
      match this
      case InvalidParameter => 400
      case PasscodeExpired => 401
      case PasscodeIncorrect => 401
      case MissingUserIdentity => 400
      case RoomCreationFailed => 500
    }

    /** The `message` field of the error body: a fixed, non-empty phrase per kind. */
    function Message(): (m: string)
      ensures |m| > 0
    {
      match this
      case InvalidParameter => "invalid parameter"
      case PasscodeExpired => "passcode expired"
      case PasscodeIncorrect => "passcode incorrect"
      case MissingUserIdentity => "missing user_identity"
      case RoomCreationFailed => "error creating room"
    }

    /** The `explanation` field of the error body: a fixed, non-empty sentence per kind. */
    function Explanation(): (x: string)
      ensures |x| > 0
    {
      match this
      case InvalidParameter => "A boolean value must be provided for the create_room parameter"
      case PasscodeExpired =>
        "The passcode used to validate application users has expired. Re-deploy the application to refresh the passcode."
      case PasscodeIncorrect => "The passcode used to validate application users is incorrect."
      case MissingUserIdentity => "The user_identity parameter is missing."
      case RoomCreationFailed => "Something went wrong when creating a room."
    }
  }

  /**
   * What one invocation does: it throws before building any response (the
   * domain name did not match), or it hands exactly one response to the
   * callback, having called room creation with `roomCall` if at all.
   */
  datatype Outcome =
    | Crashed
    | Replied(response: ResponseData<Body>, roomCall: Option<RoomRequest>)

  /** The passcode a caller must present: the configured one followed by both domain identifiers. */
  function ExpectedPasscode(c: Config, ids: DomainIds): (p: string)
    ensures |p| == |c.apiPasscode| + |ids.appID| + |ids.serverlessID|
    ensures p[..|c.apiPasscode|] == c.apiPasscode
    ensures p[|c.apiPasscode|..] == ids.appID + ids.serverlessID
  {
    c.apiPasscode + ids.appID + ids.serverlessID
  }

  /** JavaScript truthiness of an optional string: present and non-empty. */
  predicate IsTruthy(s: Option<string>)
  {
    s.Some? && s.value != ""
  }

  /**
   * The effective `create_room` once the default has been applied: only an
   * explicit `false` turns room creation off.
   */
  function CreateRoomFlag(p: CreateRoomParam): (b: bool)
    requires !p.NotBoolean?
    ensures b <==> p != Given(false)
  {
    match p
    case Unset => true
    case Given(b) => b
  }

  function ErrorReply(kind: ErrorKind, roomCall: Option<RoomRequest>): Outcome
  {
    Replied(
      ResponseData(kind.StatusCode(), [JsonContentType], ErrorBody(kind)),
      roomCall)
  }

  /** The token issued to a request that passed every check. */
  function IssuedToken(c: Config, e: Event): Jwt
  {
    Jwt(c.accountSid, c.apiKeySid, c.apiKeySecret, e.userIdentity,
        [VideoGrant(e.roomName)], MaxAllowedSessionDuration)
  }

  function RoomCall(c: Config, e: Event, createRoom: bool): Option<RoomRequest>
  {
    if createRoom then Some(RoomRequest(e.roomName, c.roomType)) else None
  }

  /**
   * The decision table of the handler: the reference definition that the
   * method `Handler` is proved to follow.
   */
  function Decide(c: Config, e: Event, now: int, ids: Option<DomainIds>, room: RoomResult): (r: Outcome)
    ensures r.Replied? ==> r.response.headers == [JsonContentType]
    ensures r.Replied? ==> (r.response.statusCode == 200 <==> r.response.body.TokenBody?)
    ensures r.Replied? ==> r.response.statusCode in {200, 400, 401, 500}
  {
    if ids.None? then Crashed
    else if e.createRoom.NotBoolean? then ErrorReply(InvalidParameter, None)
    else if now > c.apiPasscodeExpiry then ErrorReply(PasscodeExpired, None)
    else if e.passcode != Some(ExpectedPasscode(c, ids.value)) then ErrorReply(PasscodeIncorrect, None)
    else if !IsTruthy(e.userIdentity) then ErrorReply(MissingUserIdentity, None)
    else
      var createRoom := CreateRoomFlag(e.createRoom);
      if createRoom && room.Failed? && room.code != RoomExistsCode then
        ErrorReply(RoomCreationFailed, RoomCall(c, e, true))
      else
        Replied(
          ResponseData(200, [JsonContentType],
                       TokenBody(IssuedToken(c, e), if createRoom then Some(c.roomType) else None)),
          RoomCall(c, e, createRoom))
  }

  /**
   * One error branch of the handler: sets the kind's status, then its body,
   * on a response that so far carries only the JSON content type.
   */
  method Reject(response: Response<Body>, kind: ErrorKind, roomCall: Option<RoomRequest>) returns (r: Outcome)
    requires response.headers == [JsonContentType]
    modifies response
    ensures r == ErrorReply(kind, roomCall)
    ensures response.body.Some? && response.Data() == r.response
    ensures response.statusWrites == old(response.statusWrites) + 1
    ensures response.bodyWrites == old(response.bodyWrites) + 1
  {
    response.SetStatusCode(kind.StatusCode());
    response.SetBody(ErrorBody(kind));
    r := Replied(response.Data(), roomCall);
  }

  /**
   * The success path of the handler: a token with the fixed lifetime is
   * created, given the caller's identity and one grant for the room, and sent
   * with status 200 and, when a room was requested, the configured room type.
   */
  method Issue(response: Response<Body>, c: Config, e: Event, createRoom: bool, roomCall: Option<RoomRequest>)
    returns (r: Outcome)
    requires response.headers == [JsonContentType]
    modifies response
    ensures r == Replied(
      ResponseData(200, [JsonContentType],
                   TokenBody(IssuedToken(c, e), if createRoom then Some(c.roomType) else None)),
      roomCall)
    ensures response.body.Some? && response.Data() == r.response
    ensures response.statusWrites == old(response.statusWrites) + 1
    ensures response.bodyWrites == old(response.bodyWrites) + 1
  {
    var token := new AccessToken(c.accountSid, c.apiKeySid, c.apiKeySecret, MaxAllowedSessionDuration);
    token.SetIdentity(e.userIdentity);
    token.AddGrant(VideoGrant(e.roomName));
    assert token.grants == [VideoGrant(e.roomName)];
    response.SetStatusCode(200);
    response.SetBody(TokenBody(token.ToJwt(), if createRoom then Some(c.roomType) else None));
    r := Replied(response.Data(), roomCall);
  }

  /**
   * The handler as the source runs it: it builds one mutable response, checks
   * in order and leaves at the first failure, calls room creation only when
   * every check passed and `create_room` holds, then fills in a mutable token.
   * `now` is the clock, `ids` what the domain-name pattern captured, and
   * `room` how the room-creation call ends if it is made. The ghost result
   * is the response object that was built, if any: what is sent is its final
   * state, and its status and body were each set exactly once.
   */
  method Handler(c: Config, e: Event, now: int, ids: Option<DomainIds>, room: RoomResult)
    returns (r: Outcome, ghost resp: Option<Response<Body>>)
    ensures r == Decide(c, e, now, ids, room)
    ensures r.Crashed? <==> resp.None?
    ensures resp.Some? ==> fresh(resp.value)
    ensures r.Replied? ==>
              && resp.Some? && resp.value.body.Some? && resp.value.Data() == r.response
              && resp.value.statusWrites == 1 && resp.value.bodyWrites == 1
  {
    if ids.None? {
      // Destructuring the failed match throws before any response exists.
      return Crashed, None;
    }
    var appID, serverlessID := ids.value.appID, ids.value.serverlessID;

    var response := new Response<Body>();
    response.AppendHeader(JsonContentType);

    if e.createRoom.NotBoolean? {
      r := Reject(response, InvalidParameter, None);
      return r, Some(response);
    }
    var createRoom := if e.createRoom.Unset? then true else e.createRoom.flag;

    if now > c.apiPasscodeExpiry {
      r := Reject(response, PasscodeExpired, None);
      return r, Some(response);
    }

    if Some(c.apiPasscode + appID + serverlessID) != e.passcode {
      r := Reject(response, PasscodeIncorrect, None);
      return r, Some(response);
    }

    if e.userIdentity.None? || e.userIdentity.value == "" {
      r := Reject(response, MissingUserIdentity, None);
      return r, Some(response);
    }

    var roomCall: Option<RoomRequest> := None;
    if createRoom {
      roomCall := Some(RoomRequest(e.roomName, c.roomType));
      if room.Failed? && room.code != RoomExistsCode {
        r := Reject(response, RoomCreationFailed, roomCall);
        return r, Some(response);
      }
    }

    r := Issue(response, c, e, createRoom, roomCall);
    return r, Some(response);
  }
}
