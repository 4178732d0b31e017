/**
 * What the decision table promises: the order of the checks, the exact
 * conditions for each error, the tolerated room conflict, the token issued on
 * success and the agreement between status and body.
 */
module HandlerProperties {
  import opened Wrappers
  import opened Twilio
  import opened VideoTokenServer

  /** The invocation answered with the given error: its status and its error body. */
  predicate RejectedWith(r: Outcome, kind: ErrorKind)
  {
    r.Replied? && r.response.statusCode == kind.StatusCode() && r.response.body == ErrorBody(kind)
  }

  /** The first two checks (type of `create_room`, then expiry) passed. */
  predicate TypeAndExpiryPass(c: Config, e: Event, now: int)
  {
    !e.createRoom.NotBoolean? && now <= c.apiPasscodeExpiry
  }

  /** All four request checks passed. */
  predicate ChecksPass(c: Config, e: Event, now: int, ids: DomainIds)
  {
    TypeAndExpiryPass(c, e, now) &&
    e.passcode == Some(ExpectedPasscode(c, ids)) &&
    IsTruthy(e.userIdentity)
  }

  /**
   * Pins the error table: each of the five kinds has the status and message
   * its branch sends (a record of the constants, not a derived fact), and no
   * two kinds share a message, so a message identifies its error.
   */
  lemma ErrorTexts()
    ensures InvalidParameter.StatusCode() == 400 && InvalidParameter.Message() == "invalid parameter"
    ensures PasscodeExpired.StatusCode() == 401 && PasscodeExpired.Message() == "passcode expired"
    ensures PasscodeIncorrect.StatusCode() == 401 && PasscodeIncorrect.Message() == "passcode incorrect"
    ensures MissingUserIdentity.StatusCode() == 400 && MissingUserIdentity.Message() == "missing user_identity"
    ensures RoomCreationFailed.StatusCode() == 500 && RoomCreationFailed.Message() == "error creating room"
    ensures forall k1: ErrorKind, k2: ErrorKind :: k1 != k2 ==> k1.Message() != k2.Message()
  {
  }

  /** The handler fails before building any response exactly when the domain name gave no identifiers. */
  lemma CrashesOnlyWithoutDomainIds(c: Config, e: Event, now: int, ids: Option<DomainIds>, room: RoomResult)
    ensures Decide(c, e, now, ids, room).Crashed? <==> ids.None?
  {
  }

  /**
   * A `create_room` that is present but not a boolean is refused with 400
   * "invalid parameter", and since this check comes first the answer does not
   * depend on the clock, the passcode, the identity, the room or the configuration.
   */
  lemma InvalidParameterComesFirst(c1: Config, c2: Config, e1: Event, e2: Event, now1: int, now2: int,
                                   ids1: DomainIds, ids2: DomainIds, room1: RoomResult, room2: RoomResult)
    requires e1.createRoom.NotBoolean? && e2.createRoom.NotBoolean?
    ensures RejectedWith(Decide(c1, e1, now1, Some(ids1), room1), InvalidParameter)
    ensures Decide(c1, e1, now1, Some(ids1), room1).roomCall.None?
    ensures Decide(c1, e1, now1, Some(ids1), room1) == Decide(c2, e2, now2, Some(ids2), room2)
  {
  }

  /** An absent `create_room` behaves exactly as `create_room: true`. */
  lemma UnsetCreateRoomMeansTrue(c: Config, e: Event, now: int, ids: Option<DomainIds>, room: RoomResult)
    requires e.createRoom.Unset?
    ensures Decide(c, e, now, ids, room) == Decide(c, e.(createRoom := Given(true)), now, ids, room)
  {
  }

  /**
   * With `create_room` absent, a successful answer carries the configured room
   * type, and the room was requested under the given name and that type.
   */
  lemma UnsetCreateRoomCreatesRoom(c: Config, e: Event, now: int, ids: Option<DomainIds>, room: RoomResult)
    requires e.createRoom.Unset?
    requires Decide(c, e, now, ids, room).Replied?
    requires Decide(c, e, now, ids, room).response.statusCode == 200
    ensures Decide(c, e, now, ids, room).response.body.roomType == Some(c.roomType)
    ensures Decide(c, e, now, ids, room).roomCall == Some(RoomRequest(e.roomName, c.roomType))
  {
  }

  /**
   * The answer is 401 "passcode expired" exactly when the domain gave
   * identifiers, `create_room` passed its type check and the clock is strictly
   * past the expiry: at the expiry instant itself the passcode is still valid,
   * and a correct passcode does not help once it has expired.
   */
  lemma PasscodeExpiredExactly(c: Config, e: Event, now: int, ids: Option<DomainIds>, room: RoomResult)
    ensures RejectedWith(Decide(c, e, now, ids, room), PasscodeExpired)
            <==> ids.Some? && !e.createRoom.NotBoolean? && now > c.apiPasscodeExpiry
  {
  }

  /**
   * Once the first two checks pass, the answer is 401 "passcode incorrect"
   * exactly when the passcode is not the configured passcode followed by the
   * application and serverless identifiers.
   */
  lemma PasscodeIncorrectExactly(c: Config, e: Event, now: int, ids: DomainIds, room: RoomResult)
    ensures RejectedWith(Decide(c, e, now, Some(ids), room), PasscodeIncorrect)
            <==> TypeAndExpiryPass(c, e, now) && e.passcode != Some(ExpectedPasscode(c, ids))
  {
  }

  /**
   * The answer is 400 "missing user_identity" exactly when the identity is
   * absent or empty and the type, expiry and passcode checks all passed.
   */
  lemma MissingIdentityExactly(c: Config, e: Event, now: int, ids: DomainIds, room: RoomResult)
    ensures RejectedWith(Decide(c, e, now, Some(ids), room), MissingUserIdentity)
            <==> TypeAndExpiryPass(c, e, now) && e.passcode == Some(ExpectedPasscode(c, ids))
                 && !IsTruthy(e.userIdentity)
  {
  }

  /**
   * The room-creation call is made exactly when every check passed and the
   * effective `create_room` is true, and it asks for the request's room name
   * with the configured room type.
   */
  lemma RoomCallOnlyAfterChecks(c: Config, e: Event, now: int, ids: DomainIds, room: RoomResult)
    ensures Decide(c, e, now, Some(ids), room).roomCall.Some?
            <==> ChecksPass(c, e, now, ids) && CreateRoomFlag(e.createRoom)
    ensures Decide(c, e, now, Some(ids), room).roomCall.Some? ==>
            Decide(c, e, now, Some(ids), room).roomCall.value == RoomRequest(e.roomName, c.roomType)
  {
  }

  /** A room-creation failure with code 53113 ("room already exists") is answered as a success would be. */
  lemma RoomExistsTolerated(c: Config, e: Event, now: int, ids: Option<DomainIds>)
    ensures Decide(c, e, now, ids, Failed(RoomExistsCode)) == Decide(c, e, now, ids, Created)
  {
  }

  /**
   * The answer is 500 "error creating room" exactly when every check passed,
   * a room was requested and its creation failed with a code other than
   * 53113; the body then holds no token.
   */
  lemma RoomFailureIsFatal(c: Config, e: Event, now: int, ids: DomainIds, room: RoomResult)
    ensures RejectedWith(Decide(c, e, now, Some(ids), room), RoomCreationFailed)
            <==> ChecksPass(c, e, now, ids) && CreateRoomFlag(e.createRoom)
                 && room.Failed? && room.code != RoomExistsCode
    ensures RejectedWith(Decide(c, e, now, Some(ids), room), RoomCreationFailed)
            ==> !Decide(c, e, now, Some(ids), room).response.body.TokenBody?
  {
  }

  /**
   * Status 200 is sent exactly when every check passed and room creation, if
   * made, did not fail hard. The token then names the caller, holds one grant
   * for the requested room, lives 14400 seconds and is signed with the
   * configured key; `room_type` is the configured one if a room was requested
   * and null otherwise.
   */
  lemma TokenIssuedExactly(c: Config, e: Event, now: int, ids: DomainIds, room: RoomResult)
    ensures var r := Decide(c, e, now, Some(ids), room);
      r.response.statusCode == 200
      <==> ChecksPass(c, e, now, ids)
           && !(CreateRoomFlag(e.createRoom) && room.Failed? && room.code != RoomExistsCode)
    ensures var r := Decide(c, e, now, Some(ids), room);
      r.response.statusCode == 200 ==>
        && r.response.body.token.identity == e.userIdentity
        && e.userIdentity.Some? && e.userIdentity.value != ""
        && r.response.body.token.grants == [VideoGrant(e.roomName)]
        && r.response.body.token.ttl == 14400
        && r.response.body.token.accountSid == c.accountSid
        && r.response.body.token.apiKeySid == c.apiKeySid
        && r.response.body.token.signingKey == c.apiKeySecret
        && r.response.body.roomType == (if CreateRoomFlag(e.createRoom) then Some(c.roomType) else None)
  {
  }

  /**
   * Every invocation whose domain gave identifiers sends exactly one response:
   * either a token with status 200, or exactly one of the five errors with its
   * own status and no token.
   */
  lemma OneResponsePerInvocation(c: Config, e: Event, now: int, ids: DomainIds, room: RoomResult)
    ensures var r := Decide(c, e, now, Some(ids), room);
      r.Replied? &&
      (r.response.body.TokenBody? <==> r.response.statusCode == 200) &&
      (r.response.body.ErrorBody? ==> RejectedWith(r, r.response.body.kind))
  {
  }

  /**
   * The clock only matters through the expiry check: an answer other than
   * "passcode expired" at time `now` is given unchanged at any earlier time,
   * and "passcode expired" at `now` stays so at any later time.
   */
  lemma ClockOnlyExpires(c: Config, e: Event, now: int, earlier: int, later: int,
                         ids: Option<DomainIds>, room: RoomResult)
    requires earlier <= now <= later
    ensures !RejectedWith(Decide(c, e, now, ids, room), PasscodeExpired) ==>
            Decide(c, e, earlier, ids, room) == Decide(c, e, now, ids, room)
    ensures RejectedWith(Decide(c, e, now, ids, room), PasscodeExpired) ==>
            Decide(c, e, later, ids, room) == Decide(c, e, now, ids, room)
  {
  }

  /**
   * The checks never refuse everyone: whenever the domain gave identifiers and
   * the passcode has not expired, some request obtains a token for any
   * non-empty identity and any room, without a room being created.
   */
  lemma TokenReachable(c: Config, now: int, ids: DomainIds, room: RoomResult,
                       identity: string, roomName: Option<string>)
    requires now <= c.apiPasscodeExpiry && identity != ""
    ensures exists e: Event :: Decide(c, e, now, Some(ids), room).response.statusCode == 200
                               && e.userIdentity == Some(identity) && e.roomName == roomName
                               && Decide(c, e, now, Some(ids), room).roomCall.None?
  {
    var e := Event(Some(identity), roomName, Some(ExpectedPasscode(c, ids)), Given(false));
    assert Decide(c, e, now, Some(ids), room).response.statusCode == 200;
  }

  /**
   * No check is shadowed by the ones before it: for any configuration and
   * identifiers, each of the five errors is the answer to some request at
   * some time and for some room-creation outcome.
   */
  lemma EveryErrorReachable(c: Config, ids: DomainIds, kind: ErrorKind)
    ensures exists e: Event, now: int, room: RoomResult :: RejectedWith(Decide(c, e, now, Some(ids), room), kind)
  {
    var good := Event(Some("u"), None, Some(ExpectedPasscode(c, ids)), Unset);
    var now := c.apiPasscodeExpiry;
    match kind
    case InvalidParameter =>
      var e := good.(createRoom := NotBoolean);
      assert RejectedWith(Decide(c, e, now, Some(ids), Created), kind);
    case PasscodeExpired =>
      assert RejectedWith(Decide(c, good, now + 1, Some(ids), Created), kind);
    case PasscodeIncorrect =>
      var e := good.(passcode := None);
      assert RejectedWith(Decide(c, e, now, Some(ids), Created), kind);
    case MissingUserIdentity =>
      var e := good.(userIdentity := Some(""));
      assert RejectedWith(Decide(c, e, now, Some(ids), Created), kind);
    case RoomCreationFailed =>
      assert RejectedWith(Decide(c, good, now, Some(ids), Failed(RoomExistsCode + 1)), kind);
  }
}
