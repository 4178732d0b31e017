# Video token handler — verified model of the request decision

This project models the serverless function `src/video-token-server.js` of the
video application's backend. One invocation receives the deployment's
configuration and a request (`user_identity`, `room_name`, `passcode`,
`create_room`). It runs four checks in a fixed order, each ending the
invocation with an error response:

1. `create_room` is a boolean (400 "invalid parameter");
2. the clock is not past `API_PASSCODE_EXPIRY` (401 "passcode expired");
3. `passcode` equals `API_PASSCODE + appID + serverlessID`, where the two
   identifiers come from the deployment's domain name (401 "passcode incorrect");
4. `user_identity` is present and non-empty (400 "missing user_identity").

Then, if `create_room` (default `true`) holds, it asks the video service to
create the room. The error code 53113 ("room already exists") is ignored and
any other error gives 500 "error creating room". Finally it issues an access
token for the identity, with one grant for the room and a lifetime of 14400
seconds, and answers 200 with `{ token, room_type }`.

Files:

- `wrappers.dfy` — `Option`, used for every field that may be absent.
- `twilio.dfy` — the two runtime objects the handler changes in place, as
  classes: `Response` (status, headers, body, with ghost counters of how often
  status and body were set) and `AccessToken` (identity and grants set after
  construction). `Jwt` is the value `toJwt()` yields, kept as its claims and
  signing key.
- `video_token_server.dfy` — the request, configuration and outcome types; the
  decision table `Decide`, a function; and `Handler`, an imperative method with
  early returns that builds the mutable response and token as the source does
  and is proved to give exactly `Decide`'s outcome.
- `handler_properties.dfy` — lemmas about `Decide`.

The clock, the identifiers captured from the domain name and the way the
room-creation call ends are inputs: `now: int`, `ids: Option<DomainIds>` and
`room: RoomResult` (`Created` or `Failed(code)`). When the domain-name pattern
does not match, the source destructures `null` and throws before any response
exists; the model's outcome is then `Crashed`. The model keeps this crash; it does
not turn a failed match into an error response. The outcome also records
whether room creation was called, and with which name and type.

`create_room` is `Unset` (absent, so the default `true` applies), `Given(b)`
or `NotBoolean`. A `null` value counts as `NotBoolean`, because JavaScript's
destructuring default applies only to `undefined`. A `passcode` that is
absent or is not a string is `None`, and it never equals the expected string
under `!==`.

## Model

| member | source | states |
|---|---|---|
| `VideoTokenServer.Decide` | src/video-token-server.js:25-98 | every response carries the JSON content type; the status is 200 exactly when the body is a token body; the status is one of 200, 400, 401, 500 |
| `VideoTokenServer.Handler` | src/video-token-server.js:8-99 | the imperative handler, with early returns and the mutable response and token, gives exactly the outcome of `Decide`; it crashes exactly when no response object was built, and otherwise what it sends is `Data()` of the one fresh response object it built, i.e. its final state, whose status and body were each set exactly once |
| `VideoTokenServer.ErrorKind.StatusCode` | src/video-token-server.js:26-78 | every error status is 400, 401 or 500, never 200 |
| `VideoTokenServer.ErrorKind.Message` | src/video-token-server.js:29-81 | the `message` of each error body is a fixed non-empty phrase; the phrases themselves are pinned by `ErrorTexts` |
| `VideoTokenServer.ErrorKind.Explanation` | src/video-token-server.js:30-82 | the `explanation` of each error body is a fixed non-empty sentence |
| `VideoTokenServer.ExpectedPasscode` | src/video-token-server.js:48 | the expected passcode is `API_PASSCODE` followed by `appID` then `serverlessID`: its length is the sum of theirs, its prefix is the configured passcode and the rest is the two identifiers |
| `VideoTokenServer.CreateRoomFlag` | src/video-token-server.js:19 | after the default applies, room creation is off only for an explicit `false` |
| `VideoTokenServer.Reject` | src/video-token-server.js:26-33 | an error branch sets the kind's status, then the body `{ error: { message, explanation } }` of that kind, once each; the response object's `Data()` then equals exactly the error reply it returns |
| `VideoTokenServer.Issue` | src/video-token-server.js:90-98 | the success branch sends 200 with the token's `ToJwt()` value: a token for the request's identity, one grant for `room_name`, ttl 14400, and `room_type` set only when a room was requested; the response object's `Data()` then equals exactly that reply, and the room call recorded is the one passed in |
| `Twilio.Response.constructor` | src/video-token-server.js:22 | a fresh response has status 200, no headers and no body |
| `Twilio.Response.AppendHeader` | src/video-token-server.js:23 | appends one header and leaves status and body alone |
| `Twilio.Response.SetStatusCode` | src/video-token-server.js:26 | replaces the status only |
| `Twilio.Response.SetBody` | src/video-token-server.js:27-32 | replaces the body only |
| `Twilio.AccessToken.constructor` | src/video-token-server.js:90-92 | the token holds the account SID, API key SID and secret and the given ttl, with no identity and no grants |
| `Twilio.AccessToken.SetIdentity` | src/video-token-server.js:93 | sets the identity and keeps the grants |
| `Twilio.AccessToken.AddGrant` | src/video-token-server.js:94-95 | appends one grant and keeps the identity |
| `HandlerProperties.ErrorTexts` | src/video-token-server.js:25-86 | the five errors have the statuses 400, 401, 401, 400, 500 and the messages the handler sends, and no two share a message |
| `HandlerProperties.CrashesOnlyWithoutDomainIds` | src/video-token-server.js:20 | the handler fails before responding exactly when the domain name yields no identifiers |
| `HandlerProperties.InvalidParameterComesFirst` | src/video-token-server.js:25-34 | a non-boolean `create_room` gives 400 "invalid parameter" with no room call, whatever the clock, passcode, identity, room outcome or configuration |
| `HandlerProperties.UnsetCreateRoomMeansTrue` | src/video-token-server.js:19 | an absent `create_room` gives the same outcome as `create_room: true` |
| `HandlerProperties.UnsetCreateRoomCreatesRoom` | src/video-token-server.js:70-97 | with `create_room` absent, a 200 answer carries `room_type = ROOM_TYPE` and the room was requested with `room_name` and `ROOM_TYPE` |
| `HandlerProperties.PasscodeExpiredExactly` | src/video-token-server.js:36-46 | 401 "passcode expired" if and only if the type check passed and `now > API_PASSCODE_EXPIRY` (strict: at the expiry instant the passcode still works), whatever the passcode |
| `HandlerProperties.PasscodeIncorrectExactly` | src/video-token-server.js:48-57 | after the type and expiry checks, 401 "passcode incorrect" if and only if the passcode differs from `API_PASSCODE + appID + serverlessID` |
| `HandlerProperties.MissingIdentityExactly` | src/video-token-server.js:59-68 | 400 "missing user_identity" if and only if the identity is falsy (`IsTruthy` fails: absent or empty) and the three earlier checks passed |
| `HandlerProperties.RoomCallOnlyAfterChecks` | src/video-token-server.js:70-74 | room creation is called if and only if all four checks passed and `create_room` is true, with `room_name` and `ROOM_TYPE` |
| `HandlerProperties.RoomExistsTolerated` | src/video-token-server.js:75-77 | a creation failure with code 53113 gives the same outcome as a successful creation |
| `HandlerProperties.RoomFailureIsFatal` | src/video-token-server.js:77-86 | 500 "error creating room" if and only if the checks passed, a room was requested and creation failed with a code other than 53113; that body holds no token |
| `HandlerProperties.TokenIssuedExactly` | src/video-token-server.js:90-97 | 200 if and only if the checks passed and creation did not fail hard; the token (what `ToJwt()` yields) has identity is `user_identity`, its only grant is for `room_name`, its ttl is 14400, it is signed with the configured key, and `room_type` is `ROOM_TYPE` when `create_room` holds and null otherwise |
| `HandlerProperties.OneResponsePerInvocation` | src/video-token-server.js:25-98 | once the domain gives identifiers, exactly one response is sent: a token with 200, or a single error with its own status and no token |
| `HandlerProperties.ClockOnlyExpires` | src/video-token-server.js:36 | the clock only enters through the expiry check: a non-expired answer is unchanged at earlier times, and an expired one stays expired at later times |
| `HandlerProperties.TokenReachable` | src/video-token-server.js:48-97 | while the passcode has not expired, a request with the expected passcode gets a token for any non-empty identity and any room |
| `HandlerProperties.EveryErrorReachable` | src/video-token-server.js:25-86 | no check is shadowed by an earlier one: for any configuration and identifiers, each of the five errors answers some request at some time and room outcome |

## Left out

- The room-creation call (`client.video.rooms.create`) and `context.getTwilioClient()`: network calls into the vendor SDK. How the call ends is an input, and the outcome records the request made.
- JWT construction and signing (`toJwt()`), including the issue and expiry timestamps the library derives from the clock: `Jwt` keeps only the claims the handler sets and the signing key. So two tokens for the same request are equal here, where the real ones differ in their timestamps and signatures.
- `Date.now()`: the clock is the parameter `now`.
- The domain-name pattern `-?(\d*)-(\d+)(?:-\w+)?.twil.io$`: what it captures is the input `ids`. Only the outcome of a failed match is modelled, as `Crashed`.
- JavaScript type coercion: `API_PASSCODE_EXPIRY` is taken as an integer rather than the environment's string. Identities, room names and passcodes are strings or absent. An `undefined` configuration value concatenated into the expected passcode, or a non-string truthy identity, is not represented.
- An error thrown by room creation that has no `code` is covered by `Failed` with any code other than 53113, because `undefined !== 53113`.
- A room-creation call that never settles: the source awaits it with no timeout, so such an invocation never answers. `RoomResult` has no case for this, so every modelled invocation that gets past the checks answers.
- The `async`/callback plumbing. The callback's second argument is the `Replied` response; its first (error) argument is always `null`.
- The exact JSON serialisation of the bodies. An error body is kept as its error kind, whose `Message()` and `Explanation()` are the two strings the handler sends.
