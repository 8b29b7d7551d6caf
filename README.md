# Turn-passing session server — Dafny model

This project models the server of a two-player "ping" page (`server.js`): the
session and turn-coordination state machine. Two browsers connect over socket.io,
identify themselves, and pass a turn token back and forth through an HTTP route.

The state has three parts:

- `connectedUsers`, a JavaScript `Map` from socket id to `{userId, isBtnDisabled}`.
  It is modelled as a sequence of entries with distinct keys, because a `Map` keeps
  insertion order, `set` on a present key replaces the value where it stands, and
  `delete` keeps the order of the rest (module `UserMap`).
- the turn token, stored in `token.json`. It is modelled as a value: `Absent`,
  `Corrupt` (text that does not parse as JSON) or `Stored(Token(user, browser))`
  (module `TokenStore`). The file outlives the process, so a new server starts from
  whatever file is on disk, and that is how `Corrupt` can arise.
- the set of sockets that the `connection` handler admitted and that have not
  disconnected. Only these sockets have `identify` and `disconnect` handlers. An
  event from any other socket changes nothing.

The model has four layers:

- `Projections` holds what is sent without changing the state: the `userUpdate`
  payloads of `broadcastUserList`, and the replies of `GET /api/users` and `GET /api/data`.
- `SessionModel` states every handler as a function from state to state.
- `Scenarios` proves concrete runs of the protocol on top of `SessionModel`.
- `Session.Server` is the server as a class. Its fields are updated in place, and its
  flag loops are `while` loops, just as the `for...of` loops of `setBtnState` and
  `switchBtnState` are. Each method is proved to perform the step that `SessionModel`
  gives for it.

Sending a message is modelled as the value it would carry. `Identify` and
`Disconnect` return the final `broadcastUserList` events. `Connect` returns the
admission decision together with the denial text.

## Behaviour worth knowing

The model follows `server.js` in every case below. Each point is a consequence of the code as written.

- The cap of two is not an invariant. `connection` counts only identified sockets, and
  `identify` does not check the cap again. So three sockets that connect before any of
  them identifies all end up in the map (`Scenarios.MapExceedsCap`). A socket that is
  connected but not yet identified takes no slot.
- A newly identified user is always stored with `isBtnDisabled: true`, even when it is
  the second one. Only the entries already present are enabled. After "alice" and then
  "bob" identify, alice is enabled and bob is disabled (`Scenarios.SeatedFlags`). The
  first user does not copy any earlier button state.
- Suppose alice holds the token and bob, who does not hold it, disconnects. The token is
  deleted, not kept (`Scenarios.NonHolderLeaves`). The rule is "delete unless the
  departing user is the holder".
- When the holder disconnects, the token is kept (`Scenarios.HolderLeaves`). It stays
  until some other socket disconnects or a new token is posted. The remaining player can
  therefore be left waiting on a holder who has gone.
- A socket that connected but never identified has user id `undefined`. Its departure
  deletes any stored token, and it still applies the lone-survivor rule to the map
  (`Scenarios.UnidentifiedDepartureClearsToken`).

## Model

| member | source | states |
|---|---|---|
| `UserMap.Keys` | server.js:26 | the keys of the map, one per entry, in insertion order |
| `UserMap.UserIds` | server.js:97 | the user ids of the map, one per entry, in insertion order |
| `UserMap.Get` | server.js:62 | `Map.get` is empty exactly when the key is absent, and otherwise returns the value stored under that key |
| `UserMap.Set` | server.js:56 | `Map.set` grows the map by at most one entry, and the result holds the new entry |
| `UserMap.SetSpec` | server.js:56 | `Map.set` appends a new key at the end, or replaces the value of a present key in place; the keys stay distinct and include the key just set |
| `UserMap.Delete` | server.js:63 | `Map.delete` shrinks the map by at most one entry |
| `UserMap.DeleteSpec` | server.js:63 | `Map.delete` removes exactly the entry under the key and keeps the order of the rest; an absent key changes nothing |
| `UserMap.SetAll` | server.js:121-125 | the `setBtnState` loop: every entry keeps its position, key and user id, and gets the given flag |
| `UserMap.SwitchAll` | server.js:113-117 | the `switchBtnState` loop: every entry keeps its position, key and user id, and its flag is negated |
| `UserMap.SetAllKeepsIdentities` | server.js:121-125 | `setBtnState` leaves the key sequence and the user-id sequence unchanged, and sets every flag |
| `UserMap.SetAllIdempotent` | server.js:121-125 | applying `setBtnState(s)` twice gives the same map as applying it once |
| `UserMap.SetAllOverrides` | server.js:121-125 | of two `setBtnState` calls in a row, only the second decides the flags |
| `UserMap.SwitchAllKeepsIdentities` | server.js:113-117 | `switchBtnState` leaves the key sequence and the user-id sequence unchanged |
| `UserMap.SwitchAllInvolutive` | server.js:113-117 | applying `switchBtnState` twice restores the original map |
| `UserMap.SetFlagAt` | server.js:123-124 | one loop step: `set` with the current key changes only that entry's flag |
| `TokenStore.Post` | server.js:140-153 | 400 exactly when the body is missing or `user` or `browser` is absent or empty; 500 exactly on a failed write; on every error the file is unchanged; on 200 the file holds the posted user and browser, whatever it held before |
| `TokenStore.Read` | server.js:156-169 | a read succeeds exactly when a token is stored and returns it; a missing file gives 500 "Failed to read token", an unparsable one gives 500 "Invalid token format" |
| `TokenStore.ClearIfNotHolder` | server.js:67-88 | the disconnect rule only ever deletes the token; it deletes it exactly when a token is stored and the departing user id differs from its `user`; an unparsable file stays |
| `TokenStore.PutThenGet` | server.js:140-169 | after a successful put of T, a get returns T |
| `TokenStore.FailedPutKeepsToken` | server.js:142-150 | a refused or failed put does not change what a get returns |
| `TokenStore.LastWriterWins` | server.js:146 | after two successful puts, a get returns the second token |
| `TokenStore.HolderLeavesTokenKept` | server.js:71-82 | put T, then T's holder disconnects: a get still returns T |
| `TokenStore.OtherLeavesTokenCleared` | server.js:71-79 | put T, then any socket not identified as T's holder disconnects: the token is gone and a get fails |
| `Projections.Notify` | server.js:32-36 | one event per entry, to that entry's socket, with the given user list and the entry's own flag |
| `Projections.Broadcast` | server.js:29-38 | `broadcastUserList` sends one event per entry, in map order; each event goes to that entry's socket, with all user ids and the recipient's own flag |
| `Projections.Data` | server.js:102-110 | `/api/data` returns 200 exactly for an identified socket, with that socket's flag; otherwise it returns 404 with `isDisabled: true` |
| `Projections.BroadcastAgreesWithPolling` | server.js:29-37 | each broadcast recipient is an identified socket; it is told the list `/api/users` returns and the flag `/api/data` reports for it |
| `Projections.BroadcastReachesEachSocketOnce` | server.js:32-36 | no socket receives two events from one broadcast |
| `SessionModel.Init` | server.js:26 | a new process has no users; the token file is whatever is on disk |
| `SessionModel.Admit` | server.js:43-47 | a connection is denied exactly when two or more sockets are identified, with "Maximum number of users reached." |
| `SessionModel.Connect` | server.js:42-48 | with two or more identified sockets the step changes nothing; with fewer, it only adds the socket to the set of sockets with handlers |
| `SessionModel.AdmissionRule` | server.js:42-48 | a denied connection leaves the whole state unchanged; an admitted one registers the socket's handlers and leaves the map alone; the invariant holds |
| `SessionModel.IdentifyUsers` | server.js:53-56 | the map part of `identify` grows the map by at most one entry and stores `{id, true}` under `sid` |
| `SessionModel.IdentifySpec` | server.js:52-57 | after `identify`, `sid` holds `{id, true}`; every other entry keeps its position, key and user id and has its flag cleared; the map grows by one entry, at the end, exactly when `sid` was new |
| `SessionModel.IdentifyKeepsValid` | server.js:52-57 | after `identify` the keys stay distinct, and only sockets with live handlers are keys |
| `SessionModel.Identify` | server.js:52-59 | the `identify` step keeps the state invariant |
| `SessionModel.DisconnectSpec` | server.js:61-90 | after `disconnect`, `sid` is gone and every other key and user id keeps its order; if at most one entry is left, all flags are true; otherwise the map is just the deletion |
| `SessionModel.DisconnectUsers` | server.js:61-90 | the map part of `disconnect` shrinks the map by at most one entry; if at most one entry is left, every flag is true |
| `SessionModel.DepartingId` | server.js:62-71 | the departing user id is absent exactly for an unidentified socket, and is otherwise that socket's user id |
| `SessionModel.Disconnect` | server.js:61-92 | the `disconnect` step keeps the state invariant |
| `SessionModel.SwitchBtnState` | server.js:130-133 | `POST /api/switchBtnState` keeps the state invariant |
| `SessionModel.PostToken` | server.js:140-153 | `POST /api/token` keeps the state invariant |
| `Scenarios.SeatedFlags` | server.js:52-57 | A and B connect, then identify as alice and bob: alice is enabled and bob is disabled |
| `Scenarios.ThirdConnectionDenied` | server.js:43-47 | with two identified users, a third connection is denied and changes nothing |
| `Scenarios.NonHolderLeaves` | server.js:61-91 | alice posts a token and bob disconnects: the token is deleted and alice is left alone and disabled |
| `Scenarios.HolderLeaves` | server.js:61-91 | alice posts a token and then disconnects herself: the token stays and bob is left alone and disabled |
| `Scenarios.MapExceedsCap` | server.js:42-57 | three sockets that connect before any identifies all become entries: the map holds 3 users |
| `Scenarios.UnidentifiedDepartureClearsToken` | server.js:61-90 | the departure of a socket that never identified deletes a stored token, and applies only the lone-survivor rule to the map |
| `Session.Server.constructor` | server.js:26 | the server starts in the initial state, with the token file found on disk |
| `Session.Server.Connect` | server.js:42-48 | the method performs the admission step and returns its decision |
| `Session.Server.SetBtnState` | server.js:121-127 | the loop sets every flag (`SetAll` of the old map), leaves sockets and token unchanged, and returns the broadcast of the new map |
| `Session.Server.SwitchBtnState` | server.js:113-119 | the loop negates every flag (`SwitchAll` of the old map), leaves sockets and token unchanged, and returns the broadcast |
| `Session.Server.PostSwitchBtnState` | server.js:130-133 | the route performs the switch step and replies "Switched button states!" |
| `Session.Server.Identify` | server.js:52-59 | the handler performs the `identify` step and returns the broadcast of the new map; a socket without handlers changes nothing |
| `Session.Server.Disconnect` | server.js:61-92 | the handler performs the `disconnect` step (map, flags, token rule, socket closed) and returns the broadcast |
| `Session.Server.PostToken` | server.js:140-153 | the route performs the `Post` step on the token file and returns its reply |
| `Session.Server.GetToken` | server.js:156-169 | the route returns the stored token, or 500 when there is none or it does not parse |
| `Session.Server.ApiUsers` | server.js:96-99 | the route returns one user id per entry, in map order |
| `Session.Server.ApiData` | server.js:102-110 | the route returns 200 with the socket's own flag exactly for an identified socket; otherwise it returns status 404 with `isDisabled: true` |
| `Session.Server.BroadcastUserList` | server.js:29-38 | one event per entry, to its socket, with the `/api/users` list and the socket's own flag |

## Left out

- public/main.js is not part of this model. It is browser code: DOM updates, `fetch` calls, polling timers and user-agent sniffing.
- Express, CORS and socket.io setup, static files and `listen` (server.js:1-24, 172-174) are plumbing and are not modelled.
- The `identifySuccess` acknowledgement, the `connectionDenied` emit and `socket.disconnect(true)` are left out. The model keeps only the admission decision and its text.
- The broadcast that `setBtnState` sends before the caller's own broadcast is left out. The methods return only the last broadcast of each event.
- `console` logging is left out.
- The `tokenFile === null` guard (server.js:66) is left out. It can never fire, because `tokenFile` is always a path.
- The `fs` callbacks run asynchronously. The model applies the token check of `disconnect` in the same step as the map update. The two touch disjoint state, and interleavings with other events are not modelled.
- Session.Server.Disconnect: does not model a failed read of `token.json` other than a missing file, or a failed `unlink`. Either one leaves the token in place where the model deletes it; both show up only in logging.
- Session.Server.PostToken: a failed write is the parameter `writeFails` and leaves the file unchanged. A write that fails halfway is not modelled.
- Session.Server.GetToken: a failed read of an existing `token.json` (500 "Failed to read token") is not modelled. From a stored token the model always answers with that token.
- Socket ids, user ids and token fields are strings. The JavaScript code accepts any JSON value there, and the model does not cover non-string values (for example a numeric `user`).
- Only the `user` and `browser` fields of a posted body are modelled. Extra fields are stored and returned by the source but are left out here.
- A token file whose `user` or `browser` is not a string is not modelled. The route stores any truthy JSON value there (for example `{"user": 7}`), and the file then parses without holding a string `user`; this is the non-string case above.
