# Event marketplace client: the list and string logic of its handlers

The repository is a React Native client for an event marketplace. Clients,
organizers and providers log in, exchange messages, and manage events and
services through a REST API. Most of the code is screens, navigation and
HTTP calls. This project models the pure logic inside the event handlers as
Dafny functions over immutable records. Fetched data is an input sequence,
and the outcome of each HTTP call is a parameter:

- `Response(status)` models an axios call that resolved. A status outside
  2xx cannot arise that way, and every handler treats it exactly like `Thrown`.
- `Thrown` models a network error, or a non-2xx status, which axios
  rejects by default.

Modules:

- `Common`: shared types.
  - `Option`.
  - The HTTP outcome, with `Resolved` (2xx) and `Created` (201).
  - `Fetch`: the data a GET returned, or its failure.
  - JSON string/null values.
  - The stored profile (`nombre`, `correo`).
  - Account records.
  - Outgoing requests: verb, path below the API's `/v1/` prefix, and body.
- `Text`: JavaScript's `trim`, over the ECMAScript whitespace and line
  terminator set, and `toLowerCase` on ASCII letters.
- `Seqs`:
  - `filter`, defined on the last element, with its membership,
    concatenation and multiset-count laws.
  - `findIndex`, with the first-match contract.
- `Messages`: message and chat records, and the ascending sort by `fecha`.
  - The sort is an insertion sort, standing in for JavaScript's stable
    `Array.prototype.sort`.
  - It is proved to be a permutation, ordered, and stable.
  - It is also proved to be the only stable sort (`SortedUnique`).
- `Grouping`: the fetch-and-group body of the message screen's refresh.
  - Keep the messages that involve the local e-mail.
  - Key each one by its counterpart.
  - Push it onto a dictionary whose keys keep insertion order.
  - Sort each bucket.
  - Both a pure definition (`GroupChats`) and the imperative dictionary
    pass (`BuildChatDict`, `CollectChats`) are given. The methods are proved
    to compute the pure definition.
- `ChatScreen`: one refresh tick; selection of the deep-linked chat; the
  send handler with its optimistic update; the 50-character preview.
- `Events`: the event list of `Pages/Eventos.js`, covering filtering by
  profile, local deletion, and the POST and PUT bodies.
- `Login`: `App.js`.
  - Credential lookup in the fixed order clients, organizers, providers.
  - The role-to-screen switch.
  - The e-mail existence check.
  - Account creation.
- `ProviderServices`: the service list of `Pages/viewProveedor.js`.

## Model

| member | source | states |
|---|---|---|
| Text.LeadingSpace | Pages/Mensaje.js:103 | The count `trim` removes at the front: every character before it is whitespace, and the character at it, if any, is not. |
| Text.TrailingSpace | Pages/Mensaje.js:103 | The count `trim` removes at the back: every character in the last n is whitespace, and the one before them, if any, is not. |
| Text.TrimEmptyIffBlank | Pages/Mensaje.js:103 | `trim() === ""` holds exactly when every character is ECMAScript whitespace (the empty string included). |
| Messages.SortPermutes | Pages/Mensaje.js:69-71 | Sorting by `fecha` yields a permutation of the chat's messages (same multiset). |
| Messages.SortOrders | Pages/Mensaje.js:69-71 | The sorted messages are in non-decreasing `fecha` order. |
| Messages.SortStable | Pages/Mensaje.js:69-71 | For every timestamp, the messages carrying it appear in the sorted result in their input order. |
| Messages.SortedUnique | Pages/Mensaje.js:69-71 | Two sorted sequences with the same per-timestamp sub-sequences are equal, so the stable sort's result is fully determined. |
| Messages.SortKeepsSorted | Pages/Mensaje.js:121-123 | Sorting a sequence already in `fecha` order leaves it unchanged. |
| Messages.SortAppendNewest | Pages/Mensaje.js:121-123 | Appending a message no earlier than every message of a sorted chat and re-sorting puts it last and keeps the others in place. |
| Grouping.KeptSpec | Pages/Mensaje.js:47-51 | A message is kept exactly when the local e-mail is its sender or recipient; filtering keeps fetched order (commutes with concatenation). |
| Grouping.ChatKeyIsCounterpart | Pages/Mensaje.js:56-59 | For a kept message, the local e-mail and the chat key are the message's two participants; the key is the local e-mail exactly for a self-addressed message. |
| Grouping.ChatKeys | Pages/Mensaje.js:60-67 | The dictionary's key list has no repeated key. |
| Grouping.FirstSeenIffKey | Pages/Mensaje.js:55-67 | A key is listed exactly when some kept message is filed under it. |
| Grouping.ChatKeysExact | Pages/Mensaje.js:55-67 | The listed keys are exactly the keys of the kept messages. |
| Grouping.ChatKeysFirstAppearance | Pages/Mensaje.js:55-67 | Keys are listed in the order in which their first message occurs. |
| Grouping.GroupMembership | Pages/Mensaje.js:47-72 | A chat holds exactly the fetched messages that involve the local user and are filed under its id, each as many times as fetched. |
| Grouping.GroupCovers | Pages/Mensaje.js:55-64 | Every kept message lies in the chat whose id is its key. Since ids are distinct, that chat is unique. |
| Grouping.GroupWellFormed | Pages/Mensaje.js:55-72 | Grouping partitions the kept messages: no chat is empty, chat ids are distinct, and every chat is sorted and holds only messages filed under its id. |
| Grouping.GroupTotal | Pages/Mensaje.js:55-64 | The chats' message counts sum to the number of kept messages. |
| Grouping.GroupOrder | Pages/Mensaje.js:55-67 | For i < j, the first message of chat i precedes the first message of chat j among the kept messages. |
| Grouping.GroupStable | Pages/Mensaje.js:69-71 | Within a chat, messages with equal `fecha` keep their order of arrival. |
| Grouping.DictStep | Pages/Mensaje.js:60-63 | One push keeps the dictionary equal to the buckets of the messages seen so far. |
| Grouping.BuildChatDict | Pages/Mensaje.js:54-64 | The `forEach` pass yields the first-appearance key order, and for each key the bucket of its messages in push order. |
| Grouping.CollectChats | Pages/Mensaje.js:47-72 | The imperative handler body computes exactly the grouping `GroupChats`. |
| ChatScreen.SelectChat | Pages/Mensaje.js:77-86 | A missing or empty `chatId` parameter is falsy and keeps the current selection. With a non-empty deep-linked id, the selection is the first listed chat with that id, or a new empty chat with that id when none exists. Without one, the selection is unchanged. |
| ChatScreen.Refresh | Pages/Mensaje.js:39-94 | With a profile and a successful fetch, the list is rebuilt by the grouping and the deep link re-selected. With no profile or a failed fetch the screen is unchanged. The draft is never touched. |
| ChatScreen.RefreshConsistent | Pages/Mensaje.js:67-87 | After a successful refresh the screen is consistent, provided the selection it may keep was well-formed: the chat list is well-formed, and so is the selection. |
| ChatScreen.ReplaceChat | Pages/Mensaje.js:127-129 | Same length; each entry with the updated chat's id is replaced and every other entry is untouched. |
| ChatScreen.Send | Pages/Mensaje.js:102-139 | A blank draft or no selection posts nothing and changes nothing. Otherwise the posted message goes from the local e-mail to the selected id, with the text verbatim. A non-201 outcome changes nothing. On 201 the selected chat becomes its old messages plus the new one (as a multiset), sorted, with messages of equal `fecha` in their order in the old messages followed by the new one; the list entry with that id is replaced; and the draft is cleared. |
| ChatScreen.SendWithoutListedChat | Pages/Mensaje.js:127-130 | When no listed chat has the selected id, sending leaves the chat list unchanged. |
| ChatScreen.SendAppendsNewest | Pages/Mensaje.js:121-123 | A message stamped no earlier than a sorted chat's messages is appended at the end. |
| ChatScreen.SendConsistent | Pages/Mensaje.js:119-132 | Sending keeps the screen consistent, so every listed chat keeps a first message for the preview line. |
| ChatScreen.Preview | Pages/Mensaje.js:191-193 | Texts of at most 50 characters are kept verbatim; longer ones become their first 50 characters followed by "..." (53 in all). |
| ChatScreen.ChatPreview | Pages/Mensaje.js:191-193 | The chat list shows, for each chat, the preview of a message with the smallest `fecha` of the chat, since the chat is sorted and its first message is shown. |
| ChatScreen.TwoMessageExample | Pages/Mensaje.js:47-72 | Worked case: A sends "hi" to B, then B answers "hey". A sees a single chat with B, holding "hi" first. |
| Events.EventsOfSpec | Pages/Eventos.js:84-90 | The shown events are exactly those whose organizer, provider or client id is the profile e-mail. Filtering keeps relative order (commutes with concatenation). |
| Events.LoadEvents | Pages/Eventos.js:76-97 | With no profile, or a failed GET, the list is not replaced. Otherwise it becomes the filtered list `EventsOf`: exactly the profile's events, in fetched order and multiplicity. |
| Events.DeleteEvent | Pages/Eventos.js:142-153 | Always sends a DELETE to `evento/<id>`. A resolved delete keeps exactly the events with a different id, each as many times as before; a failed one leaves the list unchanged. |
| Events.DeleteKeepsOrder | Pages/Eventos.js:147 | For every resolved outcome (any 2xx, 204 included), local removal commutes with splitting the list, so the surviving events keep their order. |
| Events.DeleteAbsentId | Pages/Eventos.js:147 | Deleting an id no listed event carries leaves the list unchanged. |
| Events.NewEventBody | Pages/Eventos.js:107 | The new-event record holds exactly the six detail fields plus `idOrganizador` and `idUsuario` (null when unset), and no `idProveedor`. |
| Events.SaveEvent | Pages/Eventos.js:105-120 | POSTs the new-event record to `evento`; it reloads and goes to "Eventos" exactly when the POST resolves. |
| Events.SelectEvent | Pages/Eventos.js:123-139 | PUTs to `evento/<id>` a body whose only key is `idProveedor`; it reloads and goes to "Eventos" exactly when the PUT resolves. |
| Login.RoleNamed | App.js:173-185 | The account-type switch: a known type name gives its role, and it inverts the role's name; any other string gives none. |
| Login.RouteFor | App.js:86-95 | Cliente lands on the screen named after its type ("Cliente"); Organizador and Proveedor land on their type's name followed by "View" ("OrganizadorView", "ProveedorView"). |
| Login.RoutesDistinct | App.js:86-95 | Cliente, Organizador and Proveedor go to three different screens, so the screen identifies the role. |
| Login.FindAccount | App.js:54-56 | `find` with both `correo` and `password` equal: found exactly when a record matches, and then it is the first matching record. |
| Login.LoginWith | App.js:44-105 | Lists are consulted in the order clients, organizers, providers, each fetched only when the earlier ones had no match. A match in a reached list logs in with that list's role and its first matching record, whatever the later lists would give. A failed GET of a reached list aborts the login. No match in three readable lists gives wrong credentials. The saved profile is the record's `nombre` with the entered e-mail, and the route is the role's screen. |
| Login.EmailExists | App.js:109-143 | The lists are read in the order clients, organizers, providers until one holds the e-mail. A hit in a reached list gives true, whatever later lists would give. A failed GET of a reached list gives false. With all three readable, the result is true exactly when some list holds the e-mail. |
| Login.NewAccountBody | App.js:154-161 | The new-account record holds exactly the keys `nombre`, `correo`, `password`, `ubicacion`, `telefono` and `tipo`, with the form's values. |
| Login.CreateAccount | App.js:147-193 | An existing e-mail stops creation before any POST. Otherwise the form is POSTed to the lower-cased account type. A profile is saved exactly on 201, and a screen opens exactly on 201 with a known account type. |
| Login.ExistingEmailBlocksCreation | App.js:147-152 | When all three lists are readable, an address in any of them blocks the POST. |
| Login.FailedCheckAllowsCreation | App.js:139-152 | A failed existence check reads as "not on file", so the POST is sent. |
| Login.CreatePaths | App.js:165 | The three account types post to "cliente", "organizador" and "proveedor". For organizers and providers that is the collection the login reads; clients are read from "usuarios", a different path. |
| ProviderServices.LoadServices | Pages/viewProveedor.js:60-69 | With a profile e-mail, the first provider record carrying it supplies the services, and a missing `servicios` reads as empty. With no profile e-mail, or no such record, the list is unchanged. |
| ProviderServices.AddService | Pages/viewProveedor.js:72-98 | A blank entry (or no profile) sends nothing and changes nothing. Otherwise it POSTs `{correo, servicio}` to `servicios`. A non-201 outcome changes nothing. On 201 the entry is appended as typed and the field cleared. |

## Left out

- HTTP (axios), AsyncStorage and `alert`/`Alert` are external I/O. Their results are parameters: `Fetch` values and `HttpOutcome`s. The endpoint host is dropped; request paths are relative to `/v1/`.
- The 1000 ms `setInterval` polling of the message screen and its teardown (Pages/Mensaje.js:97-100) are timer behaviour. One tick is `ChatScreen.Refresh`. The race between a refresh and an optimistic send is async concurrency and is not modelled.
- Date handling (`new Date`, `toISOString`, `toLocaleString`): `fecha` is an integer timestamp, and the time of sending is a parameter of `Send`.
- `Object.keys` lists integer-like keys first in numeric order, and a counterpart id that names an `Object.prototype` member (`constructor`, `toString`, `__proto__`) makes `chatDict[chatId]` truthy before any push, so `.push` throws and the whole refresh is dropped. The model assumes plain e-mail keys, for which insertion order holds and every key gets its own chat.
- JavaScript string length counts UTF-16 code units, while the model counts `char`s. The 50-character preview therefore differs for characters outside the Basic Multilingual Plane.
- Text.ToLowerAscii: lower-cases ASCII letters only, not full Unicode `toLowerCase`. The account type comes from a Picker with three ASCII values.
- ChatScreen.Send: takes the local e-mail as a value. In the source, sending with no stored profile throws at `perfil.correo` before any request. The screen cannot reach that state, because the chat list stays empty until a profile is loaded.
- Login.LoginWith: the `default` branch of the role switch (App.js:96-97) is unreachable, because the role is always one of the three. The model has no outcome for it.
- The handlers for opening a chat from the list and for the back button (Pages/Mensaje.js:176, 187) only set the selection, so they are not modelled.
- Pages/viewCliente.js, Pages/Organizador.js and Pages/Proveedor.js hold selection state, navigation calls and a single `find` by e-mail, which `ProviderServices.LoadServices` already covers. They are not part of this model.
- Login.CreateAccount: on 201 the handler also switches the form back to login mode (`setIsCreatingAccount(false)`, App.js:172). That is view state only, and `CreateEffect` does not record it.
- JSX rendering, style sheets and stack navigators have no logic to model.
