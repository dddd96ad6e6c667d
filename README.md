# Hotel reservation admin client: list reconciliation model

The client has three CRUD screens: People (`Persona`), Rooms (`Habitacion`) and
Reservations (`Reserva`). Each screen keeps a list of records from the server, a form draft
(`formData`), an `isEditing` flag and a `loading` flag. Four handlers change that state:

- **load** replaces the list from the server's response envelope `{status, data, message}`;
- **submit** PUTs the draft when editing and POSTs it otherwise, then reconciles the list with
  the record the server returned and resets the form;
- **delete** is gated by a confirmation, then filters out the records with the id;
- **edit** copies a record into the draft and turns on edit mode.

This project models that state machine in Dafny and proves what each step does to the state.

Layout:

- `js_value.dfy` (module `JsValue`) holds the JavaScript values the screens handle: truthiness,
  property reads, `===`, `String()` and object spread.
- `http.dfy` (module `Http`) holds requests, responses and how a promise chain reads an
  envelope. There are two variants: the *checked* one throws on a non-ok HTTP status first,
  and the *lax* one ignores the status.
- `crud.dfy` (module `Crud`) holds the shared reconciliation:
  - `ArrayOrEmpty` for load;
  - `ReplaceById` for the update's `map`;
  - `RemoveById` for the delete's `filter`;
  - the lemmas that relate these operations.
- `persona.dfy`, `habitacion.dfy` and `reserva.dfy` each hold one class for one screen. The
  class fields are the component's state. The methods are the handlers, and each handler's
  `ensures` states the whole new state.

What the three screens do differently:

- The People screen checks `response.ok` on every request. A non-ok load leaves the list
  alone. A failed save alerts the body's `message`. An ok save reply whose envelope is not a
  success shows nothing and changes nothing.
- The Rooms and Reservations screens never look at the HTTP status. They judge a reply by its
  envelope alone and only log a rejected promise.
- The Rooms screen stores a checkbox's boolean `checked` and the text `value` of every other
  input.
- The Reservations screen loads three envelopes together. It refreshes each list only on a
  success envelope, so a non-success envelope keeps the list it had.

Three behaviours kept exactly as the code has them:

- The People load leaves the list unchanged on a non-ok status; it does not empty it.
- The Reservations load keeps the old list on a non-success envelope.
- The People submit shows nothing for an ok reply with a non-success envelope.

Modelling conventions:

- An HTTP response is an input value, `Http.Response`. It is either a network failure, or an
  `ok` flag plus a body that parsed as JSON or did not.
- The delete confirmation is a boolean parameter.
- Alerts are returned as a `Crud.Notice`.
- The load effect has two steps. `BeginLoad` raises `loading` and issues the request.
  `FinishLoad` takes the response and lowers `loading`.
- Submit and delete are each one atomic step, from issuing the request to completion.

## Model

| member | source | states |
|---|---|---|
| `JsValue.StrictEqualsIsPrimitiveEquality` | src/componente/persona/persona.jsx:79 | `===` between values parsed from JSON holds exactly for equal primitives (both directions) |
| `JsValue.NatText` | src/componente/persona/persona.jsx:54 | the text a numeric id takes in a template literal is non-empty and made only of decimal digits |
| `JsValue.ParseNatText` | src/componente/persona/persona.jsx:54 | reading that text back as a decimal gives the id again (round trip) |
| `JsValue.TextOr` | src/componente/persona/persona.jsx:82 | `message \|\| default` shown as text is the default whenever the message is falsy, and the message's own text whenever it is truthy |
| `JsValue.SetField` | src/componente/persona/persona.jsx:45 | `{...formData, [name]: value}` sets the named property, reads every other property as before and adds no property besides `name` |
| `Http.ItemUrlNamesId` | src/componente/persona/persona.jsx:110 | an item URL is the collection URL, then `/`, then the decimal digits of the id, and parsing those digits gives the id back |
| `Http.SubmitRequest` | src/componente/habitacion/habitacion.jsx:49-52 | the request is PUT exactly when editing, sent to `{path}/{formData.id}`; otherwise it is POST to the collection path |
| `Http.CheckedAnswerNeedsOk` | src/componente/persona/persona.jsx:24-27 | a chain that throws on `!response.ok` reads an envelope iff the reply is ok and its body is readable, and then it reads the same envelope as the lax chain |
| `Http.AnswerReadsBody` | src/componente/habitacion/habitacion.jsx:59-61 | a lax chain reads the envelope of any non-null body whatever the HTTP status, with the body's own `status`, `data` and `message` |
| `Crud.EnvelopeNotice` | src/componente/habitacion/habitacion.jsx:71-107 | every read envelope alerts; on success the text is the server's `message` or the handler's default; otherwise it is the error prefix followed by the `message` or the failure default |
| `Crud.ArrayOrEmpty` | src/componente/persona/persona.jsx:31-35 | a load keeps exactly `data`, in order, when the envelope is a success and `data` is an array; otherwise it keeps the empty list |
| `Crud.AfterLoad` | src/componente/persona/persona.jsx:29-37 | a rejected chain keeps the old list; a read envelope gives `[]` or exactly its array `data` on success |
| `Crud.AfterLoadIdempotent` | src/componente/persona/persona.jsx:29-37 | loading twice with the same answer gives the same list as loading once, and a load that read an envelope does not depend on the old list |
| `Crud.ReplaceById` | src/componente/persona/persona.jsx:77-81 | an update keeps the list's length |
| `Crud.ReplaceByIdAt` | src/componente/persona/persona.jsx:78-80 | at every position, an element whose `id` equals the returned record's `id` becomes that record, and every other element is unchanged |
| `Crud.ReplaceByIdNoMatch` | src/componente/habitacion/habitacion.jsx:66-70 | an update whose id matches no element leaves the list as it was |
| `Crud.ReplaceByIdIdempotent` | src/componente/reserva/reserva.jsx:69-73 | applying the same update twice gives the same list as applying it once |
| `Crud.ReplaceByIdConcat` | src/componente/persona/persona.jsx:78 | updating a concatenation updates each part in place, so order is preserved |
| `Crud.RemoveById` | src/componente/persona/persona.jsx:122-124 | a delete never lengthens the list |
| `Crud.RemoveByIdDrops` | src/componente/persona/persona.jsx:123 | every element left after a delete was in the list and has a different `id` |
| `Crud.RemoveByIdKeeps` | src/componente/habitacion/habitacion.jsx:102-104 | every element whose `id` differs survives the delete |
| `Crud.RemoveByIdConcat` | src/componente/reserva/reserva.jsx:104-106 | deleting from a concatenation deletes from each part, so the survivors keep their order |
| `Crud.RemoveByIdNoMatch` | src/componente/persona/persona.jsx:122-124 | a delete whose id matches no element leaves the list as it was |
| `Crud.RemoveByIdIdempotent` | src/componente/habitacion/habitacion.jsx:103 | deleting the same id twice gives the same list as deleting it once |
| `Crud.CreateThenDelete` | src/componente/persona/persona.jsx:85-123 | appending a created record with a fresh primitive id and then deleting that id gives back the original list |
| `Crud.UpdateThenDelete` | src/componente/persona/persona.jsx:77-124 | an update followed by a delete of the returned record's id gives the same list as the delete alone |
| `PersonaScreen.SubmitNoticeOfRejectedReply` | src/componente/persona/persona.jsx:64-67 | a non-ok save reports the body's `message` as text, or 'Error en la solicitud.' when there is none, or the generic text when the message's text is empty |
| `PersonaScreen.SubmitNotice` | src/componente/persona/persona.jsx:62-104 | the save shows nothing exactly when an ok reply's envelope is not a success; a network failure shows the runtime's message; a success shows the server's `message` or the mode's default |
| `PersonaScreen.DeleteNotice` | src/componente/persona/persona.jsx:111-132 | a confirmed delete always alerts; a non-ok or failed request alerts the fixed generic text; a non-success envelope alerts 'Ocurrio un error: ' followed by its `message` or the default |
| `PersonaScreen.Persona.constructor` | src/componente/persona/persona.jsx:5-14 | the screen mounts with an empty list, the blank draft and both flags off |
| `PersonaScreen.Persona.BeginLoad` | src/componente/persona/persona.jsx:17-22 | `loading` goes up before the GET to `/api/persona`; nothing else changes |
| `PersonaScreen.Persona.FinishLoad` | src/componente/persona/persona.jsx:23-38 | an ok reply's envelope sets the list to `data` or `[]`; a non-ok or rejected reply leaves the list; `loading` comes down on every path |
| `PersonaScreen.Persona.HandleChange` | src/componente/persona/persona.jsx:43-46 | only the named draft field changes, to the input's text |
| `PersonaScreen.Persona.HandleSubmit` | src/componente/persona/persona.jsx:49-105 | PUT or POST by mode. On an ok success envelope: replace by the returned id or append, then reset the draft to blank and end edit mode. Otherwise the list, draft and mode are unchanged. The alert is given by `SubmitNotice` |
| `PersonaScreen.Persona.HandleDelete` | src/componente/persona/persona.jsx:108-135 | without confirmation nothing is sent or changed; an ok success envelope removes exactly the matching ids; anything else leaves the list |
| `PersonaScreen.Persona.HandleEdit` | src/componente/persona/persona.jsx:139-142 | the draft becomes the record and `isEditing` is set |
| `HabitacionScreen.InputValue` | src/componente/habitacion/habitacion.jsx:41 | a checkbox stores the boolean `checked` and any other input stores its text `value` (both directions) |
| `HabitacionScreen.SubmitNotice` | src/componente/habitacion/habitacion.jsx:59-92 | a rejection is only logged, every read envelope alerts, and a success without `message` alerts the mode's default |
| `HabitacionScreen.SubmitFailureReportsMessage` | src/componente/habitacion/habitacion.jsx:88-90 | a non-success envelope alerts 'Error: ' followed by its message, or by 'Operacion fallida', whatever the HTTP status |
| `HabitacionScreen.DeleteNotice` | src/componente/habitacion/habitacion.jsx:99-110 | a rejection is only logged; a non-success envelope alerts 'Error: ' followed by its `message` or the default; a success without `message` alerts the default |
| `HabitacionScreen.Habitacion.constructor` | src/componente/habitacion/habitacion.jsx:5-15 | the screen mounts with an empty list, the blank draft (both booleans false) and both flags off |
| `HabitacionScreen.Habitacion.BeginLoad` | src/componente/habitacion/habitacion.jsx:18-23 | `loading` goes up before the GET to `/api/habitacion` |
| `HabitacionScreen.Habitacion.FinishLoad` | src/componente/habitacion/habitacion.jsx:24-33 | any readable envelope sets the list to `data` or `[]` whatever the HTTP status; a rejection leaves it; `loading` comes down on every path |
| `HabitacionScreen.Habitacion.HandleChange` | src/componente/habitacion/habitacion.jsx:37-43 | only the named draft field changes, to `InputValue` of the input |
| `HabitacionScreen.Habitacion.HandleSubmit` | src/componente/habitacion/habitacion.jsx:46-93 | PUT to `/api/habitacion/{id}` or POST to `/api/habitacion`. On success: replace or append, reset the draft, end edit mode. On failure nothing changes |
| `HabitacionScreen.Habitacion.HandleDelete` | src/componente/habitacion/habitacion.jsx:96-112 | no-op without confirmation; a success envelope removes the matching ids; a failure leaves the list |
| `HabitacionScreen.Habitacion.HandleEdit` | src/componente/habitacion/habitacion.jsx:115-118 | the draft becomes the record and `isEditing` is set |
| `ReservaScreen.StoredAsWritten` | src/componente/reserva/reserva.jsx:29 | as written, `data \|\| []` stores any truthy `data` unchanged, array or not, and `[]` for a falsy one |
| `ReservaScreen.StoredAsWrittenCanBeNonArray` | src/componente/reserva/reserva.jsx:28-29 | `data \|\| []` on a success envelope whose `data` is `{}` stores a value that is not an array |
| `ReservaScreen.ListOrEmpty` | src/componente/reserva/reserva.jsx:29 | the corrected list: it equals `data \|\| []` whenever that is an array, and it is `[]` when `data` is not an array |
| `ReservaScreen.Refreshed` | src/componente/reserva/reserva.jsx:28-36 | a list changes only on a success envelope; then it becomes `data` when that is an array, or `[]` when `data` is falsy |
| `ReservaScreen.RefreshedIdempotent` | src/componente/reserva/reserva.jsx:28-36 | refreshing twice from the same envelope gives the same list as refreshing once |
| `ReservaScreen.ReadInOrder` | src/componente/reserva/reserva.jsx:27-36 | the callback reads envelopes in order, each one from its own body, and stops exactly at the first `null` body (whose `.status` throws) |
| `ReservaScreen.LoadedEnvelopes` | src/componente/reserva/reserva.jsx:22-36 | `Promise.all`: nothing is read unless all three fetches yield a body; once they all do, the envelopes read are exactly `ReadInOrder` of the reservations, people and rooms bodies, whatever the HTTP statuses |
| `ReservaScreen.LoadedEnvelopesInOrder` | src/componente/reserva/reserva.jsx:22-36 | for any HTTP statuses, three parsed bodies are read in order up to the first `null` one: none, one, two or all three envelopes |
| `ReservaScreen.SubmitNotice` | src/componente/reserva/reserva.jsx:62-94 | a rejection is only logged; a non-success envelope alerts 'Error: ' followed by its `message` or 'Operacion fallida'; a success without `message` alerts the mode's default |
| `ReservaScreen.DeleteNotice` | src/componente/reserva/reserva.jsx:101-112 | a rejection is only logged; a non-success envelope alerts 'Error: ' followed by its `message` or the default; a success without `message` alerts the default |
| `ReservaScreen.Reserva.constructor` | src/componente/reserva/reserva.jsx:5-16 | the screen mounts with three empty lists, the blank draft and both flags off |
| `ReservaScreen.Reserva.BeginLoad` | src/componente/reserva/reserva.jsx:21-26 | `loading` goes up before the three GETs (reservations, people, rooms) |
| `ReservaScreen.Reserva.FinishLoad` | src/componente/reserva/reserva.jsx:27-39 | each list is refreshed from its own envelope if the callback reaches it and keeps its old value otherwise; `loading` comes down on every path |
| `ReservaScreen.Reserva.HandleChange` | src/componente/reserva/reserva.jsx:43-46 | only the named draft field changes; no list changes |
| `ReservaScreen.Reserva.HandleSubmit` | src/componente/reserva/reserva.jsx:49-95 | PUT to `/api/reserva/{id}` or POST to `/api/reserva`. On success: replace or append the returned record, reset the draft, end edit mode. On failure nothing changes. The people and room lists are never touched |
| `ReservaScreen.Reserva.HandleDelete` | src/componente/reserva/reserva.jsx:98-114 | requires confirmation; success removes the matching ids and keeps the rest in order; failure leaves the list |
| `ReservaScreen.Reserva.HandleEdit` | src/componente/reserva/reserva.jsx:117-120 | the draft becomes the reservation and `isEditing` is set |

## Left out

- Transport is not modelled: `fetch`, `response.json()`, `alert`, `console.error` and
  `window.confirm`. The model takes their results as inputs and returns their outputs as
  values.
- Interleaving is not modelled. Several requests can be in flight at once, and state can
  change between a request and its completion. A step issues its request and applies its
  response in one go. The `Promise.all` fan-out is one completion.
- Request headers and bodies are not modelled: the credential header built in
  src/utils/api.js, which is a Base64 encoding done by the browser, and the JSON-encoded
  draft. The Reservations screen sends no credentials; the model does not show that either.
- src/App.jsx is routing only and is not part of this model.
- JSX rendering and the loading indicator are not modelled. The HTML `min`, `max` and
  `required` constraints are checked by the browser, so they are left out too.
- Numbers are integers. Floating point, `NaN` and the exponent notation that `String()` uses
  for huge numbers are not modelled.
- `JsValue.Prop` reads `undefined` for any non-object. In the source, reading `.id` off a
  `null` list element or off an undefined returned record throws inside React's state
  updater. The model does not capture that crash.
- `JsValue.StrictEquals` treats object and array ids as never equal. In the source, a delete
  whose id is the clicked element's own object id removes that element; the model does not.
- `JsValue.SetField` treats a draft that is not an object as having no properties. In the
  source, spreading a string or array copies its indexed entries.
- `ReservaScreen.Reserva.FinishLoad` uses the corrected `ListOrEmpty` rather than
  `data || []`, so a success envelope with a truthy non-array `data` gives `[]`. See Findings.
- The code has no reservation pricing, `amount` field, check-in-before-check-out check,
  request sequencing or `errors` list, so none is modelled.

## Findings

| source | as written | input that shows it | evidently intended | confidence | as-written member | corrected member |
|---|---|---|---|---|---|---|
| src/componente/reserva/reserva.jsx:29 | the load stores `reservasResponse.data`, or `[]` only when that is falsy, so any truthy `data` is kept, array or not (the same at lines 32 and 35) | `{status: 'success', data: {}}` stores `{}` in the list that the table and the selects `.map` over | keep `data` only when it is an array, as the People and Rooms screens do with `Array.isArray`, and `[]` otherwise | not executed; the failure depends on the server sending such a body | `ReservaScreen.StoredAsWrittenCanBeNonArray` | `ReservaScreen.ListOrEmpty` |
