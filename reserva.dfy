/** The reservations screen (`Reserva` component). Like the rooms screen it never looks at
    the HTTP status. It also keeps the people and rooms lists its selects offer, loaded
    together with the reservations; submit, delete and edit never touch those two. */
module ReservaScreen {
  import opened JsValue
  import opened Http
  import opened Crud

  const Path := "/api/reserva"
  const PersonaPath := "/api/persona"
  const HabitacionPath := "/api/habitacion"

  /** The empty form: no id, dates and both selects blank. */
  const Blank: Value := Obj(map[
    "id" := Null,
    "fechaentrada" := Str(""),
    "fechasalida" := Str(""),
    "habitacionid" := Str(""),
    "personaid" := Str("")])

  // ----- Load -----

  /** What the load stores as written, `data || []`: any truthy `data` is kept, array or
      not. */
  function StoredAsWritten(e: Envelope): (r: Value)
    ensures Truthy(e.data) ==> r == e.data
    ensures !Truthy(e.data) ==> r == Arr([])
  {
    Or(e.data, Arr([]))
  }

  /** A success envelope whose `data` is an object puts a non-array into a list state
      that the table and the selects then `map` over. */
  lemma StoredAsWrittenCanBeNonArray()
    ensures var e := Envelope(Str("success"), Obj(map[]), Undefined);
      IsSuccess(e) && !StoredAsWritten(e).Arr?
  {
  }

  /** The list a success envelope evidently should give: `data` when it is an array, []
      otherwise. It agrees with `data || []` whenever that is an array. */
  function ListOrEmpty(e: Envelope): (r: seq<Value>)
    ensures StoredAsWritten(e).Arr? ==> StoredAsWritten(e) == Arr(r)
    ensures !e.data.Arr? ==> r == []
  {
    if e.data.Arr? then e.data.elems else []
  }

  /** One list after its envelope is read: replaced on success, kept otherwise. */
  function Refreshed(prior: seq<Value>, e: Envelope): (r: seq<Value>)
    ensures r == prior || IsSuccess(e)
    ensures IsSuccess(e) && e.data.Arr? ==> r == e.data.elems
    ensures IsSuccess(e) && !Truthy(e.data) ==> r == []
  {
    if IsSuccess(e) then ListOrEmpty(e) else prior
  }

  /** The envelopes the load callback reads, in order, before a read throws: it stops at
      the first body that is `null`. */
  function ReadInOrder(bodies: seq<Value>): (r: seq<Envelope>)
    ensures |r| <= |bodies|
    ensures forall i :: 0 <= i < |r| ==> ReadEnvelope(bodies[i]) == Some(r[i])
    ensures |r| < |bodies| ==> !Readable(bodies[|r|])
  {
    if bodies == [] || !Readable(bodies[0]) then []
    else [ReadEnvelope(bodies[0]).value] + ReadInOrder(bodies[1..])
  }

  /** `Promise.all` over the three fetches: when one rejects, the callback never runs and
      nothing is read; otherwise the callback reads the reservations, people and rooms
      envelopes in that order. */
  function LoadedEnvelopes(reservas: Response, personas: Response, habitaciones: Response): (r: seq<Envelope>)
    ensures |r| <= 3
    ensures r != [] ==> Parsed(reservas).Some? && Parsed(personas).Some? && Parsed(habitaciones).Some?
    ensures |r| > 0 ==> ReadEnvelope(Parsed(reservas).value) == Some(r[0])
    ensures |r| > 1 ==> ReadEnvelope(Parsed(personas).value) == Some(r[1])
    ensures |r| > 2 ==> ReadEnvelope(Parsed(habitaciones).value) == Some(r[2])
    ensures Parsed(reservas).Some? && Parsed(personas).Some? && Parsed(habitaciones).Some? ==>
      r == ReadInOrder([Parsed(reservas).value, Parsed(personas).value, Parsed(habitaciones).value])
  {
    match (Parsed(reservas), Parsed(personas), Parsed(habitaciones))
    case (Some(b1), Some(b2), Some(b3)) => ReadInOrder([b1, b2, b3])
    case _ => []
  }

  /** Once all three bodies parse, whatever the HTTP statuses, the callback reads the
      envelopes in order and stops at the first `null` body: none when the reservations
      body is `null`, one when the people body is, two when the rooms body is. */
  lemma LoadedEnvelopesInOrder(ok1: bool, ok2: bool, ok3: bool, b1: Value, b2: Value, b3: Value)
    ensures var read := LoadedEnvelopes(Reply(ok1, Some(b1)), Reply(ok2, Some(b2)), Reply(ok3, Some(b3)));
      && (!Readable(b1) ==> read == [])
      && (Readable(b1) && !Readable(b2) ==> read == [ReadEnvelope(b1).value])
      && (Readable(b1) && Readable(b2) && !Readable(b3) ==>
            read == [ReadEnvelope(b1).value, ReadEnvelope(b2).value])
      && (Readable(b1) && Readable(b2) && Readable(b3) ==>
            read == [ReadEnvelope(b1).value, ReadEnvelope(b2).value, ReadEnvelope(b3).value])
  {
    var bodies := [b1, b2, b3];
    assert bodies[1..] == [b2, b3] && bodies[1..][1..] == [b3] && bodies[1..][1..][1..] == [];
    if Readable(b1) {
      assert ReadInOrder(bodies) == [ReadEnvelope(b1).value] + ReadInOrder([b2, b3]);
      if Readable(b2) {
        assert ReadInOrder([b2, b3]) == [ReadEnvelope(b2).value] + ReadInOrder([b3]);
      }
    }
  }

  /** Refreshing a list twice from the same envelope is refreshing it once. */
  lemma RefreshedIdempotent(prior: seq<Value>, e: Envelope)
    ensures Refreshed(Refreshed(prior, e), e) == Refreshed(prior, e)
  {
  }

  // ----- Submit and delete feedback -----

  /** The alert handleSubmit shows: the server's message or a default on success, the
      message or 'Operacion fallida' after 'Error: ' otherwise; a rejection is only logged. */
  function SubmitNotice(editing: bool, resp: Response): (r: Notice)
    ensures r == Logged <==> Answer(resp).None?
    ensures var a := Answer(resp);
      a.Some? && !IsSuccess(a.value) ==>
        r == Alert("Error: " + if Truthy(a.value.message) then ToText(a.value.message) else "Operacion fallida")
    ensures var a := Answer(resp);
      a.Some? && IsSuccess(a.value) && !Truthy(a.value.message) ==>
        r == Alert(if editing then "Reserva actualizada exitosamente" else "Reserva creada exitosamente")
  {
    match Answer(resp)
    case None => Logged
    case Some(e) =>
      EnvelopeNotice(e, if editing then "Reserva actualizada exitosamente" else "Reserva creada exitosamente",
                     "Error: ", "Operacion fallida")
  }

  /** The alert handleDelete shows once confirmed: the same rule as a save, with the
      delete's own texts. */
  function DeleteNotice(resp: Response): (r: Notice)
    ensures r == Logged <==> Answer(resp).None?
    ensures var a := Answer(resp);
      a.Some? && !IsSuccess(a.value) ==>
        r == Alert("Error: " + if Truthy(a.value.message) then ToText(a.value.message) else "No se pudo eliminar la reserva.")
    ensures var a := Answer(resp);
      a.Some? && IsSuccess(a.value) && !Truthy(a.value.message) ==> r == Alert("Reserva eliminada exitosamente")
  {
    match Answer(resp)
    case None => Logged
    case Some(e) =>
      EnvelopeNotice(e, "Reserva eliminada exitosamente", "Error: ", "No se pudo eliminar la reserva.")
  }

  class Reserva {
    const apiUrl: string
    var reservas: seq<Value>
    var personas: seq<Value>
    var habitaciones: seq<Value>
    var formData: Value
    var isEditing: bool
    var loading: bool

    /** The state when the component mounts. */
    constructor (apiUrl: string)
      ensures this.apiUrl == apiUrl
      ensures reservas == [] && personas == [] && habitaciones == []
      ensures formData == Blank && !isEditing && !loading
    {
      this.apiUrl := apiUrl;
      reservas, personas, habitaciones := [], [], [];
      formData := Blank;
      isEditing := false;
      loading := false;
    }

    /** The load effect up to its three requests: the loading flag goes up first. */
    method BeginLoad() returns (reqs: seq<Request>)
      modifies this
      ensures loading
      ensures reqs == [Request(Get, CollectionUrl(apiUrl, Path)),
                       Request(Get, CollectionUrl(apiUrl, PersonaPath)),
                       Request(Get, CollectionUrl(apiUrl, HabitacionPath))]
      ensures reservas == old(reservas) && personas == old(personas) && habitaciones == old(habitaciones)
      ensures formData == old(formData) && isEditing == old(isEditing)
    {
      loading := true;
      reqs := [Request(Get, CollectionUrl(apiUrl, Path)),
               Request(Get, CollectionUrl(apiUrl, PersonaPath)),
               Request(Get, CollectionUrl(apiUrl, HabitacionPath))];
    }

    /** The load effect's completion. Each list is refreshed from its own envelope when
      the callback gets to read it, and kept otherwise, independently of the other two.
      The loading flag comes down on every path. */
    method FinishLoad(r1: Response, r2: Response, r3: Response)
      modifies this
      ensures !loading
      ensures var read := LoadedEnvelopes(r1, r2, r3);
        && reservas == (if |read| > 0 then Refreshed(old(reservas), read[0]) else old(reservas))
        && personas == (if |read| > 1 then Refreshed(old(personas), read[1]) else old(personas))
        && habitaciones == (if |read| > 2 then Refreshed(old(habitaciones), read[2]) else old(habitaciones))
      ensures formData == old(formData) && isEditing == old(isEditing)
    {
      var read := LoadedEnvelopes(r1, r2, r3);
      if Parsed(r1).Some? && Parsed(r2).Some? && Parsed(r3).Some? {
        var b1, b2, b3 := Parsed(r1).value, Parsed(r2).value, Parsed(r3).value;
        ghost var bodies := [b1, b2, b3];
        assert bodies[1..] == [b2, b3] && bodies[1..][1..] == [b3];
        if Readable(b1) {
          var e1 := ReadEnvelope(b1).value;
          if IsSuccess(e1) {
            reservas := ListOrEmpty(e1);
          }
          if Readable(b2) {
            var e2 := ReadEnvelope(b2).value;
            if IsSuccess(e2) {
              personas := ListOrEmpty(e2);
            }
            if Readable(b3) {
              var e3 := ReadEnvelope(b3).value;
              if IsSuccess(e3) {
                habitaciones := ListOrEmpty(e3);
              }
            }
          }
        }
      }
      loading := false;
    }

    /** handleChange: only the named field of the draft changes, to the input's text. */
    method HandleChange(name: string, value: string)
      modifies this
      ensures formData == SetField(old(formData), name, Str(value))
      ensures reservas == old(reservas) && personas == old(personas) && habitaciones == old(habitaciones)
      ensures isEditing == old(isEditing) && loading == old(loading)
    {
      formData := SetField(formData, name, Str(value));
    }

    /** handleSubmit and its completion. On a success envelope, the record the server
      returned replaces the reservations with its id (editing) or is appended (creating),
      the form goes back to blank and edit mode ends; otherwise nothing changes. */
    method HandleSubmit(resp: Response) returns (req: Request, notice: Notice)
      modifies this
      ensures req == SubmitRequest(apiUrl, Path, old(isEditing), old(formData))
      ensures notice == SubmitNotice(old(isEditing), resp)
      ensures var a := Answer(resp);
        if a.Some? && IsSuccess(a.value) then
          && reservas == (if old(isEditing) then ReplaceById(old(reservas), a.value.data)
                          else old(reservas) + [a.value.data])
          && formData == Blank && !isEditing
        else
          reservas == old(reservas) && formData == old(formData) && isEditing == old(isEditing)
      ensures personas == old(personas) && habitaciones == old(habitaciones) && loading == old(loading)
    {
      req := SubmitRequest(apiUrl, Path, isEditing, formData);
      notice := SubmitNotice(isEditing, resp);
      match Answer(resp) {
        case Some(e) =>
          if IsSuccess(e) {
            var saved := e.data;
            if isEditing {
              reservas := ReplaceById(reservas, saved);
            } else {
              reservas := reservas + [saved];
            }
            formData := Blank;
            isEditing := false;
          }
        case None =>
      }
    }

    /** handleDelete and its completion. Without confirmation nothing is sent and nothing
      changes; with it, a success envelope removes the reservations with that id, and
      anything else leaves the list. */
    method HandleDelete(id: Value, confirmed: bool, resp: Response) returns (req: Option<Request>, notice: Notice)
      modifies this
      ensures !confirmed ==> req == None && notice == Silent
      ensures confirmed ==> req == Some(Request(Delete, ItemUrl(apiUrl, Path, id))) && notice == DeleteNotice(resp)
      ensures reservas == if confirmed && Answer(resp).Some? && IsSuccess(Answer(resp).value)
                          then RemoveById(old(reservas), id) else old(reservas)
      ensures personas == old(personas) && habitaciones == old(habitaciones)
      ensures formData == old(formData) && isEditing == old(isEditing) && loading == old(loading)
    {
      req, notice := None, Silent;
      if confirmed {
        req := Some(Request(Delete, ItemUrl(apiUrl, Path, id)));
        notice := DeleteNotice(resp);
        match Answer(resp) {
          case Some(e) =>
            if IsSuccess(e) {
              reservas := RemoveById(reservas, id);
            }
          case None =>
        }
      }
    }

    /** handleEdit: the draft becomes the chosen reservation and the form enters edit mode. */
    method HandleEdit(record: Value)
      modifies this
      ensures formData == record && isEditing
      ensures reservas == old(reservas) && personas == old(personas) && habitaciones == old(habitaciones)
      ensures loading == old(loading)
    {
      formData := record;
      isEditing := true;
    }
  }
}
