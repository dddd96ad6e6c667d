/** The people screen (`Persona` component). It is the strict variant: load, submit and
    delete turn a non-ok HTTP status into a thrown error. */
module PersonaScreen {
  import opened JsValue
  import opened Http
  import opened Crud

  const Path := "/api/persona"

  /** The empty form: no id, every text field blank. */
  const Blank: Value := Obj(map[
    "id" := Null,
    "nombrecompleto" := Str(""),
    "nrodocumento" := Str(""),
    "correo" := Str(""),
    "telefono" := Str("")])

  const RequestFailed := "Error en la solicitud."
  const Unexpected := "Ocurrió un error inesperado. Inténtalo nuevamente."

  /** The alert handleSubmit shows. A non-ok reply throws an Error carrying the body's
      `message`, or a default, and the catch shows that text (or the generic one when it
      is empty); a rejection of the runtime shows the runtime's message; a success shows
      the server's message or a default; any other envelope shows nothing. */
  function SubmitNotice(editing: bool, resp: Response): (r: Notice)
    ensures r == Silent <==> CheckedAnswer(resp).Some? && !IsSuccess(CheckedAnswer(resp).value)
    ensures resp.NetworkFailure? ==> r == RuntimeErrorAlert
    ensures var a := CheckedAnswer(resp);
      a.Some? && IsSuccess(a.value) ==>
        r == Alert(if Truthy(a.value.message) then ToText(a.value.message)
                   else if editing then "Persona actualizada exitosamente" else "Persona creada exitosamente")
  {
    match resp
    case NetworkFailure => RuntimeErrorAlert
    case Reply(ok, body) =>
      if !ok then
        match body
        case None => RuntimeErrorAlert
        case Some(b) =>
          if !Readable(b) then RuntimeErrorAlert
          else
            var thrown := TextOr(Prop(b, "message"), RequestFailed);
            Alert(if thrown != "" then thrown else Unexpected)
      else
        match Answer(resp)
        case None => RuntimeErrorAlert
        case Some(e) =>
          if IsSuccess(e) then
            Alert(TextOr(e.message, if editing then "Persona actualizada exitosamente" else "Persona creada exitosamente"))
          else Silent
  }

  /** The error a failed save reports is the body's `message` when it has one, and the
      fixed default otherwise. */
  lemma SubmitNoticeOfRejectedReply(editing: bool, body: Value)
    requires Readable(body)
    ensures var m := Prop(body, "message");
      SubmitNotice(editing, Reply(false, Some(body))) ==
        if !Truthy(m) then Alert(RequestFailed)
        else if ToText(m) != "" then Alert(ToText(m))
        else Alert(Unexpected)
  {
  }

  /** The alert handleDelete shows once confirmed. It never passes silently: a non-ok
      status or a failed request shows the fixed generic text, and a read envelope follows
      the shared rule with the 'Ocurrio un error: ' prefix. */
  function DeleteNotice(resp: Response): (r: Notice)
    ensures r.Alert?
    ensures !resp.Reply? || !resp.ok ==> r == Alert(Unexpected)
    ensures var a := CheckedAnswer(resp);
      a.Some? && !IsSuccess(a.value) ==>
        r == Alert("Ocurrio un error: " + if Truthy(a.value.message) then ToText(a.value.message) else "No se pudo eliminar la persona.")
  {
    match CheckedAnswer(resp)
    case None => Alert(Unexpected)
    case Some(e) =>
      EnvelopeNotice(e, "Persona eliminada exitosamente", "Ocurrio un error: ", "No se pudo eliminar la persona.")
  }

  class Persona {
    const apiUrl: string
    var personas: seq<Value>
    var formData: Value
    var isEditing: bool
    var loading: bool

    /** The state when the component mounts. */
    constructor (apiUrl: string)
      ensures this.apiUrl == apiUrl
      ensures personas == [] && formData == Blank && !isEditing && !loading
    {
      this.apiUrl := apiUrl;
      personas := [];
      formData := Blank;
      isEditing := false;
      loading := false;
    }

    /** The load effect up to its request: the loading flag goes up first. */
    method BeginLoad() returns (req: Request)
      modifies this
      ensures loading
      ensures req == Request(Get, CollectionUrl(apiUrl, Path))
      ensures personas == old(personas) && formData == old(formData) && isEditing == old(isEditing)
    {
      loading := true;
      req := Request(Get, CollectionUrl(apiUrl, Path));
    }

    /** The load effect's completion. A readable envelope of an ok reply replaces the list
      (with `data` on success with an array, with [] otherwise); a non-ok reply or a
      rejection leaves it. The loading flag comes down on every path. */
    method FinishLoad(resp: Response)
      modifies this
      ensures !loading
      ensures personas == AfterLoad(old(personas), CheckedAnswer(resp))
      ensures formData == old(formData) && isEditing == old(isEditing)
    {
      if resp.Reply? && resp.ok {
        match Answer(resp) {
          case Some(e) =>
            if IsSuccess(e) && e.data.Arr? {
              personas := e.data.elems;
            } else {
              personas := [];
            }
          case None =>
        }
      }
      loading := false;
    }

    /** handleChange: the named field of the draft takes the input's text. */
    method HandleChange(name: string, value: string)
      modifies this
      ensures formData == SetField(old(formData), name, Str(value))
      ensures personas == old(personas) && isEditing == old(isEditing) && loading == old(loading)
    {
      formData := SetField(formData, name, Str(value));
    }

    /** handleSubmit and its completion. On a success envelope of an ok reply, the record
      the server returned replaces the elements with its id (editing) or is appended
      (creating), the form goes back to blank and edit mode ends; otherwise nothing
      changes. */
    method HandleSubmit(resp: Response) returns (req: Request, notice: Notice)
      modifies this
      ensures req == SubmitRequest(apiUrl, Path, old(isEditing), old(formData))
      ensures notice == SubmitNotice(old(isEditing), resp)
      ensures var a := CheckedAnswer(resp);
        if a.Some? && IsSuccess(a.value) then
          && personas == (if old(isEditing) then ReplaceById(old(personas), a.value.data)
                          else old(personas) + [a.value.data])
          && formData == Blank && !isEditing
        else
          personas == old(personas) && formData == old(formData) && isEditing == old(isEditing)
      ensures loading == old(loading)
    {
      req := SubmitRequest(apiUrl, Path, isEditing, formData);
      notice := SubmitNotice(isEditing, resp);
      match CheckedAnswer(resp) {
        case Some(e) =>
          if IsSuccess(e) {
            var saved := e.data;
            if isEditing {
              personas := ReplaceById(personas, saved);
            } else {
              personas := personas + [saved];
            }
            formData := Blank;
            isEditing := false;
          }
        case None =>
      }
    }

    /** handleDelete and its completion. Without confirmation nothing is sent and nothing
      changes; with it, a success envelope of an ok reply removes the elements with that
      id, and anything else leaves the list. */
    method HandleDelete(id: Value, confirmed: bool, resp: Response) returns (req: Option<Request>, notice: Notice)
      modifies this
      ensures !confirmed ==> req == None && notice == Silent
      ensures confirmed ==> req == Some(Request(Delete, ItemUrl(apiUrl, Path, id))) && notice == DeleteNotice(resp)
      ensures personas == if confirmed && CheckedAnswer(resp).Some? && IsSuccess(CheckedAnswer(resp).value)
                          then RemoveById(old(personas), id) else old(personas)
      ensures formData == old(formData) && isEditing == old(isEditing) && loading == old(loading)
    {
      req, notice := None, Silent;
      if confirmed {
        req := Some(Request(Delete, ItemUrl(apiUrl, Path, id)));
        notice := DeleteNotice(resp);
        match CheckedAnswer(resp) {
          case Some(e) =>
            if IsSuccess(e) {
              personas := RemoveById(personas, id);
            }
          case None =>
        }
      }
    }

    /** handleEdit: the draft becomes the chosen record and the form enters edit mode. */
    method HandleEdit(record: Value)
      modifies this
      ensures formData == record && isEditing
      ensures personas == old(personas) && loading == old(loading)
    {
      formData := record;
      isEditing := true;
    }
  }
}
