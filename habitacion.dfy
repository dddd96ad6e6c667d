/** The rooms screen (`Habitacion` component). It is the lax variant: it never looks at the
    HTTP status, so an error reply is judged by its envelope alone, and a rejection of the
    promise chain is only logged. Its form has two checkboxes. */
module HabitacionScreen {
  import opened JsValue
  import opened Http
  import opened Crud

  const Path := "/api/habitacion"

  /** The empty form: no id, the three number inputs blank, both checkboxes off. */
  const Blank: Value := Obj(map[
    "id" := Null,
    "habitacionpiso" := Str(""),
    "habitacionnro" := Str(""),
    "cantcamas" := Str(""),
    "tienetelevision" := Bool(false),
    "tienefrigobar" := Bool(false)])

  /** The value handleChange stores for an input: a checkbox gives its boolean `checked`,
      every other input (the number inputs included) its text `value`. */
  function InputValue(inputType: string, value: string, checked: bool): (v: Value)
    ensures v.Bool? <==> inputType == "checkbox"
    ensures v.Bool? ==> v == Bool(checked)
    ensures !v.Bool? ==> v == Str(value)
  {
    if inputType == "checkbox" then Bool(checked) else Str(value)
  }

  /** The alert handleSubmit shows: the server's message or a default on success, the
      message or 'Operacion fallida' after 'Error: ' otherwise; a rejection is only logged. */
  function SubmitNotice(editing: bool, resp: Response): (r: Notice)
    ensures r == Logged <==> Answer(resp).None?
    ensures Answer(resp).Some? ==> r.Alert?
    ensures var a := Answer(resp);
      a.Some? && IsSuccess(a.value) && !Truthy(a.value.message) ==>
        r == Alert(if editing then "Habitacion actualizada exitosamente" else "Habitacion creada exitosamente")
  {
    match Answer(resp)
    case None => Logged
    case Some(e) =>
      EnvelopeNotice(e, if editing then "Habitacion actualizada exitosamente" else "Habitacion creada exitosamente",
                     "Error: ", "Operacion fallida")
  }

  /** A failed save reports the envelope's message, or 'Operacion fallida' when it has
      none, whatever the HTTP status was. */
  lemma SubmitFailureReportsMessage(editing: bool, ok: bool, body: Value)
    requires Readable(body) && !IsSuccess(Envelope(Prop(body, "status"), Prop(body, "data"), Prop(body, "message")))
    ensures var m := Prop(body, "message");
      SubmitNotice(editing, Reply(ok, Some(body))) ==
        Alert("Error: " + if Truthy(m) then ToText(m) else "Operacion fallida")
  {
  }

  /** The alert handleDelete shows once confirmed: the same rule as a save, with the
      delete's own texts. */
  function DeleteNotice(resp: Response): (r: Notice)
    ensures r == Logged <==> Answer(resp).None?
    ensures var a := Answer(resp);
      a.Some? && !IsSuccess(a.value) ==>
        r == Alert("Error: " + if Truthy(a.value.message) then ToText(a.value.message) else "No se pudo eliminar la habitacion.")
    ensures var a := Answer(resp);
      a.Some? && IsSuccess(a.value) && !Truthy(a.value.message) ==> r == Alert("Habitacion eliminada exitosamente")
  {
    match Answer(resp)
    case None => Logged
    case Some(e) =>
      EnvelopeNotice(e, "Habitacion eliminada exitosamente", "Error: ", "No se pudo eliminar la habitacion.")
  }

  class Habitacion {
    const apiUrl: string
    var habitaciones: seq<Value>
    var formData: Value
    var isEditing: bool
    var loading: bool

    /** The state when the component mounts. */
    constructor (apiUrl: string)
      ensures this.apiUrl == apiUrl
      ensures habitaciones == [] && formData == Blank && !isEditing && !loading
    {
      this.apiUrl := apiUrl;
      habitaciones := [];
      formData := Blank;
      isEditing := false;
      loading := false;
    }

    /** The load effect up to its request: the loading flag goes up first. */
    method BeginLoad() returns (req: Request)
      modifies this
      ensures loading
      ensures req == Request(Get, CollectionUrl(apiUrl, Path))
      ensures habitaciones == old(habitaciones) && formData == old(formData) && isEditing == old(isEditing)
    {
      loading := true;
      req := Request(Get, CollectionUrl(apiUrl, Path));
    }

    /** The load effect's completion. Any readable envelope replaces the list (with `data`
      on success with an array, with [] otherwise), whatever the HTTP status; a rejection
      leaves it. The loading flag comes down on every path. */
    method FinishLoad(resp: Response)
      modifies this
      ensures !loading
      ensures habitaciones == AfterLoad(old(habitaciones), Answer(resp))
      ensures formData == old(formData) && isEditing == old(isEditing)
    {
      match Answer(resp) {
        case Some(e) =>
          if IsSuccess(e) && e.data.Arr? {
            habitaciones := e.data.elems;
          } else {
            habitaciones := [];
          }
        case None =>
      }
      loading := false;
    }

    /** handleChange: only the named field of the draft changes, to the input's value. */
    method HandleChange(name: string, inputType: string, value: string, checked: bool)
      modifies this
      ensures formData == SetField(old(formData), name, InputValue(inputType, value, checked))
      ensures habitaciones == old(habitaciones) && isEditing == old(isEditing) && loading == old(loading)
    {
      formData := SetField(formData, name, InputValue(inputType, value, checked));
    }

    /** handleSubmit and its completion. On a success envelope, the record the server
      returned replaces the elements with its id (editing) or is appended (creating), the
      form goes back to blank and edit mode ends; otherwise nothing changes. */
    method HandleSubmit(resp: Response) returns (req: Request, notice: Notice)
      modifies this
      ensures req == SubmitRequest(apiUrl, Path, old(isEditing), old(formData))
      ensures notice == SubmitNotice(old(isEditing), resp)
      ensures var a := Answer(resp);
        if a.Some? && IsSuccess(a.value) then
          && habitaciones == (if old(isEditing) then ReplaceById(old(habitaciones), a.value.data)
                              else old(habitaciones) + [a.value.data])
          && formData == Blank && !isEditing
        else
          habitaciones == old(habitaciones) && formData == old(formData) && isEditing == old(isEditing)
      ensures loading == old(loading)
    {
      req := SubmitRequest(apiUrl, Path, isEditing, formData);
      notice := SubmitNotice(isEditing, resp);
      match Answer(resp) {
        case Some(e) =>
          if IsSuccess(e) {
            var saved := e.data;
            if isEditing {
              habitaciones := ReplaceById(habitaciones, saved);
            } else {
              habitaciones := habitaciones + [saved];
            }
            formData := Blank;
            isEditing := false;
          }
        case None =>
      }
    }

    /** handleDelete and its completion. Without confirmation nothing is sent and nothing
      changes; with it, a success envelope removes the elements with that id, and
      anything else leaves the list. */
    method HandleDelete(id: Value, confirmed: bool, resp: Response) returns (req: Option<Request>, notice: Notice)
      modifies this
      ensures !confirmed ==> req == None && notice == Silent
      ensures confirmed ==> req == Some(Request(Delete, ItemUrl(apiUrl, Path, id))) && notice == DeleteNotice(resp)
      ensures habitaciones == if confirmed && Answer(resp).Some? && IsSuccess(Answer(resp).value)
                              then RemoveById(old(habitaciones), id) else old(habitaciones)
      ensures formData == old(formData) && isEditing == old(isEditing) && loading == old(loading)
    {
      req, notice := None, Silent;
      if confirmed {
        req := Some(Request(Delete, ItemUrl(apiUrl, Path, id)));
        notice := DeleteNotice(resp);
        match Answer(resp) {
          case Some(e) =>
            if IsSuccess(e) {
              habitaciones := RemoveById(habitaciones, id);
            }
          case None =>
        }
      }
    }

    /** handleEdit: the draft becomes the chosen record and the form enters edit mode. */
    method HandleEdit(record: Value)
      modifies this
      ensures formData == record && isEditing
      ensures habitaciones == old(habitaciones) && loading == old(loading)
    {
      formData := record;
      isEditing := true;
    }
  }
}
