/**
 * The login form of `Login.js`: its two fields and error message, the
 * empty-field check and trimming of `handleSubmit`, and what the form does with
 * the controller's answer.
 */
module Login {
  import opened Common
  import opened Text
  import opened Accounts

  /** The `form` state. */
  datatype Fields = Fields(username: string, password: string)

  datatype Field = Username | Password

  const Blank := Fields("", "")

  const EmptyMessage := "Please enter username and password."
  const UnableMessage := "Unable to sign in."

  /** `{...f, [name]: value}`. */
  function Set(f: Fields, which: Field, value: string): Fields {
    match which
    case Username => f.(username := value)
    case Password => f.(password := value)
  }

  /** The payload `handleSubmit` sends: the trimmed username and the password as typed. */
  function LoginPayload(f: Fields): Payload {
    Payload(Some(LoginRequest), Trim(f.username), None, f.password, "", "", None)
  }

  /**
   * The empty-field check runs before trimming, so a username of white space
   * only is sent as "", which the controller resolves to the key "anon".
   */
  lemma WhitespaceUsernameSignsInAsAnon(f: Fields)
    requires f.username != "" && AllWhitespace(f.username)
    ensures LoginPayload(f).username == ""
    ensures ResolveUsername(LoginPayload(f)) == "anon"
  {
    TrimAllWhitespace(f.username);
  }

  /** A username typed without surrounding white space is looked up as typed. */
  lemma PlainUsernameKept(f: Fields)
    requires f.username != "" && !IsWhitespace(f.username[0]) && !IsWhitespace(f.username[|f.username| - 1])
    ensures ResolveUsername(LoginPayload(f)) == f.username
  {
    TrimNoOp(f.username);
  }

  /** The state of the `Login` component. */
  class LoginForm {
    var form: Fields
    var error: string

    constructor()
      ensures form == Blank && error == ""
    {
      form, error := Blank, "";
    }

    /** `handleChange`: one field takes the typed text and the error is cleared. */
    method HandleChange(which: Field, value: string)
      modifies this
      ensures which == Username ==> form == Fields(value, old(form.password))
      ensures which == Password ==> form == Fields(old(form.username), value)
      ensures error == ""
    {
      form := Set(form, which, value);
      error := "";
    }

    /** The Clear button. */
    method Clear()
      modifies this
      ensures form == Blank && error == ""
    {
      form, error := Blank, "";
    }

    /**
     * `handleSubmit` up to the call of `onLogin`: an empty field sets the
     * message and sends nothing; otherwise the payload is returned and the
     * state is left alone.
     */
    method Submit() returns (payload: Option<Payload>)
      modifies this
      ensures form == old(form)
      ensures form.username == "" || form.password == "" ==> payload == None && error == EmptyMessage
      ensures form.username != "" && form.password != "" ==> payload == Some(LoginPayload(form)) && error == old(error)
    {
      if form.username == "" || form.password == "" {
        error := EmptyMessage;
        return None;
      }
      return Some(LoginPayload(form));
    }

    /**
     * The rest of `handleSubmit`: a missing or failed answer shows its message
     * (or a fallback) and keeps what was typed; success empties the form and
     * clears the error.
     */
    method HandleResponse(res: Option<Response>)
      modifies this
      ensures res.None? ==> form == old(form) && error == UnableMessage
      ensures res.Some? && !res.value.success ==> form == old(form) && error == MessageOr(res.value.message, UnableMessage)
      ensures res.Some? && res.value.success ==> form == Blank && error == ""
    {
      if res.None? || !res.value.success {
        error := if res.None? then UnableMessage else MessageOr(res.value.message, UnableMessage);
        return;
      }
      form := Blank;
      error := "";
    }
  }
}
