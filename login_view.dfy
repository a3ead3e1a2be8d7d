/** LoginView.tsx: the student's name and class, checked before the session
    starts. */
module LoginView {
  import opened Wrappers
  import opened JsStrings

  /** What `onLogin` receives; the source's field `class` is `className` here. */
  datatype UserInfo = UserInfo(name: string, className: string)

  const NAME_REQUIRED: string := "Vui lòng nhập họ và tên"
  const CLASS_REQUIRED: string := "Vui lòng nhập lớp học"

  /** The outcome of one submission: an error message, or the login. */
  datatype Outcome = Rejected(error: string) | Accepted(info: UserInfo)

  /** The checks of `handleSubmit`, in their order: the name first, then the class. */
  function Validate(name: string, className: string): (o: Outcome)
    ensures o.Accepted? ==> o.info == UserInfo(Trim(name), Trim(className))
    ensures o.Accepted? <==> Trim(name) != "" && Trim(className) != ""
    ensures o == Rejected(NAME_REQUIRED) <==> Trim(name) == ""
    ensures o.Rejected? ==> o.error in {NAME_REQUIRED, CLASS_REQUIRED}
  {
    if Trim(name) == "" then Rejected(NAME_REQUIRED)
    else if Trim(className) == "" then Rejected(CLASS_REQUIRED)
    else Accepted(UserInfo(Trim(name), Trim(className)))
  }

  /** Blank means white space only: a name of spaces is refused with the name
      message whatever the class; a real name with a class of spaces is refused
      with the class message; anything else is accepted. */
  lemma ValidateByCharacters(name: string, className: string)
    ensures Validate(name, className) == Rejected(NAME_REQUIRED)
      <==> forall k :: 0 <= k < |name| ==> IsJsSpace(name[k])
    ensures Validate(name, className) == Rejected(CLASS_REQUIRED)
      <==> (exists k :: 0 <= k < |name| && !IsJsSpace(name[k]))
           && (forall k :: 0 <= k < |className| ==> IsJsSpace(className[k]))
  {
    TrimEmptyIffAllSpace(name);
    TrimEmptyIffAllSpace(className);
  }

  /** The accepted name and class carry no white space at either end, so a
      second submission of them is accepted with the same values. */
  lemma AcceptedIsStable(name: string, className: string)
    requires Validate(name, className).Accepted?
    ensures var info := Validate(name, className).info;
      Validate(info.name, info.className) == Validate(name, className)
  {
    TrimIdempotent(name);
    TrimIdempotent(className);
  }

  /** Trimming twice is trimming once. */
  lemma TrimIdempotent(s: string)
    ensures Trim(Trim(s)) == Trim(s)
  {
    var t := Trim(s);
    TrimEnds(s);
    if t != [] {
      assert TrimStart(t) == t;
      assert TrimEnd(t) == t;
    }
  }

  class LoginForm {
    var name: string
    var className: string
    var error: Option<string>

    constructor()
      ensures name == "" && className == "" && error == None
    {
      name := "";
      className := "";
      error := None;
    }

    method SetName(v: string)
      modifies this
      ensures name == v && className == old(className) && error == old(error)
    {
      name := v;
    }

    method SetClassName(v: string)
      modifies this
      ensures className == v && name == old(name) && error == old(error)
    {
      className := v;
    }

    /** `handleSubmit`: an error message and no login, or no message and the
        login with the trimmed fields. The fields themselves stay as typed. */
    method HandleSubmit() returns (login: Option<UserInfo>)
      modifies this
      ensures name == old(name) && className == old(className)
      ensures Validate(name, className).Rejected? ==>
        login == None && error == Some(Validate(name, className).error)
      ensures Validate(name, className).Accepted? ==>
        login == Some(Validate(name, className).info) && error == None
    {
      if Trim(name) == "" {
        error := Some(NAME_REQUIRED);
        return None;
      }
      if Trim(className) == "" {
        error := Some(CLASS_REQUIRED);
        return None;
      }
      error := None;
      login := Some(UserInfo(Trim(name), Trim(className)));
    }
  }
}
