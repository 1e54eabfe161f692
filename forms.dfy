/** `loader/forms.py`: the `clean` methods of the three forms. A form's
    `cleaned_data` is a dictionary the form owns; the two model forms add the
    form's user to it when their checks pass. What Django's own field cleaning
    put there beforehand is the starting state. */
module Forms {
  import opened Wrappers
  import opened Errors
  import opened Text
  import Interpreter
  import Models
  import Plugins

  /** A value in `cleaned_data`. */
  datatype FormValue =
    | NoValue                      // None
    | TextValue(s: string)
    | FeedValue(feed: Models.Feed)
    | FileValue(name: string)      // an uploaded file and its name
    | UserValue(user: Models.User)

  /** Python truthiness of a value: an uploaded file is false without a name. */
  predicate Truthy(v: FormValue) {
    match v
    case NoValue => false
    case TextValue(s) => s != ""
    case FeedValue(_) => true
    case FileValue(name) => name != ""
    case UserValue(_) => true
  }

  /** `cleaned_data.get(key)`. */
  function Get(d: map<string, FormValue>, key: string): FormValue {
    if key in d then d[key] else NoValue
  }

  const NoFeedMessage := "No valid feed given"
  const NotAuthorisedMessage := "This User is not authorised to upload files to this feed!"
  const NoFileMessage := "No file input given."
  const ExtensionMismatchMessage := "The file extension does not match the language picked!"
  const InvalidLoginMessage := "Sorry that was an invalid login. Please try again."

  /** `FileForm`: a file upload into a feed. */
  class FileForm {
    var user: Models.User
    var cleanedData: map<string, FormValue>

    constructor(user: Models.User, cleanedData: map<string, FormValue>)
      ensures this.user == user && this.cleanedData == cleanedData
    {
      this.user := user;
      this.cleanedData := cleanedData;
    }

    /** `clean`: there must be a feed, the form's user must be one of its users,
        and there must be a file, checked in that order. On success the user is
        added to `cleaned_data`, which is returned; on failure nothing changes. */
    method Clean() returns (r: Result<map<string, FormValue>, Exception>)
      modifies this
      ensures user == old(user)
      ensures !Truthy(Get(old(cleanedData), "feed")) ==>
        r == Failure(ValidationError(NoFeedMessage)) && cleanedData == old(cleanedData)
      ensures Truthy(Get(old(cleanedData), "feed")) && !Get(old(cleanedData), "feed").FeedValue? ==>
        r == Failure(AttributeError("users")) && cleanedData == old(cleanedData)
      ensures Get(old(cleanedData), "feed").FeedValue? && !Models.FeedHasUser(Get(old(cleanedData), "feed").feed, user) ==>
        r == Failure(ValidationError(NotAuthorisedMessage)) && cleanedData == old(cleanedData)
      ensures (Get(old(cleanedData), "feed").FeedValue? && Models.FeedHasUser(Get(old(cleanedData), "feed").feed, user)
        && !Truthy(Get(old(cleanedData), "data"))) ==>
        r == Failure(ValidationError(NoFileMessage)) && cleanedData == old(cleanedData)
      ensures r.Success? <==>
        Get(old(cleanedData), "feed").FeedValue? && Models.FeedHasUser(Get(old(cleanedData), "feed").feed, user)
        && Truthy(Get(old(cleanedData), "data"))
      ensures r.Success? ==> cleanedData == old(cleanedData)["user" := UserValue(user)] && r.value == cleanedData
    {
      var feed := Get(cleanedData, "feed");
      if Truthy(feed) {
        if !feed.FeedValue? {
          return Failure(AttributeError("users"));
        }
        if !Models.FeedHasUser(feed.feed, user) {
          return Failure(ValidationError(NotAuthorisedMessage));
        }
      } else {
        return Failure(ValidationError(NoFeedMessage));
      }
      if !Truthy(Get(cleanedData, "data")) {
        return Failure(ValidationError(NoFileMessage));
      }
      cleanedData := cleanedData["user" := UserValue(user)];
      r := Success(cleanedData);
    }
  }

  /** The `name` attribute of a value, when it has one. */
  function NameAttribute(v: FormValue): Option<string> {
    match v
    case FileValue(name) => Some(name)
    case FeedValue(feed) => Some(feed.name)
    case _ => None
  }

  /** The dictionary key a language value stands for. The form's choice field
      always supplies text; any other value is taken as `None`, so it gives
      `KeyError("None")` rather than a key of its own, which no submitted form
      can produce. */
  function LanguageKey(v: FormValue): Interpreter.Attr {
    if v.TextValue? then Interpreter.PyStr(v.s) else Interpreter.PyNone
  }

  /** How `KeyError` shows a missing key. */
  function KeyText(a: Interpreter.Attr): string {
    if a.PyStr? then a.s else "None"
  }

  /** The test in `ProcedureForm.clean`, as Python evaluates it left to right:
      `cleaned_data['procedure'].name.endswith(LANGUAGE_EXTENSIONS[cleaned_data['language']])`
      with `extensions` for `LANGUAGE_EXTENSIONS`. A missing key or attribute
      raises; only a failed suffix test gives the validation error. */
  function ExtensionCheck(d: map<string, FormValue>, extensions: map<Interpreter.Attr, Interpreter.Attr>): (r: Result<(), Exception>)
    ensures "procedure" !in d ==> r == Failure(KeyError("procedure"))
    ensures "procedure" in d && NameAttribute(d["procedure"]).None? ==> r == Failure(AttributeError("name"))
    ensures "procedure" in d && NameAttribute(d["procedure"]).Some? && "language" !in d ==> r == Failure(KeyError("language"))
    ensures ("procedure" in d && NameAttribute(d["procedure"]).Some? && "language" in d
      && LanguageKey(d["language"]) !in extensions) ==> r == Failure(KeyError(KeyText(LanguageKey(d["language"]))))
    ensures r.Success? <==>
      "procedure" in d && NameAttribute(d["procedure"]).Some? && "language" in d
      && LanguageKey(d["language"]) in extensions && extensions[LanguageKey(d["language"])].PyStr?
      && EndsWith(NameAttribute(d["procedure"]).value, extensions[LanguageKey(d["language"])].s)
  {
    if "procedure" !in d then Failure(KeyError("procedure"))
    else
      match NameAttribute(d["procedure"])
      case None => Failure(AttributeError("name"))
      case Some(name) =>
        if "language" !in d then Failure(KeyError("language"))
        else
          var key := LanguageKey(d["language"]);
          if key !in extensions then Failure(KeyError(KeyText(key)))
          else
            match extensions[key]
            case PyNone => Failure(TypeError("endswith first arg must be str or a tuple of str, not NoneType"))
            case PyStr(ext) =>
              if EndsWith(name, ext) then Success(()) else Failure(ValidationError(ExtensionMismatchMessage))
  }

  /** `ProcedureForm`: a procedure upload. */
  class ProcedureForm {
    var user: Models.User
    var cleanedData: map<string, FormValue>

    constructor(user: Models.User, cleanedData: map<string, FormValue>)
      ensures this.user == user && this.cleanedData == cleanedData
    {
      this.user := user;
      this.cleanedData := cleanedData;
    }

    /** `clean`: the file name must end with the extension of the language
        picked; then the user is added to `cleaned_data`, which is returned. */
    method Clean(extensions: map<Interpreter.Attr, Interpreter.Attr>) returns (r: Result<map<string, FormValue>, Exception>)
      modifies this
      ensures user == old(user)
      ensures ExtensionCheck(old(cleanedData), extensions).Failure? ==>
        r == Failure(ExtensionCheck(old(cleanedData), extensions).error) && cleanedData == old(cleanedData)
      ensures ExtensionCheck(old(cleanedData), extensions).Success? ==>
        cleanedData == old(cleanedData)["user" := UserValue(user)] && r == Success(cleanedData)
    {
      var check := ExtensionCheck(cleanedData, extensions);
      if check.Failure? {
        return Failure(check.error);
      }
      cleanedData := cleanedData["user" := UserValue(user)];
      r := Success(cleanedData);
    }
  }

  /** `LoginForm.clean`, with what `authenticate` returned given: valid exactly
      when a user came back and that user is active. The data is returned as is. */
  function LoginClean(cleanedData: map<string, FormValue>, authenticated: Option<Models.User>): (r: Result<map<string, FormValue>, Exception>)
    ensures r.Success? <==> authenticated.Some? && authenticated.value.isActive
    ensures r.Success? ==> r.value == cleanedData
    ensures r.Failure? ==> r.error == ValidationError(InvalidLoginMessage)
  {
    if authenticated.None? || !authenticated.value.isActive then Failure(ValidationError(InvalidLoginMessage))
    else Success(cleanedData)
  }

  /** The check for a form holding just a file and a language. */
  lemma CheckOfFile(name: string, language: string, extensions: map<Interpreter.Attr, Interpreter.Attr>)
    ensures Interpreter.PyStr(language) !in extensions ==>
      ExtensionCheck(map["procedure" := FileValue(name), "language" := TextValue(language)], extensions)
        == Failure(KeyError(language))
    ensures Interpreter.PyStr(language) in extensions && extensions[Interpreter.PyStr(language)].PyStr? ==>
      ExtensionCheck(map["procedure" := FileValue(name), "language" := TextValue(language)], extensions)
        == if EndsWith(name, extensions[Interpreter.PyStr(language)].s) then Success(())
           else Failure(ValidationError(ExtensionMismatchMessage))
  {
    var d := map["procedure" := FileValue(name), "language" := TextValue(language)];
    assert "procedure" in d && d["procedure"] == FileValue(name);
    assert "language" in d && d["language"] == TextValue(language);
  }

  /** The suffix test on the repository's table: case-sensitive, and blind to
      what comes before the suffix. The Bash plugin's `.sh` is accepted too. */
  lemma RepositoryExtensionChecks()
    ensures ExtensionCheck(map["procedure" := FileValue("a.PY"), "language" := TextValue("Python")],
      Plugins.LanguageExtensions(Plugins.Registered(Plugins.RepositoryPackages)))
      == Failure(ValidationError(ExtensionMismatchMessage))
    ensures ExtensionCheck(map["procedure" := FileValue("x.tar.py"), "language" := TextValue("Python")],
      Plugins.LanguageExtensions(Plugins.Registered(Plugins.RepositoryPackages))) == Success(())
    ensures ExtensionCheck(map["procedure" := FileValue("load.sh"), "language" := TextValue("Bash")],
      Plugins.LanguageExtensions(Plugins.Registered(Plugins.RepositoryPackages))) == Success(())
    ensures ExtensionCheck(map["procedure" := FileValue("load.sh"), "language" := TextValue("Perl")],
      Plugins.LanguageExtensions(Plugins.Registered(Plugins.RepositoryPackages))) == Failure(KeyError("Perl"))
  {
    Plugins.RepositoryTables();
    var e := Plugins.LanguageExtensions(Plugins.Registered(Plugins.RepositoryPackages));
    assert e[Interpreter.PyStr("Python")] == Interpreter.PyStr(".py");
    assert e[Interpreter.PyStr("Bash")] == Interpreter.PyStr(".sh");
    assert Interpreter.PyStr("Perl") !in e;
    assert !EndsWith("a.PY", ".py") by { assert "a.PY"[1..] != ".py"; }
    assert EndsWith("x.tar.py", ".py") by { assert "x.tar.py"[5..] == ".py"; }
    assert EndsWith("load.sh", ".sh") by { assert "load.sh"[4..] == ".sh"; }
    CheckOfFile("a.PY", "Python", e);
    CheckOfFile("x.tar.py", "Python", e);
    CheckOfFile("load.sh", "Bash", e);
    CheckOfFile("load.sh", "Perl", e);
  }
}
