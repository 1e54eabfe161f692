/** `loader/models.py`: the upload paths, the `File` record with its column list
    and preview, and `Procedure` with its payload and dispatch. The database is
    out of the model; a `File` is an object whose fields the methods assign, and
    a `Procedure` a value. The clock, the file contents and the sniffer's verdict
    are parameters. */
module Models {
  import opened Wrappers
  import opened Errors
  import opened Text
  import PosixPath
  import Json
  import Interpreter
  import Interpreters
  import Plugins

  /** A Django user, as far as the application looks at one. */
  datatype User = User(pk: nat, username: string, email: string, isActive: bool)

  /** A special column: one with a meaning of its own to later processing. */
  datatype Column = Column(pk: nat, name: string)

  /** A feed and the users allowed to upload to it. */
  datatype Feed = Feed(pk: nat, name: string, users: seq<User>)

  /** `user in feed.users.all()`: Django compares model instances by primary key. */
  predicate FeedHasUser(feed: Feed, user: User) {
    exists i :: 0 <= i < |feed.users| && feed.users[i].pk == user.pk
  }

  // ----- dates, as `strftime('%Y-%m-%d')` writes them -----

  datatype Date = Date(year: int, month: int, day: int)

  predicate IsLeapYear(y: int) {
    y % 4 == 0 && (y % 100 != 0 || y % 400 == 0)
  }

  function DaysInMonth(y: int, m: int): int
    requires 1 <= m <= 12
  {
    if m == 2 then (if IsLeapYear(y) then 29 else 28)
    else if m == 4 || m == 6 || m == 9 || m == 11 then 30
    else 31
  }

  /** The dates Python's `datetime` can hold. */
  predicate ValidDate(d: Date) {
    1 <= d.year <= 9999 && 1 <= d.month <= 12 && 1 <= d.day <= DaysInMonth(d.year, d.month)
  }

  /** `strftime('%Y-%m-%d')`: four digits of year, two of month, two of day. */
  function FormatDate(d: Date): (r: string)
    requires ValidDate(d)
    ensures |r| == 10 && r[4] == '-' && r[7] == '-'
    ensures AllDigits(r[..4]) && AllDigits(r[5..7]) && AllDigits(r[8..])
  {
    assert Pow10(2) == 100 && Pow10(4) == 10000;
    FixedDigits(d.year, 4) + "-" + FixedDigits(d.month, 2) + "-" + FixedDigits(d.day, 2)
  }

  /** Reading a date back from its `YYYY-MM-DD` form. */
  function ParseDate(s: string): Option<Date> {
    if |s| == 10 && s[4] == '-' && s[7] == '-' && AllDigits(s[..4]) && AllDigits(s[5..7]) && AllDigits(s[8..]) then
      var d := Date(DecimalValue(s[..4]), DecimalValue(s[5..7]), DecimalValue(s[8..]));
      if ValidDate(d) then Some(d) else None
    else None
  }

  /** The formatted date determines the date. */
  lemma DateRoundTrip(d: Date)
    requires ValidDate(d)
    ensures ParseDate(FormatDate(d)) == Some(d)
  {
    assert Pow10(2) == 100 && Pow10(4) == 10000;
    var y, m, dd := FixedDigits(d.year, 4), FixedDigits(d.month, 2), FixedDigits(d.day, 2);
    var s := FormatDate(d);
    assert s[..4] == y && s[5..7] == m && s[8..] == dd;
    FixedDigitsRoundTrip(d.year, 4);
    FixedDigitsRoundTrip(d.month, 2);
    FixedDigitsRoundTrip(d.day, 2);
  }

  /** A formatted date is a plain path component: it holds no `/`. */
  lemma DateIsPlain(d: Date)
    requires ValidDate(d)
    ensures PosixPath.PlainComponent(FormatDate(d)) && '/' !in FormatDate(d)
  {
    var s := FormatDate(d);
    forall i | 0 <= i < 10 ensures s[i] != '/' {
      if i < 4 { assert s[..4][i] == s[i]; }
      else if 4 < i < 7 { assert s[5..7][i - 5] == s[i]; }
      else if 7 < i { assert s[8..][i - 8] == s[i]; }
    }
    assert s[0] != '/' && s[9] != '/';
  }

  // ----- upload paths -----

  /** `feed_directory_path`: `uploads/<feed>/<date>/<filename>` by `os.path.join`,
      with the upload date given instead of read from the clock. */
  function FeedDirectoryPath(feedName: string, date: Date, filename: string): string
    requires ValidDate(date)
  {
    PosixPath.Join("uploads", [feedName, FormatDate(date), filename])
  }

  /** `proc_directory_path`: `procedures/<language>/<filename>`. */
  function ProcDirectoryPath(language: string, filename: string): string {
    PosixPath.Join("procedures", [language, filename])
  }

  lemma UploadsIsPlain()
    ensures PosixPath.PlainComponent("uploads") && PosixPath.PlainComponent("procedures")
  {
    PosixPath.PlainWhen("uploads");
    PosixPath.PlainWhen("procedures");
  }

  /** With a feed name and a file name that are plain components, the upload path
      has exactly the four parts, one `/` between each. */
  lemma FeedDirectoryPathShape(feedName: string, date: Date, filename: string)
    requires ValidDate(date)
    requires PosixPath.PlainComponent(feedName) && PosixPath.PlainComponent(filename)
    ensures FeedDirectoryPath(feedName, date, filename) ==
      "uploads" + "/" + feedName + "/" + FormatDate(date) + "/" + filename
  {
    UploadsIsPlain();
    DateIsPlain(date);
    PosixPath.JoinPlainThree("uploads", feedName, FormatDate(date), filename);
  }

  /** `os.path.join` drops every part before an absolute file name. */
  lemma FeedDirectoryPathAbsolute(feedName: string, date: Date, filename: string)
    requires ValidDate(date) && PosixPath.IsAbsolute(filename)
    ensures FeedDirectoryPath(feedName, date, filename) == filename
  {
    PosixPath.JoinAbsolute("uploads", [feedName, FormatDate(date), filename], 2);
  }

  lemma ProcDirectoryPathShape(language: string, filename: string)
    requires PosixPath.PlainComponent(language) && PosixPath.PlainComponent(filename)
    ensures ProcDirectoryPath(language, filename) == "procedures" + "/" + language + "/" + filename
  {
    UploadsIsPlain();
    PosixPath.JoinPlainTwo("procedures", language, filename);
  }

  /** `File.__str__` of an uploaded file is the name it was uploaded under, when
      that name holds no `/`, whatever the feed name is. */
  lemma UploadedFileName(feedName: string, date: Date, filename: string)
    requires ValidDate(date) && '/' !in filename
    ensures PosixPath.Basename(FeedDirectoryPath(feedName, date, filename)) == filename
  {
    PosixPath.BasenameOfJoin("uploads", [feedName, FormatDate(date), filename]);
  }

  lemma ProcedureFileName(language: string, filename: string)
    requires '/' !in filename
    ensures PosixPath.Basename(ProcDirectoryPath(language, filename)) == filename
  {
    PosixPath.BasenameOfJoin("procedures", [language, filename]);
  }

  // ----- File -----

  /** What `csv.Sniffer().sniff` reports. */
  datatype Dialect = Dialect(delimiter: string, lineTerminator: string)

  /** The `File` model. `data` is the name of the stored file, `uploadDate` the
      text `upload_date.isoformat()` gives, and `columns` the raw text of the
      column list, `None` for SQL `NULL`. */
  class File {
    var user: User
    var feedName: string
    var data: string
    var uploadDate: string
    var table: string
    var columns: Option<string>
    var delimiter: Option<string>
    var terminator: Option<string>
    var hasHeader: bool

    /** A new record with the field defaults: `,`, a line feed, a header, no columns. */
    constructor(user: User, feedName: string, data: string, uploadDate: string, table: string)
      ensures this.user == user && this.feedName == feedName && this.data == data
      ensures this.uploadDate == uploadDate && this.table == table
      ensures columns == None && delimiter == Some(",") && terminator == Some("\n") && hasHeader
    {
      this.user := user;
      this.feedName := feedName;
      this.data := data;
      this.uploadDate := uploadDate;
      this.table := table;
      columns := None;
      delimiter := Some(",");
      terminator := Some("\n");
      hasHeader := true;
    }

    /** `get_columns`: `[]` when nothing is stored (`None` or `''`, both falsy),
        otherwise `json.loads` of the stored text. */
    function GetColumns(): (r: Result<seq<string>, Json.DecodeError>)
      reads this
      ensures (columns == None || columns == Some("")) ==> r == Success([])
    {
      if columns.None? || columns.value == "" then Success([])
      else Json.DecodeStringArray(columns.value)
    }

    /** `set_columns(lst)`: store `json.dumps(lst)`; reading the columns back
        gives `lst`. */
    method SetColumns(lst: seq<string>)
      modifies this
      ensures columns == Some(Json.EncodeStringArray(lst, Json.Default))
      ensures unchanged(`user, `feedName, `data, `uploadDate, `table, `delimiter, `terminator, `hasHeader)
      ensures GetColumns() == Success(lst)
    {
      var text := Json.EncodeStringArray(lst, Json.Default);
      Json.StringArrayRoundTrip(lst, Json.Default);
      columns := Some(text);
    }

    /** `get_first_lines(num)`: `next` on the open file `num` times. The file's
        lines are given; a `next` past the last line raises `StopIteration`,
        which the list comprehension lets through. */
    method GetFirstLines(lines: seq<string>, num: int) returns (r: Result<seq<string>, Exception>)
      ensures num > |lines| <==> r == Failure(StopIteration)
      ensures num <= |lines| ==> r == Success(lines[..if num < 0 then 0 else num])
    {
      var taken: seq<string> := [];
      var k := 0;
      while k < num
        invariant 0 <= k <= |lines| && (num >= 0 ==> k <= num) && (num < 0 ==> k == 0) && taken == lines[..k]
        decreases num - k
      {
        if k == |lines| {
          return Failure(StopIteration);
        }
        taken := taken + [lines[k]];
        k := k + 1;
      }
      r := Success(taken);
    }

    /** `get_table_info`: sniff the first ten lines for a dialect, store its
        delimiter and line terminator, then sniff them again for a header. The
        sniffer's two verdicts are given. Each step that raises leaves the
        fields assigned before it in place. */
    method GetTableInfo(lines: seq<string>, dialect: Result<Dialect, Exception>, header: Result<bool, Exception>)
      returns (r: Result<(), Exception>)
      modifies this
      ensures user == old(user) && feedName == old(feedName) && data == old(data)
      ensures uploadDate == old(uploadDate) && table == old(table) && columns == old(columns)
      ensures |lines| < 10 ==> r == Failure(StopIteration) && unchanged(this)
      ensures |lines| >= 10 && dialect.Failure? ==> r == Failure(dialect.error) && unchanged(this)
      ensures |lines| >= 10 && dialect.Success? ==>
        delimiter == Some(dialect.value.delimiter) && terminator == Some(dialect.value.lineTerminator)
      ensures |lines| >= 10 && dialect.Success? && header.Failure? ==>
        r == Failure(header.error) && hasHeader == old(hasHeader)
      ensures |lines| >= 10 && dialect.Success? && header.Success? ==>
        r == Success(()) && hasHeader == header.value
    {
      var sample := GetFirstLines(lines, 10);
      if sample.Failure? {
        return Failure(sample.error);
      }
      if dialect.Failure? {
        return Failure(dialect.error);
      }
      delimiter := Some(dialect.value.delimiter);
      terminator := Some(dialect.value.lineTerminator);
      sample := GetFirstLines(lines, 10);
      if header.Failure? {
        return Failure(header.error);
      }
      hasHeader := header.value;
      r := Success(());
    }

    /** `__str__`: the tail of `os.path.split` of the stored name. */
    function ToString(): (r: string)
      reads this
      ensures '/' !in r && EndsWith(data, r)
      ensures |r| < |data| ==> data[|data| - |r| - 1] == '/'
    {
      PosixPath.Basename(data)
    }
  }

  // ----- Procedure -----

  /** A stored procedure: its language, name, description and the name of its
      script file. */
  datatype Procedure = Procedure(language: string, name: string, comments: string, procedure: string)

  /** `Procedure.__str__`: the script's name, a blank line, then the description. */
  function ProcedureToString(p: Procedure): (r: string)
    ensures StartsWith(r, p.procedure) && EndsWith(r, p.comments)
    ensures |r| == |p.procedure| + 15 + |p.comments|
    ensures r[|p.procedure|..|p.procedure| + 15] == "\n\nDescription:\n"
  {
    p.procedure + "\n\nDescription:\n" + p.comments
  }

  /** When the script name holds no line feed, it is the first line of the text. */
  lemma ScriptNameIsFirstLine(p: Procedure)
    requires '\n' !in p.procedure
    ensures FirstLineFeed(ProcedureToString(p)) == |p.procedure|
    ensures ProcedureToString(p)[..|p.procedure|] == p.procedure
  {
    var s := ProcedureToString(p);
    assert s[|p.procedure|] == '\n';
    assert forall j :: 0 <= j < |p.procedure| ==> s[j] == p.procedure[j];
  }

  /** So the text tells such procedures apart by script name and description. */
  lemma ProcedureToStringInjective(p: Procedure, q: Procedure)
    requires '\n' !in p.procedure && '\n' !in q.procedure
    ensures ProcedureToString(p) == ProcedureToString(q) <==>
      p.procedure == q.procedure && p.comments == q.comments
  {
    var s, t := ProcedureToString(p), ProcedureToString(q);
    if s == t {
      ScriptNameIsFirstLine(p);
      ScriptNameIsFirstLine(q);
      assert p.comments == s[|p.procedure| + 15..] == t[|q.procedure| + 15..] == q.comments;
    }
  }

  /** The members of the dict `run` serialises, in insertion order: the stored
      column text goes in as a string, not as the list it encodes. */
  function PayloadMembers(table: string, uploadDate: string, columns: Option<string>,
                          username: string, email: string): (m: seq<(string, Json.Scalar)>)
    ensures |m| == 5
    ensures m[0] == ("table", Json.Str(table)) && m[1] == ("upload_date", Json.Str(uploadDate))
    ensures m[2].0 == "columns" && m[3] == ("user", Json.Str(username)) && m[4] == ("user_email", Json.Str(email))
    ensures columns.None? ==> m[2].1 == Json.Null
    ensures columns.Some? ==> m[2].1 == Json.Str(columns.value)
  {
    [("table", Json.Str(table)),
     ("upload_date", Json.Str(uploadDate)),
     ("columns", if columns.None? then Json.Null else Json.Str(columns.value)),
     ("user", Json.Str(username)),
     ("user_email", Json.Str(email))]
  }

  /** `json.dumps(file_args, separators=(',', ':'))`. */
  function Payload(table: string, uploadDate: string, columns: Option<string>,
                   username: string, email: string): string {
    Json.EncodeObject(PayloadMembers(table, uploadDate, columns, username, email), Json.Compact)
  }

  /** The payload of a file record. */
  function FilePayload(file: File): string
    reads file
  {
    Payload(file.table, file.uploadDate, file.columns, file.user.username, file.user.email)
  }

  /** The payload reads back as the five members: every field, keys in order. */
  lemma PayloadDecodes(table: string, uploadDate: string, columns: Option<string>, username: string, email: string)
    ensures Json.DecodeObject(Payload(table, uploadDate, columns, username, email)) ==
      Success(PayloadMembers(table, uploadDate, columns, username, email))
  {
    Json.ObjectRoundTrip(PayloadMembers(table, uploadDate, columns, username, email), Json.Compact);
  }

  /** The payload is one line of printable ASCII. */
  lemma PayloadHasNoLineBreak(table: string, uploadDate: string, columns: Option<string>, username: string, email: string)
    ensures Json.AllPrintable(Payload(table, uploadDate, columns, username, email))
    ensures forall i :: 0 <= i < |Payload(table, uploadDate, columns, username, email)| ==>
      Payload(table, uploadDate, columns, username, email)[i] != '\n'
  {
    Json.ObjectPrintable(PayloadMembers(table, uploadDate, columns, username, email), Json.Compact);
  }

  /** No space follows a `,` or `:`: a space in the payload comes from a field. */
  lemma PayloadIsCompact(table: string, uploadDate: string, columns: Option<string>, username: string, email: string)
    requires Json.NoSpace(table) && Json.NoSpace(uploadDate) && Json.NoSpace(username) && Json.NoSpace(email)
    requires columns.Some? ==> Json.NoSpace(columns.value)
    ensures Json.NoSpace(Payload(table, uploadDate, columns, username, email))
  {
    var m := PayloadMembers(table, uploadDate, columns, username, email);
    assert Json.MembersHaveNoSpace(m) by {
      assert Json.NoSpace("table") && Json.NoSpace("upload_date") && Json.NoSpace("columns");
      assert Json.NoSpace("user") && Json.NoSpace("user_email");
    }
    Json.CompactObjectNoSpace(m);
  }

  /** `Procedure.run(file, *args)`: build the payload, look the language up in
      `LANGUAGE_INTERPRETER` (built from `plugins`) and call that class's `run`
      as `run(self, payload, *args)`. The result records what the call did; the
      Python method itself returns `None`. `lines` is what the child process
      writes, when one is started. */
  method Run(proc: Procedure, file: File, args: seq<string>, plugins: seq<Interpreter.ClassInfo>, lines: seq<string>)
    returns (r: Result<Interpreters.Invocation, Exception>)
    ensures Interpreter.PyStr(proc.language) !in Plugins.LanguageInterpreter(plugins) ==>
      r == Failure(KeyError(proc.language))
    ensures Interpreter.PyStr(proc.language) in Plugins.LanguageInterpreter(plugins) ==>
      var impl := Plugins.LanguageInterpreter(plugins)[Interpreter.PyStr(proc.language)].run;
      var argv := [FilePayload(file)] + args;
      (impl == Interpreter.BaseRun ==> r == Failure(Interpreter.BaseRunCall("Procedure"))) &&
      (impl == Interpreter.BashRun ==> r == Success(Interpreters.NoEffect)) &&
      (impl == Interpreter.PythonRun ==>
        r.Success? && r.value.Spawned? && r.value.argv == Interpreters.PythonCommand(proc.procedure, argv)) &&
      (impl == Interpreter.OracleRun ==>
        r.Success? && r.value.Spawned? && r.value.argv == Interpreters.OracleCommand(proc.procedure, argv))
    ensures r.Success? && r.value.Spawned? ==>
      |r.value.output| <= |lines| && r.value.output == lines[..|r.value.output|]
  {
    var payload := FilePayload(file);
    var table := Plugins.LanguageInterpreter(plugins);
    var key := Interpreter.PyStr(proc.language);
    if key !in table {
      return Failure(KeyError(proc.language));
    }
    r := Interpreters.Call(table[key].run, "Procedure", proc.procedure, [payload] + args, lines);
  }
}
