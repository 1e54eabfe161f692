/** `loader/views.py`: the preview `view_file` builds for an uploaded file, the
    access checks of the two update views, and where `login_to_app` redirects.
    Templates, rendering and the database are out of the model: the file comes
    in as the rows `csv.reader` yields, the special columns in the order the
    query returns them, and looked-up records as the lookup's result. */
module Views {
  import opened Wrappers
  import opened Errors
  import opened Text
  import Models

  // ----- view_file -----

  /** One `<option>` for a special column, without its line feed. */
  function OptionText(c: Models.Column): string {
    "<option value=\"" + NatToDecimal(c.pk) + "\">" + c.name + "</option>"
  }

  /** What the loop over the special columns adds for one column. */
  function OptionLine(c: Models.Column): string {
    OptionText(c) + "\n"
  }

  /** `choices`: the options of all special columns, one after another. */
  function Choices(cols: seq<Models.Column>): string {
    if cols == [] then "" else OptionLine(cols[0]) + Choices(cols[1..])
  }

  lemma {:induction false} ChoicesSnoc(cols: seq<Models.Column>, c: Models.Column)
    ensures Choices(cols + [c]) == Choices(cols) + OptionLine(c)
    decreases |cols|
  {
    if cols == [] {
      assert cols + [c] == [c] && [c][1..] == [];
    } else {
      assert (cols + [c])[0] == cols[0] && (cols + [c])[1..] == cols[1..] + [c];
      ChoicesSnoc(cols[1..], c);
      assert OptionLine(cols[0]) + (Choices(cols[1..]) + OptionLine(c))
        == (OptionLine(cols[0]) + Choices(cols[1..])) + OptionLine(c);
    }
  }

  function OptionTexts(cols: seq<Models.Column>): (r: seq<string>)
    ensures |r| == |cols| && forall i :: 0 <= i < |cols| ==> r[i] == OptionText(cols[i])
  {
    if cols == [] then [] else [OptionText(cols[0])] + OptionTexts(cols[1..])
  }

  predicate NamesOnOneLine(cols: seq<Models.Column>) {
    forall i :: 0 <= i < |cols| ==> '\n' !in cols[i].name
  }

  lemma OptionTextOnOneLine(c: Models.Column)
    requires '\n' !in c.name
    ensures '\n' !in OptionText(c)
  {
    var digits := NatToDecimal(c.pk);
    assert '\n' !in digits by {
      assert forall i :: 0 <= i < |digits| ==> IsDigit(digits[i]);
    }
  }

  /** With names free of line feeds, `choices` is exactly one line per special
      column, in order, each the option for that column. */
  lemma {:induction false} ChoicesLines(cols: seq<Models.Column>)
    requires NamesOnOneLine(cols)
    ensures Lines(Choices(cols)) == OptionTexts(cols)
    decreases |cols|
  {
    if cols != [] {
      OptionTextOnOneLine(cols[0]);
      assert NamesOnOneLine(cols[1..]) by {
        forall i | 0 <= i < |cols[1..]| ensures '\n' !in cols[1..][i].name {
          assert cols[1..][i] == cols[i + 1];
        }
      }
      ChoicesLines(cols[1..]);
      LinesCons(OptionText(cols[0]), Choices(cols[1..]));
      assert OptionLine(cols[0]) + Choices(cols[1..]) == OptionText(cols[0]) + "\n" + Choices(cols[1..]);
    }
  }

  const SelectHead := "\n<select class=\"form-control\" name=\"col_select_"
  const SelectMiddle := "\">\n    <option value selected disabled>Special Column</option>\n    <option value=\"None\">None</option>\n    "
  const SelectTail := "\n</select>"

  /** `template_choice.format(col_name=name, choices=choices)`. */
  function Selector(colName: string, choices: string): (r: string)
    ensures StartsWith(r, SelectHead) && OccursAt(r, colName, |SelectHead|)
    ensures OccursAt(r, SelectMiddle, |SelectHead| + |colName|)
    ensures OccursAt(r, choices, |SelectHead| + |colName| + |SelectMiddle|)
    ensures EndsWith(r, SelectTail)
  {
    SelectHead + colName + SelectMiddle + choices + SelectTail
  }

  /** What `view_file` hands to its template. */
  datatype Preview = Preview(header: Option<seq<string>>, data: seq<seq<string>>, columnChoice: seq<string>, choices: string)

  function Min(a: int, b: int): int { if a < b then a else b }

  /** The loop over the special columns that builds `choices`. */
  method BuildChoices(specialColumns: seq<Models.Column>) returns (choices: string)
    ensures choices == Choices(specialColumns)
  {
    choices := "";
    for i := 0 to |specialColumns|
      invariant choices == Choices(specialColumns[..i])
    {
      ChoicesSnoc(specialColumns[..i], specialColumns[i]);
      assert specialColumns[..i + 1] == specialColumns[..i] + [specialColumns[i]];
      choices := choices + OptionLine(specialColumns[i]);
    }
    assert specialColumns[..|specialColumns|] == specialColumns;
  }

  /** The loop over `range(no_cols)`: a selector per column when there is a
      non-empty header, nothing otherwise. */
  method SelectorRow(header: Option<seq<string>>, noCols: nat, choices: string) returns (row: seq<string>)
    requires header.Some? ==> noCols == |header.value|
    ensures header.Some? && header.value != [] ==>
      |row| == |header.value| && forall j :: 0 <= j < |row| ==> row[j] == Selector(header.value[j], choices)
    ensures !(header.Some? && header.value != []) ==> row == []
  {
    row := [];
    for idx := 0 to noCols
      invariant header.Some? && header.value != [] ==>
        |row| == idx && forall j :: 0 <= j < idx ==> row[j] == Selector(header.value[j], choices)
      invariant !(header.Some? && header.value != []) ==> row == []
    {
      if header.Some? && header.value != [] {
        row := row + [Selector(header.value[idx], choices)];
      }
    }
  }

  /** The loop `for row in reader`, resumed at row `next` with the rows from
      `start` already held: it stops when ten are held or the rows run out. */
  method ReadRows(rows: seq<seq<string>>, start: nat, next: nat) returns (data: seq<seq<string>>)
    requires start <= next <= |rows| && next - start < 10
    ensures data == rows[start..Min(|rows|, start + 10)]
  {
    data := rows[start..next];
    var n := next;
    var rowNum := next - start;
    while n < |rows|
      invariant start <= n <= |rows| && data == rows[start..n] && rowNum == n - start && rowNum < 10
      decreases |rows| - n
    {
      data := data + [rows[n]];
      n := n + 1;
      rowNum := rowNum + 1;
      if rowNum >= 10 {
        break;
      }
    }
    assert n == Min(|rows|, start + 10);
  }

  /** What Django's `FieldFile.file` raises for a record whose file field is empty. */
  const NoFileMessage := "The 'data' attribute has no file associated with it."

  /** `view_file`: look the record up, open its file, read the header (or the
      first data row), build the options and one selector per header field,
      then read data rows until ten are held. `record` is what
      `File.objects.get(pk=pk)` found and `rows` what `csv.reader` yields for
      its file. A missing record raises `DoesNotExist`, a record without a file
      `ValueError`, and reading past the end of an empty file `StopIteration`. */
  method ViewFile(record: Option<Models.File>, rows: seq<seq<string>>, specialColumns: seq<Models.Column>)
    returns (r: Result<Preview, Exception>)
    ensures record.None? <==> r == Failure(DoesNotExist("File"))
    ensures record.Some? && record.value.data == "" <==> r == Failure(ValueError(NoFileMessage))
    ensures record.Some? && record.value.data != "" ==> (rows == [] <==> r == Failure(StopIteration))
    ensures r.Success? ==> |r.value.data| <= 10 && r.value.choices == Choices(specialColumns)
    ensures r.Success? && record.value.hasHeader ==>
      r.value.header == Some(rows[0]) && r.value.data == rows[1..Min(|rows|, 11)]
    ensures r.Success? && !record.value.hasHeader ==>
      r.value.header == None && r.value.data == rows[..Min(|rows|, 10)]
    ensures r.Success? && record.value.hasHeader && rows[0] != [] ==>
      |r.value.columnChoice| == |rows[0]| &&
      forall i :: 0 <= i < |rows[0]| ==> r.value.columnChoice[i] == Selector(rows[0][i], Choices(specialColumns))
    ensures r.Success? && (!record.value.hasHeader || rows[0] == []) ==> r.value.columnChoice == []
  {
    if record.None? {
      return Failure(DoesNotExist("File"));
    }
    var file := record.value;
    if file.data == "" {
      return Failure(ValueError(NoFileMessage));
    }
    if rows == [] {
      return Failure(StopIteration);
    }
    var header: Option<seq<string>>;
    var noCols: nat;
    var start: nat;
    if file.hasHeader {
      header := Some(rows[0]);
      noCols := |rows[0]|;
      start := 1;
    } else {
      header := None;
      noCols := |rows[0]|;
      start := 0;
    }
    var choices := BuildChoices(specialColumns);
    var columnChoiceRow := SelectorRow(header, noCols, choices);
    var data := ReadRows(rows, start, 1);
    assert start == 0 ==> rows[0..Min(|rows|, 10)] == rows[..Min(|rows|, 10)];
    r := Success(Preview(header, data, columnChoiceRow, choices));
  }

  // ----- access checks -----

  /** What a `get` of an update view returns: the form, or an `Http404` object
      (returned, not raised) with its message. */
  datatype Response = ServeForm | NotFound(message: string)

  /** `UserUpdate.get`: only the user themself may edit their record.
      `target` is what `User.objects.get(pk=...)` found. */
  function UserUpdateGet(requester: Models.User, target: Option<Models.User>): (r: Result<Response, Exception>)
    ensures target.None? <==> r == Failure(DoesNotExist("User"))
    ensures r == Success(ServeForm) <==> target.Some? && requester.pk == target.value.pk
    ensures target.Some? && requester.pk != target.value.pk ==>
      r == Success(NotFound("Sorry you cannot access this user."))
  {
    match target
    case None => Failure(DoesNotExist("User"))
    case Some(user) =>
      if requester.pk == user.pk then Success(ServeForm) else Success(NotFound("Sorry you cannot access this user."))
  }

  /** `FeedUpdate.get`: only a user of the feed may edit it. */
  function FeedUpdateGet(requester: Models.User, target: Option<Models.Feed>): (r: Result<Response, Exception>)
    ensures target.None? <==> r == Failure(DoesNotExist("Feed"))
    ensures r == Success(ServeForm) <==> target.Some? && Models.FeedHasUser(target.value, requester)
    ensures target.Some? && !Models.FeedHasUser(target.value, requester) ==>
      r == Success(NotFound("Sorry you cannot access this feed."))
  {
    match target
    case None => Failure(DoesNotExist("Feed"))
    case Some(feed) =>
      if Models.FeedHasUser(feed, requester) then Success(ServeForm) else Success(NotFound("Sorry you cannot access this feed."))
  }

  // ----- login_to_app -----

  /** Where `login_to_app` sends the browser, and whether it logged the user in. */
  datatype LoginOutcome = LoginOutcome(redirectTo: string, loggedIn: bool)

  const UserHome := "loader:user_home"
  const LoginView := "django.contrib.auth.views.login"

  /** `login_to_app`, with what `authenticate` returned given. `next` is the
      submitted `next` field (`None` when absent). */
  function LoginToApp(isPost: bool, authenticated: Option<Models.User>, next: Option<string>): (r: LoginOutcome)
    ensures r.loggedIn <==> isPost && authenticated.Some? && authenticated.value.isActive
    ensures !r.loggedIn ==> r.redirectTo == LoginView
    ensures r.loggedIn && next.Some? && next.value != "" ==> r.redirectTo == next.value
    ensures r.loggedIn && (next.None? || next.value == "") ==> r.redirectTo == UserHome
  {
    if isPost && authenticated.Some? && authenticated.value.isActive then
      if next.Some? && next.value != "" then LoginOutcome(next.value, true)
      else LoginOutcome(UserHome, true)
    else LoginOutcome(LoginView, false)
  }
}
