# lnlfp loader, modelled in Dafny

`loader` is the Django application of the lnlfp project. It has four parts:

- Uploads: users upload delimited data files into *feeds*. Each file is stored under `uploads/<feed>/<date>/<name>`. A feed is a named group with an authorised user list.
- Preview: the application sniffs a file's CSV dialect, and `view_file` shows the header and the first ten rows, with a column selector per header field.
- Procedures: users register *procedures*, which are scripts in one of the plugin languages, stored under `procedures/<language>/<name>`. `Procedure.run` hands a file's details, as a compact JSON payload, to the script of the language's plugin.
- Plugins and setup: plugins are discovered at import time from the `loader/plugins` package. Two setup scripts write a settings file with a generated `SECRET_KEY`.

The model keeps the code's own branches, error conditions and constants:

- **wrappers.dfy, errors.dfy**: `Option` and `Result`, and the Python exceptions the code raises or lets escape.
- **text.dfy**: the `str` methods the code uses: `startswith`, `endswith` and `replace` (a left-to-right scan), plus decimal digits and line splitting.
- **posixpath.dfy**: `os.path.join`, and the tail of `os.path.split`.
- **json.dfy**: the JSON subset the application writes and reads back. It covers arrays of strings and flat objects of strings or `null`, as Python's `json.dumps` (with `ensure_ascii`) writes them and `json.loads` reads them, in the default and the compact separator styles.
- **interpreterbase.dfy** (module `Interpreter`): classes as values, with their method resolution order and attributes. It has the registered base `loader.plugins._interpreter.Interpreter`, and the look-alike base in `interpreter.py`, which is a different class.
- **interpreters.dfy**: the Python, Oracle and Bash plugins. It builds their command lines and reads their output until the first empty read.
- **plugins.dfy**: plugin discovery. This is the glob of `*.py`, the `is_valid_plugin` filter, the imports and the loop that collects every strict subclass of the base. It also builds the `LANGUAGE_EXTENSIONS` and `LANGUAGE_INTERPRETER` tables, in which the last plugin of a language wins. The repository's own plugin directory is worked through to the registered plugins Bash, Oracle and Python.
- **models.dfy**: the upload paths, and the `File` record as a class with its column, dialect and header fields. It also has `Procedure`, its string form, the JSON payload of `run` and the dispatch to the plugin.
- **forms.dfy**: the `clean` methods of the file, procedure and login forms.
- **views.dfy**: `login_to_app`, the access checks of the user and feed update views, the option and selector markup, and the row-reading loop of `view_file`.
- **secretkey.dfy**: `make_key`, and the rewrite of the settings template shared by `setup.py` and the `setup` management command.

Inputs that the code takes from outside become parameters:

- the directory listing and its order;
- the plugin modules' namespaces;
- the clock's date and `isoformat` text;
- the random draws;
- the lines a file or a subprocess yields;
- the `csv.Sniffer` verdicts;
- what `authenticate` returns;
- the objects the ORM looks up.

## Model

| member | source | states |
|---|---|---|
| Text.ReplaceLeftmost | setup.py:16-17 | `replace` puts the replacement at the leftmost occurrence and carries on scanning after it |
| Text.ReplaceAbsent | setup.py:16-17 | text that does not contain the pattern comes back from `replace` unchanged |
| Text.ReplaceOnlyOccurrence | setup.py:16-17 | when the pattern occurs exactly once, `replace` swaps that one occurrence and keeps the text around it |
| Text.RemoveCharacter | setup.py:30 | replacing a character by `''` keeps exactly the other characters |
| Text.FixedDigitsRoundTrip | loader/models.py:24 | a zero-padded field of `w` digits reads back as the number it was written from |
| Text.NatToDecimalRoundTrip | loader/views.py:235 | the decimal text written for a primary key reads back as that key |
| Text.LinesCons | loader/views.py:235 | a line-feed-terminated line without a line feed splits off as the first line |
| PosixPath.JoinStep | loader/models.py:22-25 | an absolute component replaces the path built so far; otherwise one `/` goes in, unless the path is empty or already ends in `/` |
| PosixPath.JoinPlain | loader/models.py:22-25 | with relative, non-empty components that do not end in `/`, `join` puts exactly one `/` between the parts |
| PosixPath.JoinAbsolute | loader/models.py:22-25 | an absolute component makes `join` drop everything before it |
| PosixPath.Basename | loader/models.py:226 | the tail of `split` has no `/`, ends the path, and follows a `/` when it is shorter than the path |
| PosixPath.BasenameOfJoin | loader/models.py:226 | the basename of a joined path is its last component, when that component has no `/` |
| Json.EncodeStringArray | loader/models.py:145 | the text `json.dumps` gives a list of strings starts with `[` and ends with `]` |
| Json.StringRoundTrip | loader/models.py:133 | reading an escaped string back gives the string and leaves the rest of the text alone |
| Json.StringArrayRoundTrip | loader/models.py:133 | `json.loads(json.dumps(lst)) == lst` for every list of strings, in both separator styles |
| Json.StringArrayPrintable | loader/models.py:145 | the encoded column list is printable ASCII |
| Json.ObjectRoundTrip | loader/models.py:273 | decoding an encoded object gives its members back, in order |
| Json.ObjectPrintable | loader/models.py:273 | an encoded object is printable ASCII, with no line feed or carriage return |
| Json.CompactObjectNoSpace | loader/models.py:273 | in the compact style, an object whose keys and values have no spaces encodes without a space |
| Interpreter.Instantiate | loader/plugins/_interpreter.py:11-13 | `__init__` succeeds iff both `LANGUAGE` and `EXTENSION` are non-empty strings; otherwise it raises `NotImplementedError` with the class's name |
| Interpreter.BaseRunCall | loader/plugins/_interpreter.py:15-24 | the inherited `run` raises `NotImplementedError` with a message that names the class of `self` |
| Interpreter.MessagesNameTheClass | loader/plugins/_interpreter.py:13 | both messages carry the class name right after `Class ` |
| Interpreter.BasesCannotBeInstantiated | loader/plugins/interpreter.py:7-9 | neither base class can be instantiated, because both lack the required properties |
| Interpreter.LookAlikeIsUnrelated | loader/plugins/interpreter.py:1-5 | the look-alike base and the registered base are not subclasses of each other |
| Interpreters.PluginsAreInterpreters | loader/plugins/python_interpreter.py:6-11 | the Python, Oracle and Bash plugins subclass the registered base and can be instantiated |
| Interpreters.PythonCommand | loader/plugins/python_interpreter.py:23 | the command line is `python`, then the procedure path, then the arguments |
| Interpreters.OracleCommand | loader/plugins/oracle_interpreter.py:23 | the command line is `sqlplus inbound/*@s1 @<path>`, then the arguments |
| Interpreters.ReadUntilEmpty | loader/plugins/oracle_interpreter.py:27-35 | the output is the longest prefix of the process's reads that has no empty read |
| Interpreters.Call | loader/plugins/bash_interpreter.py:10-11 | per implementation: the base raises, Bash does nothing, Python and Oracle spawn their command and collect the output up to the first empty read |
| Plugins.DropLast3 | loader/plugins/__init__.py:24 | `name[:-3]` drops the last three characters, or gives `''` for a shorter name |
| Plugins.ImportAll | loader/plugins/__init__.py:24 | on success there is one namespace per name; a failure names a module that is missing |
| Plugins.ImportAllSucceeds | loader/plugins/__init__.py:24 | the imports succeed iff every module name is importable |
| Plugins.ImportAllInOrder | loader/plugins/__init__.py:24 | the i-th imported namespace is the namespace of the i-th name |
| Plugins.CollectPlugins | loader/plugins/__init__.py:26-31 | the nested loop collects `Registered(packages)`: each namespace's plugin classes, package after package |
| Plugins.PluginsOfMembers | loader/plugins/__init__.py:29-31 | a class is collected from a namespace iff that namespace holds it and it passes the strict-subclass test |
| Plugins.RegisteredAreStrictSubclasses | loader/plugins/__init__.py:30 | every registered plugin subclasses the base and is not the base |
| Plugins.Discover | loader/plugins/__init__.py:21-31 | discovery fails with the first missing import, or gives the classes registered from the imported namespaces |
| Plugins.CandidatesByName | loader/plugins/__init__.py:9-21 | for entry names without `/`, the candidates are the directory joined with each kept name, in listing order |
| Plugins.KeptPluginEntries | loader/plugins/__init__.py:16-21 | regular files `<stem>.py` whose stems do not start with `_` or `.` are all kept, in order |
| Plugins.ModuleNamesOfStems | loader/plugins/__init__.py:24 | files `<dir>/<stem>.py` import as the modules `<stem>` |
| Plugins.ImportAllOf | loader/plugins/__init__.py:24 | when every name is a module, importing them all gives their namespaces in the order of the names |
| Plugins.StemsImport | loader/plugins/__init__.py:24 | the four plugin stems all import, giving the package's four namespaces |
| Plugins.PluginModule | loader/plugins/__init__.py:28-31 | a module that imports the base and defines one subclass of it contributes exactly that subclass |
| Plugins.RepositoryCandidates | loader/plugins/__init__.py:21 | of the package's directory, `__init__.py` and `_interpreter.py` are dropped; the four other files are kept |
| Plugins.RepositoryModuleNames | loader/plugins/__init__.py:24 | the package imports `bash_interpreter`, `interpreter`, `oracle_interpreter` and `python_interpreter`, in that order |
| Plugins.RepositoryImports | loader/plugins/__init__.py:24 | every import of the package succeeds, giving its four namespaces in order |
| Plugins.LookAlikeNamespacePlugins | loader/plugins/interpreter.py:1-12 | the module with the look-alike base adds no plugin |
| Plugins.RepositoryPlugins | loader/plugins/__init__.py:26-31 | `PLUGINS` is Bash, Oracle, Python, in that order; the base imported into each plugin module is not collected, and neither is the look-alike |
| Plugins.RepositoryDiscovery | loader/plugins/__init__.py:21-31 | discovery over the package's own directory succeeds and registers Bash, Oracle and Python |
| Plugins.LastWinsKeys | loader/models.py:240-242 | a dict comprehension's keys are exactly the keys it was given |
| Plugins.LastWinsValue | loader/models.py:240-242 | a key maps to the value of its last occurrence |
| Plugins.TablesHaveThePluginLanguages | loader/models.py:240-242 | both language tables hold exactly the languages of the plugins |
| Plugins.LastPluginWins | loader/models.py:240-242 | when several plugins share a language, both tables keep the last one's extension and class |
| Plugins.RepositoryTables | loader/models.py:240-242 | the tables are `Bash→.sh`, `oracle→.sql` and `Python→.py`, and each language maps to its own plugin class |
| Models.FormatDate | loader/models.py:24 | `%Y-%m-%d` is ten characters: digits, with `-` at positions 4 and 7 |
| Models.DateRoundTrip | loader/models.py:24 | the date folder's name determines the date |
| Models.DateIsPlain | loader/models.py:24 | the date folder's name is one path component without `/` |
| Models.FeedDirectoryPathShape | loader/models.py:12-25 | for plain names, the upload path is `uploads/<feed>/<date>/<filename>` |
| Models.FeedDirectoryPathAbsolute | loader/models.py:22-25 | an absolute file name becomes the whole upload path |
| Models.ProcDirectoryPathShape | loader/models.py:28-40 | for plain names, the procedure path is `procedures/<language>/<filename>` |
| Models.UploadedFileName | loader/models.py:22-25 | the stored upload path ends with the uploaded file name |
| Models.ProcedureFileName | loader/models.py:38-40 | the stored procedure path ends with the procedure's file name |
| Models.File.constructor | loader/models.py:110-124 | a new record has no columns, delimiter `,`, terminator `\n` and a header |
| Models.File.GetColumns | loader/models.py:126-135 | empty or missing columns give `[]`; stored text goes through `json.loads` |
| Models.File.SetColumns | loader/models.py:138-145 | the columns field becomes `json.dumps(lst)`, the other fields stay, and `get_columns` then returns `lst` |
| Models.File.GetFirstLines | loader/models.py:147-157 | asking for more lines than the file has raises `StopIteration`; otherwise the first `num` lines come back |
| Models.File.GetTableInfo | loader/models.py:159-169 | a file with fewer than ten lines, or an unsniffable one, changes nothing; otherwise the delimiter and terminator are set, then the header verdict |
| Models.File.ToString | loader/models.py:220-226 | the string form is the file name: the part of the stored path after its last `/` |
| Models.ProcedureToString | loader/models.py:277-284 | the string form is the script name, then `\n\nDescription:\n`, then the comments |
| Models.ScriptNameIsFirstLine | loader/models.py:284 | for a script name without a line feed, the first line of the string form is the script name |
| Models.ProcedureToStringInjective | loader/models.py:284 | for script names without line feeds, two procedures have the same string form iff they have the same script name and comments |
| Models.PayloadMembers | loader/models.py:267-271 | the payload's keys are `table`, `upload_date`, `columns`, `user` and `user_email`, in that order; `columns` is `null` or the raw stored column text |
| Models.PayloadDecodes | loader/models.py:267-273 | the payload decodes back to its five members |
| Models.PayloadHasNoLineBreak | loader/models.py:273 | the payload is printable ASCII on one line |
| Models.PayloadIsCompact | loader/models.py:273 | the compact separators leave no space in the payload when its fields have none |
| Models.Run | loader/models.py:259-275 | an unknown language raises `KeyError`; otherwise the language's plugin runs with the payload first, then the extra arguments |
| Forms.FileForm.constructor | loader/forms.py:20-22 | the form keeps its user and its cleaned data |
| Forms.FileForm.Clean | loader/forms.py:24-48 | feed missing, feed not authorised, or no file each raise their own validation error, in that order; on success the user is added and the data returned |
| Forms.ExtensionCheck | loader/forms.py:74-75 | the lookups raise `KeyError` or `AttributeError` in evaluation order; the check passes iff the file name ends with the language's extension |
| Forms.ProcedureForm.constructor | loader/forms.py:59-62 | the form keeps its user and its cleaned data |
| Forms.ProcedureForm.Clean | loader/forms.py:64-81 | a failed extension check gives its error and adds no user; on success the user is added and the data returned |
| Forms.LoginClean | loader/forms.py:90-101 | the login is accepted iff an active user is authenticated, otherwise the invalid-login error is raised |
| Forms.CheckOfFile | loader/forms.py:74-75 | for an uploaded file and a language, an unknown language raises `KeyError(language)`; otherwise it passes or fails the suffix test |
| Forms.RepositoryExtensionChecks | loader/forms.py:74-75 | with the registered plugins, the test is case-sensitive (`a.PY` fails for Python), looks only at the suffix (`x.tar.py` passes), and an unknown language raises `KeyError` |
| Views.ChoicesSnoc | loader/views.py:233-235 | each special column appends its option line to `choices` |
| Views.ChoicesLines | loader/views.py:233-235 | `choices` splits into lines, one option per special column, in order |
| Views.OptionTextOnOneLine | loader/views.py:235 | the option of a column whose name has no line feed is one line |
| Views.Selector | loader/views.py:237-247 | a selector holds the column name after its head, then the fixed options, then the choices, and closes with `</select>` |
| Views.BuildChoices | loader/views.py:233-235 | the loop builds the whole `choices` text: one option line per special column, in order |
| Views.SelectorRow | loader/views.py:244-247 | with a non-empty header there is one selector per header field, naming that field; without a header the row is empty |
| Views.ReadRows | loader/views.py:249-253 | reading stops at the end of the file or once ten rows are held, so the data is the rows from the start row on, at most ten of them |
| Views.ViewFile | loader/views.py:207-261 | a missing record raises `DoesNotExist`, a record without a file `ValueError`, and an empty file `StopIteration`; otherwise the header (if any) and at most ten data rows come back, with one selector per header field |
| Views.UserUpdateGet | loader/views.py:118-128 | a missing user raises `DoesNotExist`; the form is served iff the requester is the user, and otherwise an `Http404` object is returned (`NotFound`) |
| Views.FeedUpdateGet | loader/views.py:154-164 | a missing feed raises `DoesNotExist`; the form is served iff the requester is one of the feed's users, and otherwise an `Http404` object is returned (`NotFound`) |
| Views.LoginToApp | loader/views.py:16-42 | the user is logged in iff the request is a POST with an active authenticated user; the redirect then goes to a non-empty `next` or home, and otherwise to the login view |
| SecretKey.RestrictedMembers | setup.py:30 | the character pool keeps every character except `'`, `"` and `\` |
| SecretKey.KeyCharsMembers | loader/management/commands/setup.py:53 | a key character is a letter, digit or punctuation other than `'`, `"` and `\`, and never a line break |
| SecretKey.Pick | setup.py:32 | one character is drawn from the pool per draw |
| SecretKey.MakeKey | setup.py:20-32 | a supplied non-empty key is returned as given; otherwise the key is fifty pool characters |
| SecretKey.GeneratedKeyQuotes | setup.py:16-17 | a generated key, quoted, is a plain single-quoted Python literal |
| SecretKey.SuppliedKeyWithQuote | loader/management/commands/setup.py:32-33 | a supplied key with a quote is written as given and breaks the quoted literal |
| SecretKey.RewriteWithoutPlaceholder | loader/management/commands/setup.py:31-33 | a template without the placeholder line is written unchanged |
| SecretKey.RewriteFirstPlaceholder | setup.py:15-17 | the first placeholder line is replaced by the key line, and the rest is rewritten the same way |
| SecretKey.RewriteSinglePlaceholder | setup.py:15-17 | a template with one placeholder line changes only in that line |

## Left out

- The ORM, the database and `File.open_cursor`. Objects that the ORM looks up are parameters, with `None` for a record that does not exist.
- The group and permission records made by the `setup` command are left out, because that is database work (management/commands/setup.py:35-40). So is `add_arguments`, which only declares the `--private-key` option.
- `File.get_dataframe`, `get_datatype_of_column` and `get_column_info` are left out. They call pandas, which the module never imports, and `get_column_info` uses names that are never defined.
- File contents are not modelled. `get_first_lines` and `view_file` take the lines or rows of the file as parameters.
- The CSV reader's parsing and `codecs` decoding are not modelled.
- `csv.Sniffer` is not modelled. Its `sniff` and `has_header` verdicts are parameters of `GetTableInfo`, as a dialect, an error or a boolean.
- Subprocesses are not modelled: starting them, their lifetime, exit codes and streaming. A plugin's reads are given as a sequence, and the output is the list collected before the first empty read. With `stdout=PIPE` each read is `bytes` (`b''` at end of file); the model treats the reads as text.
- The clock, `datetime.isoformat` and `random.SystemRandom` are parameters: a date, an ISO text and a sequence of draws.
- Reading the template and writing `lionel/settings.py` are left out. The model states the text written.
- Django's HTTP layer, templates, URL routing, admin, authentication backends and `LoginRequiredMixin` are left out. Views return values that stand for the response.
- `Feed.__str__` and `Column.__str__` are left out, because each only returns the name.
- `Procedure.LANGUAGE_CHOICES` is a generator expression, which is exhausted after one pass. The model does not track that state, because only the two dict tables are consumed.
- The `print` in `ProcedureForm.clean` (forms.py:79) is console output and is left out.
- The order of the directory listing behind `glob.glob` is not fixed by Python. `Plugins.Candidates` takes it as an input, and the repository lemmas use name order.
- Models.File.GetColumns: stored text outside the JSON subset is not modelled. That means numbers, nested values and lone surrogate escapes, which Python would decode to a lone surrogate character and Dafny strings cannot hold. Decoding it gives `OutsideSubset` or `LoneSurrogate` rather than a Python value.
- Models.FormatDate: the model zero-pads `%Y` to four digits; years below 1000, where platforms differ, never come from `datetime.now()`.
- Django compares model instances by primary key. Membership in `feed.users` is therefore `pk` equality (`Models.FeedHasUser`).
- Views.UserUpdateGet, Views.FeedUpdateGet: both views return the `Http404` exception object instead of raising it. It is not an `HttpResponse` (it has no `status_code`), so Django cannot send it and the request ends in a server error rather than a 404. The model states only that the object is returned (`NotFound`); what Django then does with it is not modelled.
- The tests in loader/tests.py are not modelled where they contradict the code. For example, they expect `columns` to be the comma-joined text, while `set_columns` stores `json.dumps(lst)`.
- Where the code and the design description differ, the model follows the code in these places:
  - Plugins are not validated or checked for duplicate languages when they are discovered. The last plugin of a language wins.
  - A plugin's output is collected whole, not streamed to the caller.
  - `run` does not re-check the procedure's extension.
  - The payload's `columns` is the raw stored text, not a decoded list.
  - The Oracle plugin calls `sqlplus`.
