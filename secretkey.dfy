/** The secret-key setup shared by `setup.py` and the `setup` management
    command: a key drawn from a restricted character set, or one supplied by
    the user, substituted for the placeholder line of the settings template.
    The random source is given as the sequence of indices it picks; the two
    files are given and returned as text. */
module SecretKey {
  import opened Wrappers
  import opened Text

  /** `string.ascii_letters`, `string.digits` and `string.punctuation`. */
  const AsciiLowercase := "abcdefghijklmnopqrstuvwxyz"
  const AsciiUppercase := "ABCDEFGHIJKLMNOPQRSTUVWXYZ"
  const AsciiLetters := AsciiLowercase + AsciiUppercase
  const Digits := "0123456789"
  const Punctuation := "!\"#$%&'()*+,-./:;<=>?@[\\]^_`{|}~"

  /** The three joined, then `'`, `"` and `\` removed one after the other. */
  function Restricted(pool: string): string {
    Replace(Replace(Replace(pool, "'", ""), "\"", ""), "\\", "")
  }

  /** The restriction removes the three characters and keeps every other one. */
  lemma RestrictedMembers(pool: string)
    ensures forall x :: x in Restricted(pool) <==> x in pool && x != '\'' && x != '"' && x != '\\'
  {
    RemoveCharacter(pool, '\'');
    RemoveCharacter(Replace(pool, "'", ""), '"');
    RemoveCharacter(Replace(Replace(pool, "'", ""), "\"", ""), '\\');
  }

  const KeyChars := Restricted(AsciiLetters + Digits + Punctuation)

  /** Every character is printable ASCII other than the space. */
  predicate Graphic(s: string) {
    forall i :: 0 <= i < |s| ==> '!' <= s[i] <= '~'
  }

  lemma GraphicConcat(a: string, b: string)
    requires Graphic(a) && Graphic(b)
    ensures Graphic(a + b)
  {
    forall i | 0 <= i < |a + b| ensures '!' <= (a + b)[i] <= '~' {
      if i >= |a| { assert (a + b)[i] == b[i - |a|]; }
    }
  }

  lemma LowercaseGraphic() ensures Graphic(AsciiLowercase) { }
  lemma UppercaseGraphic() ensures Graphic(AsciiUppercase) { }
  lemma DigitsGraphic() ensures Graphic(Digits) { }
  lemma PunctuationGraphic() ensures Graphic(Punctuation) { }

  lemma PoolGraphic()
    ensures Graphic(AsciiLetters + Digits + Punctuation)
  {
    LowercaseGraphic();
    UppercaseGraphic();
    DigitsGraphic();
    PunctuationGraphic();
    GraphicConcat(AsciiLowercase, AsciiUppercase);
    GraphicConcat(AsciiLetters, Digits);
    GraphicConcat(AsciiLetters + Digits, Punctuation);
  }

  /** A key character is a letter, a digit or punctuation, and never a quote,
      a backslash or a line break. */
  lemma KeyCharsMembers(x: char)
    ensures x in KeyChars <==> x in AsciiLetters + Digits + Punctuation && x != '\'' && x != '"' && x != '\\'
    ensures x in KeyChars ==> x != '\n' && x != '\r'
  {
    var pool := AsciiLetters + Digits + Punctuation;
    RestrictedMembers(pool);
    if x in KeyChars {
      PoolGraphic();
      var i :| 0 <= i < |pool| && pool[i] == x;
    }
  }

  /** `''.join(choice(chars) for _ in range(...))`, each choice given by its index. */
  function Pick(chars: string, draws: seq<nat>): (r: string)
    requires forall i :: 0 <= i < |draws| ==> draws[i] < |chars|
    ensures |r| == |draws| && forall i :: 0 <= i < |draws| ==> r[i] == chars[draws[i]]
  {
    if draws == [] then "" else [chars[draws[0]]] + Pick(chars, draws[1..])
  }

  /** Python truthiness of the optional key: `None`, `False` and `''` are false. */
  predicate Supplied(pk: Option<string>) { pk.Some? && pk.value != "" }

  /** `make_key(pk)`: a supplied key verbatim, otherwise fifty characters drawn
      from `KeyChars`. */
  function MakeKey(pk: Option<string>, draws: seq<nat>): (key: string)
    requires |draws| == 50 && forall i :: 0 <= i < |draws| ==> draws[i] < |KeyChars|
    ensures Supplied(pk) ==> key == pk.value
    ensures !Supplied(pk) ==> |key| == 50 && forall i :: 0 <= i < 50 ==> key[i] == KeyChars[draws[i]]
  {
    if Supplied(pk) then pk.value else Pick(KeyChars, draws)
  }

  /** The text is a Python single-quoted string literal with no escapes in it. */
  predicate PlainSingleQuoted(s: string) {
    |s| >= 2 && s[0] == '\'' && s[|s| - 1] == '\'' &&
    forall i :: 0 < i < |s| - 1 ==> s[i] != '\'' && s[i] != '\\' && s[i] != '\n' && s[i] != '\r'
  }

  /** A generated key never holds a quote or a backslash, so quoting it gives a
      well-formed literal that denotes the key itself. */
  lemma GeneratedKeyQuotes(pk: Option<string>, draws: seq<nat>)
    requires |draws| == 50 && forall i :: 0 <= i < |draws| ==> draws[i] < |KeyChars|
    requires !Supplied(pk)
    ensures PlainSingleQuoted("'" + MakeKey(pk, draws) + "'")
  {
    var key := MakeKey(pk, draws);
    var s := "'" + key + "'";
    forall i | 0 < i < |s| - 1 ensures s[i] != '\'' && s[i] != '\\' && s[i] != '\n' && s[i] != '\r' {
      assert s[i] == key[i - 1] == KeyChars[draws[i - 1]];
      KeyCharsMembers(s[i]);
    }
  }

  /** A supplied key is not filtered: one with a quote in it breaks the literal. */
  lemma SuppliedKeyWithQuote(draws: seq<nat>)
    requires |draws| == 50 && forall i :: 0 <= i < |draws| ==> draws[i] < |KeyChars|
    ensures MakeKey(Some("a'b"), draws) == "a'b"
    ensures !PlainSingleQuoted("'" + MakeKey(Some("a'b"), draws) + "'")
  {
    assert ("'" + "a'b" + "'")[2] == '\'';
  }

  const Placeholder := "SECRET_KEY = 'Enter your secret key here'"

  /** The settings line for a key: `"SECRET_KEY = '{}'".format(key)`. */
  function KeyLine(key: string): string {
    "SECRET_KEY = '" + key + "'"
  }

  /** The settings text written out: the template with `replace` of the
      placeholder line by the key line. */
  function RewriteSettings(template: string, key: string): string {
    Replace(template, Placeholder, KeyLine(key))
  }

  /** A template without the placeholder is copied unchanged. */
  lemma RewriteWithoutPlaceholder(template: string, key: string)
    requires forall i :: !OccursAt(template, Placeholder, i)
    ensures RewriteSettings(template, key) == template
  {
    ReplaceAbsent(template, Placeholder, KeyLine(key));
  }

  /** The placeholder is replaced where it first occurs, and the rest of the
      template after it is rewritten in the same way. */
  lemma RewriteFirstPlaceholder(pre: string, post: string, key: string)
    requires NoneBefore(pre + Placeholder + post, Placeholder, |pre|)
    ensures RewriteSettings(pre + Placeholder + post, key) == pre + KeyLine(key) + RewriteSettings(post, key)
  {
    ReplaceLeftmost(pre, Placeholder, post, KeyLine(key));
  }

  /** The usual template, with the placeholder line once, gets the key line in
      its place and nothing else changes. */
  lemma RewriteSinglePlaceholder(pre: string, post: string, key: string)
    requires forall i :: OccursAt(pre + Placeholder + post, Placeholder, i) ==> i == |pre|
    ensures RewriteSettings(pre + Placeholder + post, key) == pre + KeyLine(key) + post
  {
    ReplaceOnlyOccurrence(pre, Placeholder, post, KeyLine(key));
  }
}
