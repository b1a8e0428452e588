/** The declarative request-body rules applied before the handlers run:
    folder, note, registration and login bodies. Each rule is a string field
    that may be required, may allow null or the empty string, and may carry a
    minimum or maximum length. A body is checked field by field in the order
    the schema lists them, then for keys the schema does not know; the first
    failure is the answer. */
module Validation {

  import opened Types

  /** A field of the decoded JSON body. */
  datatype Input = Absent | Null | Text(s: string) | NonString

  /** The decoded body, keys in the order they appear. */
  type Body = seq<(string, Input)>

  datatype Verdict = Accepted | Rejected(message: string)

  /** Custom messages; `None` falls back to the library's default wording. */
  datatype Messages = Messages(
    base: Option<string>,
    empty: Option<string>,
    min: Option<string>,
    max: Option<string>,
    required: Option<string>)

  datatype Rule = Rule(
    required: bool,
    allowNull: bool,
    allowEmpty: bool,
    min: Option<nat>,
    max: Option<nat>,
    messages: Messages)

  type Schema = seq<(string, Rule)>

  /** The value a key holds; the last occurrence wins, as when parsing JSON. */
  function Get(body: Body, key: string): (v: Input)
    ensures v != Absent ==> exists i :: 0 <= i < |body| && body[i] == (key, v)
    ensures (forall i :: 0 <= i < |body| ==> body[i].0 != key) ==> v == Absent
  {
    if body == [] then Absent
    else if body[|body| - 1].0 == key then body[|body| - 1].1
    else Get(body[..|body| - 1], key)
  }

  function DigitString(n: nat): (s: string)
    ensures |s| > 0
  {
    var d := ['0', '1', '2', '3', '4', '5', '6', '7', '8', '9'][n % 10];
    if n < 10 then [d] else DigitString(n / 10) + [d]
  }

  function Quoted(key: string): string
  {
    "\"" + key + "\""
  }

  function OrDefault(custom: Option<string>, default: string): string
  {
    match custom
    case Some(m) => m
    case None => default
  }

  /** The length the rules measure: UTF-16 code units, as in JavaScript,
      so a character outside the Basic Multilingual Plane counts twice. */
  function Utf16Length(s: string): (n: nat)
    ensures |s| <= n <= 2 * |s|
    ensures n == 0 <==> s == []
  {
    if s == [] then 0 else (if s[0] as int >= 0x1_0000 then 2 else 1) + Utf16Length(s[1..])
  }

  /** On text inside the Basic Multilingual Plane the measure is the number
      of characters. */
  lemma {:induction false} Utf16LengthBmp(s: string)
    requires forall i :: 0 <= i < |s| ==> (s[i] as int) < 0x1_0000
    ensures Utf16Length(s) == |s|
  {
    if s != [] {
      assert forall i :: 0 <= i < |s[1..]| ==> s[1..][i] == s[i + 1];
      Utf16LengthBmp(s[1..]);
    }
  }

  /** Text made only of characters outside that plane measures twice its
      number of characters. */
  lemma {:induction false} Utf16LengthAstral(s: string)
    requires forall i :: 0 <= i < |s| ==> (s[i] as int) >= 0x1_0000
    ensures Utf16Length(s) == 2 * |s|
  {
    if s != [] {
      assert forall i :: 0 <= i < |s[1..]| ==> s[1..][i] == s[i + 1];
      Utf16LengthAstral(s[1..]);
    }
  }

  /** The first failure of one field, or `None` when the field passes. */
  function CheckField(key: string, rule: Rule, v: Input): (err: Option<string>)
    ensures err.None? <==>
      match v
      case Absent => !rule.required
      case Null => rule.allowNull
      case NonString => false
      case Text(s) =>
        (s == [] && rule.allowEmpty) ||
        (s != [] && (rule.min.None? || Utf16Length(s) >= rule.min.value) && (rule.max.None? || Utf16Length(s) <= rule.max.value))
  {
    var m := rule.messages;
    match v
    case Absent =>
      if rule.required then Some(OrDefault(m.required, Quoted(key) + " is required")) else None
    case Null =>
      if rule.allowNull then None else Some(OrDefault(m.base, Quoted(key) + " must be a string"))
    case NonString => Some(OrDefault(m.base, Quoted(key) + " must be a string"))
    case Text(s) =>
      if s == [] then
        if rule.allowEmpty then None else Some(OrDefault(m.empty, Quoted(key) + " is not allowed to be empty"))
      else if rule.min.Some? && Utf16Length(s) < rule.min.value then
        Some(OrDefault(m.min, Quoted(key) + " length must be at least " + DigitString(rule.min.value) + " characters long"))
      else if rule.max.Some? && Utf16Length(s) > rule.max.value then
        Some(OrDefault(m.max, Quoted(key) + " length must be less than or equal to " + DigitString(rule.max.value) + " characters long"))
      else None
  }

  predicate Known(schema: Schema, key: string)
  {
    exists i :: 0 <= i < |schema| && schema[i].0 == key
  }

  /** The first field of `fields` (a suffix of the schema) that fails. */
  function FirstFieldError(fields: Schema, body: Body): (err: Option<string>)
    ensures err.None? <==>
      forall i :: 0 <= i < |fields| ==> CheckField(fields[i].0, fields[i].1, Get(body, fields[i].0)).None?
  {
    if fields == [] then None
    else
      var e := CheckField(fields[0].0, fields[0].1, Get(body, fields[0].0));
      if e.Some? then e
      else
        var rest := FirstFieldError(fields[1..], body);
        assert forall i :: 1 <= i < |fields| ==> fields[i] == fields[1..][i - 1];
        rest
  }

  /** With the library's `abortEarly`, the message reported is that of the
      first field, in schema order, that fails. */
  lemma {:induction false} FirstFieldErrorIsFirst(fields: Schema, body: Body)
    ensures
      var err := FirstFieldError(fields, body);
      err.Some? ==>
        exists i :: 0 <= i < |fields| && err == CheckField(fields[i].0, fields[i].1, Get(body, fields[i].0)) &&
          forall j :: 0 <= j < i ==> CheckField(fields[j].0, fields[j].1, Get(body, fields[j].0)).None?
  {
    if fields != [] && CheckField(fields[0].0, fields[0].1, Get(body, fields[0].0)).None? {
      FirstFieldErrorIsFirst(fields[1..], body);
      var err := FirstFieldError(fields, body);
      if err.Some? {
        var rest := fields[1..];
        var i :| 0 <= i < |rest| && err == CheckField(rest[i].0, rest[i].1, Get(body, rest[i].0)) &&
          forall j :: 0 <= j < i ==> CheckField(rest[j].0, rest[j].1, Get(body, rest[j].0)).None?;
        assert fields[i + 1] == rest[i];
        forall j | 0 <= j < i + 1
          ensures CheckField(fields[j].0, fields[j].1, Get(body, fields[j].0)).None?
        {
          if j > 0 {
            assert fields[j] == rest[j - 1];
          }
        }
      }
    }
  }

  /** The number a string of decimal digits spells. */
  function DecimalValue(k: string): int
  {
    if k == [] then 0 else 10 * DecimalValue(k[..|k| - 1]) + (k[|k| - 1] as int - '0' as int)
  }

  /** A key JavaScript treats as an array index: the canonical decimal form
      (no leading zero) of an integer from 0 to 2^32 - 2. `Object.keys`
      lists these keys first, in ascending numeric order, and every other
      key after them in the order it was first added. */
  predicate IsIndexKey(k: string)
  {
    && |k| > 0
    && AllDigits(k)
    && (k[0] != '0' || |k| == 1)
    && DecimalValue(k) < 0xFFFF_FFFF
  }

  predicate AllDigits(k: string)
  {
    k == [] || ('0' <= k[0] <= '9' && AllDigits(k[1..]))
  }

  lemma {:induction false} DigitStringLeads(n: nat)
    ensures n > 0 ==> DigitString(n)[0] != '0'
    ensures AllDigits(DigitString(n))
    ensures DecimalValue(DigitString(n)) == n
    decreases n
  {
    var s := DigitString(n);
    if n >= 10 {
      DigitStringLeads(n / 10);
      var p := DigitString(n / 10);
      assert s == p + [s[|s| - 1]];
      assert s[..|s| - 1] == p;
      AllDigitsAppend(p, s[|s| - 1]);
    }
  }

  lemma {:induction false} AllDigitsAppend(k: string, c: char)
    requires AllDigits(k) && '0' <= c <= '9'
    ensures AllDigits(k + [c])
  {
    if k != [] {
      assert (k + [c])[1..] == k[1..] + [c];
      AllDigitsAppend(k[1..], c);
    }
  }

  /** The decimal form of every index is an index key that spells it. */
  lemma DigitStringIsIndexKey(n: nat)
    requires n < 0xFFFF_FFFF
    ensures IsIndexKey(DigitString(n)) && DecimalValue(DigitString(n)) == n
  {
    DigitStringLeads(n);
  }

  /** Among the keys the schema does not list, the index key of least value. */
  function LeastUnknownIndex(schema: Schema, keys: Body): (k: Option<string>)
    ensures k.None? <==> forall i :: 0 <= i < |keys| ==> Known(schema, keys[i].0) || !IsIndexKey(keys[i].0)
  {
    if keys == [] then None
    else
      var rest := LeastUnknownIndex(schema, keys[1..]);
      assert forall i :: 1 <= i < |keys| ==> keys[i] == keys[1..][i - 1];
      var k := keys[0].0;
      if IsIndexKey(k) && !Known(schema, k) && (rest.None? || DecimalValue(k) <= DecimalValue(rest.value)) then Some(k)
      else rest
  }

  /** The index key found is an unknown key of the body, and no unknown
      index key of the body has a smaller value. */
  lemma {:induction false} LeastUnknownIndexIsLeast(schema: Schema, keys: Body)
    ensures
      var k := LeastUnknownIndex(schema, keys);
      k.Some? ==>
        && IsIndexKey(k.value) && !Known(schema, k.value)
        && (exists i :: 0 <= i < |keys| && keys[i].0 == k.value)
        && forall i :: 0 <= i < |keys| && !Known(schema, keys[i].0) && IsIndexKey(keys[i].0) ==>
             DecimalValue(k.value) <= DecimalValue(keys[i].0)
  {
    if keys != [] {
      LeastUnknownIndexIsLeast(schema, keys[1..]);
      assert forall i :: 1 <= i < |keys| ==> keys[i] == keys[1..][i - 1];
      var rest := LeastUnknownIndex(schema, keys[1..]);
      if rest.Some? && LeastUnknownIndex(schema, keys) == rest {
        var i :| 0 <= i < |keys[1..]| && keys[1..][i].0 == rest.value;
        assert keys[i + 1].0 == rest.value;
      }
    }
  }

  /** The first key, in body order, that is neither listed by the schema
      nor an index key. */
  function FirstUnknownName(schema: Schema, keys: Body): (k: Option<string>)
    ensures k.None? <==> forall i :: 0 <= i < |keys| ==> Known(schema, keys[i].0) || IsIndexKey(keys[i].0)
  {
    if keys == [] then None
    else if !Known(schema, keys[0].0) && !IsIndexKey(keys[0].0) then Some(keys[0].0)
    else
      var rest := FirstUnknownName(schema, keys[1..]);
      assert forall i :: 1 <= i < |keys| ==> keys[i] == keys[1..][i - 1];
      rest
  }

  /** The key found is unknown and not an index key, and every key before
      it in the body is known or an index key. */
  lemma {:induction false} FirstUnknownNameIsFirst(schema: Schema, keys: Body)
    ensures
      var k := FirstUnknownName(schema, keys);
      k.Some? ==>
        && !Known(schema, k.value) && !IsIndexKey(k.value)
        && exists i :: 0 <= i < |keys| && keys[i].0 == k.value &&
             (forall j :: 0 <= j < i ==> Known(schema, keys[j].0) || IsIndexKey(keys[j].0))
  {
    if keys != [] && (Known(schema, keys[0].0) || IsIndexKey(keys[0].0)) {
      FirstUnknownNameIsFirst(schema, keys[1..]);
      var rest := FirstUnknownName(schema, keys[1..]);
      if rest.Some? {
        var i :| 0 <= i < |keys[1..]| && keys[1..][i].0 == rest.value &&
          (forall j :: 0 <= j < i ==> Known(schema, keys[1..][j].0) || IsIndexKey(keys[1..][j].0));
        assert keys[i + 1].0 == rest.value;
        forall j | 0 <= j < i + 1 ensures Known(schema, keys[j].0) || IsIndexKey(keys[j].0) {
          if j > 0 {
            assert keys[j] == keys[1..][j - 1];
          }
        }
      }
    }
  }

  /** The key the library reports as not allowed: it walks the body's keys
      in `Object.keys` order, so the least unknown index key comes before
      every other unknown key, and those come in body order. */
  function UnknownKey(schema: Schema, keys: Body): (k: Option<string>)
    ensures k.None? <==> forall i :: 0 <= i < |keys| ==> Known(schema, keys[i].0)
  {
    var least := LeastUnknownIndex(schema, keys);
    if least.Some? then least else FirstUnknownName(schema, keys)
  }

  /** The reported key is an unknown key of the body: the least unknown
      index key when there is one, otherwise the first unknown key in body
      order. */
  lemma UnknownKeyOrder(schema: Schema, keys: Body)
    ensures
      var k := UnknownKey(schema, keys);
      k.Some? ==>
        && !Known(schema, k.value)
        && (exists i :: 0 <= i < |keys| && keys[i].0 == k.value)
        && (IsIndexKey(k.value) ==>
              forall i :: 0 <= i < |keys| && !Known(schema, keys[i].0) && IsIndexKey(keys[i].0) ==>
                DecimalValue(k.value) <= DecimalValue(keys[i].0))
        && (!IsIndexKey(k.value) ==>
              && (forall i :: 0 <= i < |keys| && !Known(schema, keys[i].0) ==> !IsIndexKey(keys[i].0))
              && exists i :: 0 <= i < |keys| && keys[i].0 == k.value &&
                   (forall j :: 0 <= j < i ==> Known(schema, keys[j].0)))
  {
    LeastUnknownIndexIsLeast(schema, keys);
    FirstUnknownNameIsFirst(schema, keys);
  }

  /** The message for the key the library reports as not allowed. */
  function FirstUnknown(schema: Schema, keys: Body): (err: Option<string>)
    ensures err.None? <==> forall i :: 0 <= i < |keys| ==> Known(schema, keys[i].0)
  {
    match UnknownKey(schema, keys)
    case None => None
    case Some(k) => Some(Quoted(k) + " is not allowed")
  }

  function Validate(schema: Schema, body: Body): (v: Verdict)
    ensures v.Accepted? <==>
      (forall i :: 0 <= i < |schema| ==> CheckField(schema[i].0, schema[i].1, Get(body, schema[i].0)).None?) &&
      (forall i :: 0 <= i < |body| ==> Known(schema, body[i].0))
  {
    match FirstFieldError(schema, body)
    case Some(m) => Rejected(m)
    case None =>
      match FirstUnknown(schema, body)
      case Some(m) => Rejected(m)
      case None => Accepted
  }

  const NoMessages := Messages(None, None, None, None, None)

  /** validation.js:4-17 */
  const RegisterSchema: Schema := [
    ("username", Rule(true, false, false, None, Some(30), Messages(
      Some("Username must be a string."), Some("Username is required."), None,
      Some("Username must not exceed 30 characters."), Some("Username is required.")))),
    ("password", Rule(true, false, false, Some(8), None, Messages(
      Some("Password must be a string."), Some("Password is required."),
      Some("Password must be at least 8 characters long."), None, Some("Password is required."))))
  ]

  /** validation.js:20-31 */
  const LoginSchema: Schema := [
    ("username", Rule(true, false, false, None, None, Messages(
      Some("Username must be a string."), Some("Username is required."), None, None, Some("Username is required.")))),
    ("password", Rule(true, false, false, None, None, Messages(
      Some("Password must be a string."), Some("Password is required."), None, None, Some("Password is required."))))
  ]

  /** validation.js:34-42 */
  const FolderSchema: Schema := [
    ("name", Rule(true, false, false, None, Some(50), Messages(
      Some("Folder name must be a string."), Some("Folder name is required."), None,
      Some("Folder name must not exceed 50 characters."), Some("Folder name is required.")))),
    ("parentFolder", Rule(false, true, false, None, None, NoMessages))
  ]

  /** validation.js:45-66 */
  const NoteSchema: Schema := [
    ("title", Rule(true, false, false, None, Some(100), Messages(
      Some("Note title must be a string."), Some("Note title is required."), None,
      Some("Note title must not exceed 100 characters."), Some("Note title is required.")))),
    ("detailedNotes", Rule(false, false, true, None, None, Messages(
      Some("Detailed notes must be a string."), None, None, None, None))),
    ("keyPoints", Rule(false, false, true, None, Some(300), Messages(
      Some("Key points must be a string."), None, None, Some("Key points must not exceed 300 characters."), None))),
    ("summary", Rule(false, false, true, None, Some(300), Messages(
      Some("Summary must be a string."), None, None, Some("Summary must not exceed 300 characters."), None))),
    ("folderId", Rule(false, true, false, None, None, Messages(
      Some("Folder ID must be a string."), None, None, None, None)))
  ]

  // Reference readings of each schema, field by field.

  predicate IsText(v: Input, lo: nat, hi: Option<nat>)
  {
    v.Text? && lo <= Utf16Length(v.s) && (hi.None? || Utf16Length(v.s) <= hi.value)
  }

  /** An optional string that may be null but not empty. */
  predicate NullableId(v: Input)
  {
    v.Absent? || v.Null? || IsText(v, 1, None)
  }

  /** An optional string that may be empty, of bounded length. */
  predicate OptionalText(v: Input, hi: Option<nat>)
  {
    v.Absent? || IsText(v, 0, hi)
  }

  predicate OnlyKeys(body: Body, keys: set<string>)
  {
    forall i :: 0 <= i < |body| ==> body[i].0 in keys
  }

  /** A schema whose keys are `names` and whose field checks all pass
      exactly when `fieldsPass` holds accepts a body exactly when
      `fieldsPass` holds and the body has no other key. */
  lemma ValidateReading(schema: Schema, body: Body, names: set<string>, fieldsPass: bool)
    requires forall k :: Known(schema, k) <==> k in names
    requires fieldsPass <==>
      forall i :: 0 <= i < |schema| ==> CheckField(schema[i].0, schema[i].1, Get(body, schema[i].0)).None?
    ensures Validate(schema, body).Accepted? <==> fieldsPass && OnlyKeys(body, names)
  {
  }

  /** When the schema's first rule fails, its message is the answer. */
  lemma FirstRuleDecides(schema: Schema, body: Body)
    requires |schema| > 0 && CheckField(schema[0].0, schema[0].1, Get(body, schema[0].0)).Some?
    ensures Validate(schema, body) == Rejected(CheckField(schema[0].0, schema[0].1, Get(body, schema[0].0)).value)
  {
  }

  function ValidateFolder(body: Body): (v: Verdict)
    ensures v.Accepted? <==>
      IsText(Get(body, "name"), 1, Some(50)) && NullableId(Get(body, "parentFolder")) &&
      OnlyKeys(body, {"name", "parentFolder"})
    ensures Get(body, "name") == Absent ==> v == Rejected("Folder name is required.")
    ensures Get(body, "name") == Text("") ==> v == Rejected("Folder name is required.")
    ensures Get(body, "name").Text? && Utf16Length(Get(body, "name").s) > 50 ==>
      v == Rejected("Folder name must not exceed 50 characters.")
  {
    var v := Validate(FolderSchema, body);
    assert forall k :: Known(FolderSchema, k) <==> k in {"name", "parentFolder"} by {
      assert FolderSchema[0].0 == "name" && FolderSchema[1].0 == "parentFolder";
    }
    v
  }

  lemma NoteSchemaReading(body: Body)
    ensures
      (forall i :: 0 <= i < |NoteSchema| ==> CheckField(NoteSchema[i].0, NoteSchema[i].1, Get(body, NoteSchema[i].0)).None?) <==>
      IsText(Get(body, "title"), 1, Some(100)) &&
      OptionalText(Get(body, "detailedNotes"), None) &&
      OptionalText(Get(body, "keyPoints"), Some(300)) &&
      OptionalText(Get(body, "summary"), Some(300)) &&
      NullableId(Get(body, "folderId"))
    ensures forall k :: Known(NoteSchema, k) <==> k in {"title", "detailedNotes", "keyPoints", "summary", "folderId"}
  {
    assert |NoteSchema| == 5;
    assert NoteSchema[0].0 == "title" && NoteSchema[1].0 == "detailedNotes" && NoteSchema[2].0 == "keyPoints";
    assert NoteSchema[3].0 == "summary" && NoteSchema[4].0 == "folderId";
    assert CheckField(NoteSchema[0].0, NoteSchema[0].1, Get(body, NoteSchema[0].0)).None? <==>
      IsText(Get(body, "title"), 1, Some(100));
    assert CheckField(NoteSchema[1].0, NoteSchema[1].1, Get(body, NoteSchema[1].0)).None? <==>
      OptionalText(Get(body, "detailedNotes"), None);
    assert CheckField(NoteSchema[2].0, NoteSchema[2].1, Get(body, NoteSchema[2].0)).None? <==>
      OptionalText(Get(body, "keyPoints"), Some(300));
    assert CheckField(NoteSchema[3].0, NoteSchema[3].1, Get(body, NoteSchema[3].0)).None? <==>
      OptionalText(Get(body, "summary"), Some(300));
    assert CheckField(NoteSchema[4].0, NoteSchema[4].1, Get(body, NoteSchema[4].0)).None? <==>
      NullableId(Get(body, "folderId"));
  }

  /** The three messages a bad title draws, whatever else the body holds. */
  lemma NoteTitleMessages(body: Body)
    ensures Get(body, "title") == Absent ==> Validate(NoteSchema, body) == Rejected("Note title is required.")
    ensures Get(body, "title") == Text("") ==> Validate(NoteSchema, body) == Rejected("Note title is required.")
    ensures Get(body, "title").Text? && Utf16Length(Get(body, "title").s) > 100 ==>
      Validate(NoteSchema, body) == Rejected("Note title must not exceed 100 characters.")
  {
    var title := NoteSchema[0];
    assert title.0 == "title";
    var e := CheckField(title.0, title.1, Get(body, "title"));
    if Get(body, "title") == Absent || Get(body, "title") == Text("") {
      assert e == Some("Note title is required.");
      FirstRuleDecides(NoteSchema, body);
    } else if Get(body, "title").Text? && Utf16Length(Get(body, "title").s) > 100 {
      assert e == Some("Note title must not exceed 100 characters.");
      FirstRuleDecides(NoteSchema, body);
    }
  }

  function ValidateNote(body: Body): (v: Verdict)
    ensures v.Accepted? <==>
      IsText(Get(body, "title"), 1, Some(100)) &&
      OptionalText(Get(body, "detailedNotes"), None) &&
      OptionalText(Get(body, "keyPoints"), Some(300)) &&
      OptionalText(Get(body, "summary"), Some(300)) &&
      NullableId(Get(body, "folderId")) &&
      OnlyKeys(body, {"title", "detailedNotes", "keyPoints", "summary", "folderId"})
    ensures Get(body, "title") == Absent ==> v == Rejected("Note title is required.")
    ensures Get(body, "title") == Text("") ==> v == Rejected("Note title is required.")
    ensures Get(body, "title").Text? && Utf16Length(Get(body, "title").s) > 100 ==>
      v == Rejected("Note title must not exceed 100 characters.")
  {
    NoteSchemaReading(body);
    NoteTitleMessages(body);
    ValidateReading(NoteSchema, body, {"title", "detailedNotes", "keyPoints", "summary", "folderId"},
      IsText(Get(body, "title"), 1, Some(100)) &&
      OptionalText(Get(body, "detailedNotes"), None) &&
      OptionalText(Get(body, "keyPoints"), Some(300)) &&
      OptionalText(Get(body, "summary"), Some(300)) &&
      NullableId(Get(body, "folderId")));
    Validate(NoteSchema, body)
  }

  function ValidateRegister(body: Body): (v: Verdict)
    ensures v.Accepted? <==>
      IsText(Get(body, "username"), 1, Some(30)) && IsText(Get(body, "password"), 8, None) &&
      OnlyKeys(body, {"username", "password"})
    ensures Get(body, "username") == Absent ==> v == Rejected("Username is required.")
  {
    var v := Validate(RegisterSchema, body);
    assert |RegisterSchema| == 2;
    assert CheckField(RegisterSchema[0].0, RegisterSchema[0].1, Get(body, RegisterSchema[0].0)).None? <==>
      IsText(Get(body, "username"), 1, Some(30));
    assert CheckField(RegisterSchema[1].0, RegisterSchema[1].1, Get(body, RegisterSchema[1].0)).None? <==>
      IsText(Get(body, "password"), 8, None);
    assert forall k :: Known(RegisterSchema, k) <==> k in {"username", "password"} by {
      assert RegisterSchema[0].0 == "username" && RegisterSchema[1].0 == "password";
    }
    v
  }

  function ValidateLogin(body: Body): (v: Verdict)
    ensures v.Accepted? <==>
      IsText(Get(body, "username"), 1, None) && IsText(Get(body, "password"), 1, None) &&
      OnlyKeys(body, {"username", "password"})
    ensures Get(body, "username") == Absent ==> v == Rejected("Username is required.")
  {
    var v := Validate(LoginSchema, body);
    assert |LoginSchema| == 2;
    assert CheckField(LoginSchema[0].0, LoginSchema[0].1, Get(body, LoginSchema[0].0)).None? <==>
      IsText(Get(body, "username"), 1, None);
    assert CheckField(LoginSchema[1].0, LoginSchema[1].1, Get(body, LoginSchema[1].0)).None? <==>
      IsText(Get(body, "password"), 1, None);
    assert forall k :: Known(LoginSchema, k) <==> k in {"username", "password"} by {
      assert LoginSchema[0].0 == "username" && LoginSchema[1].0 == "password";
    }
    v
  }

  /** A password shorter than 8 draws its own message once the username
      has passed: the second field of the schema decides. */
  lemma ShortPasswordMessage()
    ensures ValidateRegister([("username", Text("bob")), ("password", Text("short"))]) ==
      Rejected("Password must be at least 8 characters long.")
  {
    var body := [("username", Text("bob")), ("password", Text("short"))];
    assert Get(body, "username") == Text("bob");
    assert Get(body, "password") == Text("short");
    assert Utf16Length("bob") == 3 && Utf16Length("short") == 5;
    var user := RegisterSchema[0];
    var pass := RegisterSchema[1];
    assert user.0 == "username" && pass.0 == "password";
    assert CheckField(user.0, user.1, Get(body, "username")).None?;
    assert CheckField(pass.0, pass.1, Get(body, "password")) == Some("Password must be at least 8 characters long.");
    assert RegisterSchema[1..][0] == pass;
    assert FirstFieldError(RegisterSchema, body) == Some("Password must be at least 8 characters long.");
  }

  /** A folder name of 26 emoji is 26 characters but 52 code units long:
      the folder schema refuses it as longer than 50. */
  lemma AstralNameTooLong()
    ensures
      var name := seq(26, _ => '\U{1F4C1}');
      |name| == 26 && ValidateFolder([("name", Text(name))]) == Rejected("Folder name must not exceed 50 characters.")
  {
    var name := seq(26, _ => '\U{1F4C1}');
    Utf16LengthAstral(name);
  }

  /** A note body with the unknown keys "zz" and then "5": the index key is
      reported, since `Object.keys` lists it first. */
  lemma IndexKeyReportedFirst()
    ensures UnknownKey(NoteSchema, [("title", Text("t")), ("zz", NonString), ("5", NonString)]) == Some("5")
    ensures Validate(NoteSchema, [("title", Text("t")), ("zz", NonString), ("5", NonString)]) ==
      Rejected(Quoted("5") + " is not allowed")
  {
    var body := [("title", Text("t")), ("zz", NonString), ("5", NonString)];
    assert Known(NoteSchema, "title") by {
      assert NoteSchema[0].0 == "title";
    }
    UnknownKeysOfSample();
    assert LeastUnknownIndex(NoteSchema, body[2..]) == Some("5");
    assert body[1..][1..] == body[2..];
    assert LeastUnknownIndex(NoteSchema, body[1..]) == Some("5");
    SampleFieldsPass();
  }

  lemma UnknownKeysOfSample()
    ensures IsIndexKey("5") && !IsIndexKey("zz") && !IsIndexKey("title")
    ensures !Known(NoteSchema, "zz") && !Known(NoteSchema, "5")
  {
    NoteSchemaReading([]);
  }

  lemma SampleFieldsPass()
    ensures FirstFieldError(NoteSchema, [("title", Text("t")), ("zz", NonString), ("5", NonString)]).None?
  {
    var body := [("title", Text("t")), ("zz", NonString), ("5", NonString)];
    NoteSchemaReading(body);
    assert Get(body, "title") == Text("t");
    assert Utf16Length("t") == 1;
    assert Get(body, "detailedNotes") == Absent && Get(body, "keyPoints") == Absent;
    assert Get(body, "summary") == Absent && Get(body, "folderId") == Absent;
  }
}
