/** JSON values as Python's `json` module hands them to the backend, Python's
    truthiness and dictionary access on them, the default `json.dumps` serialiser,
    and an abstract `json.loads`.

    Decoding text (RFC 8259 parsing) is not modelled: a decoder is any function from
    text to a value or to the message of the `JSONDecodeError` it raises, and the
    properties that need more assume `Lawful(decode)`: decoding yields dictionaries
    (keys distinct) and undoes `json.dumps`. */
module Json {
  import opened Base

  /** A value built by `json.loads`: `None`, a `bool`, an `int`, a `str`, a `list`,
      or a `dict` whose entries keep their insertion order. */
  datatype Json =
    | Null
    | Bool(b: bool)
    | Int(n: int)
    | Str(s: string)
    | Array(items: seq<Json>)
    | Object(fields: seq<Field>)

  /** One entry of a dictionary. */
  datatype Field = Field(key: string, value: Json)

  /** `bool(v)`: `None`, `False`, `0`, `""`, `[]` and `{}` are false, all else true. */
  predicate Truthy(v: Json)
    ensures Truthy(v) <==> v !in {Null, Bool(false), Int(0), Str([]), Array([]), Object([])}
  {
    match v
    case Null => false
    case Bool(b) => b
    case Int(n) => n != 0
    case Str(s) => s != []
    case Array(items) => items != []
    case Object(fields) => fields != []
  }

  /** `type(v).__name__`, as it appears in the messages of `TypeError` and
      `AttributeError`. */
  function TypeName(v: Json): string {
    match v
    case Null => "NoneType"
    case Bool(_) => "bool"
    case Int(_) => "int"
    case Str(_) => "str"
    case Array(_) => "list"
    case Object(_) => "dict"
  }

  /** `key in d` for a dictionary `d`. */
  predicate HasKey(fields: seq<Field>, key: string) {
    exists i :: 0 <= i < |fields| && fields[i].key == key
  }

  /** `d.get(key)`: the value stored under `key`, or `None` when the key is absent. */
  function Get(fields: seq<Field>, key: string): (r: Option<Json>)
    ensures r.Some? <==> HasKey(fields, key)
    ensures r.Some? ==> exists i :: 0 <= i < |fields| && fields[i] == Field(key, r.value)
  {
    if fields == [] then None
    else if fields[0].key == key then Some(fields[0].value)
    else
      var r := Get(fields[1..], key);
      assert forall i :: 0 < i < |fields| ==> fields[i] == fields[1..][i - 1];
      r
  }

  /** `d.get(key)` on a value that is a dictionary, with `None` read as `Null`. */
  function GetOrNull(fields: seq<Field>, key: string): (r: Json)
    ensures HasKey(fields, key) ==> Get(fields, key) == Some(r)
    ensures !HasKey(fields, key) ==> r == Null
  {
    match Get(fields, key)
    case Some(v) => v
    case None => Null
  }

  /** The value really is a Python value: every dictionary in it has distinct keys. */
  predicate WellFormed(v: Json)
    decreases v
  {
    match v
    case Array(items) => forall i :: 0 <= i < |items| ==> WellFormed(items[i])
    case Object(fields) =>
      && (forall i, j :: 0 <= i < j < |fields| ==> fields[i].key != fields[j].key)
      && (forall i :: 0 <= i < |fields| ==> WellFormed(fields[i].value))
    case _ => true
  }

  /** An entry of a modification list: a dictionary carrying both a "file_path" and a
      "content" key (the check at backend/llm_agents.py:61 and
      backend/github_utils.py:50). */
  predicate IsModification(v: Json) {
    v.Object? && HasKey(v.fields, "file_path") && HasKey(v.fields, "content")
  }

  /** `json.loads`: the decoded value, or the message of the `JSONDecodeError`. */
  type Decoder = string -> Result<Json, string>

  /** What the backend relies on from `json.loads`: decoding yields Python values and
      reads back whatever `json.dumps` wrote. */
  ghost predicate Lawful(decode: Decoder) {
    && (forall s :: decode(s).Ok? ==> WellFormed(decode(s).value))
    && (forall v :: WellFormed(v) ==> decode(Dumps(v)) == Ok(v))
  }

  // ---------------------------------------------------------------------------
  // json.dumps with its defaults: ensure_ascii=True, separators (", ", ": ")

  /** Every character is printable ASCII, from ' ' to '~'. */
  predicate Printable(s: string) {
    forall k :: 0 <= k < |s| ==> ' ' <= s[k] <= '~'
  }

  /** A lower-case hexadecimal digit. */
  function HexDigit(d: nat): (c: char)
    requires d < 16
    ensures ' ' <= c <= '~'
  {
    if d < 10 then ('0' as int + d) as char else ('a' as int + d - 10) as char
  }

  /** Four lower-case hexadecimal digits, as `'{0:04x}'.format(n)` writes them. */
  function Hex4(n: nat): (r: string)
    requires n < 0x10000
    ensures |r| == 4 && Printable(r)
  {
    [HexDigit(n / 0x1000), HexDigit(n / 0x100 % 16), HexDigit(n / 0x10 % 16), HexDigit(n % 16)]
  }

  /** How `json.dumps` writes one character inside a string literal: the two-character
      escapes, printable ASCII as itself, and every other character as `\uXXXX`
      (a surrogate pair above U+FFFF). */
  function EscapeChar(c: char): (r: string)
    ensures Printable(r)
  {
    if c == '"' then "\\\""
    else if c == '\\' then "\\\\"
    else if c == '\n' then "\\n"
    else if c == '\r' then "\\r"
    else if c == '\t' then "\\t"
    else if c == '\U{8}' then "\\b"
    else if c == '\U{c}' then "\\f"
    else if ' ' <= c <= '~' then [c]
    else if c as int < 0x10000 then "\\u" + Hex4(c as int)
    else
      var n := c as int - 0x10000;
      "\\u" + Hex4(0xd800 + n / 0x400) + "\\u" + Hex4(0xdc00 + n % 0x400)
  }

  /** The characters of a string literal between its quotes. */
  function QuoteChars(s: string): (r: string)
    ensures Printable(r)
  {
    if s == [] then "" else EscapeChar(s[0]) + QuoteChars(s[1..])
  }

  /** Printable ASCII other than the quote and the backslash: the characters
      `json.dumps` writes as themselves. */
  predicate Plain(s: string) {
    forall k :: 0 <= k < |s| ==> ' ' <= s[k] <= '~' && s[k] != '"' && s[k] != '\\'
  }

  /** Plain text is written as itself. */
  lemma {:induction false} QuoteCharsPlain(s: string)
    requires Plain(s)
    ensures QuoteChars(s) == s
  {
    if s != [] {
      QuoteCharsPlain(s[1..]);
      assert [s[0]] + s[1..] == s;
    }
  }

  /** A string literal. */
  function Quote(s: string): (r: string)
    ensures Printable(r)
  {
    "\"" + QuoteChars(s) + "\""
  }

  lemma QuotePlain(s: string)
    requires Plain(s)
    ensures Quote(s) == "\"" + s + "\""
  {
    QuoteCharsPlain(s);
  }

  /** The decimal digits of a natural number. */
  function Digits(n: nat): (r: string)
    ensures |r| > 0 && Printable(r)
  {
    if n < 10 then [HexDigit(n)] else Digits(n / 10) + [HexDigit(n % 10)]
  }

  /** `repr(n)` for an `int`. */
  function Decimal(n: int): (r: string)
    ensures |r| > 0 && Printable(r)
  {
    if n < 0 then "-" + Digits(-n) else Digits(n)
  }

  /** `json.dumps(v)`. */
  function Dumps(v: Json): (r: string)
    ensures v.Str? ==> |r| >= 2 && r[0] == '"' && r[|r| - 1] == '"'
    ensures v.Array? ==> |r| >= 2 && r[0] == '[' && r[|r| - 1] == ']'
    ensures v.Object? ==> |r| >= 2 && r[0] == '{' && r[|r| - 1] == '}'
    decreases v
  {
    match v
    case Null => "null"
    case Bool(b) => if b then "true" else "false"
    case Int(n) => Decimal(n)
    case Str(s) => Quote(s)
    case Array(items) => "[" + DumpsItems(items) + "]"
    case Object(fields) => "{" + DumpsFields(fields) + "}"
  }

  /** The elements of a list, separated by ", ". */
  function DumpsItems(items: seq<Json>): string
    decreases items
  {
    if items == [] then ""
    else if |items| == 1 then Dumps(items[0])
    else Dumps(items[0]) + ", " + DumpsItems(items[1..])
  }

  /** The entries of a dictionary, `"key": value`, separated by ", ". */
  function DumpsFields(fields: seq<Field>): string
    decreases fields
  {
    if fields == [] then ""
    else
      var entry := Quote(fields[0].key) + ": " + Dumps(fields[0].value);
      if |fields| == 1 then entry else entry + ", " + DumpsFields(fields[1..])
  }

  /** `json.dumps` with `ensure_ascii` writes printable ASCII only, whatever the value
      holds: control characters and non-ASCII text come out as escapes. */
  lemma {:induction false} DumpsPrintable(v: Json)
    ensures Printable(Dumps(v))
    decreases v
  {
    match v
    case Null =>
    case Bool(_) =>
    case Int(_) =>
    case Str(_) =>
    case Array(items) => ItemsPrintable(items);
    case Object(fields) => FieldsPrintable(fields);
  }

  lemma {:induction false} ItemsPrintable(items: seq<Json>)
    ensures Printable(DumpsItems(items))
    decreases items
  {
    if items != [] {
      DumpsPrintable(items[0]);
      if |items| > 1 {
        ItemsPrintable(items[1..]);
      }
    }
  }

  lemma {:induction false} FieldsPrintable(fields: seq<Field>)
    ensures Printable(DumpsFields(fields))
    decreases fields
  {
    if fields != [] {
      DumpsPrintable(fields[0].value);
      if |fields| > 1 {
        FieldsPrintable(fields[1..]);
      }
    }
  }

  // ---------------------------------------------------------------------------
  // str() and repr(), as f-strings put a value into an exception message

  /** Whether `c` occurs in `s`. */
  predicate HasChar(s: string, c: char) {
    exists k :: 0 <= k < |s| && s[k] == c
  }

  /** The characters of `repr(s)` between its quotes, `q` being the quote used. */
  function ReprChars(s: string, q: char): string {
    if s == [] then ""
    else
      var c := s[0];
      var e := if c == '\\' then "\\\\"
        else if c == q then ['\\', q]
        else if c == '\n' then "\\n"
        else if c == '\r' then "\\r"
        else if c == '\t' then "\\t"
        else [c];
      e + ReprChars(s[1..], q)
  }

  /** `repr(s)` for a `str`: single quotes, unless the text holds a single quote and no
      double quote. */
  function ReprStr(s: string): string {
    var q := if HasChar(s, '\'') && !HasChar(s, '"') then '"' else '\'';
    [q] + ReprChars(s, q) + [q]
  }

  /** `repr(v)`. */
  function Repr(v: Json): (r: string)
    ensures v.Str? ==> |r| >= 2 && r[0] == r[|r| - 1] && (r[0] == '\'' || r[0] == '"')
    ensures v.Array? ==> |r| >= 2 && r[0] == '[' && r[|r| - 1] == ']'
    ensures v.Object? ==> |r| >= 2 && r[0] == '{' && r[|r| - 1] == '}'
    decreases v
  {
    match v
    case Null => "None"
    case Bool(b) => if b then "True" else "False"
    case Int(n) => Decimal(n)
    case Str(s) => ReprStr(s)
    case Array(items) => "[" + ReprItems(items) + "]"
    case Object(fields) => "{" + ReprFields(fields) + "}"
  }

  function ReprItems(items: seq<Json>): string
    decreases items
  {
    if items == [] then ""
    else if |items| == 1 then Repr(items[0])
    else Repr(items[0]) + ", " + ReprItems(items[1..])
  }

  function ReprFields(fields: seq<Field>): string
    decreases fields
  {
    if fields == [] then ""
    else
      var entry := ReprStr(fields[0].key) + ": " + Repr(fields[0].value);
      if |fields| == 1 then entry else entry + ", " + ReprFields(fields[1..])
  }

  /** `str(v)`, which is what `f"{v}"` writes: a `str` as itself, anything else as
      its `repr`. */
  function PyStr(v: Json): (r: string)
    ensures v.Str? ==> r == v.s
    ensures v.Array? ==> |r| >= 2 && r[0] == '[' && r[|r| - 1] == ']'
    ensures v.Object? ==> |r| >= 2 && r[0] == '{' && r[|r| - 1] == '}'
  {
    if v.Str? then v.s else Repr(v)
  }
}
