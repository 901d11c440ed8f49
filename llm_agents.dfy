/** backend/llm_agents.py: the Gemini-backed agent. Construction checks the API key;
    `analyze_and_modify` narrows the model's free text to a JSON array, checks that it
    is a list of modification entries, and re-serialises it.

    The Gemini call itself is opaque: its reply reaches these functions as text, or
    as the exception the client raised. */
module Gemini {
  import opened Base
  import opened PyText
  import opened Json

  /** A constructed `GeminiAgent`: the name its base class records and the model it
      talks to. */
  datatype GeminiAgent = GeminiAgent(modelName: string, model: string)

  /** `GeminiAgent()`, given the value of the `GOOGLE_API_KEY` environment variable. */
  function NewGeminiAgent(apiKey: Option<string>): (r: Result<GeminiAgent, Error>)
    ensures r.Ok? <==> apiKey.Some? && apiKey.value != ""
    ensures r.Ok? ==> r.value.modelName == "Gemini" && r.value.model == "gemini-2.5-pro"
    ensures r.Err? ==> r.error == Error(ValueError, "GOOGLE_API_KEY not found in .env file.")
  {
    if apiKey.None? || apiKey.value == "" then
      Err(Error(ValueError, "GOOGLE_API_KEY not found in .env file."))
    else
      Ok(GeminiAgent("Gemini", "gemini-2.5-pro"))
  }

  // ---------------------------------------------------------------------------
  // re.search(r'\[\s*{.*?}\s*\]', text, re.DOTALL)

  /** `t[i..e]` matches the pattern with its `{` at `j` and its `}` at `k`: a `[`,
      whitespace, a `{`, anything, a `}`, whitespace, a `]`. */
  ghost predicate ArrayMatch(t: string, i: int, j: int, k: int, e: int) {
    && 0 <= i < j < k && k + 1 < e <= |t|
    && t[i] == '[' && AllSpace(t[i + 1..j]) && t[j] == '{'
    && t[k] == '}' && AllSpace(t[k + 1..e - 1]) && t[e - 1] == ']'
  }

  /** A match: where it starts, its `{`, its `}`, and where it ends (exclusive). */
  datatype Span = Span(start: nat, open: nat, close: nat, end: nat)

  /** The index of the first character at or after `p` that is not whitespace. */
  function SkipSpace(t: string, p: nat): (q: nat)
    requires p <= |t|
    ensures p <= q <= |t| && AllSpace(t[p..q])
    ensures q == |t| || !IsSpace(t[q])
    decreases |t| - p
  {
    if p < |t| && IsSpace(t[p]) then
      var q := SkipSpace(t, p + 1);
      assert t[p..q] == [t[p]] + t[p + 1..q];
      q
    else p
  }

  /** A run of whitespace from `p` that stops at a non-whitespace character `j` is the
      run `SkipSpace` finds. */
  lemma SpaceRun(t: string, p: nat, j: nat)
    requires p <= j < |t| && AllSpace(t[p..j]) && !IsSpace(t[j])
    ensures SkipSpace(t, p) == j
  {
  }

  /** `[`, then whitespace, then `{`, starting at `i`. */
  predicate OpensAt(t: string, i: int) {
    && 0 <= i < |t| && t[i] == '['
    && SkipSpace(t, i + 1) < |t| && t[SkipSpace(t, i + 1)] == '{'
  }

  /** `}`, then whitespace, then `]`, starting at `k`. */
  predicate ClosesAt(t: string, k: int) {
    && 0 <= k < |t| && t[k] == '}'
    && SkipSpace(t, k + 1) < |t| && t[SkipSpace(t, k + 1)] == ']'
  }

  /** A match is exactly an opening at its start and a closing at its `}`. */
  lemma ArrayMatchShape(t: string, i: int, j: int, k: int, e: int)
    ensures ArrayMatch(t, i, j, k, e) <==>
      && OpensAt(t, i) && j == SkipSpace(t, i + 1) && j < k
      && ClosesAt(t, k) && e == SkipSpace(t, k + 1) + 1
  {
    if ArrayMatch(t, i, j, k, e) {
      SpaceRun(t, i + 1, j);
      SpaceRun(t, k + 1, e - 1);
    }
  }

  /** The first closing at or after `p`: the lazy `.*?` stops at the first `}` that the
      rest of the pattern can follow. */
  function FindClose(t: string, p: nat): (r: Option<nat>)
    requires p <= |t|
    ensures r.Some? ==> p <= r.value < |t| && ClosesAt(t, r.value)
    ensures r.Some? ==> forall k :: p <= k < r.value ==> !ClosesAt(t, k)
    ensures r.None? ==> forall k :: p <= k ==> !ClosesAt(t, k)
    decreases |t| - p
  {
    if p == |t| then None
    else if ClosesAt(t, p) then Some(p)
    else FindClose(t, p + 1)
  }

  /** The match that starts at `i`, if any. */
  function MatchAt(t: string, i: nat): (r: Option<Span>)
    requires i <= |t|
    ensures r.Some? ==> r.value.start == i
    ensures r.Some? ==> ArrayMatch(t, i, r.value.open, r.value.close, r.value.end)
    ensures r.Some? ==> forall k, e :: k < r.value.close ==> !ArrayMatch(t, i, r.value.open, k, e)
    ensures r.None? ==> forall j, k, e :: !ArrayMatch(t, i, j, k, e)
  {
    if !OpensAt(t, i) then
      assert forall j, k, e :: !ArrayMatch(t, i, j, k, e) by {
        forall j, k, e ensures !ArrayMatch(t, i, j, k, e) { ArrayMatchShape(t, i, j, k, e); }
      }
      None
    else
      var j := SkipSpace(t, i + 1);
      match FindClose(t, j + 1)
      case None =>
        assert forall j', k, e :: !ArrayMatch(t, i, j', k, e) by {
          forall j', k, e ensures !ArrayMatch(t, i, j', k, e) { ArrayMatchShape(t, i, j', k, e); }
        }
        None
      case Some(k) =>
        var e := SkipSpace(t, k + 1) + 1;
        ArrayMatchShape(t, i, j, k, e);
        assert forall k', e' :: k' < k ==> !ArrayMatch(t, i, j, k', e') by {
          forall k', e' | k' < k ensures !ArrayMatch(t, i, j, k', e') { ArrayMatchShape(t, i, j, k', e'); }
        }
        Some(Span(i, j, k, e))
  }

  /** The leftmost match starting at or after `p`. */
  function SearchFrom(t: string, p: nat): (r: Option<Span>)
    requires p <= |t|
    ensures r.Some? ==> p <= r.value.start
    ensures r.Some? ==> ArrayMatch(t, r.value.start, r.value.open, r.value.close, r.value.end)
    ensures r.Some? ==> forall k, e :: k < r.value.close ==> !ArrayMatch(t, r.value.start, r.value.open, k, e)
    ensures r.Some? ==> forall i, j, k, e :: p <= i < r.value.start ==> !ArrayMatch(t, i, j, k, e)
    ensures r.None? ==> forall i, j, k, e :: p <= i ==> !ArrayMatch(t, i, j, k, e)
    decreases |t| - p
  {
    if p == |t| then None
    else
      match MatchAt(t, p)
      case Some(m) => Some(m)
      case None => SearchFrom(t, p + 1)
  }

  /** `re.search(r'\[\s*{.*?}\s*\]', t, re.DOTALL)`: the match whose start is leftmost
      and, from that start, whose `}` is the first one that can close it; none when no
      substring matches. */
  function FindJsonArray(t: string): (r: Option<Span>)
    ensures r.Some? ==> ArrayMatch(t, r.value.start, r.value.open, r.value.close, r.value.end)
    ensures r.Some? ==> forall i, j, k, e :: i < r.value.start ==> !ArrayMatch(t, i, j, k, e)
    ensures r.Some? ==> forall k, e :: k < r.value.close ==> !ArrayMatch(t, r.value.start, r.value.open, k, e)
    ensures r.None? ==> forall i, j, k, e :: !ArrayMatch(t, i, j, k, e)
  {
    SearchFrom(t, 0)
  }

  /** The text `analyze_and_modify` hands to `json.loads`: the match when there is
      one, otherwise the stripped reply itself. */
  function ExtractJsonArray(t: string): (r: string)
    ensures FindJsonArray(t).None? ==> r == t
    ensures FindJsonArray(t).Some? ==>
      var m := FindJsonArray(t).value;
      r == t[m.start..m.end] && r[0] == '[' && r[|r| - 1] == ']'
  {
    match FindJsonArray(t)
    case Some(m) => t[m.start..m.end]
    case None => t
  }

  // ---------------------------------------------------------------------------
  // analyze_and_modify

  /** The validation block of `analyze_and_modify`: decode, require a list, require
      every element to be a modification entry, re-serialise. */
  function ValidateModifications(text: string, decode: Decoder): (r: Result<string, Error>)
    ensures r.Ok? <==>
      && decode(text).Ok? && decode(text).value.Array?
      && forall i :: 0 <= i < |decode(text).value.items| ==> IsModification(decode(text).value.items[i])
    ensures r.Ok? ==> r.value == Dumps(decode(text).value) && Printable(r.value)
    ensures decode(text).Err? ==>
      r == Err(Error(ValueError, "Invalid JSON response from Gemini API: " + decode(text).error))
    ensures decode(text).Ok? && !decode(text).value.Array? ==>
      r == Err(Error(ValueError, "Response is not a JSON array"))
    ensures r.Err? && decode(text).Ok? && decode(text).value.Array? ==>
      r == Err(Error(ValueError, "Invalid modification format"))
  {
    match decode(text)
    case Err(detail) => Err(Error(ValueError, "Invalid JSON response from Gemini API: " + detail))
    case Ok(v) =>
      if !v.Array? then Err(Error(ValueError, "Response is not a JSON array"))
      else if exists i :: 0 <= i < |v.items| && !IsModification(v.items[i]) then
        Err(Error(ValueError, "Invalid modification format"))
      else
        DumpsPrintable(v);
        Ok(Dumps(v))
  }

  /** `analyze_and_modify`, given Gemini's reply to the analysis prompt: a client
      exception is re-raised, otherwise the stripped reply is narrowed by the regular
      expression and validated. */
  function AnalyzeAndModify(reply: Result<string, Error>, decode: Decoder): (r: Result<string, Error>)
    ensures reply.Err? ==> r == Err(reply.error)
    ensures reply.Ok? ==> r == ValidateModifications(ExtractJsonArray(Strip(reply.value)), decode)
  {
    match reply
    case Err(e) => Err(e)
    case Ok(raw) => ValidateModifications(ExtractJsonArray(Strip(raw)), decode)
  }

  /** What `analyze_and_modify` returns decodes back to the very list it validated:
      a list of modification entries. */
  lemma AnalyzeRoundTrip(reply: Result<string, Error>, decode: Decoder)
    requires Lawful(decode)
    requires AnalyzeAndModify(reply, decode).Ok?
    ensures var text := ExtractJsonArray(Strip(reply.value));
      && decode(AnalyzeAndModify(reply, decode).value) == decode(text)
      && decode(text).Ok? && decode(text).value.Array?
      && forall i :: 0 <= i < |decode(text).value.items| ==> IsModification(decode(text).value.items[i])
  {
    var text := ExtractJsonArray(Strip(reply.value));
    assert WellFormed(decode(text).value);
  }

  // ---------------------------------------------------------------------------
  // The fallback extraction applied to a reply that is already valid JSON

  /** No closing brace anywhere in the text. */
  predicate NoBrace(s: string) {
    forall k :: 0 <= k < |s| ==> s[k] != '}'
  }

  lemma NoBraceAppend(a: string, b: string)
    requires NoBrace(a) && NoBrace(b)
    ensures NoBrace(a + b)
  {
    forall k | 0 <= k < |a + b| ensures (a + b)[k] != '}' {
      if k < |a| {
        assert (a + b)[k] == a[k];
      } else {
        assert (a + b)[k] == b[k - |a|];
      }
    }
  }

  /** FindCloseFirst: `FindClose` stops at the first closing. */
  lemma {:induction false} FindCloseFirst(t: string, p: nat, k: nat)
    requires p <= k < |t| && ClosesAt(t, k)
    requires forall k' :: p <= k' < k ==> !ClosesAt(t, k')
    ensures FindClose(t, p) == Some(k)
    decreases k - p
  {
    if p < k {
      FindCloseFirst(t, p + 1, k);
    }
  }

  /** In a text that opens with `[{`, holds no `}` until a `}]`, and goes on after it,
      the search stops at that first `}]`, whatever follows. */
  lemma CutAtFirstClose(m: string, rest: string)
    requires NoBrace(m)
    ensures FindJsonArray("[{" + m + "}]" + rest) == Some(Span(0, 1, |m| + 2, |m| + 4))
  {
    var t := "[{" + m + "}]" + rest;
    var p := |m| + 2;
    assert t[0] == '[' && t[1] == '{' && t[p] == '}' && t[p + 1] == ']';
    assert SkipSpace(t, 1) == 1;
    assert SkipSpace(t, p + 1) == p + 1;
    assert OpensAt(t, 0);
    assert ClosesAt(t, p);
    forall k | 2 <= k < p ensures !ClosesAt(t, k) {
      assert t[k] == m[k - 2];
    }
    FindCloseFirst(t, 2, p);
    assert MatchAt(t, 0) == Some(Span(0, 1, p, p + 2));
  }

  lemma DumpsSingleton(v: Json)
    ensures Dumps(Array([v])) == "[" + Dumps(v) + "]"
  {
  }

  lemma DumpsObject(fields: seq<Field>)
    ensures Dumps(Object(fields)) == "{" + DumpsFields(fields) + "}"
  {
  }

  lemma DumpsTwoFields(f1: Field, f2: Field)
    ensures DumpsFields([f1, f2]) ==
      Quote(f1.key) + ": " + Dumps(f1.value) + ", " + (Quote(f2.key) + ": " + Dumps(f2.value))
  {
    assert [f1, f2][1..] == [f2];
  }

  lemma DumpsString(s: string)
    ensures Dumps(Str(s)) == Quote(s)
  {
  }

  lemma DumpsOneEntryList(k1: string, v1: string, k2: string, v2: string)
    ensures Dumps(Array([Object([Field(k1, Str(v1)), Field(k2, Str(v2))])]))
      == "[" + ("{" + (Quote(k1) + ": " + Quote(v1) + ", " + (Quote(k2) + ": " + Quote(v2))) + "}") + "]"
  {
    var f1, f2 := Field(k1, Str(v1)), Field(k2, Str(v2));
    DumpsSingleton(Object([f1, f2]));
    DumpsObject([f1, f2]);
    DumpsTwoFields(f1, f2);
    DumpsString(v1);
    DumpsString(v2);
  }

  lemma Regroup(k1: string, v1: string, k2: string, v2: string)
    ensures "[" + ("{" + ("\"" + k1 + "\"" + ": " + ("\"" + v1 + "\"") + ", " + ("\"" + k2 + "\"" + ": " + ("\"" + v2 + "\""))) + "}") + "]"
      == "[{" + ("\"" + k1 + "\": \"" + v1 + "\", \"" + k2 + "\": \"") + v2 + "\"}]"
  {
  }

  /** A list holding one dictionary of two plain string entries is serialised as
      `[{"k1": "v1", "k2": "v2"}]`. */
  lemma DumpsPlainEntryList(k1: string, v1: string, k2: string, v2: string)
    requires Plain(k1) && Plain(v1) && Plain(k2) && Plain(v2)
    ensures Dumps(Array([Object([Field(k1, Str(v1)), Field(k2, Str(v2))])]))
      == "[{" + ("\"" + k1 + "\": \"" + v1 + "\", \"" + k2 + "\": \"") + v2 + "\"}]"
  {
    DumpsOneEntryList(k1, v1, k2, v2);
    QuotePlain(k1);
    QuotePlain(v1);
    QuotePlain(k2);
    QuotePlain(v2);
    Regroup(k1, v1, k2, v2);
  }

  lemma EntryPrefixNoBrace(k1: string, v1: string, k2: string)
    requires NoBrace(k1) && NoBrace(v1) && NoBrace(k2)
    ensures NoBrace("\"" + k1 + "\": \"" + v1 + "\", \"" + k2 + "\": \"")
  {
    NoBraceAppend("\"", k1);
    NoBraceAppend("\"" + k1, "\": \"");
    NoBraceAppend("\"" + k1 + "\": \"", v1);
    NoBraceAppend("\"" + k1 + "\": \"" + v1, "\", \"");
    NoBraceAppend("\"" + k1 + "\": \"" + v1 + "\", \"", k2);
    NoBraceAppend("\"" + k1 + "\": \"" + v1 + "\", \"" + k2, "\": \"");
  }

  /** A one-file modification list: its path and its content. */
  function OneFileList(path: string, content: string): Json {
    Array([Object([Field("file_path", Str(path)), Field("content", Str(content))])])
  }

  lemma OneFileListValid(path: string, content: string)
    ensures WellFormed(OneFileList(path, content))
    ensures IsModification(OneFileList(path, content).items[0])
  {
    var fields := OneFileList(path, content).items[0].fields;
    assert fields[0].key == "file_path" && fields[1].key == "content";
  }

  /** The serialisation of a one-entry list whose second value starts with `}]`,
      split at that `}]`. */
  lemma EntryListSplit(k1: string, v1: string, k2: string, v2: string)
    requires Plain(k1) && Plain(v1) && Plain(k2) && Plain(v2)
    requires |v2| >= 2 && v2[0] == '}' && v2[1] == ']'
    ensures Dumps(Array([Object([Field(k1, Str(v1)), Field(k2, Str(v2))])]))
      == "[{" + ("\"" + k1 + "\": \"" + v1 + "\", \"" + k2 + "\": \"") + "}]" + (v2[2..] + "\"}]")
  {
    DumpsPlainEntryList(k1, v1, k2, v2);
    SplitAtClose("[{" + ("\"" + k1 + "\": \"" + v1 + "\", \"" + k2 + "\": \""), v2);
  }

  /** The two keys of a modification entry are plain text without braces. */
  lemma KeysPlain()
    ensures Plain("file_path") && Plain("content")
    ensures NoBrace("file_path") && NoBrace("content")
  {
    var a, b := "file_path", "content";
    forall k | 0 <= k < |a| ensures ' ' <= a[k] <= '~' && a[k] != '"' && a[k] != '\\' && a[k] != '}' {
      assert a[k] in "file_path";
    }
    forall k | 0 <= k < |b| ensures ' ' <= b[k] <= '~' && b[k] != '"' && b[k] != '\\' && b[k] != '}' {
      assert b[k] in "content";
    }
  }

  lemma SplitAtClose(x: string, content: string)
    requires |content| >= 2 && content[0] == '}' && content[1] == ']'
    ensures x + content + "\"}]" == x + "}]" + (content[2..] + "\"}]")
  {
    assert content == "}]" + content[2..];
  }

  /** As written, the fallback extraction runs on every reply. A reply that is
      exactly the serialisation of a valid one-file modification list, whose file
      content starts with `}]` (a source file ending a list of dictionaries does), is
      cut at that `}]`: `json.loads` is handed a strict prefix of the reply, ending
      inside the content string, instead of the reply. */
  lemma ExtractTruncatesValidReply(path: string, content: string)
    requires Plain(path) && NoBrace(path) && Plain(content)
    requires |content| >= 2 && content[0] == '}' && content[1] == ']'
    ensures var v := OneFileList(path, content);
      var t := Dumps(v);
      && WellFormed(v) && IsModification(v.items[0])
      && exists n :: 0 < n < |t| && ExtractJsonArray(Strip(t)) == t[..n]
  {
    var k1, k2 := "file_path", "content";
    OneFileListValid(path, content);
    KeysPlain();
    EntryListSplit(k1, path, k2, content);
    EntryPrefixNoBrace(k1, path, k2);
    ExtractCut("\"" + k1 + "\": \"" + path + "\", \"" + k2 + "\": \"", content[2..] + "\"}]");
  }

  /** In the text `[{`, no `}`, `}]`, more text ending in `]`, the extraction keeps
      the text up to that first `}]` and drops the rest. */
  lemma ExtractCut(m: string, rest: string)
    requires NoBrace(m) && |rest| > 0 && rest[|rest| - 1] == ']'
    ensures var t := "[{" + m + "}]" + rest;
      ExtractJsonArray(Strip(t)) == t[..|m| + 4]
  {
    var t := "[{" + m + "}]" + rest;
    CutAtFirstClose(m, rest);
    assert Strip(t) == t by {
      assert t[0] == '[' && t[|t| - 1] == ']';
      StripSurrounded([], t, []);
      assert [] + t + [] == t;
    }
  }

  /** `analyze_and_modify` as its fallback comment describes it: the stripped reply
      is taken as it is when it is a valid modification list, and the regular
      expression is applied only when it is not (it does not decode, or decodes to
      something else, such as an object wrapping the list). */
  function AnalyzeAndModifyIntended(reply: Result<string, Error>, decode: Decoder): (r: Result<string, Error>)
    ensures reply.Err? ==> r == Err(reply.error)
    ensures reply.Ok? && ValidateModifications(Strip(reply.value), decode).Ok? ==>
      r == ValidateModifications(Strip(reply.value), decode)
    ensures reply.Ok? && ValidateModifications(Strip(reply.value), decode).Err? ==>
      r == AnalyzeAndModify(reply, decode)
  {
    match reply
    case Err(e) => Err(e)
    case Ok(raw) =>
      var text := Strip(raw);
      var whole := ValidateModifications(text, decode);
      if whole.Ok? then whole
      else ValidateModifications(ExtractJsonArray(text), decode)
  }

  /** The correction only adds accepted replies: whatever the code as written
      accepts, the corrected step accepts too, and it rejects a reply only with the
      error the code as written gives. */
  lemma IntendedAcceptsMore(reply: Result<string, Error>, decode: Decoder)
    ensures AnalyzeAndModify(reply, decode).Ok? ==> AnalyzeAndModifyIntended(reply, decode).Ok?
    ensures AnalyzeAndModifyIntended(reply, decode).Err? ==>
      AnalyzeAndModifyIntended(reply, decode) == AnalyzeAndModify(reply, decode)
  {
  }

  /** A serialised list starts with `[` and ends with `]`, so `strip()` leaves it as
      it is. */
  lemma DumpsListStripped(items: seq<Json>)
    ensures Strip(Dumps(Array(items))) == Dumps(Array(items))
  {
    var t := Dumps(Array(items));
    assert t == "[" + DumpsItems(items) + "]";
    StripSurrounded([], t, []);
    assert [] + t + [] == t;
  }

  /** With the fallback applied only where it is needed, a reply that is the
      serialisation of a list of modification entries is accepted and returned as it
      was written, whatever the files contain. */
  lemma IntendedAcceptsSerialisedList(items: seq<Json>, decode: Decoder)
    requires Lawful(decode)
    requires WellFormed(Array(items))
    requires forall i :: 0 <= i < |items| ==> IsModification(items[i])
    ensures AnalyzeAndModifyIntended(Ok(Dumps(Array(items))), decode) == Ok(Dumps(Array(items)))
  {
    var t := Dumps(Array(items));
    DumpsListStripped(items);
    assert decode(t) == Ok(Array(items));
    assert ValidateModifications(t, decode) == Ok(t);
  }
}
