/**
 * The React app's translations (src/i18n/index.ts): a key is a dotted
 * path into the nested string table of a locale; a missing entry falls
 * back to English and then to the key itself; `{{word}}` placeholders are
 * filled from the parameters in one left-to-right pass.
 */
module I18n {
  import opened Common

  /** The locale tables as parsed JSON. */
  datatype Json =
    | JString(text: string)
    | JObject(fields: map<string, Json>)
    | JNumber(n: int)
    | JBool(b: bool)
    | JNull

  const DEFAULT_LOCALE: string := "en"

  // ---------------------------------------------------------------------
  // getByPath
  // ---------------------------------------------------------------------

  /** The value reached by following `parts` from `obj`, each step through an object's own key. */
  function Walk(obj: Json, parts: seq<string>): (r: Option<Json>)
    ensures |parts| == 0 ==> r == Some(obj)
    decreases |parts|
  {
    if |parts| == 0 then Some(obj)
    else if obj.JObject? && parts[0] in obj.fields then Walk(obj.fields[parts[0]], parts[1..])
    else None
  }

  /** getByPath's result: the string at the end of the dotted path, or null (None). */
  function LookupPath(obj: Json, path: string): (r: Option<string>)
    ensures r.Some? ==> Walk(obj, Split(path, '.')) == Some(JString(r.value))
    ensures r.None? ==> Walk(obj, Split(path, '.')).None? || !Walk(obj, Split(path, '.')).value.JString?
  {
    match Walk(obj, Split(path, '.'))
    case Some(JString(s)) => Some(s)
    case _ => None
  }

  /** A walk through a non-object stops at once: a string table has no entries below a string. */
  lemma WalkThroughLeaf(obj: Json, parts: seq<string>)
    requires !obj.JObject? && |parts| > 0
    ensures Walk(obj, parts) == None
  {
  }

  /** Walking a path in two pieces is walking it whole. */
  lemma {:induction false} WalkAppend(obj: Json, a: seq<string>, b: seq<string>)
    ensures Walk(obj, a + b) == (if Walk(obj, a).Some? then Walk(Walk(obj, a).value, b) else None)
    decreases |a|
  {
    if |a| > 0 {
      assert (a + b)[0] == a[0] && (a + b)[1..] == a[1..] + b;
      if obj.JObject? && a[0] in obj.fields {
        WalkAppend(obj.fields[a[0]], a[1..], b);
      }
    } else {
      assert a + b == b;
    }
  }

  /** getByPath: the loop over the path's segments, reassigning `current`. */
  method GetByPath(obj: Json, path: string) returns (r: Option<string>)
    ensures r == LookupPath(obj, path)
  {
    if !obj.JObject? {
      WalkThroughLeaf(obj, Split(path, '.'));
      return None;
    }
    var parts := Split(path, '.');
    var current := obj;
    var i := 0;
    while i < |parts|
      invariant 0 <= i <= |parts|
      invariant Walk(obj, parts) == Walk(current, parts[i..])
    {
      assert parts[i..][0] == parts[i] && parts[i..][1..] == parts[i + 1..];
      if !current.JObject? || parts[i] !in current.fields {
        return None;
      }
      current := current.fields[parts[i]];
      i := i + 1;
    }
    assert parts[|parts|..] == [];
    if current.JString? {
      return Some(current.text);
    }
    return None;
  }

  // ---------------------------------------------------------------------
  // interpolate
  // ---------------------------------------------------------------------

  /** A parameter value; a missing key and null both become the empty string. */
  datatype Param = PString(s: string) | PNumber(n: int) | PNull

  /** \w: ASCII letters, digits and '_'. */
  predicate IsWordChar(c: char)
  {
    ('a' <= c <= 'z') || ('A' <= c <= 'Z') || ('0' <= c <= '9') || c == '_'
  }

  /** The length of the run of word characters `s` starts with. */
  function WordRun(s: string): (n: nat)
    ensures n <= |s|
    ensures forall i :: 0 <= i < n ==> IsWordChar(s[i])
    ensures n < |s| ==> !IsWordChar(s[n])
    decreases |s|
  {
    if |s| > 0 && IsWordChar(s[0]) then 1 + WordRun(s[1..]) else 0
  }

  /** When `s` starts with a match of {{(\w+)}}: the captured word and the match's length. */
  function PlaceholderAt(s: string): (r: Option<(string, nat)>)
    ensures r.Some? ==> 5 <= r.value.1 <= |s| && |r.value.0| == r.value.1 - 4
    ensures r.Some? ==> s[..r.value.1] == "{{" + r.value.0 + "}}"
  {
    if |s| >= 2 && s[0] == '{' && s[1] == '{' then
      var n := WordRun(s[2..]);
      if n > 0 && n + 4 <= |s| && s[n + 2] == '}' && s[n + 3] == '}' then Some((s[2..n + 2], n + 4)) else None
    else None
  }

  /** What a placeholder becomes: String(value), or '' for a missing or null parameter. */
  function ParamText(params: map<string, Param>, key: string): string
  {
    if key !in params then ""
    else match params[key]
      case PString(s) => s
      case PNumber(n) => IntToString(n)
      case PNull => ""
  }

  /** replace(/\{\{(\w+)\}\}/g, …): one scan from the left; replaced text is not scanned again. */
  function Substitute(s: string, params: map<string, Param>): string
    decreases |s|
  {
    if |s| == 0 then []
    else
      match PlaceholderAt(s)
      case Some((key, len)) => ParamText(params, key) + Substitute(s[len..], params)
      case None => [s[0]] + Substitute(s[1..], params)
  }

  /** interpolate: the value untouched without parameters, substituted with them. */
  function Interpolate(value: string, params: Option<map<string, Param>>): (r: string)
    ensures params.None? ==> r == value
  {
    if params.None? then value else Substitute(value, params.value)
  }

  /** "{{" does not occur in `s`. */
  predicate NoOpenBraces(s: string)
  {
    forall i :: 0 <= i < |s| - 1 ==> !(s[i] == '{' && s[i + 1] == '{')
  }

  /** Text without "{{" comes out of interpolation unchanged, whatever the parameters. */
  lemma {:induction false} SubstituteNoPlaceholder(s: string, params: map<string, Param>)
    requires NoOpenBraces(s)
    ensures Substitute(s, params) == s
    decreases |s|
  {
    if |s| > 0 {
      assert PlaceholderAt(s).None?;
      assert NoOpenBraces(s[1..]) by {
        forall i | 0 <= i < |s[1..]| - 1
          ensures !(s[1..][i] == '{' && s[1..][i + 1] == '{')
        {
          assert s[1..][i] == s[i + 1] && s[1..][i + 1] == s[i + 2];
        }
      }
      SubstituteNoPlaceholder(s[1..], params);
    }
  }

  /**
   * A placeholder at the front is replaced by its parameter and the scan
   * goes on after it: the inserted text is never itself substituted.
   */
  lemma SubstituteLeadingPlaceholder(key: string, rest: string, params: map<string, Param>)
    requires |key| > 0 && forall i :: 0 <= i < |key| ==> IsWordChar(key[i])
    ensures Substitute("{{" + key + "}}" + rest, params) == ParamText(params, key) + Substitute(rest, params)
  {
    var s := "{{" + key + "}}" + rest;
    assert s[2..] == key + ("}}" + rest);
    assert WordRun(s[2..]) == |key| by {
      WordRunOfWord(key, "}}" + rest);
    }
    assert s[2..|key| + 2] == key;
    assert s[|key| + 4..] == rest;
  }

  /** The word run of a word followed by a non-word character is that word. */
  lemma {:induction false} WordRunOfWord(key: string, tail: string)
    requires forall i :: 0 <= i < |key| ==> IsWordChar(key[i])
    requires |tail| > 0 && !IsWordChar(tail[0])
    ensures WordRun(key + tail) == |key|
    decreases |key|
  {
    if |key| > 0 {
      assert (key + tail)[1..] == key[1..] + tail;
      WordRunOfWord(key[1..], tail);
    }
  }

  /** A parameter whose value is itself a placeholder is inserted literally. */
  lemma SubstituteIsSinglePass()
    ensures Substitute("{{a}}", map["a" := PString("{{a}}")]) == "{{a}}"
  {
    assert "{{" + "a" + "}}" + "" == "{{a}}";
    SubstituteLeadingPlaceholder("a", "", map["a" := PString("{{a}}")]);
  }

  // ---------------------------------------------------------------------
  // translate
  // ---------------------------------------------------------------------

  /** The table of a locale: its own, or English for a locale without one. */
  function SourceTable(resources: map<string, Json>, locale: string): Json
  {
    if locale in resources then resources[locale]
    else if DEFAULT_LOCALE in resources then resources[DEFAULT_LOCALE]
    else JNull
  }

  /** translate: the locale's string, else the English one, else the key; then interpolation. */
  function Translate(resources: map<string, Json>, locale: string, key: string,
                     params: Option<map<string, Param>>): (r: string)
    ensures LookupPath(SourceTable(resources, locale), key).Some? ==>
              r == Interpolate(LookupPath(SourceTable(resources, locale), key).value, params)
    ensures (LookupPath(SourceTable(resources, locale), key).None?
             && LookupPath(SourceTable(resources, DEFAULT_LOCALE), key).Some?) ==>
              r == Interpolate(LookupPath(SourceTable(resources, DEFAULT_LOCALE), key).value, params)
    ensures (LookupPath(SourceTable(resources, locale), key).None?
             && LookupPath(SourceTable(resources, DEFAULT_LOCALE), key).None?) ==>
              r == Interpolate(key, params)
  {
    var translated :=
      match LookupPath(SourceTable(resources, locale), key)
      case Some(s) => s
      case None =>
        match LookupPath(SourceTable(resources, DEFAULT_LOCALE), key)
        case Some(s) => s
        case None => key;
    Interpolate(translated, params)
  }

  /** A locale without a table translates exactly as English does. */
  lemma UnknownLocaleIsEnglish(resources: map<string, Json>, locale: string, key: string,
                               params: Option<map<string, Param>>)
    requires locale !in resources
    ensures Translate(resources, locale, key, params) == Translate(resources, DEFAULT_LOCALE, key, params)
  {
  }

  /** A key no table knows, without parameters, translates to itself. */
  lemma MissingKeyIsItself(resources: map<string, Json>, locale: string, key: string)
    requires LookupPath(SourceTable(resources, locale), key).None?
    requires LookupPath(SourceTable(resources, DEFAULT_LOCALE), key).None?
    ensures Translate(resources, locale, key, None) == key
  {
  }
}
