/** The EA's hand-written JSON: escaping by replacement, and scanning for one string or object by key. */
module JsonScan {
  import opened Wrappers

  // ----- Escaping -----

  function ReplaceAll(s: string, c: char, with: string): string {
    if s == "" then "" else (if s[0] == c then with else [s[0]]) + ReplaceAll(s[1..], c, with)
  }

  /** Five replacements, one after the other; the backslash must come first. */
  function JsonEscape(s: string): string {
    var t := ReplaceAll(s, '\\', "\\\\");
    var quoted := ReplaceAll(t, '\"', "\\\"");
    ReplaceAll(ReplaceAll(ReplaceAll(quoted, '\r', "\\r"), '\n', "\\n"), '\t', "\\t")
  }

  // ----- Searching -----

  predicate OccursAt(s: string, needle: string, i: int) {
    0 <= i <= |s| - |needle| && s[i..i + |needle|] == needle
  }

  /** The first occurrence from start on. */
  function Find(s: string, needle: string, start: nat): (r: Option<nat>)
    ensures r.Some? ==> start <= r.value && OccursAt(s, needle, r.value)
    ensures forall i | start <= i && (r.Some? ==> i < r.value) :: !OccursAt(s, needle, i)
    decreases |s| - start
  {
    if start + |needle| > |s| then None
    else if OccursAt(s, needle, start) then Some(start)
    else Find(s, needle, start + 1)
  }

  function Needle(key: string): string {
    "\"" + key + "\""
  }

  predicate IsBlank(c: char) {
    c == ' ' || c == '\t'
  }

  predicate IsSpace(c: char) {
    IsBlank(c) || c == '\r' || c == '\n'
  }

  function SkipBlanks(s: string, p: nat): (q: nat)
    requires p <= |s|
    ensures p <= q <= |s|
    decreases |s| - p
  {
    if p < |s| && IsBlank(s[p]) then SkipBlanks(s, p + 1) else p
  }

  function SkipSpace(s: string, p: nat): (q: nat)
    requires p <= |s|
    ensures p <= q <= |s|
    decreases |s| - p
  {
    if p < |s| && IsSpace(s[p]) then SkipSpace(s, p + 1) else p
  }

  /** The position after the colon that follows the first occurrence of the quoted key. */
  function ValueStart(json: string, key: string): (p: Option<nat>)
    ensures p.Some? ==> p.value <= |json|
  {
    var at :- Find(json, Needle(key), 0);
    var colon :- Find(json, ":", at + |Needle(key)|);
    Some(colon + 1)
  }

  // ----- Strings -----

  function Unescaped(c: char): char {
    if c == 'n' then '\n' else if c == 'r' then '\r' else if c == 't' then '\t' else c
  }

  /** The text up to the closing quote; None: it never comes. */
  function Decode(s: string, escaped: bool): Option<string> {
    if s == "" then None
    else if escaped then Prepend(Unescaped(s[0]), Decode(s[1..], false))
    else if s[0] == '\\' then Decode(s[1..], true)
    else if s[0] == '\"' then Some("")
    else Prepend(s[0], Decode(s[1..], false))
  }

  function Prepend(c: char, s: Option<string>): Option<string> {
    if s.None? then None else Some([c] + s.value)
  }

  function JsonStringOf(json: string, key: string, fallback: string): string {
    match ValueStart(json, key)
    case None => fallback
    case Some(start) =>
      var p := SkipBlanks(json, start);
      if p == |json| || json[p] != '\"' then fallback
      else
        match Decode(json[p + 1..], false)
        case None => fallback
        case Some(text) => text
  }

  /** What is left to read, after the part read so far. */
  function After(out: string, rest: Option<string>): Option<string> {
    if rest.None? then None else Some(out + rest.value)
  }

  lemma AfterPrepend(out: string, c: char, rest: Option<string>)
    ensures After(out, Prepend(c, rest)) == After(out + [c], rest)
  {
    if rest.Some? {
      assert out + ([c] + rest.value) == out + [c] + rest.value;
    }
  }

  lemma NoneAfter(out: string)
    ensures After(out, None) == None
  {
  }

  /** Reading ends at the closing quote. */
  lemma AfterQuote(out: string)
    ensures After(out, Some("")) == Some(out)
  {
    assert out + "" == out;
  }

  lemma AfterNothing(rest: Option<string>)
    ensures After("", rest) == rest
  {
    if rest.Some? {
      assert "" + rest.value == rest.value;
    }
  }

  method JsonString(json: string, key: string, fallback: string) returns (r: string)
    ensures r == JsonStringOf(json, key, fallback)
  {
    var start := ValueStart(json, key);
    if start.None? {
      return fallback;
    }
    var p := start.value;
    while p < |json| && IsBlank(json[p])
      invariant start.value <= p <= |json| && SkipBlanks(json, start.value) == SkipBlanks(json, p)
    {
      p := p + 1;
    }
    if p >= |json| || json[p] != '\"' {
      return fallback;
    }
    var text := ScanString(json, p + 1);
    r := if text.None? then fallback else text.value;
  }

  /** The decoding loop of the same function. */
  method ScanString(json: string, p: nat) returns (text: Option<string>)
    requires p <= |json|
    ensures text == Decode(json[p..], false)
  {
    hide After, Unescaped;
    var out: string, escaped := "", false;
    AfterNothing(Decode(json[p..], false));
    for i := p to |json|
      invariant Decode(json[p..], false) == After(out, Decode(json[i..], escaped))
    {
      var c := json[i];
      assert json[i..][1..] == json[i + 1..];
      if escaped {
        AfterPrepend(out, Unescaped(c), Decode(json[i + 1..], false));
        out := out + [Unescaped(c)];
        escaped := false;
      } else if c == '\\' {
        escaped := true;
      } else if c == '\"' {
        AfterQuote(out);
        return Some(out);
      } else {
        AfterPrepend(out, c, Decode(json[i + 1..], false));
        out := out + [c];
      }
    }
    NoneAfter(out);
    text := None;
  }

  // ----- Objects -----

  datatype State = State(depth: int, inString: bool, escaped: bool)

  function Step(s: State, c: char): State {
    if s.inString then
      if s.escaped then s.(escaped := false)
      else if c == '\\' then s.(escaped := true)
      else if c == '\"' then s.(inString := false)
      else s
    else if c == '\"' then s.(inString := true)
    else if c == '{' then s.(depth := s.depth + 1)
    else if c == '}' then s.(depth := s.depth - 1)
    else s
  }

  /** The character closes the object. */
  predicate Closes(s: State, c: char) {
    !s.inString && c == '}' && s.depth == 1
  }

  /** How many characters the object takes; None: it does not end. */
  function Extent(s: State, text: string): (n: Option<nat>)
    ensures n.Some? ==> n.value <= |text|
    decreases |text|
  {
    if text == "" then None
    else if Closes(s, text[0]) then Some(1)
    else
      var rest :- Extent(Step(s, text[0]), text[1..]);
      Some(1 + rest)
  }

  const OUTSIDE := State(0, false, false)

  function JsonObjectOf(json: string, key: string): string {
    match ValueStart(json, key)
    case None => ""
    case Some(start) =>
      var p := SkipSpace(json, start);
      if p == |json| || json[p] != '{' then ""
      else
        match Extent(OUTSIDE, json[p..])
        case None => ""
        case Some(n) => json[p..p + n]
  }

  method JsonObject(json: string, key: string) returns (r: string)
    ensures r == JsonObjectOf(json, key)
  {
    var start := ValueStart(json, key);
    if start.None? {
      return "";
    }
    var p := start.value;
    while p < |json| && IsSpace(json[p])
      invariant start.value <= p <= |json| && SkipSpace(json, start.value) == SkipSpace(json, p)
    {
      p := p + 1;
    }
    if p >= |json| || json[p] != '{' {
      return "";
    }
    var n := ScanObject(json, p);
    r := if n.None? then "" else json[p..p + n.value];
  }

  /** The scanning loop of the same function. */
  method ScanObject(json: string, p: nat) returns (n: Option<nat>)
    requires p <= |json|
    ensures n == Extent(OUTSIDE, json[p..])
  {
    var depth, inString, escaped := 0, false, false;
    for i := p to |json|
      invariant Extent(OUTSIDE, json[p..]) == Later(i - p, Extent(State(depth, inString, escaped), json[i..]))
    {
      var c := json[i];
      assert json[i..][1..] == json[i + 1..];
      if inString {
        if escaped {
          escaped := false;
        } else if c == '\\' {
          escaped := true;
        } else if c == '\"' {
          inString := false;
        }
        continue;
      }
      if c == '\"' {
        inString := true;
      } else if c == '{' {
        depth := depth + 1;
      } else if c == '}' {
        depth := depth - 1;
        if depth == 0 {
          return Some(i - p + 1);
        }
      }
    }
    n := None;
  }

  function Later(offset: nat, n: Option<nat>): Option<nat> {
    if n.None? then None else Some(offset + n.value)
  }
}
