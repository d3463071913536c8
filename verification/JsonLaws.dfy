/** Reading back what was escaped, and cutting out exactly one object, for texts of the grammar in RFC 8259. */
module JsonLaws {
  import opened Wrappers
  import opened JsonScan

  // ----- The replacements act as one map over the characters -----

  function EscapeChar(c: char): string {
    if c == '\\' then "\\\\"
    else if c == '\"' then "\\\""
    else if c == '\r' then "\\r"
    else if c == '\n' then "\\n"
    else if c == '\t' then "\\t"
    else [c]
  }

  function EscapeEach(s: string): string {
    if s == "" then "" else EscapeChar(s[0]) + EscapeEach(s[1..])
  }

  lemma {:induction false} ReplaceConcat(s: string, t: string, c: char, with: string)
    ensures ReplaceAll(s + t, c, with) == ReplaceAll(s, c, with) + ReplaceAll(t, c, with)
  {
    if s == "" {
      assert s + t == t;
    } else {
      assert (s + t)[1..] == s[1..] + t;
      ReplaceConcat(s[1..], t, c, with);
    }
  }

  lemma EscapeConcat(s: string, t: string)
    ensures JsonEscape(s + t) == JsonEscape(s) + JsonEscape(t)
  {
    hide ReplaceAll;
    ReplaceConcat(s, t, '\\', "\\\\");
    var s1, t1 := ReplaceAll(s, '\\', "\\\\"), ReplaceAll(t, '\\', "\\\\");
    ReplaceConcat(s1, t1, '\"', "\\\"");
    var s2, t2 := ReplaceAll(s1, '\"', "\\\""), ReplaceAll(t1, '\"', "\\\"");
    ReplaceConcat(s2, t2, '\r', "\\r");
    var s3, t3 := ReplaceAll(s2, '\r', "\\r"), ReplaceAll(t2, '\r', "\\r");
    ReplaceConcat(s3, t3, '\n', "\\n");
    var s4, t4 := ReplaceAll(s3, '\n', "\\n"), ReplaceAll(t3, '\n', "\\n");
    ReplaceConcat(s4, t4, '\t', "\\t");
  }

  lemma ReplaceOne(x: char, c: char, with: string)
    ensures ReplaceAll([x], c, with) == if x == c then with else [x]
  {
  }

  lemma ReplaceTwo(x: char, y: char, c: char, with: string)
    requires x != c && y != c
    ensures ReplaceAll([x, y], c, with) == [x, y]
  {
    assert [x, y] == [x] + [y];
    ReplaceConcat([x], [y], c, with);
    ReplaceOne(x, c, with);
    ReplaceOne(y, c, with);
  }

  /** No replacement touches what an earlier one produced. */
  lemma EscapeOne(c: char)
    ensures JsonEscape([c]) == EscapeChar(c)
  {
    hide ReplaceAll;
    ReplaceOne(c, '\\', "\\\\");
    ReplaceOne(c, '\"', "\\\"");
    ReplaceOne(c, '\r', "\\r");
    ReplaceOne(c, '\n', "\\n");
    ReplaceOne(c, '\t', "\\t");
    if c == '\\' {
      ReplaceTwo('\\', '\\', '\"', "\\\"");
      ReplaceTwo('\\', '\\', '\r', "\\r");
      ReplaceTwo('\\', '\\', '\n', "\\n");
      ReplaceTwo('\\', '\\', '\t', "\\t");
    } else if c == '\"' {
      ReplaceTwo('\\', '\"', '\r', "\\r");
      ReplaceTwo('\\', '\"', '\n', "\\n");
      ReplaceTwo('\\', '\"', '\t', "\\t");
    } else if c == '\r' {
      ReplaceTwo('\\', 'r', '\n', "\\n");
      ReplaceTwo('\\', 'r', '\t', "\\t");
    } else if c == '\n' {
      ReplaceTwo('\\', 'n', '\t', "\\t");
    }
  }

  lemma {:induction false} EscapeIsCharMap(s: string)
    ensures JsonEscape(s) == EscapeEach(s)
  {
    if s != "" {
      assert s == [s[0]] + s[1..];
      EscapeConcat([s[0]], s[1..]);
      EscapeOne(s[0]);
      EscapeIsCharMap(s[1..]);
      hide JsonEscape, EscapeChar;
    }
  }

  // ----- Escape, then decode -----

  /** The scanner's decoding undoes the escaping of every string, and stops right after it. */
  lemma {:induction false} DecodeEscaped(s: string, post: string)
    ensures Decode(EscapeEach(s) + "\"" + post, false) == Some(s)
  {
    if s == "" {
      assert EscapeEach(s) + "\"" + post == "\"" + post;
    } else {
      var rest := EscapeEach(s[1..]) + "\"" + post;
      assert EscapeEach(s) + "\"" + post == EscapeChar(s[0]) + rest;
      DecodeEscaped(s[1..], post);
      DecodeChar(s[0], rest);
      assert [s[0]] + s[1..] == s;
    }
  }

  lemma DecodeChar(c: char, rest: string)
    ensures Decode(EscapeChar(c) + rest, false) == Prepend(c, Decode(rest, false))
  {
  }

  /** The text around a value: the key is quoted, and only the gap before the colon is free of colons. */
  function Framed(pre: string, key: string, gap: string, blanks: string, value: string, post: string): string {
    pre + Needle(key) + gap + ":" + blanks + value + post
  }

  lemma Cut(a: string, b: string, c: string)
    ensures (a + b + c)[|a|..|a| + |b|] == b
    ensures (a + b + c)[|a| + |b|..] == c
    ensures (a + b + c)[|a|..] == b + c
  {
  }

  /** The colon is found behind a gap without colons. */
  lemma FindColon(s: string, start: nat, gap: string)
    requires start + |gap| < |s| && s[start..start + |gap|] == gap && ':' !in gap && s[start + |gap|] == ':'
    ensures Find(s, ":", start) == Some(start + |gap|)
  {
    assert OccursAt(s, ":", start + |gap|);
    forall i | start <= i < start + |gap|
      ensures !OccursAt(s, ":", i)
    {
      assert s[i..i + 1][0] == s[i] == gap[i - start];
    }
  }

  lemma StartOfValue(json: string, pre: string, key: string, gap: string, tail: string)
    requires json == pre + Needle(key) + gap + ":" + tail && ':' !in gap
    requires Find(json, Needle(key), 0) == Some(|pre|)
    ensures ValueStart(json, key) == Some(|pre| + |Needle(key)| + |gap| + 1)
    ensures json[|pre| + |Needle(key)| + |gap| + 1..] == tail
  {
    var at := |pre| + |Needle(key)|;
    Cut(pre + Needle(key), gap, ":" + tail);
    assert json == pre + Needle(key) + gap + (":" + tail);
    assert json[at..at + |gap|] == gap;
    assert json[at + |gap|..] == ":" + tail;
    FindColon(json, at, gap);
    assert json[at + |gap| + 1..] == (":" + tail)[1..] == tail;
  }

  lemma {:induction false} BlanksSkipped(s: string, p: nat, blanks: string)
    requires p + |blanks| < |s| && s[p..p + |blanks|] == blanks && (forall c | c in blanks :: IsBlank(c))
    requires !IsBlank(s[p + |blanks|])
    ensures SkipBlanks(s, p) == p + |blanks|
    decreases |blanks|
  {
    if blanks != "" {
      assert s[p] == blanks[0] && s[p + 1..p + 1 + |blanks[1..]|] == blanks[1..];
      BlanksSkipped(s, p + 1, blanks[1..]);
    }
  }

  lemma {:induction false} SpaceSkipped(s: string, p: nat, blanks: string)
    requires p + |blanks| < |s| && s[p..p + |blanks|] == blanks && (forall c | c in blanks :: IsSpace(c))
    requires !IsSpace(s[p + |blanks|])
    ensures SkipSpace(s, p) == p + |blanks|
    decreases |blanks|
  {
    if blanks != "" {
      assert s[p] == blanks[0] && s[p + 1..p + 1 + |blanks[1..]|] == blanks[1..];
      SpaceSkipped(s, p + 1, blanks[1..]);
    }
  }

  /** Round trip: any string, escaped and framed under a key that first occurs there, reads back unchanged. */
  lemma StringRoundTrip(pre: string, key: string, gap: string, blanks: string, value: string, post: string, fallback: string)
    requires ':' !in gap && forall c | c in blanks :: IsBlank(c)
    requires Find(Framed(pre, key, gap, blanks, "\"" + JsonEscape(value) + "\"", post), Needle(key), 0) == Some(|pre|)
    ensures JsonStringOf(Framed(pre, key, gap, blanks, "\"" + JsonEscape(value) + "\"", post), key, fallback) == value
  {
    hide Find, JsonEscape, Needle, Decode, JsonStringOf;
    var quoted := "\"" + JsonEscape(value) + "\"";
    var json := Framed(pre, key, gap, blanks, quoted, post);
    var tail := blanks + quoted + post;
    assert json == pre + Needle(key) + gap + ":" + tail;
    StartOfValue(json, pre, key, gap, tail);
    hide ValueStart, Framed;
    EscapeIsCharMap(value);
    DecodeEscaped(value, post);
    ReadBack(json, key, fallback, ValueStart(json, key).value, blanks, JsonEscape(value), value, post);
  }

  lemma ReadBack(json: string, key: string, fallback: string, start: nat, blanks: string, body: string, value: string, post: string)
    requires ValueStart(json, key) == Some(start) && start <= |json| && json[start..] == blanks + ("\"" + body + "\"") + post
    requires (forall c | c in blanks :: IsBlank(c)) && Decode(body + "\"" + post, false) == Some(value)
    ensures JsonStringOf(json, key, fallback) == value
  {
    hide ValueStart, Decode;
    var quoted := "\"" + body + "\"";
    TailAt(json, start, blanks, quoted, post);
    BlanksSkipped(json, start, blanks);
    var p := start + |blanks|;
    assert quoted + post == "\"" + (body + "\"" + post);
    assert json[p + 1..] == json[p..][1..] == body + "\"" + post;
  }

  lemma TailAt(json: string, start: nat, blanks: string, value: string, post: string)
    requires start <= |json| && json[start..] == blanks + value + post && value != ""
    ensures start + |blanks| < |json| && json[start..start + |blanks|] == blanks && json[start + |blanks|] == value[0]
    ensures json[start + |blanks|..] == value + post
  {
  }

  // ----- JSON texts, section 2 of RFC 8259 -----

  /** A character of a string, or a backslash and the character after it; section 7. The four digits
      after a \u are plain characters of their own, as a scan for the end of a text meets them. */
  datatype Piece = Plain(c: char) | Escape(c: char)

  /** Layout strings are part of the tree, so that Print yields every spacing of a text. Word covers
      numbers and the three literal names. */
  datatype Value =
    | Word(text: string)
    | Text(pieces: seq<Piece>)
    | Array(pad: string, items: Items)
    | Object(pad: string, members: Members)

  datatype Items = NoItems | Item(before: string, value: Value, after: string, rest: Items)

  datatype Members = NoMembers | Member(before: string, name: seq<Piece>, colonBefore: string, colonAfter: string,
                                        value: Value, after: string, rest: Members)

  predicate ValidPiece(p: Piece) {
    match p
    case Plain(c) => c != '\"' && c != '\\'
    case Escape(c) => c in "\"\\/bfnrtu"
  }

  predicate WordChar(c: char) {
    '0' <= c <= '9' || 'a' <= c <= 'z' || c in "+-.E"
  }

  predicate Layout(s: string) {
    forall c | c in s :: IsSpace(c)
  }

  predicate Valid(j: Value) {
    match j
    case Word(text) => text != "" && forall c | c in text :: WordChar(c)
    case Text(pieces) => forall p | p in pieces :: ValidPiece(p)
    case Array(pad, items) => Layout(pad) && ValidItems(items)
    case Object(pad, members) => Layout(pad) && ValidMembers(members)
  }

  predicate ValidItems(items: Items) {
    items.NoItems? || (Layout(items.before) && Valid(items.value) && Layout(items.after) && ValidItems(items.rest))
  }

  predicate ValidMembers(m: Members) {
    m.NoMembers?
    || (Layout(m.before) && (forall p | p in m.name :: ValidPiece(p)) && Layout(m.colonBefore) && Layout(m.colonAfter)
        && Valid(m.value) && Layout(m.after) && ValidMembers(m.rest))
  }

  function Body(pieces: seq<Piece>): string {
    if pieces == [] then ""
    else (if pieces[0].Plain? then [pieces[0].c] else ['\\', pieces[0].c]) + Body(pieces[1..])
  }

  function Quoted(pieces: seq<Piece>): string {
    "\"" + Body(pieces) + "\""
  }

  function Print(j: Value): string {
    match j
    case Word(text) => text
    case Text(pieces) => Quoted(pieces)
    case Array(pad, items) => "[" + pad + PrintItems(items) + "]"
    case Object(pad, members) => "{" + pad + PrintMembers(members) + "}"
  }

  function PrintItems(items: Items): string {
    if items.NoItems? then ""
    else items.before + Print(items.value) + items.after
         + (if items.rest.NoItems? then "" else "," + PrintItems(items.rest))
  }

  function PrintMembers(m: Members): string {
    if m.NoMembers? then ""
    else m.before + Quoted(m.name) + m.colonBefore + ":" + m.colonAfter + Print(m.value) + m.after
         + (if m.rest.NoMembers? then "" else "," + PrintMembers(m.rest))
  }

  // ----- The scanner over printed texts -----

  function Fold(s: State, text: string): State
    decreases |text|
  {
    if text == "" then s else Fold(Step(s, text[0]), text[1..])
  }

  /** The scanner reads the text from one state to another without finding the end of the object. */
  ghost predicate Passes(s: State, text: string, t: State) {
    Extent(s, text).None? && Fold(s, text) == t
  }

  /** What follows a passed text is scanned from the state it leaves. */
  lemma {:induction false} ExtentAfter(s: State, text: string, t: State, rest: string)
    requires Passes(s, text, t)
    ensures Extent(s, text + rest) == Later(|text|, Extent(t, rest))
    ensures Fold(s, text + rest) == Fold(t, rest)
    decreases |text|
  {
    if text == "" {
      assert text + rest == rest;
    } else {
      assert (text + rest)[1..] == text[1..] + rest;
      ExtentAfter(Step(s, text[0]), text[1..], t, rest);
    }
  }

  lemma PassBoth(s: State, a: string, t: State, b: string, u: State)
    requires Passes(s, a, t) && Passes(t, b, u)
    ensures Passes(s, a + b, u)
  {
    ExtentAfter(s, a, t, b);
  }

  function Outside(depth: int): State {
    State(depth, false, false)
  }

  function Inside(depth: int): State {
    State(depth, true, false)
  }

  predicate Neutral(c: char) {
    c != '\"' && c != '{' && c != '}'
  }

  lemma {:induction false} PassNeutral(d: int, text: string)
    requires forall c | c in text :: Neutral(c)
    ensures Passes(Outside(d), text, Outside(d))
    decreases |text|
  {
    if text != "" {
      assert text[0] in text;
      PassNeutral(d, text[1..]);
    }
  }

  lemma PassLayout(d: int, text: string)
    requires Layout(text)
    ensures Passes(Outside(d), text, Outside(d))
  {
    PassNeutral(d, text);
  }

  lemma {:induction false} PassBody(d: int, pieces: seq<Piece>)
    requires forall p | p in pieces :: ValidPiece(p)
    ensures Passes(Inside(d), Body(pieces), Inside(d))
    decreases |pieces|
  {
    if pieces != [] {
      var p := pieces[0];
      assert p in pieces;
      PassBody(d, pieces[1..]);
      PassPiece(d, p);
      PassBoth(Inside(d), if p.Plain? then [p.c] else ['\\', p.c], Inside(d), Body(pieces[1..]), Inside(d));
    }
  }

  lemma PassPiece(d: int, p: Piece)
    requires ValidPiece(p)
    ensures Passes(Inside(d), if p.Plain? then [p.c] else ['\\', p.c], Inside(d))
  {
    if p.Plain? {
      PassOne(Inside(d), p.c);
    } else {
      var escaped := State(d, true, true);
      PassOne(Inside(d), '\\');
      PassOne(escaped, p.c);
      PassBoth(Inside(d), "\\", escaped, [p.c], Inside(d));
      assert "\\" + [p.c] == ['\\', p.c];
    }
  }

  lemma PassOne(s: State, c: char)
    requires !Closes(s, c)
    ensures Passes(s, [c], Step(s, c))
  {
  }

  lemma PassQuoted(d: int, pieces: seq<Piece>)
    requires forall p | p in pieces :: ValidPiece(p)
    ensures Passes(Outside(d), Quoted(pieces), Outside(d))
  {
    PassOne(Outside(d), '\"');
    PassBody(d, pieces);
    PassOne(Inside(d), '\"');
    hide Passes;
    PassBoth(Outside(d), "\"", Inside(d), Body(pieces), Inside(d));
    PassBoth(Outside(d), "\"" + Body(pieces), Inside(d), "\"", Outside(d));
  }

  /** Inside an object every value is passed at the same depth. */
  lemma {:induction false} PassValue(d: int, j: Value)
    requires d >= 1 && Valid(j)
    ensures Passes(Outside(d), Print(j), Outside(d))
    decreases j, 0
  {
    hide Passes;
    match j {
      case Word(text) =>
        PassNeutral(d, text);
      case Text(pieces) =>
        PassQuoted(d, pieces);
      case Array(pad, items) =>
        PassNeutral(d, "[");
        PassLayout(d, pad);
        PassItems(d, items);
        PassNeutral(d, "]");
        PassBoth(Outside(d), "[", Outside(d), pad, Outside(d));
        PassBoth(Outside(d), "[" + pad, Outside(d), PrintItems(items), Outside(d));
        PassBoth(Outside(d), "[" + pad + PrintItems(items), Outside(d), "]", Outside(d));
      case Object(pad, members) =>
        PassOpen(d, pad, members);
        PassOne(Outside(d + 1), '}');
        PassBoth(Outside(d), "{" + pad + PrintMembers(members), Outside(d + 1), "}", Outside(d));
    }
  }

  lemma {:induction false} PassItems(d: int, items: Items)
    requires d >= 1 && ValidItems(items)
    ensures Passes(Outside(d), PrintItems(items), Outside(d))
    decreases items, 0
  {
    hide Passes, Print;
    var o := Outside(d);
    if items.NoItems? {
      PassNeutral(d, "");
    } else {
      PassLayout(d, items.before);
      PassValue(d, items.value);
      PassLayout(d, items.after);
      PassBoth(o, items.before, o, Print(items.value), o);
      PassBoth(o, items.before + Print(items.value), o, items.after, o);
      var first := items.before + Print(items.value) + items.after;
      if items.rest.NoItems? {
        assert PrintItems(items) == first;
      } else {
        PassNeutral(d, ",");
        PassItems(d, items.rest);
        PassBoth(o, ",", o, PrintItems(items.rest), o);
        PassBoth(o, first, o, "," + PrintItems(items.rest), o);
      }
    }
  }

  lemma {:induction false} PassMembers(d: int, m: Members)
    requires d >= 1 && ValidMembers(m)
    ensures Passes(Outside(d), PrintMembers(m), Outside(d))
    decreases m, 0
  {
    hide Passes, Print, Quoted;
    var o := Outside(d);
    if m.NoMembers? {
      PassNeutral(d, "");
    } else {
      PassLayout(d, m.before);
      PassQuoted(d, m.name);
      PassLayout(d, m.colonBefore);
      PassNeutral(d, ":");
      PassLayout(d, m.colonAfter);
      PassValue(d, m.value);
      PassLayout(d, m.after);
      var a := m.before + Quoted(m.name);
      PassBoth(o, m.before, o, Quoted(m.name), o);
      PassBoth(o, a, o, m.colonBefore, o);
      PassBoth(o, a + m.colonBefore, o, ":", o);
      PassBoth(o, a + m.colonBefore + ":", o, m.colonAfter, o);
      PassBoth(o, a + m.colonBefore + ":" + m.colonAfter, o, Print(m.value), o);
      PassBoth(o, a + m.colonBefore + ":" + m.colonAfter + Print(m.value), o, m.after, o);
      var first := a + m.colonBefore + ":" + m.colonAfter + Print(m.value) + m.after;
      if m.rest.NoMembers? {
        assert PrintMembers(m) == first;
      } else {
        PassNeutral(d, ",");
        PassMembers(d, m.rest);
        PassBoth(o, ",", o, PrintMembers(m.rest), o);
        PassBoth(o, first, o, "," + PrintMembers(m.rest), o);
      }
    }
  }

  /** An object up to its closing brace, which leaves the scanner one level deeper. */
  lemma {:induction false} PassOpen(d: int, pad: string, members: Members)
    requires d >= 0 && Layout(pad) && ValidMembers(members)
    ensures Passes(Outside(d), "{" + pad + PrintMembers(members), Outside(d + 1))
    decreases members, 1
  {
    PassOne(Outside(d), '{');
    hide Passes, PrintMembers;
    PassLayout(d + 1, pad);
    PassMembers(d + 1, members);
    PassBoth(Outside(d), "{", Outside(d + 1), pad, Outside(d + 1));
    PassBoth(Outside(d), "{" + pad, Outside(d + 1), PrintMembers(members), Outside(d + 1));
  }

  /** The scan takes exactly the object, whatever follows it. */
  lemma ExtentOfObject(j: Value, post: string)
    requires j.Object? && Valid(j)
    ensures Extent(OUTSIDE, Print(j) + post) == Some(|Print(j)|)
  {
    hide Passes;
    PassOpen(0, j.pad, j.members);
    var open := "{" + j.pad + PrintMembers(j.members);
    assert Print(j) + post == open + ("}" + post);
    ExtentAfter(OUTSIDE, open, Outside(1), "}" + post);
  }

  /** Round trip: an object printed with any layout under a key that first occurs there is cut out exactly. */
  lemma ObjectRoundTrip(pre: string, key: string, gap: string, space: string, j: Value, post: string)
    requires j.Object? && Valid(j) && ':' !in gap && Layout(space)
    requires Find(Framed(pre, key, gap, space, Print(j), post), Needle(key), 0) == Some(|pre|)
    ensures JsonObjectOf(Framed(pre, key, gap, space, Print(j), post), key) == Print(j)
  {
    hide Find, Needle, Extent, Valid, Print, JsonObjectOf;
    var json := Framed(pre, key, gap, space, Print(j), post);
    var tail := space + Print(j) + post;
    assert json == pre + Needle(key) + gap + ":" + tail;
    StartOfValue(json, pre, key, gap, tail);
    hide ValueStart, Framed, Layout;
    OpensWithBrace(j);
    ExtentOfObject(j, post);
    CutOut(json, key, ValueStart(json, key).value, space, Print(j), post);
  }

  lemma OpensWithBrace(j: Value)
    requires j.Object?
    ensures Print(j) != "" && Print(j)[0] == '{'
  {
  }

  lemma CutOut(json: string, key: string, start: nat, space: string, text: string, post: string)
    requires ValueStart(json, key) == Some(start) && start <= |json| && json[start..] == space + text + post
    requires Layout(space) && text != "" && text[0] == '{' && Extent(OUTSIDE, text + post) == Some(|text|)
    ensures JsonObjectOf(json, key) == text
  {
    hide ValueStart, Extent;
    TailAt(json, start, space, text, post);
    SpaceSkipped(json, start, space);
    var p := start + |space|;
    assert json[p..p + |text|] == json[p..][..|text|] == text;
  }
}
