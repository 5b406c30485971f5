/** Tokens, quoted strings and parameter lists of HTTP headers (sections 3.2.3 and 3.2.6 of RFC 7230).
  *
  * The specification reads a text from its front and returns what it read and the text that is left; to
  * read nothing is to leave the text as it was.  The methods move cursors over the whole input. */
module HttpParser {
  import opened Bytes

  // ---------------------------------------------------------------- characters

  /** `header_token`, sixteen characters a row; beyond these rows it is zero. */
  const HEADER_TOKEN: seq<string> := [
    "0000000000000000",
    "0000000000000000",
    "0101111100110110",
    "1111111111000000",
    "0111111111111111",
    "1111111111100011",
    "1111111111111111",
    "1111111111101010"]

  predicate IsTokenChar(c: char) {
    c as int < 128 && InTable(c as int / 16, c as int % 16)
  }

  predicate InTable(row: nat, column: nat)
    requires row < 8 && column < 16
  {
    TableShape();
    HEADER_TOKEN[row][column] == '1'
  }

  lemma TableShape()
    ensures |HEADER_TOKEN| == 8 && forall i :: 0 <= i < 8 ==> |HEADER_TOKEN[i]| == 16
  {
  }

  predicate IsWhitespaceChar(c: char) {
    c as int == 9 || c as int == 32
  }

  /** The `tchar` of section 3.2.6. */
  predicate Tchar(c: char) {
    || '0' <= c <= '9' || 'a' <= c <= 'z' || 'A' <= c <= 'Z'
    || c in {'!', '#', '$', '%', '&', '\'', '*', '+', '-', '.', '^', '_', '`', '|', '~'}
  }

  lemma TableIsTchar(c: char)
    ensures IsTokenChar(c) <==> Tchar(c)
  {
  }

  // ---------------------------------------------------------------- what is read

  function Token(t: string): (r: (string, string))
    ensures r.0 + r.1 == t && (r.1 != [] ==> !IsTokenChar(r.1[0])) && forall c :: c in r.0 ==> IsTokenChar(c)
  {
    if t == [] || !IsTokenChar(t[0]) then ([], t)
    else
      var (name, rest) := Token(t[1..]);
      ([t[0]] + name, rest)
  }

  function SkipWhitespace(t: string): (r: string)
    ensures |r| <= |t| && (r != [] ==> !IsWhitespaceChar(r[0]))
  {
    if t == [] || !IsWhitespaceChar(t[0]) then t else SkipWhitespace(t[1..])
  }

  /** One unit of linear whitespace: a line break that whitespace follows, and whitespace. */
  function Lws(t: string): (r: string)
    ensures |r| <= |t|
  {
    SkipWhitespace(if |t| > 2 && t[0] == '\r' && t[1] == '\n' && IsWhitespaceChar(t[2]) then t[3..] else t)
  }

  function AllLws(t: string): (r: string)
    ensures |r| <= |t|
    decreases |t|
  {
    var u := Lws(t);
    if u == [] || |u| == |t| then u else AllLws(u)
  }

  /** The text of a quoted string up to the closing quote.  A quote after a backslash does not close it, and
    * stands for itself; a backslash before anything else is not special. */
  function QuotedText(t: string): (r: Option<(string, string)>)
    ensures r.Some? ==> |r.value.1| < |t|
    decreases |t|
  {
    if t == [] then None
    else if t[0] == '"' then Some(([], t[1..]))
    else
      var escaped := t[0] == '\\' && |t| > 1 && t[1] == '"';
      match QuotedText(if escaped then t[2..] else t[1..])
      case None => None
      case Some((text, rest)) => Some(([if escaped then '"' else t[0]] + text, rest))
  }

  function QuotedString(t: string): (r: (string, string))
    ensures |r.1| <= |t|
  {
    if t == [] || t[0] != '"' then ([], t)
    else
      match QuotedText(t[1..])
      case None => ([], t)
      case Some((text, rest)) => (text, rest)
  }

  type AttributeList = map<string, string>

  /** The value of an attribute, quoted or not, and what is left. */
  function AttributeValue(t: string): (r: Option<(string, string)>)
    ensures r.Some? ==> |r.value.1| <= |t|
  {
    if t == [] then None
    else if QuotedString(t).1 != t then Some(QuotedString(t))
    else if Token(t).0 != [] then Some(Token(t))
    else None
  }

  /** A name and its value, which is blank if there is no equals sign, and what is left. */
  function Attribute(t: string): (r: Option<(string, string, string)>)
    ensures r.Some? ==> |r.value.2| < |t|
  {
    var (name, t2) := Token(AllLws(t));
    var t3 := AllLws(t2);
    if name == [] then None
    else if t3 == [] || t3[0] != '=' then Some((name, [], t3))
    else
      match AttributeValue(AllLws(t3[1..]))
      case None => None
      case Some((value, rest)) => Some((name, value, rest))
  }

  /** The attributes up to the end of the list, or all of the text when it is malformed. */
  function AttributesFrom(begin: string, t: string, first: bool, m: AttributeList): (r: (string, AttributeList))
    requires |t| <= |begin|
    ensures |r.0| <= |begin|
    decreases |t|
  {
    var t1 := AllLws(t);
    if t == [] || t1 == [] then ([], m)
    else if !first && t1[0] != ';' then (t1, m)
    else
      match Attribute(if first then t1 else t1[1..])
      case None => (begin, m)
      case Some((name, value, rest)) => AttributesFrom(begin, rest, false, m[name := value])
  }

  function Attributes(t: string): (r: (string, AttributeList))
    ensures |r.0| <= |t|
  {
    AttributesFrom(t, t, true, map[])
  }

  type ParameterList = seq<(string, AttributeList)>

  /** A parameter and its attributes, and what is left. */
  function Parameter(t: string): (r: Option<(string, AttributeList, string)>)
    ensures r.Some? ==> |r.value.2| < |t|
  {
    var (name, t2) := Token(t);
    var t3 := AllLws(t2);
    if name == [] then None
    else if t3 == [] || t3[0] != ';' then Some((name, map[], t3))
    else
      var (t4, m) := Attributes(t3[1..]);
      if t4 == t3[1..] then None else Some((name, m, AllLws(t4)))
  }

  function ParametersFrom(begin: string, t: string, ps: ParameterList): (string, ParameterList)
    decreases |t|, 1
  {
    var t1 := AllLws(t);
    if t == [] || t1 == [] then ([], ps)
    else
      match Parameter(t1)
      case None => (begin, ps)
      case Some((name, m, rest)) => NextParameter(begin, t, rest, ps + [(name, m)])
  }

  /** After a parameter: the end, a comma and another one, or something else. */
  function NextParameter(begin: string, before: string, t: string, ps: ParameterList): (string, ParameterList)
    requires |t| < |before|
    decreases |before|, 0
  {
    if t == [] || t[0] != ',' then (t, ps)
    else if t[1..] == [] then (begin, ps)
    else ParametersFrom(begin, t[1..], ps)
  }

  function Parameters(t: string): (string, ParameterList) {
    ParametersFrom(t, t, [])
  }

  // ---------------------------------------------------------------- what is written

  /** Every occurrence from the left, each searched for after the one before. */
  function ReplaceAll(subject: string, search: string, replacement: string): string
    requires search != []
    decreases |subject|
  {
    if |subject| < |search| then subject
    else if search <= subject then replacement + ReplaceAll(subject[|search|..], search, replacement)
    else [subject[0]] + ReplaceAll(subject[1..], search, replacement)
  }

  function Escaped(value: string): string {
    ReplaceAll(value, "\"", "\\\"")
  }

  function Quoted(value: string): string {
    "\"" + Escaped(value) + "\""
  }

  predicate EndsInBackslash(value: string) {
    value != [] && value[|value| - 1] == '\\'
  }

  lemma EscapedUnfolds(value: string)
    requires value != []
    ensures Escaped(value) == (if value[0] == '"' then "\\\"" else [value[0]]) + Escaped(value[1..])
  {
    assert "\"" <= value <==> value[0] == '"';
  }

  lemma EscapedEmpty()
    ensures Escaped([]) == []
  {
  }

  function Prepend(c: char, r: Option<(string, string)>): Option<(string, string)> {
    if r.None? then None else Some(([c] + r.value.0, r.value.1))
  }

  lemma QuotedTextSteps(c: char, tail: string)
    ensures QuotedText("\"" + tail) == Some(([], tail))
    ensures QuotedText("\\\"" + tail) == Prepend('"', QuotedText(tail))
    ensures c != '"' && !(c == '\\' && tail != [] && tail[0] == '"') ==>
      QuotedText([c] + tail) == Prepend(c, QuotedText(tail))
  {
    assert ("\"" + tail)[1..] == tail && ("\\\"" + tail)[2..] == tail && ([c] + tail)[1..] == tail;
  }

  /** Reading a quoted string undoes escaping, whatever follows, exactly for the values that do not end in
    * a backslash.  One that does is read past its closing quote, or not at all. */
  lemma {:induction false} QuotedTextRoundTrip(value: string, rest: string)
    ensures !EndsInBackslash(value) ==> QuotedText(Escaped(value) + ("\"" + rest)) == Some((value, rest))
    ensures EndsInBackslash(value) ==>
      var r := QuotedText(Escaped(value) + ("\"" + rest)); r.None? || |r.value.1| < |rest|
    decreases |value|
  {
    EscapedEmpty();
    hide Escaped, QuotedText;
    var close := "\"" + rest;
    if value == [] {
      assert Escaped(value) + close == close;
      QuotedTextSteps(' ', rest);
    } else {
      var c, tail := value[0], Escaped(value[1..]) + close;
      assert value == [c] + value[1..];
      EscapedUnfolds(value);
      QuotedTextRoundTrip(value[1..], rest);
      QuotedTextSteps(c, tail);
      Associate(if c == '"' then "\\\"" else [c], Escaped(value[1..]), close);
      if value[1..] == [] {
        assert tail == close && [c] + close == [c] + "\"" + rest;
        if c == '\\' {
          assert Escaped(value) + close == "\\\"" + rest;
          QuotedTextSteps(c, rest);
        }
      } else {
        EscapedUnfolds(value[1..]);
        assert tail[0] == if value[1] == '"' then '\\' else value[1];
      }
    }
  }

  lemma QuotedRoundTrip(value: string, rest: string)
    ensures QuotedString(Quoted(value) + rest) == (value, rest) <==> !EndsInBackslash(value)
  {
    QuotedTextRoundTrip(value, rest);
    var t := Quoted(value) + rest;
    assert t[1..] == Escaped(value) + ("\"" + rest);
  }

  // ---------------------------------------------------------------- parameter lists

  predicate IsToken(name: string) {
    name != [] && forall c :: c in name ==> IsTokenChar(c)
  }

  /** Optional linear whitespace: spaces and tabs, any of them after a line break. */
  predicate IsSpace(w: string)
    decreases |w|
  {
    || w == []
    || (IsWhitespaceChar(w[0]) && IsSpace(w[1..]))
    || (|w| > 2 && w[0] == '\r' && w[1] == '\n' && IsWhitespaceChar(w[2]) && IsSpace(w[3..]))
  }

  type Space = w: string | IsSpace(w) witness []
  type TokenText = t: string | IsToken(t) witness "a"

  /** How the value of an attribute is written, if it has one. */
  datatype Form = Blank | Plain(token: TokenText) | InQuotes(text: string)

  /** An attribute as it is written: its name and value, and the whitespace before the name, after it, before
    * the value and after that. */
  datatype Item = Item(name: string, form: Form, lead: Space, gap: Space, indent: Space, trail: Space)

  type Written = seq<Item>

  /** A parameter as it is written, with the whitespace before and after its name. */
  datatype Entry = Entry(name: string, lead: Space, gap: Space, attributes: Written)

  function ValueOf(f: Form): string {
    match f
    case Blank => []
    case Plain(token) => token
    case InQuotes(text) => text
  }

  function RenderValue(a: Item): string {
    match a.form
    case Blank => []
    case Plain(token) => "=" + (a.indent + (token + a.trail))
    case InQuotes(text) => "=" + (a.indent + (Quoted(text) + a.trail))
  }

  function RenderAttribute(a: Item): string {
    a.lead + (a.name + (a.gap + RenderValue(a)))
  }

  function RenderAttributes(attributes: Written): string {
    if attributes == [] then []
    else ";" + (RenderAttribute(attributes[0]) + RenderAttributes(attributes[1..]))
  }

  function RenderEntry(e: Entry): string {
    e.lead + (e.name + (e.gap + RenderAttributes(e.attributes)))
  }

  function RenderParameters(ps: seq<Entry>): string {
    if ps == [] then []
    else RenderEntry(ps[0]) + (if |ps| == 1 then [] else "," + RenderParameters(ps[1..]))
  }

  /** What the attributes make of an attribute list. */
  function Onto(m: AttributeList, attributes: Written): AttributeList
    decreases |attributes|
  {
    if attributes == [] then m else Onto(m[attributes[0].name := ValueOf(attributes[0].form)], attributes[1..])
  }

  function ToMaps(ps: seq<Entry>): ParameterList {
    if ps == [] then [] else [(ps[0].name, Onto(map[], ps[0].attributes))] + ToMaps(ps[1..])
  }

  predicate GoodAttributes(attributes: Written) {
    forall a :: a in attributes ==> IsToken(a.name) && !EndsInBackslash(ValueOf(a.form))
  }

  predicate Good(ps: seq<Entry>) {
    forall p :: p in ps ==> IsToken(p.name) && GoodAttributes(p.attributes)
  }

  lemma {:induction false} TokenReads(name: string, rest: string)
    requires forall c :: c in name ==> IsTokenChar(c)
    requires rest != [] ==> !IsTokenChar(rest[0])
    ensures Token(name + rest) == (name, rest)
  {
    if name == [] {
      assert name + rest == rest;
    } else {
      assert (name + rest)[1..] == name[1..] + rest;
      TokenReads(name[1..], rest);
      assert name == [name[0]] + name[1..];
    }
  }

  predicate Solid(t: string) {
    t != [] && !IsWhitespaceChar(t[0]) && t[0] != '\r'
  }

  lemma NoWhitespace(t: string)
    requires t == [] || Solid(t)
    ensures AllLws(t) == t
  {
  }

  lemma TokensAreSolid(c: char)
    ensures IsTokenChar(c) ==>
      && !IsWhitespaceChar(c) && c != '\r'
      && c != ';' && c != '=' && c != ',' && c != '"' && c != '\\'
    ensures forall c :: c in {';', '=', ',', '"'} ==> !IsTokenChar(c) && !IsWhitespaceChar(c)
  {
    TableIsTchar(c);
    TableIsTchar(';');
    TableIsTchar('=');
    TableIsTchar(',');
    TableIsTchar('"');
  }

  /** What is not whitespace, and so stops it. */
  predicate Stops(t: string) {
    t == [] || Solid(t)
  }

  lemma LwsSkips(w: string, rest: string) returns (v: string)
    requires IsSpace(w) && w != [] && Stops(rest)
    ensures IsSpace(v) && |v| < |w| && Lws(w + rest) == v + rest
  {
    var t := w + rest;
    if IsWhitespaceChar(w[0]) {
      v := SkipsSome(w, rest);
      WhitespaceFirst(t);
    } else {
      v := SkipsSome(w[3..], rest);
      LineBreakFirst(t);
      assert t[3..] == w[3..] + rest;
    }
    hide IsSpace, SkipWhitespace, Lws;
  }

  lemma WhitespaceFirst(t: string)
    requires t != [] && IsWhitespaceChar(t[0])
    ensures Lws(t) == SkipWhitespace(t)
  {
  }

  lemma LineBreakFirst(t: string)
    requires |t| > 2 && t[0] == '\r' && t[1] == '\n' && IsWhitespaceChar(t[2])
    ensures Lws(t) == SkipWhitespace(t[3..])
  {
  }

  /** Skipping whitespace characters takes some of the whitespace, if not all of it. */
  lemma {:induction false} SkipsSome(w: string, rest: string) returns (v: string)
    requires IsSpace(w) && Stops(rest)
    ensures IsSpace(v) && |v| <= |w| && SkipWhitespace(w + rest) == v + rest
    ensures w != [] && IsWhitespaceChar(w[0]) ==> |v| < |w|
    decreases |w|
  {
    if w != [] && IsWhitespaceChar(w[0]) {
      assert (w + rest)[1..] == w[1..] + rest;
      v := SkipsSome(w[1..], rest);
    } else {
      v := w;
      if w == [] {
        assert w + rest == rest;
      }
    }
  }

  /** Whitespace, in whatever units, is skipped up to what follows. */
  lemma {:induction false} SpaceSkipped(w: string, rest: string)
    requires IsSpace(w) && Stops(rest)
    ensures AllLws(w + rest) == rest
    decreases |w|
  {
    if w == [] {
      assert w + rest == rest;
      NoWhitespace(rest);
    } else {
      hide Lws, IsSpace;
      var v := LwsSkips(w, rest);
      SpaceSkipped(v, rest);
      if v + rest == [] {
        assert rest == [];
      }
    }
  }

  /** After an attribute list: the end, or something, such as the comma before the next parameter, that does
    * not go on with it. */
  predicate EndsAttributes(rest: string) {
    rest == [] || (Solid(rest) && !IsTokenChar(rest[0]) && rest[0] != ';' && rest[0] != '=')
  }

  /** After an attribute: the end of the list, or the next attribute. */
  predicate EndsAttribute(rest: string) {
    EndsAttributes(rest) || rest[0] == ';'
  }

  lemma EndsStop(rest: string)
    requires EndsAttribute(rest)
    ensures Stops(rest)
  {
    TokensAreSolid(',');
  }

  lemma CommaEnds(rest: string)
    ensures EndsAttributes("," + rest)
  {
    TokensAreSolid(',');
  }

  /** Neither whitespace nor what ends an attribute goes on with a token. */
  lemma NoTokenAfter(w: string, rest: string)
    requires IsSpace(w) && (rest == [] || !IsTokenChar(rest[0]))
    ensures w + rest != [] ==> !IsTokenChar((w + rest)[0])
  {
    if w != [] {
      TokensAreSolid(w[0]);
    } else {
      assert w + rest == rest;
    }
  }

  lemma EndsToken(rest: string)
    requires rest == [] || EndsAttribute(rest) || rest[0] == '='
    ensures rest == [] || !IsTokenChar(rest[0])
  {
    TokensAreSolid(',');
  }

  lemma PlainReads(token: string, rest: string)
    requires IsToken(token) && (rest == [] || !IsTokenChar(rest[0]))
    ensures AttributeValue(token + rest) == Some((token, rest)) && Solid(token + rest)
  {
    TokensAreSolid(token[0]);
    TokenReads(token, rest);
    NotQuote(token + rest);
    hide Token, QuotedString, IsTokenChar;
  }

  lemma QuotedReads(text: string, rest: string)
    requires !EndsInBackslash(text)
    ensures AttributeValue(Quoted(text) + rest) == Some((text, rest)) && Solid(Quoted(text) + rest)
  {
    QuotedRoundTrip(text, rest);
    var t := Quoted(text) + rest;
    assert |t| >= |rest| + 2 && t[0] == '"';
    hide Token, QuotedString, Escaped;
  }

  /** The value of an attribute, after the equals sign, and the whitespace after it. */
  lemma ValueReads(a: Item, tail: string)
    requires !a.form.Blank? && !EndsInBackslash(ValueOf(a.form)) && EndsAttribute(tail)
    ensures RenderValue(a) != [] && RenderValue(a)[0] == '='
    ensures AttributeValue(AllLws((RenderValue(a) + tail)[1..])) == Some((ValueOf(a.form), a.trail + tail))
  {
    hide AllLws, AttributeValue, IsTokenChar, IsWhitespaceChar, EndsInBackslash, Quoted, IsToken, IsSpace;
    var text := if a.form.Plain? then a.form.token else Quoted(a.form.text);
    var rest := a.trail + tail;
    assert RenderValue(a) == "=" + (a.indent + (text + a.trail));
    Reassociate("=", a.indent, text, a.trail, tail);
    EndsToken(tail);
    NoTokenAfter(a.trail, tail);
    if a.form.Plain? {
      PlainReads(text, rest);
    } else {
      QuotedReads(a.form.text, rest);
    }
    SpaceSkipped(a.indent, text + rest);
  }

  lemma Reassociate(a: string, b: string, c: string, d: string, e: string)
    ensures a + (b + (c + d)) + e == a + (b + (c + (d + e)))
    ensures (a + (b + (c + d)) + e)[|a|..] == b + (c + (d + e))
  {
  }

  lemma NotQuote(t: string)
    ensures t != [] && t[0] != '"' ==> QuotedString(t) == ([], t)
  {
  }

  /** A blank attribute is read with the whitespace after it, and any other is not. */
  function LeftOver(a: Item, tail: string): string {
    if a.form.Blank? then tail else a.trail + tail
  }

  lemma AttributeReads(a: Item, tail: string)
    requires IsToken(a.name) && !EndsInBackslash(ValueOf(a.form)) && EndsAttribute(tail)
    ensures Attribute(RenderAttribute(a) + tail) == Some((a.name, ValueOf(a.form), LeftOver(a, tail)))
  {
    var t3 := RenderValue(a) + tail;
    var t2 := a.gap + t3;
    assert RenderAttribute(a) + tail == a.lead + (a.name + t2);
    TokensAreSolid(a.name[0]);
    SpaceSkipped(a.lead, a.name + t2);
    if a.form.Blank? {
      assert t3 == tail;
      EndsStop(tail);
      EndsToken(tail);
    } else {
      ValueReads(a, tail);
      TokensAreSolid('=');
      EndsToken(t3);
    }
    NoTokenAfter(a.gap, t3);
    TokenReads(a.name, t2);
    SpaceSkipped(a.gap, t3);
    hide AllLws, Token, AttributeValue, RenderValue, IsTokenChar, IsWhitespaceChar, EndsInBackslash, IsSpace;
  }

  /** Whitespace before the next attribute, or before the end of the list, makes no difference. */
  lemma SpaceBefore(begin: string, w: string, tail: string, m: AttributeList)
    requires IsSpace(w) && EndsAttribute(tail) && |w + tail| <= |begin|
    ensures AttributesFrom(begin, w + tail, false, m) == AttributesFrom(begin, tail, false, m)
  {
    EndsStop(tail);
    SpaceSkipped(w, tail);
    NoWhitespace(tail);
    if tail == [] {
      assert AllLws(w + tail) == [];
    }
    hide AllLws, Attribute, IsSpace;
  }

  /** One attribute and its value, of which the first one has no semicolon left. */
  lemma NextAttributeReads(begin: string, a: Item, tail: string, first: bool, m: AttributeList)
    requires IsToken(a.name) && !EndsInBackslash(ValueOf(a.form)) && EndsAttribute(tail)
    requires var u := RenderAttribute(a) + tail; |if first then u else ";" + u| <= |begin|
    ensures var u := RenderAttribute(a) + tail;
      AttributesFrom(begin, if first then u else ";" + u, first, m)
      == AttributesFrom(begin, tail, false, m[a.name := ValueOf(a.form)])
  {
    var u := RenderAttribute(a) + tail;
    var m' := m[a.name := ValueOf(a.form)];
    AttributeReads(a, tail);
    LeadSkipped(a, tail);
    assert (";" + u)[1..] == u;
    TokensAreSolid(';');
    NoWhitespace(";" + u);
    if !a.form.Blank? {
      assert |a.trail + tail| <= |u|;
      SpaceBefore(begin, a.trail, tail, m');
    }
    hide AllLws, Attribute, RenderAttribute, IsTokenChar, IsWhitespaceChar, IsSpace, EndsInBackslash, RenderValue;
  }

  /** The whitespace before an attribute may be skipped before it is read. */
  lemma LeadSkipped(a: Item, tail: string)
    requires IsToken(a.name) && !EndsInBackslash(ValueOf(a.form)) && EndsAttribute(tail)
    ensures var u := RenderAttribute(a) + tail;
      && u != [] && AllLws(u) != []
      && Attribute(AllLws(u)) == Attribute(u)
      && |LeftOver(a, tail)| <= |u|
  {
    var v := a.name + (a.gap + RenderValue(a)) + tail;
    assert RenderAttribute(a) + tail == a.lead + v;
    TokensAreSolid(a.name[0]);
    SpaceSkipped(a.lead, v);
    NoWhitespace(v);
    hide AllLws, Token, AttributeValue, IsTokenChar, IsWhitespaceChar, IsSpace, EndsInBackslash;
  }

  lemma RenderedFirst(attributes: Written, rest: string)
    requires attributes != []
    ensures var u := RenderAttribute(attributes[0]) + (RenderAttributes(attributes[1..]) + rest);
      && RenderAttributes(attributes) + rest == ";" + u
      && (RenderAttributes(attributes) + rest)[1..] == u
  {
    hide RenderAttribute;
  }

  lemma {:induction false} AttributesRead(begin: string, attributes: Written, rest: string, first: bool,
          m: AttributeList)
    requires GoodAttributes(attributes) && EndsAttributes(rest)
    requires first ==> attributes != []
    requires |RenderAttributes(attributes) + rest| <= |begin| + (if first then 1 else 0)
    ensures var t := RenderAttributes(attributes) + rest;
      AttributesFrom(begin, if first then t[1..] else t, first, m) == (rest, Onto(m, attributes))
    decreases |attributes|
  {
    if attributes == [] {
      assert RenderAttributes(attributes) + rest == rest;
      EndsStop(rest);
      NoWhitespace(rest);
    } else {
      RenderedFirst(attributes, rest);
      RestEnds(attributes[1..], rest);
      hide AttributesFrom, RenderAttributes, RenderAttribute;
      var a := attributes[0];
      NextAttributeReads(begin, a, RenderAttributes(attributes[1..]) + rest, first, m);
      AttributesRead(begin, attributes[1..], rest, false, m[a.name := ValueOf(a.form)]);
    }
  }

  lemma RestEnds(attributes: Written, rest: string)
    requires EndsAttributes(rest)
    ensures EndsAttribute(RenderAttributes(attributes) + rest)
    ensures attributes == [] ==> RenderAttributes(attributes) + rest == rest
    ensures attributes != [] ==> (RenderAttributes(attributes) + rest)[0] == ';'
  {
    hide RenderAttribute;
    if attributes == [] {
      assert [] + rest == rest;
    }
  }

  function RenderRest(ps: seq<Entry>): string {
    if ps == [] then [] else "," + RenderParameters(ps)
  }

  lemma RenderedParameter(ps: seq<Entry>)
    requires ps != []
    ensures RenderParameters(ps) == RenderEntry(ps[0]) + RenderRest(ps[1..])
  {
  }

  /** One parameter, and what comes after it. */
  lemma ParameterReads(begin: string, e: Entry, rest: string, done: ParameterList)
    requires IsToken(e.name) && GoodAttributes(e.attributes) && EndsAttributes(rest)
    ensures ParametersFrom(begin, RenderEntry(e) + rest, done)
         == (var more := done + [(e.name, Onto(map[], e.attributes))];
             if rest == [] || rest[0] != ',' then (rest, more)
             else if rest == "," then (begin, more)
             else ParametersFrom(begin, rest[1..], more))
  {
    hide AllLws, Parameter, IsTokenChar, IsWhitespaceChar, RenderAttributes, IsSpace;
    var t := e.name + (e.gap + (RenderAttributes(e.attributes) + rest));
    OneParameterReads(e, rest);
    TokensAreSolid(e.name[0]);
    Reassociate(e.lead, e.name, e.gap, RenderAttributes(e.attributes), rest);
    assert t[0] == e.name[0];
    SpaceSkipped(e.lead, t);
    hide RenderEntry, GoodAttributes, Onto;
  }

  lemma OneParameterReads(e: Entry, rest: string)
    requires IsToken(e.name) && GoodAttributes(e.attributes) && EndsAttributes(rest)
    ensures Parameter(e.name + (e.gap + (RenderAttributes(e.attributes) + rest)))
         == Some((e.name, Onto(map[], e.attributes), rest))
  {
    var t3 := RenderAttributes(e.attributes) + rest;
    var t2 := e.gap + t3;
    RestEnds(e.attributes, rest);
    EndsStop(t3);
    EndsToken(t3);
    NoTokenAfter(e.gap, t3);
    TokenReads(e.name, t2);
    SpaceSkipped(e.gap, t3);
    EndsStop(rest);
    NoWhitespace(rest);
    if e.attributes != [] {
      AttributesRead(t3[1..], e.attributes, rest, true, map[]);
    }
    hide AllLws, Token, AttributesFrom, IsTokenChar, IsWhitespaceChar, RenderAttributes, IsSpace;
  }

  /** What is left after a list that something follows which does not belong to it. */
  function LeftAfter(begin: string, rest: string): string {
    if rest == "," then begin else rest
  }

  /** A comma that another parameter might follow. */
  predicate Continues(rest: string) {
    |rest| > 1 && rest[0] == ','
  }

  lemma {:induction false} ParametersRead(begin: string, ps: seq<Entry>, rest: string, done: ParameterList)
    requires Good(ps) && ps != [] && EndsAttributes(rest)
    ensures ParametersFrom(begin, RenderParameters(ps) + rest, done) ==
      if Continues(rest) then ParametersFrom(begin, rest[1..], done + ToMaps(ps))
      else (LeftAfter(begin, rest), done + ToMaps(ps))
    decreases |ps|
  {
    var after, m := RenderRest(ps[1..]) + rest, Onto(map[], ps[0].attributes);
    GoodParts(ps, rest);
    RenderedParameter(ps);
    Associate(RenderEntry(ps[0]), RenderRest(ps[1..]), rest);
    hide *;
    ParameterReads(begin, ps[0], after, done);
    MapsParts(ps, done);
    if ps[1..] != [] {
      ParametersRead(begin, ps[1..], rest, done + [(ps[0].name, m)]);
    } else {
      LeftIs(begin, rest);
    }
  }

  lemma LeftIs(begin: string, rest: string)
    ensures LeftAfter(begin, rest) == if rest == "," then begin else rest
    ensures Continues(rest) <==> |rest| > 1 && rest[0] == ','
  {
  }

  lemma GoodParts(ps: seq<Entry>, rest: string)
    requires Good(ps) && ps != [] && EndsAttributes(rest)
    ensures IsToken(ps[0].name) && GoodAttributes(ps[0].attributes) && Good(ps[1..])
    ensures var after := RenderRest(ps[1..]) + rest;
      && EndsAttributes(after)
      && (ps[1..] == [] ==> after == rest)
      && (ps[1..] != [] ==> |after| > 1 && after[0] == ',' && after[1..] == RenderParameters(ps[1..]) + rest)
  {
    if ps[1..] != [] {
      RenderedParameter(ps[1..]);
      assert ps[1] in ps && ps[1] == ps[1..][0];
      assert ps[1].name != [];
      CommaEnds(RenderParameters(ps[1..]) + rest);
      assert RenderRest(ps[1..]) + rest == "," + (RenderParameters(ps[1..]) + rest);
      hide RenderParameters;
    } else {
      assert [] + rest == rest;
    }
  }

  lemma MapsParts(ps: seq<Entry>, done: ParameterList)
    requires ps != []
    ensures done + [(ps[0].name, Onto(map[], ps[0].attributes))] + ToMaps(ps[1..]) == done + ToMaps(ps)
    ensures ps[1..] == [] ==> done + [(ps[0].name, Onto(map[], ps[0].attributes))] == done + ToMaps(ps)
  {
    var one := [(ps[0].name, Onto(map[], ps[0].attributes))];
    assert ToMaps(ps) == one + ToMaps(ps[1..]);
    hide *;
    Associate(done, one, ToMaps(ps[1..]));
    if ps[1..] == [] {
      NoMaps();
      assert one + [] == one;
    }
  }

  lemma NoMaps()
    ensures ToMaps([]) == []
  {
  }

  // ---------------------------------------------------------------- what can be read at all

  predicate Readable(m: AttributeList) {
    forall k :: k in m ==> IsToken(k) && !EndsInBackslash(m[k])
  }

  predicate ReadableList(ps: ParameterList) {
    forall p :: p in ps ==> IsToken(p.0) && Readable(p.1)
  }

  lemma {:induction false} QuotedTextReadable(t: string)
    ensures QuotedText(t).Some? ==> !EndsInBackslash(QuotedText(t).value.0)
    decreases |t|
  {
    if t != [] && t[0] != '"' {
      var u := if t[0] == '\\' && |t| > 1 && t[1] == '"' then t[2..] else t[1..];
      QuotedTextReadable(u);
      if QuotedText(u).Some? && QuotedText(u).value.0 == [] {
        assert u[0] == '"';
      }
    }
  }

  lemma TokenReadable(t: string)
    ensures !EndsInBackslash(Token(t).0)
  {
    var name := Token(t).0;
    if name != [] {
      TokensAreSolid(name[|name| - 1]);
    }
  }

  lemma QuotedReadable(t: string)
    ensures !EndsInBackslash(QuotedString(t).0)
  {
    if t != [] {
      QuotedTextReadable(t[1..]);
    }
  }

  lemma AttributeReadable(t: string)
    ensures Attribute(t).Some? ==> IsToken(Attribute(t).value.0) && !EndsInBackslash(Attribute(t).value.1)
  {
    hide Token, QuotedString, IsTokenChar, AllLws, EndsInBackslash;
    EmptyReadable();
    var (name, t2) := Token(AllLws(t));
    var t3 := AllLws(t2);
    if t3 != [] {
      var t4 := AllLws(t3[1..]);
      QuotedReadable(t4);
      TokenReadable(t4);
    }
  }

  lemma EmptyReadable()
    ensures !EndsInBackslash([])
  {
  }

  lemma {:induction false} AttributesReadable(begin: string, t: string, first: bool, m: AttributeList)
    requires |t| <= |begin| && Readable(m)
    ensures Readable(AttributesFrom(begin, t, first, m).1)
    decreases |t|
  {
    hide Attribute, IsToken, AllLws, EndsInBackslash;
    var t1 := AllLws(t);
    if t != [] && t1 != [] && (first || t1[0] == ';') {
      var u := if first then t1 else t1[1..];
      AttributeReadable(u);
      if Attribute(u).Some? {
        var (name, value, rest) := Attribute(u).value;
        AttributesReadable(begin, rest, false, m[name := value]);
      }
    }
  }

  lemma ParameterReadable(t: string)
    ensures Parameter(t).Some? ==> IsToken(Parameter(t).value.0) && Readable(Parameter(t).value.1)
  {
    hide Token, AllLws, AttributesFrom, IsTokenChar, Readable;
    NothingReadable();
    var t3 := AllLws(Token(t).1);
    if t3 != [] {
      AttributesReadable(t3[1..], t3[1..], true, map[]);
    }
  }

  lemma {:induction false} ParametersReadable(begin: string, t: string, ps: ParameterList)
    requires ReadableList(ps)
    ensures ReadableList(ParametersFrom(begin, t, ps).1)
    decreases |t|
  {
    hide Parameter, AllLws, IsToken, Readable;
    var t1 := AllLws(t);
    if t != [] && t1 != [] {
      ParameterReadable(t1);
      if Parameter(t1).Some? {
        var (name, m, rest) := Parameter(t1).value;
        if |rest| > 1 && rest[0] == ',' {
          ParametersReadable(begin, rest[1..], ps + [(name, m)]);
        }
      }
    }
  }

  lemma NothingReadable()
    ensures Readable(map[])
  {
  }

  predicate Distinct(attributes: Written) {
    forall i, j :: 0 <= i < j < |attributes| ==> attributes[i].name != attributes[j].name
  }

  lemma {:induction false} OntoHolds(m: AttributeList, attributes: Written, name: string, value: string)
    requires Distinct(attributes)
    requires || (exists a :: a in attributes && a.name == name && ValueOf(a.form) == value)
             || (name in m && m[name] == value && forall a :: a in attributes ==> a.name != name)
    ensures name in Onto(m, attributes) && Onto(m, attributes)[name] == value
    decreases |attributes|
  {
    if attributes != [] {
      var rest := attributes[1..];
      assert Distinct(rest);
      forall b | b in rest ensures b.name != attributes[0].name {
        var i :| 0 <= i < |rest| && rest[i] == b;
        assert attributes[i + 1] == b;
      }
      forall a | a in attributes ensures a == attributes[0] || a in rest {
      }
      OntoHolds(m[attributes[0].name := ValueOf(attributes[0].form)], rest, name, value);
    }
  }

  lemma {:induction false} MapsHold(ps: seq<Entry>, p: Entry)
    requires p in ps
    ensures (p.name, Onto(map[], p.attributes)) in ToMaps(ps)
  {
    if p != ps[0] {
      MapsHold(ps[1..], p);
    }
  }

  /** A parameter list, written in whatever way the grammar allows: attributes without a value, with a token
    * and with a quoted string, in any order, and whitespace wherever it may stand.  Reading it gives exactly
    * the names and values that were written, blank where there is none, and reads all of it, if and only if
    * every name is a token and no value ends in a backslash. */
  lemma ParameterListRoundTrip(ps: seq<Entry>)
    requires forall p :: p in ps ==> Distinct(p.attributes)
    ensures Parameters(RenderParameters(ps)) == ([], ToMaps(ps)) <==> Good(ps)
  {
    hide ParametersFrom, RenderParameters, Distinct;
    if Good(ps) {
      if ps != [] {
        NothingFollows();
        ParametersRead(RenderParameters(ps), ps, [], []);
        assert RenderParameters(ps) + [] == RenderParameters(ps);
        assert [] + ToMaps(ps) == ToMaps(ps);
      } else {
        NothingRendered();
      }
    }
    if Parameters(RenderParameters(ps)) == ([], ToMaps(ps)) {
      ParametersReadable(RenderParameters(ps), RenderParameters(ps), []);
      ReadableIsGood(ps);
    }
  }

  lemma NothingFollows()
    ensures EndsAttributes([]) && !Continues([]) && LeftAfter([], []) == []
    ensures forall begin :: LeftAfter(begin, []) == []
  {
  }

  /** A list is read up to what does not belong to it, and that is left; but after a comma another parameter
    * has to come, and a list that ends in one is malformed: all of it is left. */
  lemma ListEnds(ps: seq<Entry>, rest: string)
    requires Good(ps) && ps != [] && EndsAttributes(rest) && !Continues(rest)
    ensures var t := RenderParameters(ps) + rest;
      Parameters(t) == (if rest == "," then t else rest, ToMaps(ps))
  {
    ParametersRead(RenderParameters(ps) + rest, ps, rest, []);
    assert [] + ToMaps(ps) == ToMaps(ps);
    hide ParametersFrom, RenderParameters;
  }

  /** But whitespace after the comma will do, and on its own it is an empty list. */
  lemma OnlySpaceAfter(ps: seq<Entry>, w: Space)
    requires Good(ps)
    ensures Parameters(w) == ([], [])
    ensures ps != [] && w != [] ==> Parameters(RenderParameters(ps) + ("," + w)) == ([], ToMaps(ps))
  {
    OnlySpace(w, w, []);
    if ps != [] && w != [] {
      var t := RenderParameters(ps) + ("," + w);
      CommaEnds(w);
      LeftIs(t, "," + w);
      assert ("," + w)[1..] == w;
      ParametersRead(t, ps, "," + w, []);
      OnlySpace(t, w, ToMaps(ps));
      assert [] + ToMaps(ps) == ToMaps(ps);
      hide ParametersFrom, RenderParameters, IsSpace, Good;
    }
  }

  lemma OnlySpace(begin: string, w: Space, done: ParameterList)
    ensures ParametersFrom(begin, w, done) == ([], done)
  {
    SpaceSkipped(w, []);
    assert w + [] == w;
    hide AllLws, Parameter, IsSpace;
  }

  /** Whitespace is made of spaces and tabs. */
  lemma WhitespaceIs(c: char)
    ensures IsWhitespaceChar(c) <==> c == ' ' || c == '\t'
  {
  }

  /** Nothing is read of a text that does not start with a token. */
  lemma NoTokenNoList(t: string)
    requires Solid(t) && !IsTokenChar(t[0])
    ensures Parameters(t) == (t, [])
  {
    NoWhitespace(t);
  }

  /** A semicolon without an attribute, and an equals sign without a value, make the list malformed. */
  lemma NothingMissing(p: string, name: string, rest: string)
    requires IsToken(p) && IsToken(name) && EndsAttributes(rest) && (rest != [] ==> rest[0] != '"')
    ensures var t := p + (";" + rest); Parameters(t) == (t, [])
    ensures var t := p + (";" + (name + ("=" + rest))); Parameters(t) == (t, [])
  {
    NoAttribute(rest);
    NoValue(name, rest);
    MalformedAttribute(p, rest);
    MalformedAttribute(p, name + ("=" + rest));
  }

  lemma NoAttribute(rest: string)
    requires EndsAttributes(rest)
    ensures AllLws(rest) == rest && Attribute(rest).None?
  {
    EndsStop(rest);
    NoWhitespace(rest);
    EndsToken(rest);
    hide AllLws, AttributeValue, IsTokenChar, IsWhitespaceChar;
  }

  lemma NoValue(name: string, rest: string)
    requires IsToken(name) && EndsAttributes(rest) && (rest != [] ==> rest[0] != '"')
    ensures var u := name + ("=" + rest); AllLws(u) == u && Attribute(u).None?
  {
    TokensAreSolid(name[0]);
    TokensAreSolid('=');
    NoWhitespace(name + ("=" + rest));
    TokenReads(name, "=" + rest);
    NoWhitespace("=" + rest);
    assert ("=" + rest)[1..] == rest;
    EndsStop(rest);
    NoWhitespace(rest);
    EndsToken(rest);
    if rest != [] {
      NotQuote(rest);
    }
    hide AllLws, QuotedString, IsTokenChar, IsWhitespaceChar;
  }

  lemma MalformedAttribute(p: string, u: string)
    requires IsToken(p) && AllLws(u) == u && Attribute(u).None?
    ensures Parameters(p + (";" + u)) == (p + (";" + u), [])
  {
    var t2 := ";" + u;
    TokensAreSolid(p[0]);
    TokensAreSolid(';');
    NoWhitespace(p + t2);
    TokenReads(p, t2);
    NoWhitespace(t2);
    assert t2[1..] == u;
    hide AllLws, Attribute, Token, IsTokenChar, IsWhitespaceChar;
  }

  lemma NothingRendered()
    ensures Parameters(RenderParameters([])) == ([], [])
  {
  }

  lemma ReadableIsGood(ps: seq<Entry>)
    requires forall p :: p in ps ==> Distinct(p.attributes)
    requires ReadableList(ToMaps(ps))
    ensures Good(ps)
  {
    forall p | p in ps ensures IsToken(p.name) && GoodAttributes(p.attributes) {
      MapsHold(ps, p);
      forall a | a in p.attributes ensures IsToken(a.name) && !EndsInBackslash(ValueOf(a.form)) {
        OntoHolds(map[], p.attributes, a.name, ValueOf(a.form));
      }
    }
  }

  // ---------------------------------------------------------------- the methods

  method ExtractToken(s: string, begin: nat) returns (token: string, it: nat)
    requires begin <= |s|
    ensures begin <= it <= |s| && (token, s[it..]) == Token(s[begin..])
  {
    it := begin;
    while it < |s| && IsTokenChar(s[it])
      invariant begin <= it <= |s|
      invariant forall k :: begin <= k < it ==> IsTokenChar(s[k])
    {
      it := it + 1;
    }
    token := s[begin..it];
    hide IsTokenChar;
    assert s[begin..] == token + s[it..];
    TokenReads(token, s[it..]);
  }

  method FindQuote(s: string, from: nat) returns (i: nat)
    requires from <= |s|
    ensures from <= i <= |s| && (i < |s| ==> s[i] == '"')
    ensures forall j :: from <= j < i ==> s[j] != '"'
  {
    i := from;
    while i < |s| && s[i] != '"'
      invariant from <= i <= |s| && forall j :: from <= j < i ==> s[j] != '"'
    {
      i := i + 1;
    }
  }

  function PrependAll(text: string, r: Option<(string, string)>): Option<(string, string)> {
    if r.None? then None else Some((text + r.value.0, r.value.1))
  }

  /** Up to the next quote, which a backslash just before it keeps from closing the string. */
  lemma {:induction false} RunToQuote(s: string, marker: nat, cursor: nat)
    requires marker <= cursor <= |s| && (cursor < |s| ==> s[cursor] == '"')
    requires forall j :: marker <= j < cursor ==> s[j] != '"'
    ensures QuotedText(s[marker..]) ==
      if cursor == |s| then None
      else if marker < cursor && s[cursor - 1] == '\\' then
        PrependAll(s[marker..cursor - 1] + "\"", QuotedText(s[cursor + 1..]))
      else Some((s[marker..cursor], s[cursor + 1..]))
    decreases cursor - marker
  {
    if marker < |s| {
      Drop(s, marker, 1);
      assert s[marker..] == [s[marker]] + s[marker + 1..];
      hide QuotedText;
      if marker == cursor {
        QuotedTextSteps(' ', s[marker + 1..]);
        assert s[marker..] == "\"" + s[marker + 1..] && s[marker..cursor] == [];
      } else if marker + 1 == cursor && cursor < |s| && s[marker] == '\\' {
        Drop(s, marker, 2);
        assert s[marker..] == "\\\"" + s[marker + 2..];
        QuotedTextSteps(' ', s[marker + 2..]);
        assert s[marker..cursor - 1] + "\"" == "\"";
      } else {
        QuotedTextSteps(s[marker], s[marker + 1..]);
        assert s[marker + 1..] != [] ==> s[marker + 1..][0] == s[marker + 1];
        RunToQuote(s, marker + 1, cursor);
        RunPrepended(s, marker, cursor);
        if marker + 1 < cursor < |s| {
          PrependTwice(s[marker], s[marker + 1..cursor - 1] + "\"", QuotedText(s[cursor + 1..]));
        }
      }
    } else {
      assert s[marker..] == [];
    }
  }

  lemma PrependTwice(c: char, text: string, r: Option<(string, string)>)
    ensures Prepend(c, PrependAll(text, r)) == PrependAll([c] + text, r)
  {
    if r.Some? {
      Associate([c], text, r.value.0);
    }
  }

  lemma RunPrepended(s: string, marker: nat, cursor: nat)
    requires marker < cursor <= |s|
    ensures [s[marker]] + s[marker + 1..cursor] == s[marker..cursor]
    ensures marker + 1 < cursor ==> [s[marker]] + (s[marker + 1..cursor - 1] + "\"") == s[marker..cursor - 1] + "\""
  {
  }

  lemma PrependNothing(r: Option<(string, string)>)
    ensures PrependAll([], r) == r
  {
    if r.Some? {
      assert [] + r.value.0 == r.value.0;
    }
  }

  lemma PrependMore(text: string, more: string, r: Option<(string, string)>)
    ensures PrependAll(text, PrependAll(more, r)) == PrependAll(text + more, r)
  {
    if r.Some? {
      Associate(text, more, r.value.0);
    }
  }

  /** A quoted string starts at `begin`; `text` has been read of it, up to `marker`. */
  ghost predicate Scanning(s: string, begin: nat, text: string, marker: nat) {
    && begin < marker <= |s| && s[begin] == '"' && s[marker - 1] == '"'
    && QuotedText(s[begin + 1..]) == PrependAll(text, QuotedText(s[marker..]))
  }

  ghost predicate NextQuote(s: string, marker: nat, cursor: nat) {
    marker <= cursor <= |s| && (cursor < |s| ==> s[cursor] == '"') && forall j :: marker <= j < cursor ==> s[j] != '"'
  }

  lemma ScanningStarts(s: string, begin: nat)
    requires begin < |s| && s[begin] == '"'
    ensures Scanning(s, begin, [], begin + 1)
  {
    PrependNothing(QuotedText(s[begin + 1..]));
  }

  lemma EscapedQuote(s: string, begin: nat, text: string, marker: nat, cursor: nat)
    requires Scanning(s, begin, text, marker) && NextQuote(s, marker, cursor) && cursor < |s| && s[cursor - 1] == '\\'
    ensures Scanning(s, begin, text + s[marker..cursor - 1] + "\"", cursor + 1)
  {
    RunToQuote(s, marker, cursor);
    hide QuotedText, PrependAll;
    PrependMore(text, s[marker..cursor - 1] + "\"", QuotedText(s[cursor + 1..]));
    Associate(text, s[marker..cursor - 1], "\"");
  }

  lemma ClosingQuote(s: string, begin: nat, text: string, marker: nat, cursor: nat)
    requires Scanning(s, begin, text, marker) && NextQuote(s, marker, cursor) && cursor < |s| && s[cursor - 1] != '\\'
    ensures QuotedString(s[begin..]) == (text + s[marker..cursor], s[cursor + 1..])
  {
    RunToQuote(s, marker, cursor);
    Drop(s, begin, 1);
    hide QuotedText;
  }

  lemma NoClosingQuote(s: string, begin: nat, text: string, marker: nat)
    requires Scanning(s, begin, text, marker) && NextQuote(s, marker, |s|)
    ensures QuotedString(s[begin..]) == ([], s[begin..])
  {
    RunToQuote(s, marker, |s|);
    Drop(s, begin, 1);
    hide QuotedText;
  }

  lemma NotQuoted(s: string, begin: nat)
    requires begin <= |s| && (begin < |s| ==> s[begin] != '"')
    ensures QuotedString(s[begin..]) == ([], s[begin..])
  {
  }

  method ExtractQuotedString(s: string, begin: nat) returns (text: string, it: nat)
    requires begin <= |s|
    ensures begin <= it <= |s| && (text, s[it..]) == QuotedString(s[begin..])
  {
    text := [];
    if begin == |s| {
      NotQuoted(s, begin);
      return [], begin;
    }
    if s[begin] != '"' {
      NotQuoted(s, begin);
      return [], begin;
    }
    ScanningStarts(s, begin);
    hide QuotedString, Scanning;
    var cursor := begin + 1;
    var marker := cursor;
    cursor := FindQuote(s, cursor);
    while cursor != |s|
      invariant begin < marker <= cursor <= |s|
      invariant Scanning(s, begin, text, marker) && NextQuote(s, marker, cursor)
      decreases |s| - cursor
    {
      if s[cursor - 1] == '\\' {
        ClosedRun(s, begin, text, marker, cursor);
        EscapedQuote(s, begin, text, marker, cursor);
        text := text + s[marker..cursor - 1];
        text := text + "\"";
        cursor := cursor + 1;
        marker := cursor;
      } else {
        ClosingQuote(s, begin, text, marker, cursor);
        text := text + s[marker..cursor];
        cursor := cursor + 1;
        return text, cursor;
      }
      cursor := FindQuote(s, cursor);
    }
    NoClosingQuote(s, begin, text, marker);
    return [], begin;
  }

  /** A backslash before a quote was not before the marker. */
  lemma ClosedRun(s: string, begin: nat, text: string, marker: nat, cursor: nat)
    requires Scanning(s, begin, text, marker) && marker <= cursor < |s| && s[cursor - 1] == '\\'
    ensures marker < cursor
  {
  }

  lemma {:induction false} WhitespaceRun(s: string, i: nat, j: nat)
    requires i <= j <= |s| && (forall k :: i <= k < j ==> IsWhitespaceChar(s[k]))
        && (j < |s| ==> !IsWhitespaceChar(s[j]))
    ensures SkipWhitespace(s[i..]) == s[j..]
    decreases j - i
  {
    if i < j {
      WhitespaceRun(s, i + 1, j);
      Drop(s, i, 1);
    }
  }

  method ExtractLws(s: string, begin: nat) returns (it: nat)
    requires begin <= |s|
    ensures begin <= it <= |s| && s[it..] == Lws(s[begin..])
  {
    it := begin;
    if |s| - begin > 2 && s[begin] == '\r' && s[begin + 1] == '\n' && IsWhitespaceChar(s[begin + 2]) {
      it := it + 3;
      Drop(s, begin, 3);
    }
    ghost var from := it;
    while it < |s| && IsWhitespaceChar(s[it])
      invariant from <= it <= |s| && forall k :: from <= k < it ==> IsWhitespaceChar(s[k])
    {
      it := it + 1;
    }
    WhitespaceRun(s, from, it);
    hide SkipWhitespace;
  }

  lemma AllLwsUnfolds(t: string)
    ensures var u := Lws(t); AllLws(t) == if u == [] || |u| == |t| then u else AllLws(u)
  {
  }

  method ExtractAllLws(s: string, begin: nat) returns (it: nat)
    requires begin <= |s|
    ensures begin <= it <= |s| && s[it..] == AllLws(s[begin..])
  {
    hide AllLws, Lws;
    var old_it := begin;
    AllLwsUnfolds(s[old_it..]);
    it := ExtractLws(s, old_it);
    while it != |s| && old_it != it
      invariant begin <= old_it <= it <= |s| && s[it..] == Lws(s[old_it..])
      invariant AllLws(s[begin..]) == if it == |s| || it == old_it then s[it..] else AllLws(s[it..])
      decreases |s| - old_it
    {
      old_it := it;
      AllLwsUnfolds(s[old_it..]);
      it := ExtractLws(s, old_it);
    }
  }

  datatype Found = Missing | At(name: string, value: string, cursor: nat)

  /** The value after an equals sign. */
  method ExtractValue(s: string, from: nat) returns (ok: bool, value: string, it: nat)
    requires from <= |s|
    ensures from <= it <= |s|
    ensures AttributeValue(AllLws(s[from..])) == if ok then Some((value, s[it..])) else None
  {
    hide AllLws, Token, QuotedString, IsTokenChar;
    var cursor := ExtractAllLws(s, from);
    if cursor == |s| {
      return false, [], cursor;
    }
    value, it := ExtractQuotedString(s, cursor);
    if it != cursor {
      return true, value, it;
    }
    value, it := ExtractToken(s, cursor);
    if value == [] {
      return false, [], cursor;
    }
    return true, value, it;
  }

  /** A name and its value. */
  method ExtractAttribute(s: string, from: nat) returns (r: Found)
    requires from <= |s|
    ensures r.At? ==> from < r.cursor <= |s|
    ensures Attribute(s[from..]) == if r.At? then Some((r.name, r.value, s[r.cursor..])) else None
  {
    hide AllLws, Token, AttributeValue, IsTokenChar;
    var cursor := ExtractAllLws(s, from);
    var name;
    name, cursor := ExtractToken(s, cursor);
    if name == [] {
      return Missing;
    }
    cursor := ExtractAllLws(s, cursor);
    if cursor == |s| || s[cursor] != '=' {
      return At(name, [], cursor);
    }
    Drop(s, cursor, 1);
    cursor := cursor + 1;
    var ok, value, it := ExtractValue(s, cursor);
    if !ok {
      return Missing;
    }
    return At(name, value, it);
  }

  method ExtractAttributes(s: string, begin: nat, into: AttributeList) returns (cursor: nat, attributes: AttributeList)
    requires begin <= |s|
    ensures begin <= cursor <= |s| && (s[cursor..], attributes) == AttributesFrom(s[begin..], s[begin..], true, into)
  {
    hide AllLws, Attribute;
    attributes := into;
    var first := true;
    if begin == |s| {
      return begin, attributes;
    }
    cursor := begin;
    while cursor != |s|
      invariant begin <= cursor <= |s|
      invariant AttributesFrom(s[begin..], s[cursor..], first, attributes)
          == AttributesFrom(s[begin..], s[begin..], true, into)
      decreases |s| - cursor
    {
      cursor := ExtractAllLws(s, cursor);
      if cursor == |s| {
        break;
      }
      if first {
        first := false;
      } else {
        if s[cursor] == ';' {
          Drop(s, cursor, 1);
          cursor := cursor + 1;
        } else {
          break;
        }
      }
      var found := ExtractAttribute(s, cursor);
      if found.Missing? {
        return begin, attributes;
      }
      attributes := attributes[found.name := found.value];
      cursor := found.cursor;
    }
  }

  lemma SameSuffix(s: string, i: nat, j: nat)
    requires i <= j <= |s|
    ensures s[j..] == s[i..] <==> i == j
  {
    assert i < j ==> |s[j..]| < |s[i..]|;
  }

  datatype FoundParameter = Malformed | Named(name: string, attributes: AttributeList, cursor: nat)

  /** A token and the attributes after it. */
  method ExtractParameter(s: string, from: nat) returns (r: FoundParameter)
    requires from <= |s|
    ensures r.Named? ==> from < r.cursor <= |s|
    ensures Parameter(s[from..]) == if r.Named? then Some((r.name, r.attributes, s[r.cursor..])) else None
  {
    hide AllLws, Token, AttributesFrom, IsTokenChar;
    var name, cursor := ExtractToken(s, from);
    if name == [] {
      return Malformed;
    }
    cursor := ExtractAllLws(s, cursor);
    if cursor == |s| {
      return Named(name, map[], cursor);
    }
    if s[cursor] != ';' {
      return Named(name, map[], cursor);
    }
    Drop(s, cursor, 1);
    cursor := cursor + 1;
    var acursor, attributes := ExtractAttributes(s, cursor, map[]);
    SameSuffix(s, cursor, acursor);
    if acursor == cursor {
      return Malformed;
    }
    cursor := ExtractAllLws(s, acursor);
    return Named(name, attributes, cursor);
  }

  method ExtractParameters(s: string, begin: nat, into: ParameterList) returns (cursor: nat, parameters: ParameterList)
    requires begin <= |s|
    ensures begin <= cursor <= |s| && (s[cursor..], parameters) == ParametersFrom(s[begin..], s[begin..], into)
  {
    hide AllLws, Parameter;
    parameters := into;
    if begin == |s| {
      return begin, parameters;
    }
    cursor := begin;
    while cursor != |s|
      invariant begin <= cursor <= |s|
      invariant ParametersFrom(s[begin..], s[cursor..], parameters) == ParametersFrom(s[begin..], s[begin..], into)
      decreases |s| - cursor
    {
      cursor := ExtractAllLws(s, cursor);
      if cursor == |s| {
        break;
      }
      var found := ExtractParameter(s, cursor);
      if found.Malformed? {
        return begin, parameters;
      }
      parameters := parameters + [(found.name, found.attributes)];
      cursor := found.cursor;
      if cursor == |s| {
        break;
      }
      if s[cursor] != ',' {
        break;
      }
      Drop(s, cursor, 1);
      cursor := cursor + 1;
      if cursor == |s| {
        return begin, parameters;
      }
    }
  }

  predicate OccursAt(t: string, j: nat, search: string) {
    j + |search| <= |t| && search <= t[j..]
  }

  lemma OccursInSuffix(t: string, k: nat, j: nat, search: string)
    requires k <= |t|
    ensures OccursAt(t[k..], j, search) == OccursAt(t, k + j, search)
  {
    if k + j <= |t| {
      Drop(t, k, j);
    }
  }

  /** The first occurrence, or none. */
  ghost predicate FirstAt(t: string, search: string, i: int) {
    && (i >= 0 ==> OccursAt(t, i, search))
    && forall j: nat :: i < 0 || j < i ==> !OccursAt(t, j, search)
  }

  method FindFrom(s: string, search: string, pos: nat) returns (i: int)
    requires search != [] && pos <= |s|
    ensures i >= 0 ==> pos <= i && i + |search| <= |s|
    ensures FirstAt(s[pos..], search, if i < 0 then -1 else i - pos)
  {
    ghost var t := s[pos..];
    i := pos;
    while i + |search| <= |s|
      invariant pos <= i
      invariant forall j: nat :: j < i - pos ==> !OccursAt(t, j, search)
      decreases |s| - i
    {
      OccursInSuffix(s, pos, i - pos, search);
      if search <= s[i..] {
        return;
      }
      i := i + 1;
    }
    assert forall j: nat :: j >= i - pos ==> !OccursAt(t, j, search);
    i := -1;
  }

  lemma NextFirst(t: string, search: string, i: int)
    requires t != [] && i != 0 && FirstAt(t, search, i)
    ensures FirstAt(t[1..], search, if i < 0 then i else i - 1)
  {
    forall j: nat ensures OccursAt(t[1..], j, search) == OccursAt(t, 1 + j, search) {
      OccursInSuffix(t, 1, j, search);
    }
    hide OccursAt;
  }

  lemma ReplaceUnfolds(t: string, search: string, replacement: string)
    requires search != []
    ensures |t| < |search| ==> ReplaceAll(t, search, replacement) == t
    ensures OccursAt(t, 0, search) ==>
        ReplaceAll(t, search, replacement) == replacement + ReplaceAll(t[|search|..], search, replacement)
    ensures |t| >= |search| && !OccursAt(t, 0, search) ==>
      ReplaceAll(t, search, replacement) == [t[0]] + ReplaceAll(t[1..], search, replacement)
  {
    assert t[0..] == t;
  }

  /** Up to the first occurrence nothing is replaced. */
  lemma {:induction false} ReplaceSkips(before: string, search: string, after: string, replacement: string)
    requires search != [] && forall j: nat :: j < |before| ==> !OccursAt(before + (search + after), j, search)
    ensures ReplaceAll(before + (search + after), search, replacement)
         == before + (replacement + ReplaceAll(after, search, replacement))
    decreases |before|
  {
    var t := before + (search + after);
    ReplaceUnfolds(t, search, replacement);
    hide ReplaceAll;
    if before == [] {
      assert t == search + after && t[0..] == t && t[|search|..] == after;
      var r := replacement + ReplaceAll(after, search, replacement);
      assert [] + r == r;
    } else {
      var u := before[1..] + (search + after);
      assert t[1..] == u && |t| >= |search|;
      forall j: nat | j < |before[1..]| ensures !OccursAt(u, j, search) {
        OccursInSuffix(t, 1, j, search);
      }
      hide OccursAt;
      ReplaceSkips(before[1..], search, after, replacement);
      var r := replacement + ReplaceAll(after, search, replacement);
      Associate([before[0]], before[1..], r);
      assert before == [before[0]] + before[1..];
    }
  }

  lemma {:induction false} ReplaceNothing(t: string, search: string, replacement: string)
    requires search != [] && FirstAt(t, search, -1)
    ensures ReplaceAll(t, search, replacement) == t
    decreases |t|
  {
    ReplaceUnfolds(t, search, replacement);
    hide ReplaceAll, OccursAt;
    if |t| >= |search| {
      NextFirst(t, search, -1);
      ReplaceNothing(t[1..], search, replacement);
      assert t == [t[0]] + t[1..];
    }
  }

  lemma FirstSplits(t: string, search: string, i: nat) returns (before: string, after: string)
    requires FirstAt(t, search, i)
    ensures t == before + (search + after) && |before| == i
    ensures forall j: nat :: j < |before| ==> !OccursAt(t, j, search)
  {
    assert OccursAt(t, i, search);
    before, after := t[..i], t[i..][|search|..];
    assert t[i..] == search + after;
    assert t == t[..i] + t[i..];
  }

  /** So much is done, and the rest is still to be replaced. */
  ghost predicate Replacing(input: string, search: string, replace: string, subject: string, done: string, rest: string)
    requires search != []
  {
    && subject == done + rest && |done| <= |subject| && subject[|done|..] == rest
    && done + ReplaceAll(rest, search, replace) == ReplaceAll(input, search, replace)
  }

  lemma ReplaceStarts(input: string, search: string, replace: string)
    requires search != []
    ensures Replacing(input, search, replace, input, [], input)
  {
    var r := ReplaceAll(input, search, replace);
    assert [] + r == r && [] + input == input && input[0..] == input;
  }

  lemma ReplaceStep(input: string, search: string, replace: string, subject: string, done: string, rest: string,
          found: nat)
    returns (before: string, after: string)
    requires search != [] && Replacing(input, search, replace, subject, done, rest)
    requires |done| <= found && FirstAt(rest, search, found - |done|)
    ensures found + |search| <= |subject| && subject[..found] == done + before && subject[found + |search|..] == after
    ensures |done + before| == found && |after| < |rest|
    ensures Replacing(input, search, replace, done + before + replace + after, done + before + replace, after)
  {
    before, after := FirstSplits(rest, search, found - |done|);
    hide ReplaceAll, OccursAt, FirstAt;
    ReplacedOnce(input, search, replace, done, before, after);
    Reassembled(done, before, search, after);
  }

  lemma ReplacedOnce(input: string, search: string, replace: string, done: string, before: string, after: string)
    requires search != [] && forall j: nat :: j < |before| ==> !OccursAt(before + (search + after), j, search)
    requires done + ReplaceAll(before + (search + after), search, replace) == ReplaceAll(input, search, replace)
    ensures Replacing(input, search, replace, done + before + replace + after, done + before + replace, after)
  {
    ReplaceSkips(before, search, after, replace);
    var tail := ReplaceAll(after, search, replace);
    hide ReplaceAll, OccursAt;
    assert done + (before + (replace + tail)) == done + before + replace + tail;
    Suffix(done + before + replace, after);
  }

  lemma Reassembled(done: string, before: string, search: string, after: string)
    ensures var s := done + (before + (search + after)); var k := |done| + |before|;
      s[..k] == done + before && s[k + |search|..] == after
  {
  }

  lemma ReplaceEnds(input: string, search: string, replace: string, subject: string, done: string, rest: string)
    requires search != [] && Replacing(input, search, replace, subject, done, rest) && FirstAt(rest, search, -1)
    ensures subject == ReplaceAll(input, search, replace)
  {
    ReplaceNothing(rest, search, replace);
  }

  lemma Suffix(a: string, b: string)
    ensures (a + b)[|a|..] == b
  {
  }

  method StringReplaceAll(input: string, search: string, replace: string) returns (subject: string)
    requires search != []
    ensures subject == ReplaceAll(input, search, replace)
  {
    subject := input;
    var pos: nat := 0;
    ghost var done, rest := [], input;
    ReplaceStarts(input, search, replace);
    var found := FindFrom(subject, search, pos);
    hide *;
    while found >= 0
      invariant pos == |done| <= |subject| && subject[pos..] == rest
          && Replacing(input, search, replace, subject, done, rest)
      invariant found >= 0 ==> pos <= found
      invariant FirstAt(rest, search, if found < 0 then -1 else found - pos)
      decreases |rest|
    {
      ghost var before, after := ReplaceStep(input, search, replace, subject, done, rest, found);
      subject := subject[..found] + replace + subject[found + |search|..];
      done, rest := done + before + replace, after;
      pos := found + |replace|;
      ReplacingRest(input, search, replace, subject, done, rest);
      found := FindFrom(subject, search, pos);
    }
    ReplaceEnds(input, search, replace, subject, done, rest);
  }

  lemma ReplacingRest(input: string, search: string, replace: string, subject: string, done: string, rest: string)
    requires search != [] && Replacing(input, search, replace, subject, done, rest)
    ensures |done| <= |subject| && subject[|done|..] == rest
  {
  }
}
