/** The IRC wire codec (internal/irc/message.go): Parse, Encode, Wire and the IRCv3 tag escapes.
    A `char` stands for one byte of a line, and a nil tag map for the empty map. */
module Codec {
  import opened Text

  datatype Message = Message(
    tags: map<string, string>, source: string, command: string, params: seq<string>, raw: string)

  /** What follows the tags of a line. */
  datatype Body = Body(source: string, command: string, params: seq<string>)

  datatype ParseError =
    EmptyMessage | TagsWithoutCommand | MissingCommand | PrefixWithoutCommand | EmptyTagKey | TrailingEscape

  datatype Result<T> = Ok(value: T) | Err(error: ParseError)

  // ---------------------------------------------------------------- tag values

  function EscapeChar(c: char): (r: string) {
    match c
    case ';' => "\\:"
    case ' ' => "\\s"
    case '\\' => "\\\\"
    case '\r' => "\\r"
    case '\n' => "\\n"
    case _ => [c]
  }

  function UnescapeChar(c: char): char {
    match c
    case ':' => ';'
    case 's' => ' '
    case 'r' => '\r'
    case 'n' => '\n'
    case _ => c
  }

  function Escape(v: string): string {
    if v == "" then "" else EscapeChar(v[0]) + Escape(v[1..])
  }

  function Prepend(a: string, r: Result<string>): Result<string> {
    match r
    case Ok(b) => Ok(a + b)
    case Err(e) => Err(e)
  }

  function Unescape(v: string): Result<string> {
    if v == "" then Ok("")
    else if v[0] != '\\' then Prepend([v[0]], Unescape(v[1..]))
    else if |v| == 1 then Err(TrailingEscape)
    else Prepend([UnescapeChar(v[1])], Unescape(v[2..]))
  }

  lemma UnescapeStep(c: char, rest: string)
    ensures Unescape(EscapeChar(c) + rest) == Prepend([c], Unescape(rest))
  {
    var s := EscapeChar(c) + rest;
    if |EscapeChar(c)| == 1 {
      assert s[0] == c && s[1..] == rest;
    } else {
      assert s[0] == '\\' && s[1] == EscapeChar(c)[1] && s[2..] == rest;
    }
  }

  lemma {:induction false} EscapeAvoids(v: string, c: char)
    requires c in "; \r\n"
    ensures c !in Escape(v)
  {
    if v != "" {
      EscapeAvoids(v[1..], c);
      assert c !in EscapeChar(v[0]);
    }
  }

  /** Every value survives escaping, and the escaped form cannot end a tag, the tag section or
      the line. */
  lemma {:induction false} EscapeRoundTrip(v: string)
    ensures Unescape(Escape(v)) == Ok(v)
    ensures forall c :: c in "; \r\n" ==> c !in Escape(v)
  {
    forall c | c in "; \r\n" ensures c !in Escape(v) {
      EscapeAvoids(v, c);
    }
    if v != "" {
      EscapeRoundTrip(v[1..]);
      UnescapeStep(v[0], Escape(v[1..]));
      assert v == [v[0]] + v[1..];
    }
  }

  lemma PrependNothing(r: Result<string>)
    ensures Prepend("", r) == r
  {
    if r.Ok? {
      assert "" + r.value == r.value;
    }
  }

  lemma PrependTwice(a: string, b: string, r: Result<string>)
    ensures Prepend(a, Prepend(b, r)) == Prepend(a + b, r)
  {
    if r.Ok? {
      assert a + (b + r.value) == a + b + r.value;
    }
  }

  method EscapeTagValue(v: string) returns (b: string)
    ensures b == Escape(v)
  {
    b := "";
    for i := 0 to |v|
      invariant Escape(v) == b + Escape(v[i..])
    {
      assert v[i..][1..] == v[i + 1..];
      b := b + EscapeChar(v[i]);
    }
  }

  lemma {:induction false} UnescapePlain(v: string)
    requires '\\' !in v
    ensures Unescape(v) == Ok(v)
  {
    if v != "" {
      UnescapePlain(v[1..]);
      assert v == [v[0]] + v[1..];
    }
  }

  method UnescapeTagValue(v: string) returns (r: Result<string>)
    ensures r == Unescape(v)
  {
    if '\\' !in v {
      UnescapePlain(v);
      return Ok(v);
    }
    var b, i := "", 0;
    PrependNothing(Unescape(v));
    while i < |v|
      invariant 0 <= i <= |v| && Unescape(v) == Prepend(b, Unescape(v[i..]))
    {
      if v[i] != '\\' {
        assert v[i..][1..] == v[i + 1..];
        PrependTwice(b, [v[i]], Unescape(v[i + 1..]));
        b := b + [v[i]];
      } else {
        i := i + 1;
        if i >= |v| {
          return Err(TrailingEscape);
        }
        assert v[i - 1..][2..] == v[i + 1..];
        PrependTwice(b, [UnescapeChar(v[i])], Unescape(v[i + 1..]));
        b := b + [UnescapeChar(v[i])];
      }
      i := i + 1;
    }
    assert Unescape(v[i..]) == Ok("") && b + "" == b;
    return Ok(b);
  }

  // ---------------------------------------------------------------- the tag section

  function Split(s: string, c: char): (r: seq<string>)
    ensures r != []
    decreases |s|
  {
    var i := IndexOf(s, c);
    if i < 0 then [s] else [s[..i]] + Split(s[i + 1..], c)
  }

  function Join(parts: seq<string>, c: char): string {
    if parts == [] then ""
    else if |parts| == 1 then parts[0]
    else parts[0] + [c] + Join(parts[1..], c)
  }

  lemma {:induction false} SplitJoin(parts: seq<string>, c: char)
    requires parts != [] && forall p :: p in parts ==> c !in p
    ensures Split(Join(parts, c), c) == parts
  {
    if |parts| == 1 {
      IndexAbsent(parts[0], c);
    } else {
      var rest := Join(parts[1..], c);
      var s := parts[0] + [c] + rest;
      IndexAfter(parts[0], c, rest);
      assert s[..|parts[0]|] == parts[0] && s[|parts[0]| + 1..] == rest;
      SplitJoin(parts[1..], c);
    }
  }

  lemma {:induction false} JoinAvoids(parts: seq<string>, c: char, d: char)
    requires c != d && forall p :: p in parts ==> d !in p
    ensures d !in Join(parts, c)
  {
    if |parts| > 1 {
      JoinAvoids(parts[1..], c, d);
    }
  }

  /** One part of the tag section: nothing for an empty part. */
  function AddTag(part: string, acc: map<string, string>): Result<map<string, string>> {
    if part == "" then Ok(acc)
    else
      var eq := IndexOf(part, '=');
      if eq < 0 then Ok(acc[part := ""])
      else
        match Unescape(part[eq + 1..])
        case Err(e) => Err(e)
        case Ok(val) => if eq == 0 then Err(EmptyTagKey) else Ok(acc[part[..eq] := val])
  }

  function AddTags(parts: seq<string>, acc: map<string, string>): Result<map<string, string>> {
    if parts == [] then Ok(acc)
    else
      match AddTag(parts[0], acc)
      case Err(e) => Err(e)
      case Ok(more) => AddTags(parts[1..], more)
  }

  function TagsOf(section: string): Result<map<string, string>> {
    AddTags(Split(section, ';'), map[])
  }

  method ParseTags(section: string) returns (r: Result<map<string, string>>)
    ensures r == TagsOf(section)
  {
    var parts := Split(section, ';');
    var tags: map<string, string> := map[];
    for i := 0 to |parts|
      invariant TagsOf(section) == AddTags(parts[i..], tags)
    {
      assert parts[i..][1..] == parts[i + 1..];
      var next := ParseTag(parts[i], tags);
      if next.Err? {
        return next;
      }
      tags := next.value;
    }
    return Ok(tags);
  }

  /** One round of the loop. */
  method ParseTag(part: string, tags: map<string, string>) returns (r: Result<map<string, string>>)
    ensures r == AddTag(part, tags)
  {
    if part == "" {
      return Ok(tags);
    }
    var eq := IndexOf(part, '=');
    var key, val := part, "";
    if eq >= 0 {
      key := part[..eq];
      var u := UnescapeTagValue(part[eq + 1..]);
      if u.Err? {
        return Err(u.error);
      }
      val := u.value;
    }
    if key == "" {
      return Err(EmptyTagKey);
    }
    return Ok(tags[key := val]);
  }

  function Token(key: string, val: string): string {
    if val == "" then key else key + "=" + Escape(val)
  }

  function Tokens(keys: seq<string>, tags: map<string, string>): (r: seq<string>)
    requires forall k :: k in keys ==> k in tags
    ensures |r| == |keys| && forall i :: 0 <= i < |r| ==> r[i] == Token(keys[i], tags[keys[i]])
  {
    seq(|keys|, i requires 0 <= i < |keys| => Token(keys[i], tags[keys[i]]))
  }

  /** formatTagPrefix: the tags in key order. */
  ghost function TagPrefix(tags: map<string, string>): string {
    SortedKeysMembers(tags.Keys);
    "@" + Join(Tokens(SortedKeys(tags.Keys), tags), ';')
  }

  /** Keys are listed in whatever order the map yields; the text is the same. */
  method FormatTagPrefix(tags: map<string, string>) returns (b: string)
    ensures b == TagPrefix(tags)
  {
    var keys := ListAndSort(tags.Keys);
    SortedKeysMembers(tags.Keys);
    var text := JoinTags(keys[..], tags);
    return "@" + text;
  }

  method WriteTag(b: string, key: string, val: string) returns (r: string)
    ensures r == b + Token(key, val)
  {
    r := b + key;
    if val != "" {
      var e := EscapeTagValue(val);
      assert b + key + "=" + e == b + (key + "=" + e);
      r := r + "=" + e;
    }
  }

  /** The loop of formatTagPrefix. */
  method JoinTags(keys: seq<string>, tags: map<string, string>) returns (b: string)
    requires forall k :: k in keys ==> k in tags
    ensures b == Join(Tokens(keys, tags), ';')
  {
    b := "";
    ghost var toks := Tokens(keys, tags);
    for i := 0 to |keys|
      invariant b == Join(toks[..i], ';')
    {
      JoinNext(toks, i);
      if i > 0 {
        b := b + ";";
      }
      b := WriteTag(b, keys[i], tags[keys[i]]);
    }
    assert toks[..|toks|] == toks;
  }

  lemma {:induction false} JoinNext(parts: seq<string>, i: nat)
    requires i < |parts|
    ensures Join(parts[..i + 1], ';') == Join(parts[..i], ';') + (if i > 0 then ";" else "") + parts[i]
  {
    JoinSnoc(parts[..i], parts[i]);
    assert parts[..i + 1] == parts[..i] + [parts[i]];
  }

  lemma {:induction false} JoinSnoc(parts: seq<string>, x: string)
    ensures Join(parts + [x], ';') == Join(parts, ';') + (if parts != [] then ";" else "") + x
  {
    if |parts| > 0 {
      JoinSnoc(parts[1..], x);
      assert (parts + [x])[1..] == parts[1..] + [x];
    }
  }

  // ---------------------------------------------------------------- the body

  function ParamsOf(s: string): seq<string>
    decreases |s|
  {
    if s == "" then []
    else if s[0] == ':' then [s[1..]]
    else
      var sp := IndexOf(s, ' ');
      if sp < 0 then [s] else [s[..sp]] + ParamsOf(TrimLeft(s[sp + 1..]))
  }

  function CommandOf(source: string, s: string): Result<Body> {
    if s == "" then Err(MissingCommand)
    else
      var sp := IndexOf(s, ' ');
      if sp < 0 then Ok(Body(source, s, []))
      else Ok(Body(source, s[..sp], ParamsOf(TrimLeft(s[sp + 1..]))))
  }

  function BodyOf(s: string): Result<Body> {
    if s == "" then Err(MissingCommand)
    else if s[0] == ':' then
      var sp := IndexOf(s, ' ');
      if sp < 0 then Err(PrefixWithoutCommand) else CommandOf(s[1..sp], TrimLeft(s[sp + 1..]))
    else CommandOf("", s)
  }

  function Assemble(tags: map<string, string>, body: Result<Body>, raw: string): Result<Message> {
    match body
    case Err(e) => Err(e)
    case Ok(b) => Ok(Message(tags, b.source, b.command, b.params, raw))
  }

  function Parse(line: string): Result<Message> {
    if line == "" then Err(EmptyMessage)
    else if line[0] == '@' then
      var sp := IndexOf(line, ' ');
      if sp < 0 then Err(TagsWithoutCommand)
      else
        match TagsOf(line[1..sp])
        case Err(e) => Err(e)
        case Ok(tags) => Assemble(tags, BodyOf(TrimLeft(line[sp + 1..])), line)
    else Assemble(map[], BodyOf(line), line)
  }

  method ParseLine(line: string) returns (r: Result<Message>)
    ensures r == Parse(line)
  {
    var s, tags, source := line, map[], "";
    if |s| == 0 {
      return Err(EmptyMessage);
    }
    if s[0] == '@' {
      var sp := IndexOf(s, ' ');
      if sp < 0 {
        return Err(TagsWithoutCommand);
      }
      var section := s[1..sp];
      s := TrimLeft(s[sp + 1..]);
      var t := ParseTags(section);
      if t.Err? {
        return Err(t.error);
      }
      tags := t.value;
    }
    assert Parse(line) == Assemble(tags, BodyOf(s), line);
    if |s| == 0 {
      return Err(MissingCommand);
    }
    if s[0] == ':' {
      var sp := IndexOf(s, ' ');
      if sp < 0 {
        return Err(PrefixWithoutCommand);
      }
      source := s[1..sp];
      s := TrimLeft(s[sp + 1..]);
    }
    assert Parse(line) == Assemble(tags, CommandOf(source, s), line);
    if |s| == 0 {
      return Err(MissingCommand);
    }
    var sp := IndexOf(s, ' ');
    if sp < 0 {
      return Ok(Message(tags, source, s, [], line));
    }
    var command := s[..sp];
    s := TrimLeft(s[sp + 1..]);
    var params := ParseParams(s);
    return Ok(Message(tags, source, command, params, line));
  }

  method ParseParams(text: string) returns (params: seq<string>)
    ensures params == ParamsOf(text)
  {
    var s := text;
    params := [];
    while |s| > 0
      invariant ParamsOf(text) == params + ParamsOf(s)
      decreases |s|
    {
      if s[0] == ':' {
        return params + [s[1..]];
      }
      var sp := IndexOf(s, ' ');
      if sp < 0 {
        return params + [s];
      }
      params := params + [s[..sp]];
      s := TrimLeft(s[sp + 1..]);
    }
  }

  /** The parameters as Encode writes them, the last one always trailing. */
  function ParamText(params: seq<string>): string {
    if params == [] then "" else " " + ParamTail(params)
  }

  function ParamTail(params: seq<string>): string
    requires params != []
  {
    if |params| == 1 then ":" + params[0] else params[0] + " " + ParamTail(params[1..])
  }

  function BodyText(b: Body): string {
    (if b.source != "" then ":" + b.source + " " else "") + b.command + ParamText(b.params)
  }

  function BodyIn(m: Message): Body {
    Body(m.source, m.command, m.params)
  }

  ghost function Encode(m: Message): string {
    (if m.tags != map[] then TagPrefix(m.tags) + " " else "") + BodyText(BodyIn(m))
  }

  method EncodeMessage(m: Message) returns (b: string)
    ensures b == Encode(m)
  {
    b := "";
    if |m.tags| > 0 {
      b := FormatTagPrefix(m.tags);
      b := b + " ";
    }
    ghost var prefix := b;
    if m.source != "" {
      b := b + ":" + m.source + " ";
    }
    var text := EncodeParams(m.params);
    Regroup(prefix, m);
    return b + m.command + text;
  }

  lemma Regroup(prefix: string, m: Message)
    ensures prefix + BodyText(BodyIn(m))
         == (if m.source != "" then prefix + ":" + m.source + " " else prefix) + m.command + ParamText(m.params)
  {
  }

  /** The loop of Encode. */
  method EncodeParams(params: seq<string>) returns (b: string)
    ensures b == ParamText(params)
  {
    b := "";
    var n := |params|;
    for i := 0 to n
      invariant ParamText(params) == b + ParamText(params[i..])
    {
      ParamTextNext(b, params, i);
      b := b + " ";
      if i == n - 1 {
        b := b + ":";
      }
      b := b + params[i];
    }
  }

  lemma ParamTextNext(b: string, params: seq<string>, i: nat)
    requires i < |params|
    ensures b + ParamText(params[i..])
         == (if i == |params| - 1 then b + " " + ":" else b + " ") + params[i] + ParamText(params[i + 1..])
  {
    assert params[i..][1..] == params[i + 1..];
  }

  function StripTagPrefix(line: string): string {
    if line == "" || line[0] != '@' then line
    else
      var sp := IndexOf(line, ' ');
      if sp < 0 then line else TrimLeft(line[sp + 1..])
  }

  ghost function Wire(m: Message): string {
    if m.raw == "" then Encode(m)
    else if m.tags == map[] then StripTagPrefix(m.raw)
    else TagPrefix(m.tags) + " " + StripTagPrefix(m.raw)
  }
}
