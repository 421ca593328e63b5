/** What the codec promises: which messages survive Encode then Parse, what Parse can return, and
    when Wire changes nothing but the tags (internal/irc/message.go). */
module CodecLaws {
  import opened Text
  import opened Codec

  // ---------------------------------------------------------------- well-formed messages

  predicate KeyOk(k: string) {
    k != "" && ';' !in k && '=' !in k && ' ' !in k
  }

  ghost predicate TagKeysOk(tags: map<string, string>) {
    forall k :: k in tags ==> KeyOk(k)
  }

  predicate MiddleOk(p: string) {
    p != "" && ' ' !in p && p[0] != ':'
  }

  ghost predicate ParamsOk(ps: seq<string>) {
    forall i :: 0 <= i < |ps| - 1 ==> MiddleOk(ps[i])
  }

  ghost predicate FieldsOk(b: Body) {
    ' ' !in b.source && ' ' !in b.command && ParamsOk(b.params)
  }

  /** The first byte after the tags must not be taken for a source or for tags, nor trimmed. */
  predicate StartOk(b: Body, tagged: bool) {
    if b.command == "" then b.source == "" && !tagged && b.params != []
    else b.source != "" || (b.command[0] != ':' && (tagged || b.command[0] != '@'))
  }

  ghost predicate WellFormed(m: Message) {
    TagKeysOk(m.tags) && FieldsOk(BodyIn(m)) && StartOk(BodyIn(m), m.tags != map[])
  }

  // ---------------------------------------------------------------- one token at a time

  lemma SplitAtSpace(a: string, b: string)
    requires ' ' !in a
    ensures var s := a + " " + b; IndexOf(s, ' ') == |a| && s[..|a|] == a && s[|a| + 1..] == b
  {
    IndexAfter(a, ' ', b);
  }

  lemma ParamsAt(p: string, rest: string)
    requires MiddleOk(p)
    ensures ParamsOf(p + " " + rest) == [p] + ParamsOf(TrimLeft(rest))
  {
    SplitAtSpace(p, rest);
    assert (p + " " + rest)[0] == p[0];
  }

  lemma CommandAt(source: string, command: string, rest: string)
    requires ' ' !in command
    ensures CommandOf(source, command + " " + rest) == Ok(Body(source, command, ParamsOf(TrimLeft(rest))))
  {
    SplitAtSpace(command, rest);
  }

  lemma SourceAt(source: string, rest: string)
    requires ' ' !in source
    ensures BodyOf(":" + source + " " + rest) == CommandOf(source, TrimLeft(rest))
  {
    SplitAtSpace(":" + source, rest);
    assert (":" + source + " " + rest)[1..|source| + 1] == source;
  }

  lemma TagsAt(section: string, rest: string)
    requires ' ' !in section
    ensures var line, tags := "@" + section + " " + rest, TagsOf(section);
            Parse(line) == if tags.Err? then Err(tags.error) else Assemble(tags.value, BodyOf(TrimLeft(rest)), line)
  {
    SplitAtSpace("@" + section, rest);
    assert ("@" + section + " " + rest)[1..|section| + 1] == section;
  }

  // ---------------------------------------------------------------- encode, then parse the body

  lemma {:induction false} ParamsRoundTrip(ps: seq<string>)
    requires ParamsOk(ps) && ps != []
    ensures ParamsOf(ParamTail(ps)) == ps && TrimLeft(ParamTail(ps)) == ParamTail(ps)
  {
    if |ps| == 1 {
      assert ParamTail(ps)[1..] == ps[0];
    } else {
      assert MiddleOk(ps[0]) && ParamsOk(ps[1..]);
      ParamsRoundTrip(ps[1..]);
      ParamsAt(ps[0], ParamTail(ps[1..]));
      assert ParamTail(ps)[0] == ps[0][0];
    }
  }

  lemma CommandRoundTrip(source: string, command: string, ps: seq<string>)
    requires ' ' !in command && ParamsOk(ps) && (command != "" || ps != [])
    ensures CommandOf(source, command + ParamText(ps)) == Ok(Body(source, command, ps))
  {
    if ps == [] {
      assert command + "" == command;
      IndexAbsent(command, ' ');
    } else {
      ParamsRoundTrip(ps);
      CommandAt(source, command, ParamTail(ps));
      assert command + ParamText(ps) == command + " " + ParamTail(ps);
    }
  }

  lemma BodyRoundTrip(b: Body)
    requires FieldsOk(b) && b.command != "" && StartOk(b, true)
    ensures BodyOf(BodyText(b)) == Ok(b) && TrimLeft(BodyText(b)) == BodyText(b)
  {
    if b.source != "" {
      SourcedRoundTrip(b);
    } else {
      BareRoundTrip(b);
    }
  }

  lemma SourcedRoundTrip(b: Body)
    requires FieldsOk(b) && b.command != "" && b.source != ""
    ensures BodyOf(BodyText(b)) == Ok(b) && TrimLeft(BodyText(b)) == BodyText(b)
  {
    CommandRoundTrip(b.source, b.command, b.params);
    CommandFirst(b.command, ParamText(b.params));
    SourceAt(b.source, b.command + ParamText(b.params));
    SourcedText(b);
  }

  lemma BareRoundTrip(b: Body)
    requires FieldsOk(b) && b.command != "" && b.command[0] != ':' && b.source == ""
    ensures BodyOf(BodyText(b)) == Ok(b) && TrimLeft(BodyText(b)) == BodyText(b)
  {
    CommandRoundTrip("", b.command, b.params);
    CommandFirst(b.command, ParamText(b.params));
    BareText(b);
  }

  lemma BareText(b: Body)
    requires b.source == ""
    ensures BodyText(b) == b.command + ParamText(b.params)
  {
  }

  lemma CommandFirst(command: string, text: string)
    requires command != "" && ' ' !in command
    ensures (command + text)[0] == command[0] != ' ' && TrimLeft(command + text) == command + text
  {
    assert command[0] in command;
  }

  lemma SourcedText(b: Body)
    requires b.source != ""
    ensures BodyText(b) == ":" + b.source + " " + (b.command + ParamText(b.params))
    ensures TrimLeft(BodyText(b)) == BodyText(b)
  {
  }

  // ---------------------------------------------------------------- encode, then parse the tags

  lemma TokenOk(k: string, v: string, acc: map<string, string>)
    requires KeyOk(k)
    ensures ';' !in Token(k, v) && ' ' !in Token(k, v) && AddTag(Token(k, v), acc) == Ok(acc[k := v])
  {
    EscapeRoundTrip(v);
    if v == "" {
      IndexAbsent(k, '=');
    } else {
      var t := Token(k, v);
      IndexAfter(k, '=', Escape(v));
      assert t == k + ['='] + Escape(v);
      assert t[..|k|] == k && t[|k| + 1..] == Escape(v);
    }
  }

  ghost function Submap(keys: seq<string>, tags: map<string, string>): map<string, string>
    requires forall k :: k in keys ==> k in tags
  {
    map k | k in keys :: tags[k]
  }

  lemma SubmapNext(keys: seq<string>, tags: map<string, string>, acc: map<string, string>)
    requires keys != [] && forall k :: k in keys ==> k in tags
    ensures acc[keys[0] := tags[keys[0]]] + Submap(keys[1..], tags) == acc + Submap(keys, tags)
  {
    assert keys == [keys[0]] + keys[1..];
  }

  lemma {:induction false} AddTokens(keys: seq<string>, tags: map<string, string>, acc: map<string, string>)
    requires forall k :: k in keys ==> k in tags && KeyOk(k)
    ensures AddTags(Tokens(keys, tags), acc) == Ok(acc + Submap(keys, tags))
  {
    if keys == [] {
      assert acc + Submap([], tags) == acc;
    } else {
      TokenOk(keys[0], tags[keys[0]], acc);
      AddTokens(keys[1..], tags, acc[keys[0] := tags[keys[0]]]);
      SubmapNext(keys, tags, acc);
      assert Tokens(keys, tags)[1..] == Tokens(keys[1..], tags);
    }
  }

  lemma TokensAvoid(keys: seq<string>, tags: map<string, string>)
    requires forall k :: k in keys ==> k in tags && KeyOk(k)
    ensures forall t :: t in Tokens(keys, tags) ==> ';' !in t && ' ' !in t
  {
    var toks := Tokens(keys, tags);
    forall t | t in toks ensures ';' !in t && ' ' !in t {
      var i :| 0 <= i < |toks| && toks[i] == t;
      TokenOk(keys[i], tags[keys[i]], map[]);
    }
  }

  /** The tag section as TagPrefix writes it, without the '@'. */
  ghost function Section(tags: map<string, string>): string {
    SortedKeysMembers(tags.Keys);
    Join(Tokens(SortedKeys(tags.Keys), tags), ';')
  }

  lemma SectionRoundTrip(tags: map<string, string>)
    requires TagKeysOk(tags) && tags != map[]
    ensures TagsOf(Section(tags)) == Ok(tags) && ' ' !in Section(tags)
  {
    SortedKeysMembers(tags.Keys);
    var keys := SortedKeys(tags.Keys);
    var k :| k in tags;
    assert k in keys;
    KeysRoundTrip(keys, tags);
    SubmapAll(keys, tags);
  }

  lemma KeysRoundTrip(keys: seq<string>, tags: map<string, string>)
    requires keys != [] && forall k :: k in keys ==> k in tags && KeyOk(k)
    ensures var section := Join(Tokens(keys, tags), ';');
            TagsOf(section) == Ok(map[] + Submap(keys, tags)) && ' ' !in section
  {
    var toks := Tokens(keys, tags);
    TokensAvoid(keys, tags);
    SplitJoin(toks, ';');
    JoinAvoids(toks, ';', ' ');
    AddTokens(keys, tags, map[]);
  }

  lemma SubmapAll(keys: seq<string>, tags: map<string, string>)
    requires forall k :: k in keys <==> k in tags
    ensures map[] + Submap(keys, tags) == tags
  {
  }

  /** The tag prefix is read back exactly, and parsing goes on behind its spaces. */
  lemma TagsRoundTrip(tags: map<string, string>, text: string)
    requires TagKeysOk(tags) && tags != map[]
    ensures var line := TagPrefix(tags) + " " + text;
            Parse(line) == Assemble(tags, BodyOf(TrimLeft(text)), line)
  {
    SectionRoundTrip(tags);
    TagsAt(Section(tags), text);
  }

  // ---------------------------------------------------------------- what Parse can return

  lemma {:induction false} ParsedParams(s: string)
    requires s == "" || s[0] != ' '
    ensures ParamsOk(ParamsOf(s)) && forall p :: p in ParamsOf(s) ==> |p| <= |s|
    decreases |s|
  {
    if s != "" && s[0] != ':' {
      var sp := IndexOf(s, ' ');
      if sp >= 0 {
        ParsedParams(TrimLeft(s[sp + 1..]));
        MiddleFirst(s[..sp], ParamsOf(TrimLeft(s[sp + 1..])));
      }
    }
  }

  lemma MiddleFirst(p: string, ps: seq<string>)
    requires MiddleOk(p) && ParamsOk(ps)
    ensures ParamsOk([p] + ps)
  {
    var all := [p] + ps;
    forall i | 0 <= i < |all| - 1 ensures MiddleOk(all[i]) {
      assert i > 0 ==> all[i] == ps[i - 1];
    }
  }

  lemma ParsedCommand(source: string, s: string)
    requires ' ' !in source
    ensures var r := CommandOf(source, s);
            r.Ok? ==> FieldsOk(r.value) && r.value.source == source && (s[0] != ' ' <==> r.value.command != "")
  {
    var sp := IndexOf(s, ' ');
    if s != "" && sp >= 0 {
      ParsedParams(TrimLeft(s[sp + 1..]));
    }
  }

  lemma ParsedBody(s: string)
    ensures var r := BodyOf(s);
            r.Ok? ==> FieldsOk(r.value) && (s[0] != ' ' <==> r.value.command != "")
  {
    if s != "" {
      if s[0] == ':' {
        var sp := IndexOf(s, ' ');
        if sp >= 0 {
          assert s[..sp] == [s[0]] + s[1..sp];
          ParsedCommand(s[1..sp], TrimLeft(s[sp + 1..]));
        }
      } else {
        ParsedCommand("", s);
      }
    }
  }

  lemma {:induction false} ParsedTags(parts: seq<string>, acc: map<string, string>)
    requires TagKeysOk(acc) && forall p :: p in parts ==> ';' !in p && ' ' !in p
    ensures var r := AddTags(parts, acc); r.Ok? ==> TagKeysOk(r.value)
    decreases |parts|
  {
    if parts != [] {
      var p, eq := parts[0], IndexOf(parts[0], '=');
      assert p in parts;
      var r := AddTag(p, acc);
      if r.Ok? {
        assert TagKeysOk(r.value);
        ParsedTags(parts[1..], r.value);
      }
    }
  }

  predicate Avoids(p: string, c: char, d: char) {
    c !in p && d !in p
  }

  lemma {:induction false} SplitAvoids(s: string, c: char, d: char)
    requires d !in s
    ensures forall p :: p in Split(s, c) ==> Avoids(p, c, d)
    decreases |s|
  {
    var i := IndexOf(s, c);
    if i >= 0 {
      SplitAvoids(s[i + 1..], c, d);
      FrontAvoids(s, i, c, d);
    }
  }

  lemma FrontAvoids(s: string, i: nat, c: char, d: char)
    requires i < |s| && d !in s && c !in s[..i]
    ensures Avoids(s[..i], c, d)
  {
  }

  /** Every accepted line has well-formed tag keys, source, command and middle parameters. */
  lemma ParsedFields(line: string)
    ensures var r := Parse(line); r.Ok? ==> TagKeysOk(r.value.tags) && FieldsOk(BodyIn(r.value)) && r.value.raw == line
  {
    if line != "" {
      if line[0] == '@' {
        var sp := IndexOf(line, ' ');
        if sp >= 0 {
          assert line[..sp] == [line[0]] + line[1..sp];
          SplitAvoids(line[1..sp], ';', ' ');
          ParsedTags(Split(line[1..sp], ';'), map[]);
          ParsedBody(TrimLeft(line[sp + 1..]));
        }
      } else {
        ParsedBody(line);
      }
    }
  }

  // ---------------------------------------------------------------- main results

  /** Reading a command off a parameter list loses a parameter, so the two never agree. */
  lemma CommandTakesOne(source: string, s: string)
    requires s != "" && s[0] != ' '
    ensures CommandOf(source, s).value.params != ParamsOf(s)
  {
    var sp := IndexOf(s, ' ');
    if s[0] == ':' && sp >= 0 {
      ParsedParams(TrimLeft(s[sp + 1..]));
      assert ParamsOf(s)[0] == s[1..] && s[1..] in ParamsOf(s);
    }
  }

  lemma BodyTakesOne(s: string)
    requires s == "" || s[0] != ' '
    ensures BodyOf(s).Ok? ==> BodyOf(s).value.params != ParamsOf(s)
  {
    if s != "" {
      if s[0] == ':' {
        var sp := IndexOf(s, ' ');
        if sp >= 0 {
          ShortParams(s[1..sp], TrimLeft(s[sp + 1..]));
          assert ParamsOf(s)[0] == s[1..] && s[1..] in ParamsOf(s);
        }
      } else {
        CommandTakesOne("", s);
      }
    }
  }

  /** What is read off a text is no longer than the text. */
  lemma ShortParams(source: string, t: string)
    ensures var r := CommandOf(source, t); r.Ok? ==> forall p :: p in r.value.params ==> |p| <= |t|
  {
    var tp := IndexOf(t, ' ');
    if t != "" && tp >= 0 {
      ParsedParams(TrimLeft(t[tp + 1..]));
    }
  }

  /** A command that starts with ':' and has no source before it is read as a source. */
  lemma ColonCommandLost(b: Body)
    requires FieldsOk(b) && b.source == "" && b.command != "" && b.command[0] == ':'
    ensures BodyOf(BodyText(b)) != Ok(b)
  {
    BareText(b);
    if b.params == [] {
      assert BodyText(b) == b.command;
      IndexAbsent(b.command, ' ');
    } else {
      ParamsRoundTrip(b.params);
      TailNonEmpty(b.params);
      ColonTaken(b.command, ParamTail(b.params));
    }
  }

  lemma TailNonEmpty(ps: seq<string>)
    requires ps != []
    ensures ParamTail(ps) != ""
  {
  }

  /** Read as a source, the command leaves one parameter too few behind it. */
  lemma ColonTaken(command: string, rest: string)
    requires command != "" && command[0] == ':' && ' ' !in command && rest != "" && TrimLeft(rest) == rest
    ensures var r := BodyOf(command + (" " + rest)); r.Ok? ==> r.value.params != ParamsOf(rest)
  {
    assert command == ":" + command[1..];
    assert command + (" " + rest) == ":" + command[1..] + " " + rest;
    SourceAt(command[1..], rest);
    CommandTakesOne(command[1..], rest);
  }

  lemma AtBodyChanges(body: string)
    requires body != "" && body[0] == '@' && BodyOf(body).Ok?
    ensures var r := Parse(body); r.Ok? ==> r.value.params != BodyOf(body).value.params
  {
    var sp := IndexOf(body, ' ');
    if sp >= 0 {
      BodyTakesOne(TrimLeft(body[sp + 1..]));
    }
  }

  /** A command that starts with '@' and has neither tags nor source before it is read as tags. */
  lemma AtCommandLost(b: Body)
    requires FieldsOk(b) && b.source == "" && b.command != "" && b.command[0] == '@'
    ensures var r := Parse(BodyText(b)); r.Ok? ==> r.value.params != b.params
  {
    var s := b.command + ParamText(b.params);
    assert BodyText(b) == s && s[0] == '@';
    CommandRoundTrip("", b.command, b.params);
    assert BodyOf(s) == Ok(b);
    AtBodyChanges(s);
  }

  lemma NoTags(line: string)
    requires line != "" && line[0] != '@'
    ensures Parse(line) == Assemble(map[], BodyOf(line), line)
  {
  }

  /** Neither tags nor source. */
  lemma BareExact(b: Body)
    requires FieldsOk(b) && b.source == ""
    ensures Parse(BodyText(b)) == Assemble(map[], Ok(b), BodyText(b)) <==> StartOk(b, false)
  {
    if b.command == "" {
      EmptyCommand(b);
      if b.params != [] {
        NoTags(BodyText(b));
      }
    } else if b.command[0] == '@' {
      AtCommandLost(b);
    } else {
      CommandExact(b);
    }
  }

  lemma CommandExact(b: Body)
    requires FieldsOk(b) && b.source == "" && b.command != "" && b.command[0] != '@'
    ensures Parse(BodyText(b)) == Assemble(map[], Ok(b), BodyText(b)) <==> StartOk(b, false)
  {
    BareText(b);
    CommandFirst(b.command, ParamText(b.params));
    NoTags(BodyText(b));
    if b.command[0] == ':' {
      ColonCommandLost(b);
    } else {
      BareRoundTrip(b);
    }
  }

  /** Encode without tags. */
  lemma UntaggedExact(m: Message)
    requires m.tags == map[] && FieldsOk(BodyIn(m))
    ensures Parse(Encode(m)) == Ok(m.(raw := Encode(m))) <==> StartOk(BodyIn(m), false)
  {
    var b := BodyIn(m);
    assert Encode(m) == BodyText(b);
    assert Ok(m.(raw := Encode(m))) == Assemble(map[], Ok(b), BodyText(b));
    if b.source != "" {
      SourceFirst(b);
      NoTags(BodyText(b));
    } else {
      BareExact(b);
    }
  }

  lemma SourceFirst(b: Body)
    requires FieldsOk(b) && b.source != ""
    ensures BodyText(b)[0] == ':' && (BodyOf(BodyText(b)) == Ok(b) <==> b.command != "")
  {
    if b.command != "" {
      BodyRoundTrip(b);
    } else {
      assert BodyText(b) == ":" + b.source + " " + ParamText(b.params);
      ParsedBody(BodyText(b));
    }
  }

  lemma EmptyCommand(b: Body)
    requires FieldsOk(b) && b.source == "" && b.command == ""
    ensures BodyText(b) == ParamText(b.params)
    ensures b.params != [] ==> BodyText(b)[0] == ' ' && BodyOf(BodyText(b)) == Ok(b)
  {
    if b.params != [] {
      CommandRoundTrip("", "", b.params);
      assert "" + "" + ParamText(b.params) == ParamText(b.params) == "" + ParamText(b.params);
    }
  }

  /** Encode with tags: the spaces in front of the body are trimmed. */
  lemma TaggedExact(m: Message)
    requires m.tags != map[] && TagKeysOk(m.tags) && FieldsOk(BodyIn(m))
    ensures Parse(Encode(m)) == Ok(m.(raw := Encode(m))) <==> StartOk(BodyIn(m), true)
  {
    var b := BodyIn(m);
    TagsRoundTrip(m.tags, BodyText(b));
    if b.command == "" {
      ParsedBody(TrimLeft(BodyText(b)));
    } else if StartOk(b, true) {
      BodyRoundTrip(b);
    } else {
      assert BodyText(b)[0] == ':';
      ColonCommandLost(b);
    }
  }

  /** Encode then Parse gives back the message exactly when it is well-formed: whatever the tag
      values and the last parameter are, and for no other message. */
  lemma RoundTripExact(m: Message)
    ensures Parse(Encode(m)) == Ok(m.(raw := Encode(m))) <==> WellFormed(m)
  {
    ParsedFields(Encode(m));
    if TagKeysOk(m.tags) && FieldsOk(BodyIn(m)) {
      if m.tags == map[] {
        UntaggedExact(m);
      } else {
        TaggedExact(m);
      }
    }
  }

  /** The part of Wire that Parse reads behind the tags. */
  lemma StrippedBody(raw: string)
    requires Parse(raw).Ok?
    ensures StripTagPrefix(raw) != "" && BodyOf(StripTagPrefix(raw)) == Ok(BodyIn(Parse(raw).value))
  {
  }

  /** The message a line parses to, re-tagged. */
  function Retagged(raw: string, tags: map<string, string>): Message
    requires Parse(raw).Ok?
  {
    Parse(raw).value.(tags := tags)
  }

  lemma WireUntagged(raw: string)
    requires Parse(raw).Ok?
    ensures var m, body := Retagged(raw, map[]), StripTagPrefix(raw);
            body != "" && (Parse(Wire(m)) == Ok(m.(raw := Wire(m))) <==> body[0] != '@')
  {
    StrippedBody(raw);
    var body := StripTagPrefix(raw);
    RawStays(raw);
    if body[0] == '@' {
      AtBodyChanges(body);
    } else {
      NoTags(body);
    }
  }

  lemma WireTagged(raw: string, tags: map<string, string>)
    requires Parse(raw).Ok? && TagKeysOk(tags) && tags != map[]
    ensures var m, body := Retagged(raw, tags), StripTagPrefix(raw);
            body != "" && (Parse(Wire(m)) == Ok(m.(raw := Wire(m))) <==> body[0] != ' ')
  {
    StrippedBody(raw);
    var body := StripTagPrefix(raw);
    RawStays(raw);
    TagsRoundTrip(tags, body);
    ParsedBody(body);
    ParsedBody(TrimLeft(body));
  }

  lemma RawStays(raw: string)
    requires Parse(raw).Ok?
    ensures Parse(raw).value.raw == raw != ""
  {
  }

  /** Re-tagging a parsed line through Wire changes the tags and nothing else, exactly when the
      tag-free body cannot be taken for tags (no new tags) or is not trimmed (new tags). */
  lemma WireExact(raw: string, tags: map<string, string>)
    requires Parse(raw).Ok? && TagKeysOk(tags)
    ensures var m, body := Retagged(raw, tags), StripTagPrefix(raw);
            body != "" &&
            (Parse(Wire(m)) == Ok(m.(raw := Wire(m))) <==> body[0] != (if tags == map[] then '@' else ' '))
  {
    if tags == map[] {
      WireUntagged(raw);
    } else {
      WireTagged(raw, tags);
    }
  }
}
