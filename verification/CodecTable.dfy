/** What the codec writes and reads on the wire, in literal text: the tag escapes of the IRCv3
    message-tags specification, "Escaping Values", and the shape of a line in section 2.3.1 of
    RFC 1459 (internal/irc/message.go). */
module CodecTable {
  import opened Text
  import opened Codec
  import opened CodecLaws

  // ---------------------------------------------------------------- tag escapes

  lemma ReadEscape(c: char, rest: string)
    ensures Unescape("\\" + [c] + rest) == Prepend([UnescapeChar(c)], Unescape(rest))
  {
    var v := "\\" + [c] + rest;
    assert v[0] == '\\' && v[1] == c && v[2..] == rest;
  }

  /** The five escapes stand for a semicolon, a space, a backslash, CR and LF. */
  lemma EscapesRead(rest: string)
    ensures Unescape("\\:" + rest) == Prepend(";", Unescape(rest))
    ensures Unescape("\\s" + rest) == Prepend(" ", Unescape(rest))
    ensures Unescape("\\\\" + rest) == Prepend("\\", Unescape(rest))
    ensures Unescape("\\r" + rest) == Prepend("\r", Unescape(rest))
    ensures Unescape("\\n" + rest) == Prepend("\n", Unescape(rest))
  {
    ReadEscape(':', rest);
    ReadEscape('s', rest);
    ReadEscape('\\', rest);
    ReadEscape('r', rest);
    ReadEscape('n', rest);
    assert "\\" + [':'] == "\\:" && "\\" + ['s'] == "\\s" && "\\" + ['\\'] == "\\\\";
    assert "\\" + ['r'] == "\\r" && "\\" + ['n'] == "\\n";
  }

  /** Any other escaped character stands for itself, as does one that is not escaped; a lone backslash
      at the end is an error. */
  lemma OthersRead(c: char, rest: string)
    ensures c !in ":s\\rn" ==> Unescape("\\" + [c] + rest) == Prepend([c], Unescape(rest))
    ensures c != '\\' ==> Unescape([c] + rest) == Prepend([c], Unescape(rest))
    ensures Unescape("") == Ok("") && Unescape("\\") == Err(TrailingEscape)
  {
    ReadEscape(c, rest);
    assert ([c] + rest)[0] == c && ([c] + rest)[1..] == rest;
  }

  /** Escaping goes character by character, ... */
  lemma {:induction false} EscapeConcat(a: string, b: string)
    ensures Escape(a + b) == Escape(a) + Escape(b)
  {
    if a == "" {
      assert a + b == b;
    } else {
      EscapeConcat(a[1..], b);
      assert (a + b)[0] == a[0] && (a + b)[1..] == a[1..] + b;
      Associate(EscapeChar(a[0]), Escape(a[1..]), Escape(b));
    }
  }

  lemma Associate(a: string, b: string, c: string)
    ensures a + (b + c) == a + b + c
  {
  }

  /** ... writes the same five pairs, and leaves everything else alone. */
  lemma EscapesWritten(c: char)
    ensures Escape(";") == "\\:" && Escape(" ") == "\\s" && Escape("\\") == "\\\\"
    ensures Escape("\r") == "\\r" && Escape("\n") == "\\n" && Escape("") == ""
    ensures c !in "; \\\r\n" ==> Escape([c]) == [c]
  {
    forall d: char ensures Escape([d]) == EscapeChar(d) {
      assert [d][1..] == "" && EscapeChar(d) + "" == EscapeChar(d);
    }
    assert Escape(";") == EscapeChar(';') && Escape(" ") == EscapeChar(' ') && Escape("\\") == EscapeChar('\\');
    assert Escape("\r") == EscapeChar('\r') && Escape("\n") == EscapeChar('\n');
  }

  // ---------------------------------------------------------------- a tagged line

  /** `@key=value rest`: the tag is read with its value unescaped, or the line is refused for it. */
  lemma TaggedLine(key: string, value: string, rest: string)
    requires KeyOk(key) && ';' !in value && ' ' !in value
    ensures var line, v := "@" + (key + "=" + value) + " " + rest, Unescape(value);
            Parse(line) == if v.Err? then Err(v.error) else Assemble(map[key := v.value], BodyOf(TrimLeft(rest)), line)
  {
    var part := key + "=" + value;
    IndexAbsent(part, ';');
    OnePart(part, []);
    ValueTag(key, value, map[]);
    TagsAt(part, rest);
  }

  lemma ValueTag(key: string, value: string, tags: map<string, string>)
    requires KeyOk(key)
    ensures var v := Unescape(value);
            AddTag(key + "=" + value, tags) == if v.Err? then Err(v.error) else Ok(tags[key := v.value])
  {
    var part := key + "=" + value;
    IndexAfter(key, '=', value);
    assert part[..|key|] == key && part[|key| + 1..] == value;
  }

  lemma OnePart(part: string, rest: seq<string>)
    ensures var r := AddTag(part, map[]);
            AddTags([part] + rest, map[]) == if r.Err? then Err(r.error) else AddTags(rest, r.value)
    ensures rest == [] ==> AddTags([part], map[]) == AddTag(part, map[])
  {
    assert ([part] + rest)[1..] == rest;
    assert rest == [] ==> [part] + rest == [part];
  }

  /** Two tags are separated by a semicolon; one without a value is empty; a later one wins. */
  lemma TwoTags(a: string, b: string, value: string, rest: string)
    requires KeyOk(a) && KeyOk(b) && ';' !in value && ' ' !in value && '\\' !in value
    ensures var line := "@" + (a + ";" + (b + "=" + value)) + " " + rest;
            Parse(line) == Assemble(map[a := ""][b := value], BodyOf(TrimLeft(rest)), line)
  {
    var section := a + ";" + (b + "=" + value);
    TwoParts(a, b, value);
    TagsAt(section, rest);
  }

  lemma TwoParts(a: string, b: string, value: string)
    requires KeyOk(a) && KeyOk(b) && ';' !in value && '\\' !in value
    ensures TagsOf(a + ";" + (b + "=" + value)) == Ok(map[a := ""][b := value])
  {
    var part := b + "=" + value;
    TwoSplit(a, part);
    IndexAbsent(a, '=');
    OnePart(a, [part]);
    assert [a] + [part] == [a, part];
    UnescapePlain(value);
    ValueTag(b, value, map[a := ""]);
    LastPart(part, map[a := ""]);
  }

  lemma LastPart(part: string, tags: map<string, string>)
    ensures AddTags([part], tags) == AddTag(part, tags)
  {
    assert [part][1..] == [];
  }

  lemma TwoSplit(a: string, part: string)
    requires ';' !in a && ';' !in part
    ensures Split(a + ";" + part, ';') == [a, part]
  {
    var section := a + ";" + part;
    IndexAfter(a, ';', part);
    assert section[..|a|] == a && section[|a| + 1..] == part;
    IndexAbsent(part, ';');
  }

  /** So a value is written with its spaces as \s and its semicolons as \:, and read back from that. */
  lemma SpaceAndSemicolon(key: string, a: string, b: string, c: string, rest: string)
    requires KeyOk(key)
    requires forall x :: x in a || x in b || x in c ==> x !in "; \\\r\n"
    ensures var line := "@" + (key + "=" + (a + "\\s" + b + "\\:" + c)) + " " + rest;
            Parse(line) == Assemble(map[key := a + " " + b + ";" + c], BodyOf(TrimLeft(rest)), line)
    ensures Escape(a + " " + b + ";" + c) == a + "\\s" + b + "\\:" + c
  {
    var plain := a + " " + b + ";" + c;
    EscapesWritten('x');
    EscapePlain(a);
    EscapePlain(b);
    EscapePlain(c);
    EscapeConcat(a, " ");
    EscapeConcat(a + " ", b);
    EscapeConcat(a + " " + b, ";");
    EscapeConcat(a + " " + b + ";", c);
    EscapeRoundTrip(plain);
    TaggedLine(key, Escape(plain), rest);
  }

  lemma {:induction false} EscapePlain(v: string)
    requires forall x :: x in v ==> x !in "; \\\r\n"
    ensures Escape(v) == v
  {
    if v != "" {
      EscapesWritten(v[0]);
      assert v == [v[0]] + v[1..];
      EscapePlain(v[1..]);
      EscapeConcat([v[0]], v[1..]);
    }
  }

  // ---------------------------------------------------------------- a whole line

  /** `:source command middle :last` is read into its four parts, whatever the last parameter holds ... */
  lemma LineRead(source: string, command: string, middle: string, last: string)
    requires ' ' !in source && command != "" && ' ' !in command && MiddleOk(middle)
    ensures BodyOf(":" + source + " " + (command + " " + (middle + " " + (":" + last))))
         == Ok(Body(source, command, [middle, last]))
  {
    var tail := middle + " " + (":" + last);
    LineStart(source, command, tail);
    TailRead(middle, last);
    CommandAt(source, command, tail);
  }

  lemma LineStart(source: string, command: string, tail: string)
    requires ' ' !in source && command != "" && ' ' !in command
    ensures BodyOf(":" + source + " " + (command + " " + tail)) == CommandOf(source, command + " " + tail)
  {
    CommandFirst(command, " " + tail);
    assert command + (" " + tail) == command + " " + tail;
    SourceAt(source, command + " " + tail);
  }

  lemma TailRead(middle: string, last: string)
    requires MiddleOk(middle)
    ensures var tail := middle + " " + (":" + last); ParamsOf(TrimLeft(tail)) == [middle, last]
  {
    var tail := middle + " " + (":" + last);
    assert tail[0] == middle[0] && middle[0] in middle;
    ParamsAt(middle, ":" + last);
    assert (":" + last)[0] == ':' && (":" + last)[1..] == last;
  }

  /** Any number of spaces may stand where one does, except in front of a line. */
  lemma SpacesSkipped(rest: string)
    ensures TrimLeft(" " + rest) == TrimLeft(rest)
    ensures rest != "" && rest[0] != ' ' ==> TrimLeft(rest) == rest
    ensures BodyOf(" " + rest).Ok? && BodyOf(" " + rest).value.command == ""
  {
    assert (" " + rest)[0] == ' ' && (" " + rest)[1..] == rest;
    assert IndexOf(" " + rest, ' ') == 0;
  }

  /** What is missing from a line decides which error it is refused with. */
  lemma LinesRefused(text: string, key: string, value: string, rest: string)
    requires ' ' !in text && KeyOk(key) && ' ' !in value && ';' !in value && '\\' !in value
    ensures Parse("") == Err(EmptyMessage) && Parse("@" + text) == Err(TagsWithoutCommand)
    ensures Parse(":" + text) == Err(PrefixWithoutCommand) && Parse(":" + text + " ") == Err(MissingCommand)
    ensures Parse("@" + ("=" + value) + " " + rest) == Err(EmptyTagKey)
    ensures Parse("@" + (key + "=" + (value + "\\")) + " " + rest) == Err(TrailingEscape)
  {
    IndexAbsent("@" + text, ' ');
    IndexAbsent(":" + text, ' ');
    SourceAt(text, "");
    assert ":" + text + " " + "" == ":" + text + " ";
    NoKey(value, rest);
    LoneEscape(value);
    TaggedLine(key, value + "\\", rest);
  }

  lemma NoKey(value: string, rest: string)
    requires ' ' !in value && ';' !in value && '\\' !in value
    ensures Parse("@" + ("=" + value) + " " + rest) == Err(EmptyTagKey)
  {
    var part := "=" + value;
    IndexAbsent(part, ';');
    LastPart(part, map[]);
    IndexAfter("", '=', value);
    assert "" + ['='] + value == part && part[1..] == value;
    UnescapePlain(value);
    TagsAt(part, rest);
  }

  lemma {:induction false} LoneEscape(value: string)
    requires '\\' !in value
    ensures Unescape(value + "\\") == Err(TrailingEscape)
  {
    if value == "" {
      assert value + "\\" == "\\";
    } else {
      LoneEscape(value[1..]);
      assert (value + "\\")[0] == value[0] && (value + "\\")[1..] == value[1..] + "\\";
    }
  }

  /** ... and is what Encode writes for it. */
  lemma LineWritten(source: string, command: string, middle: string, last: string)
    requires source != ""
    ensures Encode(Message(map[], source, command, [middle, last], ""))
         == ":" + source + " " + (command + " " + (middle + " " + (":" + last)))
  {
    var ps := [middle, last];
    assert ps[1..] == [last];
    assert ParamTail([last]) == ":" + last;
    assert ParamText(ps) == " " + (middle + " " + (":" + last));
  }

  /** One tag is written as @key=value, in front of the body and a space. */
  lemma TagWritten(key: string, value: string, m: Message)
    requires value != "" && m.tags == map[]
    ensures Encode(m.(tags := map[key := value])) == "@" + key + "=" + Escape(value) + " " + Encode(m)
  {
    var tags := map[key := value];
    var tagged := m.(tags := tags);
    OneTagPrefix(key, value);
    assert key in tags;
    assert BodyIn(tagged) == BodyIn(m);
    assert "" + BodyText(BodyIn(m)) == BodyText(BodyIn(m));
  }

  lemma OneTagPrefix(key: string, value: string)
    requires value != ""
    ensures TagPrefix(map[key := value]) == "@" + key + "=" + Escape(value)
  {
    var tags := map[key := value];
    SortedKeysMembers(tags.Keys);
    assert forall k :: k in SortedKeys(tags.Keys) <==> k == key;
    OneKey(SortedKeys(tags.Keys), key);
    assert Tokens([key], tags) == [key + "=" + Escape(value)];
    assert "@" + (key + "=" + Escape(value)) == "@" + key + "=" + Escape(value);
  }

  lemma OneKey(keys: seq<string>, key: string)
    requires Ascending(keys) && forall k :: k in keys <==> k == key
    ensures keys == [key]
  {
    forall y ensures y in keys <==> y in [key] {
    }
    AscendingUnique(keys, [key]);
  }
}
