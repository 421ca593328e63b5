/** RPL_ISUPPORT in literal text (internal/irc/isupport.go): what a token looks like, which parameters
    of a 005 are tokens, and the line they go out on. */
module IsupportTable {
  import opened Text
  import opened Codec
  import opened Isupport

  /** The tokens are the keys in ascending order, each once, as KEY or KEY=value. */
  lemma TokensExact(raw: map<string, string>) returns (keys: seq<string>)
    ensures Ascending(keys) && forall k :: k in keys <==> k in raw
    ensures |TokensOf(raw)| == |keys|
    ensures forall i :: 0 <= i < |keys| && keys[i] in raw ==>
              TokensOf(raw)[i] == if raw[keys[i]] == "" then keys[i] else keys[i] + "=" + raw[keys[i]]
  {
    SortedKeysMembers(raw.Keys);
    keys := SortedKeys(raw.Keys);
  }

  /** A token sets its key to what follows the first equals sign, or to nothing; a later one wins. */
  lemma TokenRead(raw: map<string, string>, toks: seq<string>, k: string, v: string)
    requires '=' !in k
    ensures Merge(raw, []) == raw
    ensures Merge(raw, toks + [k]) == Merge(raw, toks)[k := ""]
    ensures Merge(raw, toks + [k + "=" + v]) == Merge(raw, toks)[k := v]
  {
    SplitWord(k, v);
    assert (toks + [k])[..|toks|] == toks && (toks + [k + "=" + v])[..|toks|] == toks;
  }

  predicate ClosingText(p: string) {
    p == "are supported by this server" || p == "is supported by this server"
  }

  /** The nick in front is no token, nor is the closing text behind, in either number. */
  lemma TokenParamsExact(nick: string, toks: seq<string>, last: string)
    ensures ClosingText(last) ==> TokenParams([nick] + toks + [last]) == toks
    ensures !ClosingText(last) ==> TokenParams([nick] + toks + [last]) == toks + [last]
    ensures TokenParams([nick]) == [] && TokenParams([]) == []
  {
    var params := [nick] + toks + [last];
    assert params[1..] == toks + [last];
    assert params[1..|params| - 1] == toks;
  }

  /** How a line's last parameters are written: the very last behind a colon. */
  lemma TwoParams(a: string, b: string)
    ensures ParamTail([a, b]) == a + " " + (":" + b)
  {
    assert [a, b][1..] == [b];
  }

  lemma ThreeParams(a: string, b: string, c: string)
    ensures ParamTail([a, b, c]) == a + " " + (b + " " + (":" + c))
  {
    TwoParams(b, c);
    assert [a, b, c][1..] == [b, c];
  }

  lemma CommandText(command: string, params: seq<string>)
    requires params != []
    ensures Encode(Message(map[], "", command, params, "")) == command + (" " + ParamTail(params))
  {
    assert "" + command + ParamText(params) == command + ParamText(params);
  }

  /** `005 nick KEY=value :are supported by this server` */
  lemma LineText(nick: string, t: string)
    ensures var closing := ":" + "are supported by this server";
            && Encode(Isupport.Line(nick, [t])) == "005" + (" " + (nick + " " + (t + " " + closing)))
            && Encode(Isupport.Line(nick, [])) == "005" + (" " + (nick + " " + closing))
  {
    ThreeParams(nick, t, TRAILING);
    TwoParams(nick, TRAILING);
    CommandText("005", [nick, t, TRAILING]);
    CommandText("005", [nick, TRAILING]);
    assert [nick] + [t] + [TRAILING] == [nick, t, TRAILING] && [nick] + [] + [TRAILING] == [nick, TRAILING];
  }
}
