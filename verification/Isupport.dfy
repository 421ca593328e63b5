/** RPL_ISUPPORT (internal/irc/isupport.go): the splitter RPL005, the merger Parse005, and the
    fact that the second rebuilds what the first announced. Only the token map is modelled. */
module Isupport {
  import opened Text
  import opened Codec
  import opened CodecLaws

  const TRAILING := "are supported by this server"
  const TRAILING_ONE := "is supported by this server"

  // ---------------------------------------------------------------- merging: Parse005

  function SplitKV(p: string): (string, string) {
    var eq := IndexOf(p, '=');
    if eq < 0 then (p, "") else (p[..eq], p[eq + 1..])
  }

  /** The parameters that are tokens: not the nick, and not the closing text. */
  function TokenParams(params: seq<string>): seq<string> {
    var n := |params|;
    if n <= 1 then []
    else if Closing(params[n - 1]) then params[1..n - 1]
    else params[1..]
  }

  /** Later tokens win. */
  function Merge(raw: map<string, string>, toks: seq<string>): map<string, string> {
    if toks == [] then raw
    else
      var (k, v) := SplitKV(toks[|toks| - 1]);
      Merge(raw, toks[..|toks| - 1])[k := v]
  }

  class Support {
    var raw: map<string, string>

    constructor ()
      ensures raw == map[]
    {
      raw := map[];
    }

    method Parse005(params: seq<string>)
      modifies this
      ensures raw == Merge(old(raw), TokenParams(params))
    {
      TokensEnd(params);
      for i := 0 to |params|
        invariant raw == Merge(old(raw), TokensUpto(params, i))
      {
        if i == 0 {
          TokensSkip(params, i);
          continue;
        }
        var p := params[i];
        if i == |params| - 1 && Closing(p) {
          TokensSkip(params, i);
          continue;
        }
        TokensTake(old(raw), params, i);
        var (k, v) := SplitKV(p);
        raw := raw[k := v];
      }
    }
  }

  predicate Closing(p: string) {
    p == TRAILING || p == TRAILING_ONE
  }

  /** The tokens among the first i parameters. */
  function TokensUpto(params: seq<string>, i: nat): seq<string> {
    var toks := TokenParams(params);
    toks[..Min(Pred(i), |toks|)]
  }

  lemma TokensSkip(params: seq<string>, i: nat)
    requires i < |params| && (i == 0 || (i == |params| - 1 && Closing(params[i])))
    ensures TokensUpto(params, i + 1) == TokensUpto(params, i)
  {
  }

  /** A parameter that is not skipped is the token of its place. */
  lemma TokensTake(raw: map<string, string>, params: seq<string>, i: nat)
    requires 0 < i < |params| && !(i == |params| - 1 && Closing(params[i]))
    ensures Merge(raw, TokensUpto(params, i + 1))
         == Merge(raw, TokensUpto(params, i))[SplitKV(params[i]).0 := SplitKV(params[i]).1]
  {
    var toks := TokenParams(params);
    assert i <= |toks| && toks[i - 1] == params[i];
    MergeNext(raw, toks, i - 1);
  }

  lemma TokensEnd(params: seq<string>)
    ensures TokensUpto(params, 0) == [] && TokensUpto(params, |params|) == TokenParams(params)
  {
  }

  lemma MergeNext(raw: map<string, string>, toks: seq<string>, n: nat)
    requires n < |toks|
    ensures Merge(raw, toks[..n + 1]) == Merge(raw, toks[..n])[SplitKV(toks[n]).0 := SplitKV(toks[n]).1]
  {
    assert toks[..n + 1][..n] == toks[..n];
  }

  function Min(a: nat, b: nat): nat { if a < b then a else b }

  function Pred(i: nat): nat { if i == 0 then 0 else i - 1 }

  /** What a receiver holds after a run of 005 lines. */
  function Feed(raw: map<string, string>, msgs: seq<Message>): map<string, string> {
    if msgs == [] then raw
    else Merge(Feed(raw, msgs[..|msgs| - 1]), TokenParams(msgs[|msgs| - 1].params))
  }

  // ---------------------------------------------------------------- splitting: Tokens and RPL005

  function TokenOf(k: string, v: string): string {
    if v == "" then k else k + "=" + v
  }

  function TokenList(keys: seq<string>, raw: map<string, string>): (r: seq<string>)
    requires forall k :: k in keys ==> k in raw
    ensures |r| == |keys| && forall i :: 0 <= i < |r| ==> r[i] == TokenOf(keys[i], raw[keys[i]])
  {
    seq(|keys|, i requires 0 <= i < |keys| => TokenOf(keys[i], raw[keys[i]]))
  }

  ghost function TokensOf(raw: map<string, string>): seq<string> {
    SortedKeysMembers(raw.Keys);
    TokenList(SortedKeys(raw.Keys), raw)
  }

  method Tokens(raw: map<string, string>) returns (out: seq<string>)
    ensures out == TokensOf(raw)
  {
    if |raw| == 0 {
      return [];
    }
    var keys := ListAndSort(raw.Keys);
    SortedKeysMembers(raw.Keys);
    out := CollectTokens(keys[..], raw);
  }

  /** The loop of Tokens. */
  method CollectTokens(keys: seq<string>, raw: map<string, string>) returns (out: seq<string>)
    requires forall k :: k in keys ==> k in raw
    ensures out == TokenList(keys, raw)
  {
    out := [];
    for i := 0 to |keys|
      invariant |out| == i && forall j :: 0 <= j < i ==> out[j] == TokenOf(keys[j], raw[keys[j]])
    {
      out := out + [TokenOf(keys[i], raw[keys[i]])];
    }
  }

  function Line(nick: string, batch: seq<string>): Message {
    Message(map[], "", "005", [nick] + batch + [TRAILING], "")
  }

  function TokensIn(m: Message): seq<string> {
    if |m.params| < 2 then [] else m.params[1..|m.params| - 1]
  }

  function AllTokens(msgs: seq<Message>): seq<string> {
    if msgs == [] then [] else AllTokens(msgs[..|msgs| - 1]) + TokensIn(msgs[|msgs| - 1])
  }

  /** The bytes a batch takes: one space and the token, each. */
  function Bytes(batch: seq<string>): nat {
    if batch == [] then 0 else Bytes(batch[..|batch| - 1]) + |batch[|batch| - 1]| + 1
  }

  /** The length of the closing text: TrailingLength. */
  const TRAILING_LEN: nat := 28

  lemma TrailingLength()
    ensures |TRAILING| == TRAILING_LEN
  {
  }

  /** "005 ", the nick and a space, and the closing text with its space and colon. */
  function PrefixLen(nick: string): nat {
    4 + |nick| + 1 + TRAILING_LEN + 2
  }

  function Limit(maxLen: int): int {
    if maxLen <= 0 then 500 else maxLen
  }

  /** A line holds one token, or it fits. */
  predicate Fits(m: Message, nick: string, limit: int) {
    |TokensIn(m)| >= 2 ==> PrefixLen(nick) + Bytes(TokensIn(m)) <= limit
  }

  /** The first token of `next` did not fit on `m`: no line is split without need. */
  predicate Full(m: Message, next: seq<string>, nick: string, limit: int) {
    next != [] && PrefixLen(nick) + Bytes(TokensIn(m)) + |next[0]| + 1 > limit
  }

  predicate LineOk(m: Message, nick: string, limit: int) {
    IsLine(m, nick) && TokensIn(m) != [] && Fits(m, nick, limit)
  }

  predicate Needed(m: Message, next: Message, nick: string, limit: int) {
    Full(m, TokensIn(next), nick, limit)
  }

  ghost predicate Packed(msgs: seq<Message>, nick: string, limit: int) {
    && (forall i :: 0 <= i < |msgs| ==> LineOk(msgs[i], nick, limit))
    && (forall i :: 0 < i < |msgs| ==> Needed(msgs[i - 1], msgs[i], nick, limit))
  }

  predicate IsLine(m: Message, nick: string) {
    m == Line(nick, TokensIn(m))
  }

  lemma LineTokens(nick: string, batch: seq<string>)
    ensures TokensIn(Line(nick, batch)) == batch
  {
  }

  lemma SomeTokens(raw: map<string, string>)
    ensures TokensOf(raw) == [] <==> raw == map[]
  {
    SortedKeysMembers(raw.Keys);
    if raw != map[] {
      var k :| k in raw;
      assert k in SortedKeys(raw.Keys);
    }
  }

  /** Every token in order and once, each line full and, with two tokens or more, short enough. */
  method RPL005(nick: string, raw: map<string, string>, maxLen: int) returns (msgs: seq<Message>)
    ensures Announces(msgs, nick, raw)
    ensures raw == map[] ==> msgs == [Line(nick, [])]
    ensures raw != map[] ==> Packed(msgs, nick, Limit(maxLen))
  {
    var tokens := Tokens(raw);
    SomeTokens(raw);
    if |tokens| == 0 {
      FlushTokens([], nick, []);
      return [Line(nick, [])];
    }
    msgs := Batch(nick, tokens, Limit(maxLen));
  }

  /** The loop of RPL005. */
  method Batch(nick: string, tokens: seq<string>, limit: int) returns (msgs: seq<Message>)
    ensures AllTokens(msgs) == tokens && Packed(msgs, nick, limit)
  {
    msgs := [];
    var batch, batchLen := [], PrefixLen(nick);
    BatchStart(tokens, nick, limit);
    for n := 0 to |tokens|
      invariant BatchingAt(msgs, batch, batchLen, tokens, n, nick, limit)
    {
      msgs, batch, batchLen := AddToken(msgs, batch, batchLen, tokens, n, nick, limit);
    }
    BatchEnd(msgs, batch, batchLen, tokens, nick, limit);
    msgs := msgs + Flush(nick, batch);
  }

  method AddToken(msgs: seq<Message>, batch: seq<string>, batchLen: nat, tokens: seq<string>, n: nat, nick: string,
      limit: int) returns (msgs': seq<Message>, batch': seq<string>, batchLen': nat)
    requires n < |tokens| && BatchingAt(msgs, batch, batchLen, tokens, n, nick, limit)
    ensures BatchingAt(msgs', batch', batchLen', tokens, n + 1, nick, limit)
  {
    var tok := tokens[n];
    var need := |tok| + 1;
    if |batch| > 0 && batchLen + need > limit {
      FlushStep(msgs, batch, batchLen, tokens, n, nick, limit);
      msgs', batch', batchLen' := msgs + Flush(nick, batch), [], PrefixLen(nick);
    } else {
      MoreStep(msgs, batch, batchLen, tokens, n, nick, limit);
      msgs', batch', batchLen' := msgs, batch, batchLen;
    }
    batch', batchLen' := batch' + [tok], batchLen' + need;
  }

  lemma BytesMore(batch: seq<string>, tok: string)
    ensures Bytes(batch + [tok]) == Bytes(batch) + |tok| + 1
  {
    assert (batch + [tok])[..|batch|] == batch;
  }

  /** flush: nothing for an empty batch. */
  function Flush(nick: string, batch: seq<string>): seq<Message> {
    if batch == [] then [] else [Line(nick, batch)]
  }

  lemma FlushTokens(msgs: seq<Message>, nick: string, batch: seq<string>)
    ensures AllTokens(msgs + Flush(nick, batch)) == AllTokens(msgs) + batch
  {
    if batch == [] {
      assert msgs + [] == msgs;
    } else {
      LineTokens(nick, batch);
      assert (msgs + [Line(nick, batch)])[..|msgs|] == msgs;
    }
  }

  /** The loop's invariant: flushing now would give a packed announcement of the tokens so far. */
  ghost predicate Batching(msgs: seq<Message>, batch: seq<string>, sofar: seq<string>, nick: string, limit: int) {
    && AllTokens(msgs) + batch == sofar
    && Packed(msgs + Flush(nick, batch), nick, limit)
    && (batch == [] ==> msgs == [])
  }

  /** After n tokens. */
  ghost predicate BatchingAt(msgs: seq<Message>, batch: seq<string>, batchLen: nat, tokens: seq<string>, n: nat,
      nick: string, limit: int)
  {
    n <= |tokens| && batchLen == PrefixLen(nick) + Bytes(batch) && Batching(msgs, batch, tokens[..n], nick, limit)
  }

  lemma FlushStep(msgs: seq<Message>, batch: seq<string>, batchLen: nat, tokens: seq<string>, n: nat, nick: string,
      limit: int)
    requires n < |tokens| && BatchingAt(msgs, batch, batchLen, tokens, n, nick, limit)
    requires batch != [] && batchLen + |tokens[n]| + 1 > limit
    ensures BatchingAt(msgs + Flush(nick, batch), [] + [tokens[n]], PrefixLen(nick) + |tokens[n]| + 1,
                       tokens, n + 1, nick, limit)
  {
    var sofar := tokens[..n + 1];
    assert sofar == tokens[..n] + [tokens[n]];
    BatchFlush(msgs, batch, tokens[..n], sofar, tokens[n], nick, limit);
    BytesMore([], tokens[n]);
  }

  lemma MoreStep(msgs: seq<Message>, batch: seq<string>, batchLen: nat, tokens: seq<string>, n: nat, nick: string,
      limit: int)
    requires n < |tokens| && BatchingAt(msgs, batch, batchLen, tokens, n, nick, limit)
    requires batch != [] ==> batchLen + |tokens[n]| + 1 <= limit
    ensures BatchingAt(msgs, batch + [tokens[n]], batchLen + |tokens[n]| + 1, tokens, n + 1, nick, limit)
  {
    var sofar := tokens[..n + 1];
    assert sofar == tokens[..n] + [tokens[n]];
    BatchMore(msgs, batch, tokens[..n], sofar, tokens[n], nick, limit);
    BytesMore(batch, tokens[n]);
  }

  lemma BatchStart(tokens: seq<string>, nick: string, limit: int)
    ensures BatchingAt([], [], PrefixLen(nick), tokens, 0, nick, limit)
  {
    assert tokens[..0] == [];
  }

  lemma BatchEnd(msgs: seq<Message>, batch: seq<string>, batchLen: nat, tokens: seq<string>, nick: string, limit: int)
    requires BatchingAt(msgs, batch, batchLen, tokens, |tokens|, nick, limit)
    ensures AllTokens(msgs + Flush(nick, batch)) == tokens && Packed(msgs + Flush(nick, batch), nick, limit)
  {
    FlushTokens(msgs, nick, batch);
    assert tokens[..|tokens|] == tokens;
  }

  lemma PackedFront(msgs: seq<Message>, batch: seq<string>, nick: string, limit: int)
    requires batch != [] && Packed(msgs + Flush(nick, batch), nick, limit)
    ensures Packed(msgs, nick, limit) && (msgs != [] ==> Full(msgs[|msgs| - 1], batch, nick, limit))
  {
    LineTokens(nick, batch);
    var all := msgs + Flush(nick, batch);
    assert forall i :: 0 <= i < |msgs| ==> all[i] == msgs[i];
    assert all[|msgs|] == Line(nick, batch);
    if msgs != [] {
      assert Needed(all[|msgs| - 1], all[|msgs|], nick, limit);
    }
  }

  lemma PackedBack(msgs: seq<Message>, batch: seq<string>, nick: string, limit: int)
    requires batch != [] && Packed(msgs, nick, limit) && Fits(Line(nick, batch), nick, limit)
    requires msgs != [] ==> Full(msgs[|msgs| - 1], batch, nick, limit)
    ensures Packed(msgs + Flush(nick, batch), nick, limit)
  {
    LineTokens(nick, batch);
    var line := Line(nick, batch);
    var all := msgs + [line];
    forall i | 0 <= i < |all| ensures LineOk(all[i], nick, limit) {
      assert all[i] == if i < |msgs| then msgs[i] else line;
    }
    forall i | 0 < i < |all| ensures Needed(all[i - 1], all[i], nick, limit) {
      assert all[i - 1] == msgs[i - 1];
      assert all[i] == if i < |msgs| then msgs[i] else line;
    }
  }

  lemma BatchMore(msgs: seq<Message>, batch: seq<string>, sofar: seq<string>, next: seq<string>, tok: string,
      nick: string, limit: int)
    requires Batching(msgs, batch, sofar, nick, limit) && next == sofar + [tok]
    requires batch != [] ==> PrefixLen(nick) + Bytes(batch) + |tok| + 1 <= limit
    ensures Batching(msgs, batch + [tok], next, nick, limit)
  {
    if batch != [] {
      PackedFront(msgs, batch, nick, limit);
    }
    BytesMore(batch, tok);
    LineTokens(nick, batch + [tok]);
    PackedBack(msgs, batch + [tok], nick, limit);
  }

  lemma BatchFlush(msgs: seq<Message>, batch: seq<string>, sofar: seq<string>, next: seq<string>, tok: string,
      nick: string, limit: int)
    requires Batching(msgs, batch, sofar, nick, limit) && next == sofar + [tok]
    requires batch != [] && PrefixLen(nick) + Bytes(batch) + |tok| + 1 > limit
    ensures Batching(msgs + Flush(nick, batch), [] + [tok], next, nick, limit)
  {
    FlushTokens(msgs, nick, batch);
    LineTokens(nick, batch);
    LineTokens(nick, [tok]);
    assert [] + [tok] == [tok];
    PackedBack(msgs + Flush(nick, batch), [tok], nick, limit);
  }

  // ---------------------------------------------------------------- announcing, then merging

  lemma {:induction false} MergeAppend(raw: map<string, string>, a: seq<string>, b: seq<string>)
    ensures Merge(raw, a + b) == Merge(Merge(raw, a), b)
  {
    if b == [] {
      assert a + b == a;
    } else {
      MergeAppend(raw, a, b[..|b| - 1]);
      assert (a + b)[..|a + b| - 1] == a + b[..|b| - 1];
    }
  }

  lemma {:induction false} FeedIsMerge(raw: map<string, string>, msgs: seq<Message>, nick: string)
    requires forall i :: 0 <= i < |msgs| ==> IsLine(msgs[i], nick)
    ensures Feed(raw, msgs) == Merge(raw, AllTokens(msgs))
  {
    if msgs != [] {
      var front, last := msgs[..|msgs| - 1], msgs[|msgs| - 1];
      FeedIsMerge(raw, front, nick);
      assert last == Line(nick, TokensIn(last));
      assert TokenParams(last.params) == TokensIn(last);
      MergeAppend(raw, AllTokens(front), TokensIn(last));
    }
  }

  /** A token without an equals sign has an empty value; the first one ends the key. */
  lemma SplitWord(k: string, v: string)
    requires '=' !in k
    ensures SplitKV(k) == (k, "") && SplitKV(k + "=" + v) == (k, v)
  {
    var t := k + "=" + v;
    IndexAbsent(k, '=');
    IndexAfter(k, '=', v);
    assert t[..|k|] == k && t[|k| + 1..] == v;
  }

  lemma SplitToken(k: string, v: string)
    requires '=' !in k
    ensures SplitKV(TokenOf(k, v)) == (k, v)
  {
    SplitWord(k, v);
  }

  lemma SubmapSnoc(front: seq<string>, last: string, raw: map<string, string>)
    requires last in raw && forall k :: k in front ==> k in raw
    ensures Submap(front + [last], raw) == Submap(front, raw)[last := raw[last]]
  {
  }

  lemma MergeLast(toks: seq<string>, t: string)
    ensures Merge(map[], toks + [t]) == Merge(map[], toks)[SplitKV(t).0 := SplitKV(t).1]
  {
    assert (toks + [t])[..|toks|] == toks;
  }

  lemma {:induction false} MergeTokens(keys: seq<string>, raw: map<string, string>)
    requires forall k :: k in keys ==> k in raw && '=' !in k
    ensures Merge(map[], TokenList(keys, raw)) == Submap(keys, raw)
  {
    if keys != [] {
      var front, last := keys[..|keys| - 1], keys[|keys| - 1];
      assert keys == front + [last];
      MergeTokens(front, raw);
      SplitToken(last, raw[last]);
      MergeLast(TokenList(front, raw), TokenOf(last, raw[last]));
      assert TokenList(keys, raw) == TokenList(front, raw) + [TokenOf(last, raw[last])];
      SubmapSnoc(front, last, raw);
    }
  }

  lemma {:induction false} MergedKeys(toks: seq<string>)
    ensures forall k :: k in Merge(map[], toks) ==> '=' !in k
  {
    if toks != [] {
      MergedKeys(toks[..|toks| - 1]);
    }
  }

  lemma MergeAllTokens(raw: map<string, string>)
    requires forall k :: k in raw ==> '=' !in k
    ensures Merge(map[], TokensOf(raw)) == raw
  {
    SortedKeysMembers(raw.Keys);
    MergeTokens(SortedKeys(raw.Keys), raw);
    assert Submap(SortedKeys(raw.Keys), raw) == raw;
  }

  ghost predicate Announces(msgs: seq<Message>, nick: string, raw: map<string, string>) {
    AllTokens(msgs) == TokensOf(raw) && forall i :: 0 <= i < |msgs| ==> IsLine(msgs[i], nick)
  }

  /** A receiver fed the announcement of `raw` holds `raw`, exactly when no key contains '='. */
  lemma RebuildExact(nick: string, raw: map<string, string>, msgs: seq<Message>)
    requires Announces(msgs, nick, raw)
    ensures Feed(map[], msgs) == raw <==> forall k :: k in raw ==> '=' !in k
  {
    FeedIsMerge(map[], msgs, nick);
    MergedKeys(TokensOf(raw));
    if forall k :: k in raw ==> '=' !in k {
      MergeAllTokens(raw);
    }
  }

  lemma {:induction false} TailLength(batch: seq<string>)
    ensures |ParamTail(batch + [TRAILING])| == Bytes(batch) + |TRAILING| + 1
    decreases |batch|
  {
    if batch != [] {
      TailLength(batch[1..]);
      assert (batch + [TRAILING])[1..] == batch[1..] + [TRAILING];
      BytesFirst(batch);
    }
  }

  lemma {:induction false} BytesFirst(batch: seq<string>)
    requires batch != []
    ensures Bytes(batch) == |batch[0]| + 1 + Bytes(batch[1..])
  {
    if |batch| > 1 {
      BytesFirst(batch[..|batch| - 1]);
      assert batch[1..][..|batch| - 2] == batch[..|batch| - 1][1..];
    }
  }

  /** RPL005 counts one byte more than a line takes, so a line that fits is under the limit. */
  lemma EncodedLength(nick: string, m: Message, limit: int)
    requires IsLine(m, nick)
    ensures |Encode(m)| + 1 == PrefixLen(nick) + Bytes(TokensIn(m))
    ensures Fits(m, nick, limit) && |TokensIn(m)| >= 2 ==> |Encode(m)| < limit
  {
    var batch := TokensIn(m);
    TrailingLength();
    TailLength([nick] + batch);
    BytesFirst([nick] + batch);
    assert ([nick] + batch)[1..] == batch;
    assert m.params == [nick] + batch + [TRAILING];
  }

  lemma {:induction false} BytesHold(batch: seq<string>, t: string)
    requires t in batch
    ensures Bytes(batch) >= |t| + 1 && (|batch| == 1 ==> Bytes(batch) == |t| + 1)
  {
    var front, last := batch[..|batch| - 1], batch[|batch| - 1];
    assert batch == front + [last];
    if t in front {
      BytesHold(front, t);
    }
  }

  lemma {:induction false} TokenSits(msgs: seq<Message>, t: string) returns (i: nat)
    requires t in AllTokens(msgs)
    ensures i < |msgs| && t in TokensIn(msgs[i])
  {
    i := |msgs| - 1;
    if t !in TokensIn(msgs[i]) {
      i := TokenSits(msgs[..i], t);
    }
  }

  /** A token that fits on a line by itself. */
  predicate Short(t: string, nick: string, limit: int) {
    PrefixLen(nick) + |t| + 1 <= limit
  }

  /** All lines encode to fewer than maxLen bytes iff every token fits on a line by itself: one
      long token still gets a line of its own. */
  lemma UnderLimitExact(nick: string, raw: map<string, string>, msgs: seq<Message>, limit: int)
    requires Announces(msgs, nick, raw) && Packed(msgs, nick, limit)
    ensures (forall i :: 0 <= i < |msgs| ==> |Encode(msgs[i])| < limit)
       <==> (forall t :: t in TokensOf(raw) ==> Short(t, nick, limit))
  {
    forall i | 0 <= i < |msgs| ensures |Encode(msgs[i])| + 1 == PrefixLen(nick) + Bytes(TokensIn(msgs[i])) {
      assert LineOk(msgs[i], nick, limit);
      EncodedLength(nick, msgs[i], limit);
    }
    if forall i :: 0 <= i < |msgs| ==> |Encode(msgs[i])| < limit {
      forall t | t in TokensOf(raw) ensures Short(t, nick, limit) {
        var i := TokenSits(msgs, t);
        BytesHold(TokensIn(msgs[i]), t);
      }
    }
    if forall t :: t in TokensOf(raw) ==> Short(t, nick, limit) {
      forall i | 0 <= i < |msgs| ensures |Encode(msgs[i])| < limit {
        LineUnder(msgs, nick, limit, i);
      }
    }
  }

  /** The whole of RPL005, for any map: an empty one is announced by a single line without tokens, which
      is under the limit iff the nick leaves room for the closing text. */
  lemma AnnouncementUnderLimit(nick: string, raw: map<string, string>, msgs: seq<Message>, limit: int)
    requires Announces(msgs, nick, raw)
    requires if raw == map[] then msgs == [Line(nick, [])] else Packed(msgs, nick, limit)
    ensures (forall i :: 0 <= i < |msgs| ==> |Encode(msgs[i])| < limit)
       <==> if raw == map[] then PrefixLen(nick) <= limit else forall t :: t in TokensOf(raw) ==> Short(t, nick, limit)
  {
    if raw == map[] {
      LineTokens(nick, []);
      EncodedLength(nick, msgs[0], limit);
    } else {
      UnderLimitExact(nick, raw, msgs, limit);
    }
  }

  /** Any token too long for a line shows it: the announcement is packed and over the limit. */
  lemma LongTokenOverflows(nick: string, t: string, limit: int)
    requires !Short(t, nick, limit)
    ensures var m := Line(nick, [t]); Packed([m], nick, limit) && AllTokens([m]) == [t] && |Encode(m)| >= limit
  {
    var m := Line(nick, [t]);
    LineTokens(nick, [t]);
    FlushTokens([], nick, [t]);
    assert [] + [m] == [m];
    BytesHold([t], t);
    EncodedLength(nick, m, limit);
  }

  lemma LineUnder(msgs: seq<Message>, nick: string, limit: int, i: nat)
    requires Packed(msgs, nick, limit) && i < |msgs|
    requires forall t :: t in AllTokens(msgs) ==> Short(t, nick, limit)
    ensures PrefixLen(nick) + Bytes(TokensIn(msgs[i])) <= limit
  {
    var batch := TokensIn(msgs[i]);
    assert LineOk(msgs[i], nick, limit);
    if |batch| == 1 {
      AllTokensHave(msgs, i, batch[0]);
      BytesHold(batch, batch[0]);
    }
  }

  // ---------------------------------------------------------------- over the wire

  /** What the wire can carry: a nick and tokens that are valid middle parameters. */
  ghost predicate Sendable(nick: string, raw: map<string, string>) {
    MiddleOk(nick) && forall k :: k in raw ==> '=' !in k && MiddleOk(TokenOf(k, raw[k]))
  }

  lemma SendableTokens(nick: string, raw: map<string, string>)
    requires Sendable(nick, raw)
    ensures forall t :: t in TokensOf(raw) ==> MiddleOk(t)
  {
    SortedKeysMembers(raw.Keys);
    var toks := TokensOf(raw);
    forall t | t in toks ensures MiddleOk(t) {
      var i :| 0 <= i < |toks| && toks[i] == t;
      assert SortedKeys(raw.Keys)[i] in raw;
    }
  }

  lemma {:induction false} AllTokensHave(msgs: seq<Message>, i: nat, t: string)
    requires i < |msgs| && t in TokensIn(msgs[i])
    ensures t in AllTokens(msgs)
  {
    if i < |msgs| - 1 {
      AllTokensHave(msgs[..|msgs| - 1], i, t);
    }
  }

  lemma LineSurvives(nick: string, batch: seq<string>)
    requires MiddleOk(nick) && forall t :: t in batch ==> MiddleOk(t)
    ensures var m := Line(nick, batch); Parse(Encode(m)) == Ok(m.(raw := Encode(m)))
  {
    var m := Line(nick, batch);
    forall i | 0 <= i < |m.params| - 1 ensures MiddleOk(m.params[i]) {
      assert i > 0 ==> m.params[i] == batch[i - 1];
    }
    RoundTripExact(m);
  }

  lemma {:induction false} FeedSame(raw: map<string, string>, a: seq<Message>, b: seq<Message>)
    requires |a| == |b| && forall i :: 0 <= i < |a| ==> a[i].params == b[i].params
    ensures Feed(raw, a) == Feed(raw, b)
  {
    if a != [] {
      FeedSame(raw, a[..|a| - 1], b[..|b| - 1]);
    }
  }

  /** Encode every line, parse it at the other end, merge: the receiver holds the announced map. */
  lemma OverTheWire(nick: string, raw: map<string, string>, msgs: seq<Message>, got: seq<Message>)
    requires Announces(msgs, nick, raw) && Sendable(nick, raw)
    requires |got| == |msgs| && forall i :: 0 <= i < |got| ==> Parse(Encode(msgs[i])) == Ok(got[i])
    ensures Feed(map[], got) == raw
  {
    RebuildExact(nick, raw, msgs);
    forall i | 0 <= i < |msgs| ensures got[i].params == msgs[i].params {
      LineArrives(nick, raw, msgs, i);
    }
    FeedSame(map[], got, msgs);
  }

  lemma LineArrives(nick: string, raw: map<string, string>, msgs: seq<Message>, i: nat)
    requires Announces(msgs, nick, raw) && Sendable(nick, raw) && i < |msgs|
    ensures Parse(Encode(msgs[i])) == Ok(msgs[i].(raw := Encode(msgs[i])))
  {
    var m := msgs[i];
    assert IsLine(m, nick);
    SendableTokens(nick, raw);
    forall t | t in TokensIn(m) ensures MiddleOk(t) {
      AllTokensHave(msgs, i, t);
    }
    LineSurvives(nick, TokensIn(m));
  }
}
