/** The line parser of `components/net/linefsm.rs`: a small state machine
    that turns one raw input line into a `ParsedCommand`.

    The machine trims trailing whitespace, rejects a line with no token,
    takes the first whitespace-separated token verbatim as the command and
    splits the remaining tokens into `params` (up to the first token that
    starts with `:`) and `trailing` (that token and everything after it).
    Every token that starts with `:` loses that one colon, including tokens
    after the first one. The `:prefix` branch of the original is
    unimplemented and is excluded by a precondition. */
module LineFsm {
  import opened Base

  /** `char::is_whitespace`: the Unicode White_Space property, which both
      `trim_right` and `split_whitespace` use. */
  predicate IsSpace(c: char) {
    var n := c as int;
    || (9 <= n <= 13) || n == 32 || n == 0x85 || n == 0xA0 || n == 0x1680
    || (0x2000 <= n <= 0x200A) || n == 0x2028 || n == 0x2029 || n == 0x202F
    || n == 0x205F || n == 0x3000
  }

  predicate AllSpace(s: string) {
    forall i :: 0 <= i < |s| ==> IsSpace(s[i])
  }

  /** A token as `split_whitespace` yields it: non-empty, no whitespace. */
  predicate IsWord(w: string) {
    |w| > 0 && forall i :: 0 <= i < |w| ==> !IsSpace(w[i])
  }

  predicate StartsWithColon(s: string) {
    |s| > 0 && s[0] == ':'
  }

  /** Length of the run of non-whitespace characters at the front of `s`. */
  function WordLen(s: string): (n: nat)
    ensures n <= |s|
    ensures forall i :: 0 <= i < n ==> !IsSpace(s[i])
    ensures n < |s| ==> IsSpace(s[n])
  {
    if |s| == 0 || IsSpace(s[0]) then 0 else 1 + WordLen(s[1..])
  }

  /** `str::split_whitespace`, collected: the maximal runs of
      non-whitespace characters, in order. */
  function Words(s: string): (r: seq<string>)
    ensures forall i :: 0 <= i < |r| ==> IsWord(r[i])
    decreases |s|
  {
    if |s| == 0 then []
    else if IsSpace(s[0]) then Words(s[1..])
    else
      var n := WordLen(s);
      [s[..n]] + Words(s[n..])
  }

  /** `str::trim_right`: the line without its trailing whitespace. */
  function TrimEnd(s: string): (r: string)
    ensures |r| <= |s| && r == s[..|r|]
    ensures AllSpace(s[|r|..])
    ensures |r| > 0 ==> !IsSpace(r[|r| - 1])
  {
    if |s| > 0 && IsSpace(s[|s| - 1]) then TrimEnd(s[..|s| - 1]) else s
  }

  datatype ParsedCommand = ParsedCommand(command: string, params: seq<string>, trailing: seq<string>)

  datatype ParseError = MalformedString

  /** The parser's `State` enum. */
  datatype State =
    | Ready(line: string)
    | ParsePrefix(line: string)
    | ParseCommand(line: string)
    | ParseParams(remaining: seq<string>)
    | Complete

  /** A state together with the loop's local variables. */
  datatype Machine = Machine(state: State, command: string, params: seq<string>, trailing: seq<string>)

  function Rank(s: State): nat {
    match s
    case Ready(_) => 4
    case ParsePrefix(_) => 3
    case ParseCommand(_) => 2
    case ParseParams(_) => 1
    case Complete => 0
  }

  /** A token with its one leading colon removed, if it has one. */
  function StripColon(t: string): string {
    if StartsWithColon(t) then t[1..] else t
  }

  /** The `ParseParams` loop: `which` is true until a `:`-token is seen. */
  function SplitParams(remaining: seq<string>, which: bool): (seq<string>, seq<string>)
  {
    if |remaining| == 0 then ([], [])
    else
      var item := remaining[0];
      var which' := which && !StartsWithColon(item);
      var rest := SplitParams(remaining[1..], which');
      if which' then ([StripColon(item)] + rest.0, rest.1)
      else (rest.0, [StripColon(item)] + rest.1)
  }

  /** One transition of the machine (the body of the loop). */
  function Step(m: Machine): (r: Result<Machine, ParseError>)
    requires !m.state.ParsePrefix? && !m.state.Complete?
    ensures r.Ok? ==> Rank(r.value.state) < Rank(m.state)
  {
    match m.state
    case Ready(line) =>
      var t := TrimEnd(line);
      if StartsWithColon(t) then Ok(m.(state := ParsePrefix(t)))
      else Ok(m.(state := ParseCommand(t)))
    case ParseCommand(line) =>
      var ws := Words(line);
      if |ws| == 0 then Err(MalformedString)
      else if |ws| > 1 then Ok(m.(state := ParseParams(ws[1..]), command := ws[0]))
      else Ok(m.(state := Complete, command := ws[0]))
    case ParseParams(remaining) =>
      var split := SplitParams(remaining, true);
      Ok(m.(state := Complete, params := split.0, trailing := split.1))
  }

  /** Runs the machine to completion; a line that would reach the
      unimplemented prefix state is excluded. */
  function Run(m: Machine): Result<ParsedCommand, ParseError>
    requires !m.state.ParsePrefix?
    requires m.state.Ready? ==> !StartsWithColon(m.state.line)
    decreases Rank(m.state)
  {
    if m.state.Complete? then Ok(ParsedCommand(m.command, m.params, m.trailing))
    else
      TrimEndKeepsFirst(m.state);
      match Step(m)
      case Err(e) => Err(e)
      case Ok(next) => Run(next)
  }

  lemma TrimEndKeepsFirst(s: State)
    requires s.Ready? ==> !StartsWithColon(s.line)
    ensures s.Ready? ==> !StartsWithColon(TrimEnd(s.line))
  {
  }

  // ---------------------------------------------------------------------
  // Reference definition on tokens

  /** Index of the first token that starts with `:`, or the length. */
  function FirstColon(ts: seq<string>): (k: nat)
    ensures k <= |ts|
    ensures forall i :: 0 <= i < k ==> !StartsWithColon(ts[i])
    ensures k < |ts| ==> StartsWithColon(ts[k])
  {
    if |ts| == 0 || StartsWithColon(ts[0]) then 0 else 1 + FirstColon(ts[1..])
  }

  function StripAll(ts: seq<string>): (r: seq<string>)
    ensures |r| == |ts|
    ensures forall i :: 0 <= i < |ts| ==> r[i] == StripColon(ts[i])
  {
    seq(|ts|, i requires 0 <= i < |ts| => StripColon(ts[i]))
  }

  /** What a token list means: the first token is the command, the tokens
      before the first `:`-token are the params and the rest, each stripped
      of one leading colon, is the trailing part. */
  function FromTokens(ws: seq<string>): Result<ParsedCommand, ParseError>
  {
    if |ws| == 0 then Err(MalformedString)
    else
      var rest := ws[1..];
      var k := FirstColon(rest);
      Ok(ParsedCommand(ws[0], rest[..k], StripAll(rest[k..])))
  }

  lemma {:induction false} SplitParamsAfterColon(ts: seq<string>)
    ensures SplitParams(ts, false) == ([], StripAll(ts))
  {
    if |ts| > 0 {
      SplitParamsAfterColon(ts[1..]);
      assert [StripColon(ts[0])] + StripAll(ts[1..]) == StripAll(ts);
    }
  }

  lemma {:induction false} SplitParamsSpec(ts: seq<string>)
    ensures var k := FirstColon(ts); SplitParams(ts, true) == (ts[..k], StripAll(ts[k..]))
  {
    if |ts| == 0 {
    } else if StartsWithColon(ts[0]) {
      SplitParamsAfterColon(ts[1..]);
      assert [StripColon(ts[0])] + StripAll(ts[1..]) == StripAll(ts);
    } else {
      SplitParamsSpec(ts[1..]);
      SplitParamsPlainStep(ts);
    }
  }

  /** The step of `SplitParamsSpec` past a token without a colon. */
  lemma SplitParamsPlainStep(ts: seq<string>)
    requires |ts| > 0 && !StartsWithColon(ts[0])
    requires var k := FirstColon(ts[1..]); SplitParams(ts[1..], true) == (ts[1..][..k], StripAll(ts[1..][k..]))
    ensures var k := FirstColon(ts); SplitParams(ts, true) == (ts[..k], StripAll(ts[k..]))
  {
    var k := FirstColon(ts[1..]);
    assert FirstColon(ts) == k + 1;
    assert StripColon(ts[0]) == ts[0];
    assert [ts[0]] + ts[1..][..k] == ts[..k + 1];
    assert ts[1..][k..] == ts[k + 1..];
  }

  /** `LineFSM::handle_line`. */
  function HandleLine(line: string): (r: Result<ParsedCommand, ParseError>)
    requires !StartsWithColon(line)
    ensures r == FromTokens(Words(line))
  {
    RunMeaning(line);
    Run(Machine(Ready(line), "", [], []))
  }

  lemma RunMeaning(line: string)
    requires !StartsWithColon(line)
    ensures Run(Machine(Ready(line), "", [], [])) == FromTokens(Words(line))
  {
    var m0 := Machine(Ready(line), "", [], []);
    var t := TrimEnd(line);
    var m1 := m0.(state := ParseCommand(t));
    assert Step(m0) == Ok(m1);
    assert Run(m0) == Run(m1);
    TrimEndWords(line);
    var ws := Words(t);
    if |ws| == 0 {
      assert Run(m1) == Err(MalformedString);
    } else if |ws| == 1 {
      var m2 := m1.(state := Complete, command := ws[0]);
      assert Step(m1) == Ok(m2);
      assert Run(m1) == Run(m2);
      assert ws[1..] == [];
    } else {
      var m2 := m1.(state := ParseParams(ws[1..]), command := ws[0]);
      assert Step(m1) == Ok(m2);
      assert Run(m1) == Run(m2);
      var split := SplitParams(ws[1..], true);
      var m3 := m2.(state := Complete, params := split.0, trailing := split.1);
      assert Step(m2) == Ok(m3);
      assert Run(m2) == Run(m3);
      SplitParamsSpec(ws[1..]);
    }
  }

  // ---------------------------------------------------------------------
  // Facts about tokenising

  lemma {:induction false} WordLenSplit(a: string, c: char, b: string)
    requires IsSpace(c)
    ensures WordLen(a + [c] + b) == WordLen(a)
    decreases |a|
  {
    if |a| > 0 && !IsSpace(a[0]) {
      assert (a + [c] + b)[1..] == a[1..] + [c] + b;
      WordLenSplit(a[1..], c, b);
    }
  }

  /** A whitespace character separates: words of `a c b` are the words of
      `a` followed by the words of `b`. */
  lemma {:induction false} WordsSplit(a: string, c: char, b: string)
    requires IsSpace(c)
    ensures Words(a + [c] + b) == Words(a) + Words(b)
    decreases |a|
  {
    var s := a + [c] + b;
    if |a| == 0 {
      assert s[1..] == b;
    } else if IsSpace(a[0]) {
      assert s[1..] == a[1..] + [c] + b;
      WordsSplit(a[1..], c, b);
    } else {
      var n := WordLen(a);
      WordsSplit(a[n..], c, b);
      WordsSplitStep(a, c, b);
    }
  }

  /** The step of `WordsSplit` for a string that starts with a token. */
  lemma WordsSplitStep(a: string, c: char, b: string)
    requires IsSpace(c) && |a| > 0 && !IsSpace(a[0])
    requires Words(a[WordLen(a)..] + [c] + b) == Words(a[WordLen(a)..]) + Words(b)
    ensures Words(a + [c] + b) == Words(a) + Words(b)
  {
    var n := WordLen(a);
    var tail := [c] + b;
    var s := a + tail;
    assert a + [c] + b == s;
    WordLenSplit(a, c, b);
    SliceAppend(a, tail, n);
    assert a[n..] + tail == a[n..] + [c] + b;
    WordsUnfold(s);
    WordsUnfold(a);
  }

  lemma SliceAppend<T>(a: seq<T>, tail: seq<T>, n: nat)
    requires 0 < n <= |a|
    ensures (a + tail)[0] == a[0]
    ensures (a + tail)[..n] == a[..n] && (a + tail)[n..] == a[n..] + tail
  {
  }

  /** One step of `Words` on a string that starts with a token. */
  lemma WordsUnfold(s: string)
    requires |s| > 0 && !IsSpace(s[0])
    ensures Words(s) == [s[..WordLen(s)]] + Words(s[WordLen(s)..])
  {
  }

  lemma {:induction false} WordsAllSpace(s: string)
    requires AllSpace(s)
    ensures Words(s) == []
    decreases |s|
  {
    if |s| > 0 {
      WordsAllSpace(s[1..]);
    }
  }

  lemma WordsAppendSpace(a: string, sp: string)
    requires AllSpace(sp)
    ensures Words(a + sp) == Words(a)
  {
    if |sp| == 0 {
      assert a + sp == a;
    } else {
      assert a + sp == a + [sp[0]] + sp[1..];
      WordsSplit(a, sp[0], sp[1..]);
      assert AllSpace(sp[1..]);
      WordsAllSpace(sp[1..]);
      assert Words(a) + [] == Words(a);
    }
  }

  lemma TrimEndWords(s: string)
    ensures Words(TrimEnd(s)) == Words(s)
  {
    var t := TrimEnd(s);
    assert s == t + s[|t|..];
    WordsAppendSpace(t, s[|t|..]);
  }

  lemma {:induction false} WordsOfWord(w: string)
    requires IsWord(w)
    ensures Words(w) == [w]
  {
    assert WordLen(w) == |w|;
    assert w[..|w|] == w;
    assert w[|w|..] == [];
    assert Words(w) == [w] + Words([]);
  }

  lemma WordsEmptyString()
    ensures Words("") == []
  {
  }

  /** No token at all exactly when the line is blank. */
  lemma {:induction false} WordsEmptyIff(s: string)
    ensures Words(s) == [] <==> AllSpace(s)
    decreases |s|
  {
    if |s| > 0 {
      if IsSpace(s[0]) {
        WordsEmptyIff(s[1..]);
        if AllSpace(s[1..]) { assert AllSpace(s); }
      } else {
        assert !AllSpace(s);
      }
    }
  }

  /** Space-joined words split back into the same words. */
  lemma {:induction false} WordsJoin(ws: seq<string>)
    requires forall i :: 0 <= i < |ws| ==> IsWord(ws[i])
    ensures Words(JoinWith(ws, " ")) == ws
  {
    if |ws| == 1 {
      WordsOfWord(ws[0]);
    } else if |ws| > 1 {
      WordsJoin(ws[1..]);
      WordsOfWord(ws[0]);
      assert JoinWith(ws, " ") == ws[0] + [' '] + JoinWith(ws[1..], " ");
      WordsSplit(ws[0], ' ', JoinWith(ws[1..], " "));
      assert ws == [ws[0]] + ws[1..];
    }
  }

  /** The words of each piece, concatenated. */
  function WordsOfAll(ps: seq<string>): seq<string> {
    if |ps| == 0 then [] else Words(ps[0]) + WordsOfAll(ps[1..])
  }

  /** Joining pieces with single spaces and splitting again gives the words
      of the pieces; an empty piece contributes nothing. */
  lemma {:induction false} WordsJoinAll(ps: seq<string>)
    ensures Words(JoinWith(ps, " ")) == WordsOfAll(ps)
  {
    if |ps| == 1 {
      assert WordsOfAll(ps) == Words(ps[0]) + WordsOfAll([]);
    } else if |ps| > 1 {
      WordsJoinAll(ps[1..]);
      assert JoinWith(ps, " ") == ps[0] + [' '] + JoinWith(ps[1..], " ");
      WordsSplit(ps[0], ' ', JoinWith(ps[1..], " "));
    }
  }

  lemma {:induction false} WordsOfAllAppend(a: seq<string>, b: seq<string>)
    ensures WordsOfAll(a + b) == WordsOfAll(a) + WordsOfAll(b)
  {
    if |a| > 0 {
      assert (a + b)[1..] == a[1..] + b;
      WordsOfAllAppend(a[1..], b);
    } else {
      assert a + b == b;
    }
  }

  lemma {:induction false} WordsOfAllWords(a: seq<string>)
    requires forall i :: 0 <= i < |a| ==> IsWord(a[i])
    ensures WordsOfAll(a) == a
  {
    if |a| > 0 {
      WordsOfWord(a[0]);
      WordsOfAllWords(a[1..]);
    }
  }

  /** A piece that is empty or a single token without a leading colon. */
  predicate PlainOrEmpty(p: string) {
    p == [] || (IsWord(p) && !StartsWithColon(p))
  }

  lemma {:induction false} WordsOfAllPlain(a: seq<string>)
    requires forall i :: 0 <= i < |a| ==> PlainOrEmpty(a[i])
    ensures forall i :: 0 <= i < |WordsOfAll(a)| ==> !StartsWithColon(WordsOfAll(a)[i])
  {
    if |a| > 0 {
      if a[0] != [] { WordsOfWord(a[0]); }
      WordsOfAllPlain(a[1..]);
    }
  }

  // ---------------------------------------------------------------------
  // Properties of the parser

  /** A blank or empty line is rejected, and only such a line. */
  lemma BlankLineRejected(line: string)
    requires !StartsWithColon(line)
    ensures HandleLine(line).Err? <==> AllSpace(line)
    ensures HandleLine(line).Err? ==> HandleLine(line).error == MalformedString
  {
    WordsEmptyIff(line);
  }

  lemma StripAllAppend(a: seq<string>, b: seq<string>)
    ensures StripAll(a + b) == StripAll(a) + StripAll(b)
  {
  }

  lemma StripAllNoColon(a: seq<string>)
    requires forall i :: 0 <= i < |a| ==> !StartsWithColon(a[i])
    ensures StripAll(a) == a
  {
  }

  /** The command is the first token, exactly as written (no case change);
      params and trailing together hold every later token, in order. */
  lemma TokensAccountedFor(line: string)
    requires !StartsWithColon(line)
    requires HandleLine(line).Ok?
    ensures var c := HandleLine(line).value; var ws := Words(line);
      && c.command == ws[0]
      && |c.params| + |c.trailing| == |ws| - 1
      && c.params + c.trailing == StripAll(ws[1..])
  {
    FromTokensCovers(Words(line));
  }

  lemma FromTokensCovers(ws: seq<string>)
    requires |ws| > 0
    ensures var c := FromTokens(ws).value;
      && c.command == ws[0]
      && c.params + c.trailing == StripAll(ws[1..])
  {
    var rest := ws[1..];
    var k := FirstColon(rest);
    StripAllNoColon(rest[..k]);
    StripAllAppend(rest[..k], rest[k..]);
    assert rest[..k] + rest[k..] == rest;
  }

  /** A line holding only a command has no params and no trailing part. */
  lemma CommandOnly(line: string)
    requires !StartsWithColon(line)
    requires |Words(line)| == 1
    ensures HandleLine(line) == Ok(ParsedCommand(Words(line)[0], [], []))
  {
  }

  /** Params are the tokens before the first `:`-token, none of them
      starting with a colon; every token from that one on lands in
      trailing with exactly one leading colon removed. */
  lemma ParamsThenTrailing(line: string)
    requires !StartsWithColon(line)
    requires HandleLine(line).Ok?
    ensures var c := HandleLine(line).value; var rest := Words(line)[1..];
      && (forall i :: 0 <= i < |c.params| ==> c.params[i] == rest[i] && !StartsWithColon(c.params[i]))
      && (|c.trailing| > 0 ==> StartsWithColon(rest[|c.params|]))
      && (forall i :: 0 <= i < |c.trailing| ==>
            c.trailing[i] == StripColon(rest[|c.params| + i]))
  {
    TokensParamsThenTrailing(Words(line));
  }

  lemma TokensParamsThenTrailing(ws: seq<string>)
    requires |ws| > 0
    ensures var c := FromTokens(ws).value; var rest := ws[1..];
      && (forall i :: 0 <= i < |c.params| ==> c.params[i] == rest[i] && !StartsWithColon(c.params[i]))
      && (|c.trailing| > 0 ==> StartsWithColon(rest[|c.params|]))
      && (forall i :: 0 <= i < |c.trailing| ==>
            c.trailing[i] == StripColon(rest[|c.params| + i]))
  {
    var rest := ws[1..];
    var k := FirstColon(rest);
    var c := FromTokens(ws).value;
    assert c.params == rest[..k] && c.trailing == StripAll(rest[k..]);
    forall i | 0 <= i < |c.trailing|
      ensures c.trailing[i] == StripColon(rest[k + i])
    {
      assert rest[k..][i] == rest[k + i];
    }
  }

  /** Trailing whitespace never changes the result. */
  lemma TrailingWhitespaceIgnored(line: string, sp: string)
    requires !StartsWithColon(line)
    requires AllSpace(sp)
    ensures !StartsWithColon(line + sp)
    ensures HandleLine(line + sp) == HandleLine(line)
  {
    WordsAppendSpace(line, sp);
  }

  // ---------------------------------------------------------------------
  // Rendering a command as a line, and reading it back

  /** A command that survives a round trip through a line: the command and
      params are tokens without a leading colon; the trailing items hold no
      whitespace, and every item after the first is a token without a
      leading colon (the first may be empty or start with a colon). */
  predicate WellFormed(c: ParsedCommand) {
    && IsWord(c.command) && !StartsWithColon(c.command)
    && (forall i :: 0 <= i < |c.params| ==> IsWord(c.params[i]) && !StartsWithColon(c.params[i]))
    && (forall i :: 0 <= i < |c.trailing| ==> forall j :: 0 <= j < |c.trailing[i]| ==> !IsSpace(c.trailing[i][j]))
    && (forall i :: 1 <= i < |c.trailing| ==> IsWord(c.trailing[i]) && !StartsWithColon(c.trailing[i]))
  }

  /** The wire form: command and params separated by spaces, then
      `" :"` and the trailing items joined by spaces. */
  function Render(c: ParsedCommand): string {
    JoinWith([c.command] + c.params, " ")
      + (if |c.trailing| == 0 then "" else " :" + JoinWith(c.trailing, " "))
  }

  lemma {:induction false} WordsColonJoin(ts: seq<string>)
    requires |ts| > 0
    requires forall j :: 0 <= j < |ts[0]| ==> !IsSpace(ts[0][j])
    requires forall i :: 1 <= i < |ts| ==> IsWord(ts[i])
    ensures Words(":" + JoinWith(ts, " ")) == [":" + ts[0]] + ts[1..]
  {
    var head := ":" + ts[0];
    assert IsWord(head);
    WordsOfWord(head);
    if |ts| == 1 {
      assert ":" + JoinWith(ts, " ") == head;
    } else {
      assert ":" + JoinWith(ts, " ") == head + [' '] + JoinWith(ts[1..], " ");
      WordsSplit(head, ' ', JoinWith(ts[1..], " "));
      WordsJoin(ts[1..]);
    }
  }

  /** The tokens of a rendered command. */
  function RenderedTokens(c: ParsedCommand): seq<string> {
    [c.command] + c.params
      + (if |c.trailing| == 0 then [] else [":" + c.trailing[0]] + c.trailing[1..])
  }

  lemma WordsRender(c: ParsedCommand)
    requires WellFormed(c)
    ensures Words(Render(c)) == RenderedTokens(c)
  {
    var head := [c.command] + c.params;
    assert forall i :: 0 <= i < |head| ==> IsWord(head[i]);
    WordsJoin(head);
    if |c.trailing| == 0 {
      assert Render(c) == JoinWith(head, " ");
    } else {
      var tail := ":" + JoinWith(c.trailing, " ");
      assert Render(c) == JoinWith(head, " ") + [' '] + tail;
      WordsSplit(JoinWith(head, " "), ' ', tail);
      WordsColonJoin(c.trailing);
    }
  }

  lemma FromRenderedTokens(c: ParsedCommand)
    requires WellFormed(c)
    ensures FromTokens(RenderedTokens(c)) == Ok(c)
  {
    var ws := RenderedTokens(c);
    var rest := ws[1..];
    var n := |c.params|;
    if |c.trailing| == 0 {
      assert rest == c.params;
      assert FirstColon(rest) == n;
      assert rest[..n] == c.params;
    } else {
      var tail := [":" + c.trailing[0]] + c.trailing[1..];
      assert rest == c.params + tail;
      FirstColonAt(rest, n);
      assert rest[..n] == c.params;
      assert rest[n..] == tail;
      assert StripAll(tail) == c.trailing;
    }
  }

  lemma RenderStartsWithCommand(c: ParsedCommand)
    requires WellFormed(c)
    ensures |Render(c)| > 0 && Render(c)[0] == c.command[0]
  {
    if |c.params| > 0 {
      JoinWithCons(c.command, c.params, " ");
    } else {
      assert [c.command] + c.params == [c.command];
    }
  }

  /** Parsing a rendered well-formed command gives the command back. */
  lemma RenderRoundTrip(c: ParsedCommand)
    requires WellFormed(c)
    ensures !StartsWithColon(Render(c))
    ensures HandleLine(Render(c)) == Ok(c)
  {
    RenderStartsWithCommand(c);
    WordsRender(c);
    FromRenderedTokens(c);
  }

  lemma FirstColonAt(ts: seq<string>, k: nat)
    requires k < |ts| && StartsWithColon(ts[k])
    requires forall i :: 0 <= i < k ==> !StartsWithColon(ts[i])
    ensures FirstColon(ts) == k
  {
  }

  // ---------------------------------------------------------------------
  // Worked examples

  /** `"NICK bob"` parses to command NICK, params `["bob"]`, no trailing. */
  lemma ExampleNick()
    ensures HandleLine("NICK bob") == Ok(ParsedCommand("NICK", ["bob"], []))
  {
    var c := ParsedCommand("NICK", ["bob"], []);
    assert WellFormed(c);
    JoinWithCons("NICK", ["bob"], " ");
    assert [c.command] + c.params == ["NICK", "bob"];
    assert Render(c) == "NICK bob";
    RenderRoundTrip(c);
  }

  /** `"PRIVMSG #x :hello there"` parses to params `["#x"]` and trailing
      `["hello", "there"]`, which join back to `"hello there"`. */
  lemma ExamplePrivmsg()
    ensures HandleLine("PRIVMSG #x :hello there")
         == Ok(ParsedCommand("PRIVMSG", ["#x"], ["hello", "there"]))
    ensures JoinWith(["hello", "there"], " ") == "hello there"
  {
    var c := ParsedCommand("PRIVMSG", ["#x"], ["hello", "there"]);
    ExamplePrivmsgWellFormed();
    ExamplePrivmsgRender();
    RenderRoundTrip(c);
  }

  lemma ExamplePrivmsgWellFormed()
    ensures WellFormed(ParsedCommand("PRIVMSG", ["#x"], ["hello", "there"]))
  {
  }

  lemma ExamplePrivmsgRender()
    ensures Render(ParsedCommand("PRIVMSG", ["#x"], ["hello", "there"])) == "PRIVMSG #x :hello there"
    ensures JoinWith(["hello", "there"], " ") == "hello there"
  {
    JoinWithCons("PRIVMSG", ["#x"], " ");
    JoinWithCons("hello", ["there"], " ");
    assert ["PRIVMSG"] + ["#x"] == ["PRIVMSG", "#x"];
  }
}
