/** The outbound wire formats of `components/net_traits/writer_thread.rs`:
    federation options (`ProtoOption`), server-to-server lines (`SRPL`),
    client replies (`RPL`) and the writer's rendering context
    (`WriterData`). Rendering is pure except that `WhoReply` records the
    channel it names in the context, for the lines that follow it. */
module Wire {
  import opened Base
  import opened LineFsm

  /** The writer's context: the client's nick, the channel of the WHO
      listing in progress, and this server's name. */
  datatype WriterData = WriterData(nick: string, curChan: string, serverName: string)

  datatype ProtoOption =
    | EAUTH(serverName: string)
    | SID(serverId: string)
    | NOQUIT | NICKv2 | SJOIN | SJ3 | CLK | NICKIP | TKLEXT | TKLEXT2 | ESVID | MLOCK | EXTSWHOIS

  /** `ProtoOption::raw`. */
  function ProtoOptionRaw(o: ProtoOption): string {
    match o
    case EAUTH(name) => "EAUTH=" + name
    case SID(id) => "SID=" + id
    case NOQUIT => "NOQUIT"
    case NICKv2 => "NICKv2"
    case SJOIN => "SJOIN"
    case SJ3 => "SJ3"
    case CLK => "CLK"
    case NICKIP => "NICKIP"
    case TKLEXT => "TKLEXT"
    case TKLEXT2 => "TKLEXT2"
    case ESVID => "ESVID"
    case MLOCK => "MLOCK"
    case EXTSWHOIS => "EXTSWHOIS"
  }

  function RawOptions(opts: seq<ProtoOption>): (r: seq<string>)
    ensures |r| == |opts|
    ensures forall i :: 0 <= i < |opts| ==> r[i] == ProtoOptionRaw(opts[i])
  {
    seq(|opts|, i requires 0 <= i < |opts| => ProtoOptionRaw(opts[i]))
  }

  /** Server-to-server lines. */
  datatype SRPL =
    | Pong(msg: string)
    | Pass(pass: string)
    | Server(name: string, hops: U32, desc: string)
    | ProtoCtl(opts: seq<ProtoOption>)
    | Nick(nick: string, hops: U32, timestamp: string, username: string, hostname: string,
           servername: string, servicesStamp: string, modes: string, cloakedHost: string,
           realname: string)
    | Sjoin(timestamp: string, channel: string, users: seq<string>)
    | EOS

  /** `SRPL::raw`. A NICK line advertises one more hop than stored; the
      `u32` addition panics on overflow, so that case is excluded. */
  function SrplRaw(s: SRPL, data: WriterData): string
    requires s.Nick? ==> s.hops + 1 < U32_LIMIT
  {
    match s
    case Pass(pass) => "PASS :" + pass
    case Server(name, hops, desc) => "SERVER " + name + " " + NatToString(hops) + " :" + desc
    case Pong(msg) => "PONG :" + msg
    case ProtoCtl(opts) => "PROTOCTL " + JoinWith(RawOptions(opts), " ")
    case EOS => "EOS"
    case Nick(nick, hops, ts, user, host, server, svc, modes, cloak, rname) =>
      JoinWith(["NICK", nick, NatToString(hops + 1), ts, user, host, server, svc, modes, cloak,
                ":" + rname], " ")
    case Sjoin(ts, channel, users) =>
      ":" + data.serverName + " " + ("SJOIN " + ts + " " + channel + " :" + JoinWith(users, " "))
  }

  /** Client-facing replies. */
  datatype RPL =
    | Welcome(msg: string)
    | YourHost
    | ModeSelf(mode: char, enabled: bool)
    | Mode(target: string, mode: char, enabled: bool)
    | MotdStart
    | Motd(text: string)
    | MotdEnd
    | NickInUse
    | NickNotFound(target: string)
    | Pong(msg: string)
    | Privmsg(mask: string, msg: string)
    | PrivmsgChan(mask: string, chan: string, msg: string)
    | Join(mask: string, chan: string)
    | Part(mask: string, chan: string, reason: string)
    | WhoReply(chan: string)
    | WhoSpcRpl(mask: string, modes: string)
    | EndOfWho
    | NameReply(chan: string, names: seq<string>)
    | EndOfNames(chan: string)

  /** A rendered line and the writer context after rendering it. */
  datatype Rendered = Rendered(line: string, data: WriterData)

  function Sign(enabled: bool): string {
    if enabled then "+" else "-"
  }

  /** A numeric reply: the server name, the three-digit code, then the rest. */
  function Numeric(data: WriterData, code: string, rest: string): string {
    ":" + data.serverName + " " + code + " " + rest
  }

  /** `RPL::raw`. */
  function RplRaw(r: RPL, data: WriterData): Rendered {
    var sname := data.serverName;
    match r
    case Welcome(msg) => Rendered(Numeric(data, "001", data.nick + " :" + msg), data)
    case YourHost => Rendered(Numeric(data, "002", data.nick + " :Your host is " + sname), data)
    case ModeSelf(mode, enabled) =>
      Rendered(":" + data.nick + " MODE " + data.nick + " :" + Sign(enabled) + [mode], data)
    case Mode(target, mode, enabled) =>
      Rendered(":" + sname + " MODE " + target + " " + Sign(enabled) + [mode], data)
    case MotdStart => Rendered(Numeric(data, "375", ":- " + sname + " Message of the Day -"), data)
    case Motd(text) => Rendered(Numeric(data, "372", ":- " + text), data)
    case MotdEnd => Rendered(Numeric(data, "376", ":End of /MOTD command."), data)
    case NickInUse => Rendered(Numeric(data, "433", "* " + data.nick + " :Nickname is already in use."), data)
    case NickNotFound(target) =>
      Rendered(Numeric(data, "401", data.nick + " " + target + " :No such nick/channel"), data)
    case Privmsg(mask, msg) => Rendered(":" + mask + " PRIVMSG " + data.nick + " :" + msg, data)
    case PrivmsgChan(mask, chan, msg) => Rendered(":" + mask + " PRIVMSG " + chan + " :" + msg, data)
    case Pong(msg) => Rendered(":" + sname + " PONG " + sname + " :" + msg, data)
    case Join(mask, chan) => Rendered(":" + mask + " JOIN " + chan, data)
    case Part(mask, chan, reason) => Rendered(":" + mask + " PART " + chan + " :\"" + reason + "\"", data)
    case WhoReply(chan) =>
      Rendered(Numeric(data, "352", chan + " %ctnf,152"), data.(curChan := chan))
    case WhoSpcRpl(mask, modes) =>
      Rendered(Numeric(data, "354", mask + " 152 " + data.curChan + " " + mask + " " + modes), data)
    case EndOfWho => Rendered(Numeric(data, "315", data.nick + " " + data.curChan + " :End of /WHO list."), data)
    case NameReply(chan, names) =>
      Rendered(Numeric(data, "353", data.nick + " @ " + chan + " :" + JoinWith(names, " ")), data)
    case EndOfNames(chan) => Rendered(Numeric(data, "366", data.nick + " " + chan + " :End of /NAMES list"), data)
  }

  // ---------------------------------------------------------------------
  // Properties of the option renderer

  /** How a peer reads one option back: the inverse of `ProtoOptionRaw`. */
  function ParseProtoOption(t: string): Option<ProtoOption> {
    if t == "NOQUIT" then Some(NOQUIT)
    else if t == "NICKv2" then Some(NICKv2)
    else if t == "SJOIN" then Some(SJOIN)
    else if t == "SJ3" then Some(SJ3)
    else if t == "CLK" then Some(CLK)
    else if t == "NICKIP" then Some(NICKIP)
    else if t == "TKLEXT" then Some(TKLEXT)
    else if t == "TKLEXT2" then Some(TKLEXT2)
    else if t == "ESVID" then Some(ESVID)
    else if t == "MLOCK" then Some(MLOCK)
    else if t == "EXTSWHOIS" then Some(EXTSWHOIS)
    else if |t| >= 6 && t[..6] == "EAUTH=" then Some(EAUTH(t[6..]))
    else if |t| >= 4 && t[..4] == "SID=" then Some(SID(t[4..]))
    else None
  }

  /** Every option renders to a token that reads back as that option. */
  lemma ProtoOptionRoundTrip(o: ProtoOption)
    ensures ParseProtoOption(ProtoOptionRaw(o)) == Some(o)
  {
    var t := ProtoOptionRaw(o);
    match o
    case EAUTH(name) =>
      assert t[1] == 'A' && t[5] == '=';
      assert t[..6] == "EAUTH=" && t[6..] == name;
    case SID(id) =>
      assert t[0] == 'S' && t[3] == '=';
      assert t[..4] == "SID=" && t[4..] == id;
    case _ =>
  }

  /** Different options never render alike, so a peer can tell every
      option (and every EAUTH/SID payload) apart. */
  lemma ProtoOptionRawInjective(a: ProtoOption, b: ProtoOption)
    requires ProtoOptionRaw(a) == ProtoOptionRaw(b)
    ensures a == b
  {
    ProtoOptionRoundTrip(a);
    ProtoOptionRoundTrip(b);
  }

  /** Options whose payload holds no whitespace render as single tokens. */
  predicate PlainOption(o: ProtoOption) {
    match o
    case EAUTH(name) => forall i :: 0 <= i < |name| ==> !IsSpace(name[i])
    case SID(id) => forall i :: 0 <= i < |id| ==> !IsSpace(id[i])
    case _ => true
  }

  lemma PlainOptionIsWord(o: ProtoOption)
    requires PlainOption(o)
    ensures IsWord(ProtoOptionRaw(o)) && !StartsWithColon(ProtoOptionRaw(o))
  {
  }

  /** A PROTOCTL line parses back to one param per option, in list order. */
  lemma ProtoCtlRoundTrip(opts: seq<ProtoOption>, data: WriterData)
    requires forall i :: 0 <= i < |opts| ==> PlainOption(opts[i])
    ensures !StartsWithColon(SrplRaw(ProtoCtl(opts), data))
    ensures HandleLine(SrplRaw(ProtoCtl(opts), data))
         == Ok(ParsedCommand("PROTOCTL", RawOptions(opts), []))
  {
    RawOptionsAreWords(opts);
    ProtoCtlShape(opts, data);
    if |opts| == 0 {
      ProtoCtlEmpty();
    } else {
      ParamsLine("PROTOCTL", RawOptions(opts));
    }
  }

  /** With no options the line keeps its separator, which the parser drops. */
  lemma ProtoCtlEmpty()
    ensures !StartsWithColon("PROTOCTL" + " ")
    ensures HandleLine("PROTOCTL" + " ") == Ok(ParsedCommand("PROTOCTL", [], []))
  {
    assert AllSpace(" ");
    ParamsLine("PROTOCTL", []);
    assert JoinWith(["PROTOCTL"] + [], " ") == "PROTOCTL";
    TrailingWhitespaceIgnored("PROTOCTL", " ");
  }

  lemma RawOptionsAreWords(opts: seq<ProtoOption>)
    requires forall i :: 0 <= i < |opts| ==> PlainOption(opts[i])
    ensures forall i :: 0 <= i < |opts| ==> IsWord(RawOptions(opts)[i]) && !StartsWithColon(RawOptions(opts)[i])
  {
    forall i | 0 <= i < |opts| ensures IsWord(RawOptions(opts)[i]) && !StartsWithColon(RawOptions(opts)[i]) {
      PlainOptionIsWord(opts[i]);
    }
  }

  lemma ProtoCtlShape(opts: seq<ProtoOption>, data: WriterData)
    ensures |opts| > 0 ==> SrplRaw(ProtoCtl(opts), data) == JoinWith(["PROTOCTL"] + RawOptions(opts), " ")
    ensures |opts| == 0 ==> SrplRaw(ProtoCtl(opts), data) == "PROTOCTL" + " "
  {
    if |opts| > 0 {
      JoinWithCons("PROTOCTL", RawOptions(opts), " ");
    } else {
      assert ["PROTOCTL"] + RawOptions(opts) == ["PROTOCTL"];
    }
  }

  // ---------------------------------------------------------------------
  // Lines a peer can read back

  /** Words separated by single spaces, none starting with a colon: text
      that survives being sent as a trailing part. */
  predicate Sentence(ws: seq<string>) {
    |ws| > 0 && forall i :: 0 <= i < |ws| ==> IsWord(ws[i]) && !StartsWithColon(ws[i])
  }

  /** A line `cmd p1 .. pn :w1 .. wm` parses back to its parts. */
  lemma TrailingLine(cmd: string, params: seq<string>, ws: seq<string>)
    requires IsWord(cmd) && !StartsWithColon(cmd)
    requires forall i :: 0 <= i < |params| ==> IsWord(params[i]) && !StartsWithColon(params[i])
    requires Sentence(ws)
    ensures var line := JoinWith([cmd] + params, " ") + " :" + JoinWith(ws, " ");
      !StartsWithColon(line) && HandleLine(line) == Ok(ParsedCommand(cmd, params, ws))
  {
    var c := ParsedCommand(cmd, params, ws);
    forall i | 0 <= i < |ws| ensures forall j :: 0 <= j < |ws[i]| ==> !IsSpace(ws[i][j]) {
      assert IsWord(ws[i]);
    }
    assert WellFormed(c);
    RenderRoundTrip(c);
    assert Render(c) == JoinWith([cmd] + params, " ") + " :" + JoinWith(ws, " ");
  }

  /** A line `cmd p1 .. pn` parses back to its parts. */
  lemma ParamsLine(cmd: string, params: seq<string>)
    requires IsWord(cmd) && !StartsWithColon(cmd)
    requires forall i :: 0 <= i < |params| ==> IsWord(params[i]) && !StartsWithColon(params[i])
    ensures var line := JoinWith([cmd] + params, " ");
      !StartsWithColon(line) && HandleLine(line) == Ok(ParsedCommand(cmd, params, []))
  {
    var c := ParsedCommand(cmd, params, []);
    assert WellFormed(c);
    RenderRoundTrip(c);
    assert Render(c) == JoinWith([cmd] + params, " ") + "";
    assert JoinWith([cmd] + params, " ") + "" == JoinWith([cmd] + params, " ");
  }

  lemma PassShape(ws: seq<string>, data: WriterData)
    ensures SrplRaw(Pass(JoinWith(ws, " ")), data) == JoinWith(["PASS"] + [], " ") + " :" + JoinWith(ws, " ")
  {
    assert JoinWith(["PASS"] + [], " ") == "PASS";
  }

  /** `PASS :secret` parses back to no params and the secret's words. */
  lemma PassRoundTrip(ws: seq<string>, data: WriterData)
    requires Sentence(ws)
    ensures !StartsWithColon(SrplRaw(Pass(JoinWith(ws, " ")), data))
    ensures HandleLine(SrplRaw(Pass(JoinWith(ws, " ")), data)) == Ok(ParsedCommand("PASS", [], ws))
  {
    PassShape(ws, data);
    TrailingLine("PASS", [], ws);
  }

  lemma PongShape(ws: seq<string>, data: WriterData)
    ensures SrplRaw(SRPL.Pong(JoinWith(ws, " ")), data) == JoinWith(["PONG"] + [], " ") + " :" + JoinWith(ws, " ")
  {
    assert JoinWith(["PONG"] + [], " ") == "PONG";
  }

  /** `PONG :msg` parses back to no params and the message's words. */
  lemma PongRoundTrip(ws: seq<string>, data: WriterData)
    requires Sentence(ws)
    ensures !StartsWithColon(SrplRaw(SRPL.Pong(JoinWith(ws, " ")), data))
    ensures HandleLine(SrplRaw(SRPL.Pong(JoinWith(ws, " ")), data)) == Ok(ParsedCommand("PONG", [], ws))
  {
    PongShape(ws, data);
    TrailingLine("PONG", [], ws);
  }

  lemma ServerShape(name: string, hops: U32, ws: seq<string>, data: WriterData)
    ensures SrplRaw(Server(name, hops, JoinWith(ws, " ")), data)
         == JoinWith(["SERVER"] + [name, NatToString(hops)], " ") + " :" + JoinWith(ws, " ")
  {
    var h := NatToString(hops);
    JoinWithCons("SERVER", [name, h], " ");
    JoinWithCons(name, [h], " ");
  }

  /** `SERVER name hops :desc` parses back to the name, the decimal hop
      count and the description's words. */
  lemma ServerRoundTrip(name: string, hops: U32, ws: seq<string>, data: WriterData)
    requires IsWord(name) && !StartsWithColon(name)
    requires Sentence(ws)
    ensures !StartsWithColon(SrplRaw(Server(name, hops, JoinWith(ws, " ")), data))
    ensures HandleLine(SrplRaw(Server(name, hops, JoinWith(ws, " ")), data))
         == Ok(ParsedCommand("SERVER", [name, NatToString(hops)], ws))
    ensures ParseU32(NatToString(hops)) == Some(hops)
  {
    ServerShape(name, hops, ws, data);
    TrailingLine("SERVER", [name, NatToString(hops)], ws);
    ParseRendered(hops);
  }

  /** An EOS line parses back to the bare command. */
  lemma EosRoundTrip(data: WriterData)
    ensures HandleLine(SrplRaw(EOS, data)) == Ok(ParsedCommand("EOS", [], []))
  {
    var c := ParsedCommand("EOS", [], []);
    assert [c.command] + c.params == ["EOS"];
    assert Render(c) == "EOS";
    RenderRoundTrip(c);
  }

  /** A single parameter as a peer reads it: no whitespace, no leading colon. */
  predicate Token(w: string) {
    IsWord(w) && !StartsWithColon(w)
  }

  /** The tokens of `front middle :ws` when the front items are tokens and
      the middle items are tokens or empty. */
  lemma FieldsWords(front: seq<string>, middle: seq<string>, ws: seq<string>)
    requires forall i :: 0 <= i < |front| ==> Token(front[i])
    requires Sentence(ws)
    ensures Words(JoinWith(front + middle + [":" + JoinWith(ws, " ")], " "))
         == front + WordsOfAll(middle) + ([":" + ws[0]] + ws[1..])
  {
    var last := [":" + JoinWith(ws, " ")];
    WordsJoinAll(front + middle + last);
    WordsOfAllAppend(front + middle, last);
    WordsOfAllAppend(front, middle);
    WordsOfAllWords(front);
    WordsOfColonSentence(ws);
  }

  lemma WordsOfColonSentence(ws: seq<string>)
    requires Sentence(ws)
    ensures WordsOfAll([":" + JoinWith(ws, " ")]) == [":" + ws[0]] + ws[1..]
  {
    var p := ":" + JoinWith(ws, " ");
    assert WordsOfAll([p]) == Words(p) + WordsOfAll([]);
    WordsColonJoin(ws);
  }

  /** The parse of `front mid tail` where only `tail` starts with a colon token. */
  lemma FieldsTokens(front: seq<string>, mid: seq<string>, ws: seq<string>)
    requires |front| > 0
    requires forall i :: 0 <= i < |front| ==> !StartsWithColon(front[i])
    requires forall i :: 0 <= i < |mid| ==> !StartsWithColon(mid[i])
    requires Sentence(ws)
    ensures FromTokens(front + mid + ([":" + ws[0]] + ws[1..]))
         == Ok(ParsedCommand(front[0], front[1..] + mid, ws))
  {
    var tail := [":" + ws[0]] + ws[1..];
    var all := front + mid + tail;
    var rest := all[1..];
    assert rest == front[1..] + mid + tail;
    var k := |front| - 1 + |mid|;
    FirstColonAt(rest, k);
    assert rest[..k] == front[1..] + mid;
    assert rest[k..] == tail;
    assert ([":" + ws[0]])[0][1..] == ws[0];
    assert StripAll(tail) == ws;
  }

  lemma JoinStartsWith(xs: seq<string>, sep: string)
    requires |xs| > 0 && |xs[0]| > 0
    ensures |JoinWith(xs, sep)| > 0 && JoinWith(xs, sep)[0] == xs[0][0]
  {
    if |xs| > 1 {
      JoinWithCons(xs[0], xs[1..], sep);
      assert xs == [xs[0]] + xs[1..];
    }
  }

  /** A line `f1 .. fn m1 .. mk :w1 .. wj` parses back to command `f1`,
      params `f2 .. fn` followed by the non-empty middle items, and the
      trailing words. */
  lemma FieldsLine(front: seq<string>, middle: seq<string>, ws: seq<string>)
    requires |front| > 0
    requires forall i :: 0 <= i < |front| ==> Token(front[i])
    requires forall i :: 0 <= i < |middle| ==> PlainOrEmpty(middle[i])
    requires Sentence(ws)
    ensures var line := JoinWith(front + middle + [":" + JoinWith(ws, " ")], " ");
      && !StartsWithColon(line)
      && HandleLine(line) == Ok(ParsedCommand(front[0], front[1..] + WordsOfAll(middle), ws))
  {
    var parts := front + middle + [":" + JoinWith(ws, " ")];
    FieldsWords(front, middle, ws);
    WordsOfAllPlain(middle);
    FieldsTokens(front, WordsOfAll(middle), ws);
    assert parts[0] == front[0];
    JoinStartsWith(parts, " ");
  }

  lemma NickShape(nick: string, hops: U32, ts: string, user: string, host: string,
                  server: string, svc: string, modes: string, cloak: string,
                  rname: string, data: WriterData)
    requires hops + 1 < U32_LIMIT
    ensures SrplRaw(Nick(nick, hops, ts, user, host, server, svc, modes, cloak, rname), data)
         == JoinWith(["NICK", nick, NatToString(hops + 1), ts, user, host, server]
                     + [svc, modes, cloak] + [":" + rname], " ")
  {
    assert ["NICK", nick, NatToString(hops + 1), ts, user, host, server] + [svc, modes, cloak] + [":" + rname]
        == ["NICK", nick, NatToString(hops + 1), ts, user, host, server, svc, modes, cloak, ":" + rname];
  }

  /** The fields of a NICK line as a peer reads them: the first six params
      are nick, advertised hops, timestamp, user, host and server name, and
      the trailing part is the real name's words. Empty services stamp,
      modes or cloaked host fields vanish from the params, which leaves
      the first six in place. */
  lemma NickLineFields(nick: string, hops: U32, ts: string, user: string, host: string,
                       server: string, svc: string, modes: string, cloak: string,
                       ws: seq<string>, data: WriterData)
    requires hops + 1 < U32_LIMIT
    requires Token(nick) && Token(ts) && Token(user) && Token(host) && Token(server)
    requires PlainOrEmpty(svc) && PlainOrEmpty(modes) && PlainOrEmpty(cloak)
    requires Sentence(ws)
    ensures var line := SrplRaw(Nick(nick, hops, ts, user, host, server, svc, modes, cloak, JoinWith(ws, " ")), data);
      && !StartsWithColon(line)
      && HandleLine(line).Ok?
      && HandleLine(line).value.command == "NICK"
      && |HandleLine(line).value.params| >= 6
      && HandleLine(line).value.params[..6] == [nick, NatToString(hops + 1), ts, user, host, server]
      && HandleLine(line).value.trailing == ws
  {
    var h := NatToString(hops + 1);
    var front := ["NICK", nick, h, ts, user, host, server];
    var middle := [svc, modes, cloak];
    assert Token(h) by { assert h[0] != ':' by { assert IsDigit(h[0]); } }
    assert forall i :: 0 <= i < |front| ==> Token(front[i]);
    assert forall i :: 0 <= i < |middle| ==> PlainOrEmpty(middle[i]);
    NickShape(nick, hops, ts, user, host, server, svc, modes, cloak, JoinWith(ws, " "), data);
    FieldsLine(front, middle, ws);
    assert (front[1..] + WordsOfAll(middle))[..6] == front[1..];
  }

  // ---------------------------------------------------------------------
  // Properties of the client reply renderer

  /** The three-digit code of each numeric reply. */
  function NumericCode(r: RPL): Option<string> {
    match r
    case Welcome(_) => Some("001")
    case YourHost => Some("002")
    case MotdStart => Some("375")
    case Motd(_) => Some("372")
    case MotdEnd => Some("376")
    case NickInUse => Some("433")
    case NickNotFound(_) => Some("401")
    case WhoReply(_) => Some("352")
    case WhoSpcRpl(_, _) => Some("354")
    case EndOfWho => Some("315")
    case NameReply(_, _) => Some("353")
    case EndOfNames(_) => Some("366")
    case _ => None
  }

  /** Numeric replies start with `:<server name> <code> `. */
  lemma NumericReplyPrefix(r: RPL, data: WriterData)
    requires NumericCode(r).Some?
    ensures var p := ":" + data.serverName + " " + NumericCode(r).value + " ";
      var line := RplRaw(r, data).line;
      |p| <= |line| && line[..|p|] == p
  {
  }

  /** Mode changes end in `+m` when enabled and `-m` otherwise. */
  lemma ModeSign(r: RPL, data: WriterData)
    requires r.ModeSelf? || r.Mode?
    ensures var line := RplRaw(r, data).line;
      && |line| >= 2
      && line[|line| - 1] == r.mode
      && (line[|line| - 2] == '+' <==> r.enabled)
      && (line[|line| - 2] == '-' <==> !r.enabled)
  {
  }

  /** A PART reply carries the reason in double quotes after ` :`. */
  lemma PartReasonQuoted(mask: string, chan: string, reason: string, data: WriterData)
    ensures var line := RplRaw(Part(mask, chan, reason), data).line;
      var q := " :\"" + reason + "\"";
      |q| <= |line| && line[|line| - |q|..] == q
  {
  }

  /** Only WhoReply changes the writer context, and it only records the
      channel it names. */
  lemma OnlyWhoReplyChangesData(r: RPL, data: WriterData)
    ensures RplRaw(r, data).data.nick == data.nick
    ensures RplRaw(r, data).data.serverName == data.serverName
    ensures RplRaw(r, data).data.curChan == (if r.WhoReply? then r.chan else data.curChan)
  {
    match r
    case WhoReply(c) =>
    case _ =>
  }

  /** After WhoReply(c), a WhoSpcRpl and the closing EndOfWho both name c. */
  lemma WhoListNamesChannel(c: string, mask: string, modes: string, data: WriterData)
    ensures var d1 := RplRaw(WhoReply(c), data).data;
      var spc := RplRaw(WhoSpcRpl(mask, modes), d1);
      var end := RplRaw(EndOfWho, spc.data);
      && spc.line == Numeric(data, "354", mask + " 152 " + c + " " + mask + " " + modes)
      && end.line == Numeric(data, "315", data.nick + " " + c + " :End of /WHO list.")
  {
    var d1 := data.(curChan := c);
    assert RplRaw(WhoReply(c), data).data == d1;
    assert RplRaw(WhoSpcRpl(mask, modes), d1).data == d1;
  }

  /** An SJOIN line is `:<server name> ` followed by a line that parses
      back to the timestamp, the channel and the member nicks. */
  lemma SjoinRoundTrip(ts: string, channel: string, nicks: seq<string>, data: WriterData)
    requires IsWord(ts) && !StartsWithColon(ts)
    requires IsWord(channel) && !StartsWithColon(channel)
    requires Sentence(nicks)
    ensures var line := SrplRaw(Sjoin(ts, channel, nicks), data);
      var prefix := ":" + data.serverName + " ";
      && |prefix| <= |line| && line[..|prefix|] == prefix
      && !StartsWithColon(line[|prefix|..])
      && HandleLine(line[|prefix|..]) == Ok(ParsedCommand("SJOIN", [ts, channel], nicks))
  {
    SjoinShape(ts, channel, nicks, data);
    TrailingLine("SJOIN", [ts, channel], nicks);
  }

  lemma SjoinShape(ts: string, channel: string, nicks: seq<string>, data: WriterData)
    ensures var prefix := ":" + data.serverName + " ";
      var line := SrplRaw(Sjoin(ts, channel, nicks), data);
      && |prefix| <= |line| && line[..|prefix|] == prefix
      && line[|prefix|..] == JoinWith(["SJOIN"] + [ts, channel], " ") + " :" + JoinWith(nicks, " ")
  {
    JoinWithCons("SJOIN", [ts, channel], " ");
    JoinWithCons(ts, [channel], " ");
    var prefix := ":" + data.serverName + " ";
    var body := "SJOIN " + ts + " " + channel + " :" + JoinWith(nicks, " ");
    assert (prefix + body)[|prefix|..] == body;
  }
}
