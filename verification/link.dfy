/** A server-to-server link (`ServerWorker` in
    `components/server/server_thread.rs`): the burst it sends when the link
    comes up, and its reaction to each command the peer sends. Every user
    the peer announces becomes a `VUser` the link owns.

    The directory's answers (the users and channels of the burst, the id of
    each registered proxy, the channels and slots of each join) are
    inputs. */
module Link {
  import opened Base
  import opened Messages
  import Wire
  import Masks
  import Handles
  import LineFsm
  import Registration
  import opened RemoteUser
  import opened Membership

  /** `State`: bursting, or past the peer's EOS. */
  datatype Phase = Syncing | Linked

  /** The fields of `ServerWorker` that carry behaviour, with the heaps of
      the handles its proxies hold. */
  datatype Link = Link(
    phase: Phase,
    users: seq<VUser>,
    chans: Handles.ChannelHeap,
    dirs: Handles.DirectoryHeap,
    config: Config)

  datatype LStep = LStep(l: Link, out: seq<Envelope>, stop: bool)

  /** `ServerWorker::new`. */
  function NewLink(config: Config): (r: Link)
    ensures r.phase == Syncing && r.users == [] && r.config == config
  {
    Link(Syncing, [], [], [], config)
  }

  function SWriteAll(ss: seq<Wire.SRPL>): (r: seq<Envelope>)
    ensures |r| == |ss| && forall i :: 0 <= i < |ss| ==> r[i] == SWrite(ss[i])
  {
    seq(|ss|, i requires 0 <= i < |ss| => SWrite(ss[i]))
  }

  // ---------------------------------------------------------------------
  // The burst

  /** The capabilities `introduce` advertises: eleven options, `EAUTH` with
      this server's name first, no `SID` and no `TKLEXT2`. */
  function LinkOptions(serverName: string): seq<Wire.ProtoOption> {
    [Wire.EAUTH(serverName), Wire.NOQUIT, Wire.NICKv2, Wire.SJOIN, Wire.SJ3, Wire.CLK,
     Wire.NICKIP, Wire.TKLEXT, Wire.ESVID, Wire.MLOCK, Wire.EXTSWHOIS]
  }

  /** `ServerWorker::introduce`. */
  function Introduce(config: Config): seq<Wire.SRPL> {
    [Wire.SRPL.Pass(config.pass),
     Wire.SRPL.ProtoCtl(LinkOptions(config.serverName)),
     Wire.SRPL.Server(config.serverName, 1, config.desc)]
  }

  /** A peer reads the introduction back: the password's words, the eleven
      options in order, then this server's name, one hop and the
      description's words. */
  lemma IntroduceReadBack(config: Config, pass: seq<string>, desc: seq<string>, data: Wire.WriterData)
    requires LineFsm.IsWord(config.serverName) && !LineFsm.StartsWithColon(config.serverName)
    requires Wire.Sentence(pass) && config.pass == JoinWith(pass, " ")
    requires Wire.Sentence(desc) && config.desc == JoinWith(desc, " ")
    ensures var lines := Introduce(config);
      && LineFsm.HandleLine(Wire.SrplRaw(lines[0], data)) == Ok(LineFsm.ParsedCommand("PASS", [], pass))
      && LineFsm.HandleLine(Wire.SrplRaw(lines[1], data)).Ok?
      && (var opts := LineFsm.HandleLine(Wire.SrplRaw(lines[1], data)).value.params;
          && |opts| == 11
          && (forall i :: 0 <= i < 11 ==> Wire.ParseProtoOption(opts[i]) == Some(LinkOptions(config.serverName)[i])))
      && LineFsm.HandleLine(Wire.SrplRaw(lines[2], data)) == Ok(LineFsm.ParsedCommand("SERVER", [config.serverName, "1"], desc))
  {
    Wire.PassRoundTrip(pass, data);
    IntroduceOptions(config.serverName, data);
    Wire.ServerRoundTrip(config.serverName, 1, desc, data);
    assert NatToString(1) == "1";
  }

  /** The PROTOCTL line of the introduction reads back as the eleven options. */
  lemma IntroduceOptions(name: string, data: Wire.WriterData)
    requires LineFsm.IsWord(name) && !LineFsm.StartsWithColon(name)
    ensures var p := LineFsm.HandleLine(Wire.SrplRaw(Wire.SRPL.ProtoCtl(LinkOptions(name)), data));
      && p.Ok? && |p.value.params| == 11
      && forall i :: 0 <= i < 11 ==> Wire.ParseProtoOption(p.value.params[i]) == Some(LinkOptions(name)[i])
  {
    var opts := LinkOptions(name);
    assert forall i :: 0 <= i < |opts| ==> Wire.PlainOption(opts[i]);
    Wire.ProtoCtlRoundTrip(opts, data);
    forall i | 0 <= i < 11 ensures Wire.ParseProtoOption(Wire.RawOptions(opts)[i]) == Some(opts[i]) {
      Wire.ProtoOptionRoundTrip(opts[i]);
    }
  }

  /** A directory channel as the burst sees it: its name and the nicks of
      its members. */
  datatype ChannelInfo = ChannelInfo(name: string, nicks: seq<string>)

  /** The NICK line `sync` sends for one user: services stamp `"0"`, no
      modes, cloaked host `"*"`. */
  function BurstNick(m: Masks.Mask): Wire.SRPL {
    Wire.SRPL.Nick(m.nick, m.hops, m.timestamp, m.user, m.host, m.servername, "0", "", "*", m.realName)
  }

  /** `ServerWorker::sync`: one NICK per user, one SJOIN (timestamp `"0"`)
      per channel, then EOS. */
  function Sync(users: seq<Masks.Mask>, channels: seq<ChannelInfo>): (r: seq<Wire.SRPL>)
    ensures |r| == |users| + |channels| + 1
    ensures forall i :: 0 <= i < |users| ==> r[i].Nick? && r[i] == BurstNick(users[i])
    ensures forall j :: 0 <= j < |channels| ==>
      r[|users| + j] == Wire.SRPL.Sjoin("0", channels[j].name, channels[j].nicks)
    ensures r[|r| - 1] == Wire.SRPL.EOS
  {
    seq(|users|, i requires 0 <= i < |users| => BurstNick(users[i]))
    + seq(|channels|, j requires 0 <= j < |channels| => Wire.SRPL.Sjoin("0", channels[j].name, channels[j].nicks))
    + [Wire.SRPL.EOS]
  }

  /** `run` before its loop: the introduction, then the burst. */
  function Start(l: Link, users: seq<Masks.Mask>, channels: seq<ChannelInfo>): (r: seq<Envelope>)
    ensures |r| == 3 + |users| + |channels| + 1
    ensures r[..3] == SWriteAll(Introduce(l.config))
    ensures r[3..] == SWriteAll(Sync(users, channels))
  {
    SWriteAll(Introduce(l.config) + Sync(users, channels))
  }

  // ---------------------------------------------------------------------
  // Reading a NICK

  /** The evidently intended mask of an announced user, with the real
      name's words joined by single spaces. */
  function NickMask(cmd: LineFsm.ParsedCommand): (r: Masks.Mask)
    requires |cmd.params| >= 6 && ParseU32(cmd.params[1]).Some?
    ensures r.nick == cmd.params[0] && r.hops == ParseU32(cmd.params[1]).value
    ensures r.timestamp == cmd.params[2] && r.user == cmd.params[3]
    ensures r.host == cmd.params[4] && r.servername == cmd.params[5]
    ensures r.realName == JoinWith(cmd.trailing, " ")
  {
    Masks.Mask(cmd.params[0], cmd.params[3], cmd.params[4], JoinWith(cmd.trailing, " "),
               ParseU32(cmd.params[1]).value, cmd.params[2], cmd.params[5])
  }

  /** The mask as the handler builds it: the real name's words are joined
      with the separator `".clone() "`. */
  function NickMaskAsWritten(cmd: LineFsm.ParsedCommand): (r: Masks.Mask)
    requires |cmd.params| >= 6 && ParseU32(cmd.params[1]).Some?
    ensures r == NickMask(cmd).(realName := JoinWith(cmd.trailing, ".clone() "))
  {
    Masks.Mask(cmd.params[0], cmd.params[3], cmd.params[4], JoinWith(cmd.trailing, ".clone() "),
               ParseU32(cmd.params[1]).value, cmd.params[2], cmd.params[5])
  }

  /** A two-word real name comes out mangled as written. */
  lemma AsWrittenMangledRealName()
    ensures var cmd := LineFsm.ParsedCommand("NICK", ["alice", "1", "0", "al", "host", "srv"], ["John", "Smith"]);
      && ParseU32(cmd.params[1]) == Some(1)
      && NickMaskAsWritten(cmd).realName == "John.clone() Smith"
      && NickMaskAsWritten(cmd).realName != "John Smith"
      && NickMask(cmd).realName == "John Smith"
  {
    ParseOne();
    JoinTwo("John", "Smith", ".clone() ");
    JoinTwo("John", "Smith", " ");
    assert |"John.clone() Smith"| != |"John Smith"|;
  }

  /** The mask as written agrees with the intended one exactly when the
      real name has at most one word. */
  lemma AsWrittenAgreesIffOneWord(cmd: LineFsm.ParsedCommand)
    requires |cmd.params| >= 6 && ParseU32(cmd.params[1]).Some?
    ensures NickMaskAsWritten(cmd) == NickMask(cmd) <==> |cmd.trailing| <= 1
  {
    var ws := cmd.trailing;
    if |ws| >= 2 {
      JoinWithLength(ws, " ");
      JoinWithLength(ws, ".clone() ");
      assert |JoinWith(ws, ".clone() ")| != |JoinWith(ws, " ")|;
      assert NickMaskAsWritten(cmd).realName != NickMask(cmd).realName;
    }
  }

  lemma ParseOne()
    ensures ParseU32("1") == Some(1)
  {
    ParseRendered(1);
    assert NatToString(1) == "1";
  }

  lemma JoinTwo(a: string, b: string, sep: string)
    ensures JoinWith([a, b], sep) == a + sep + b
  {
    JoinWithCons(a, [b], sep);
    assert [a] + [b] == [a, b];
  }

  /** The mask read from a NICK line whose first six params and trailing
      words carry `m`'s fields, with the hop count one higher. */
  lemma NickMaskFromFields(cmd: LineFsm.ParsedCommand, m: Masks.Mask, ws: seq<string>)
    requires m.hops + 1 < U32_LIMIT && m.realName == JoinWith(ws, " ")
    requires |cmd.params| >= 6 && cmd.trailing == ws
    requires cmd.params[..6] == [m.nick, NatToString(m.hops + 1), m.timestamp, m.user, m.host, m.servername]
    ensures ParseU32(cmd.params[1]) == Some(m.hops + 1)
    ensures NickMask(cmd) == m.(hops := m.hops + 1)
  {
    assert cmd.params[1] == cmd.params[..6][1];
    ParseRendered(m.hops + 1);
    assert cmd.params[0] == cmd.params[..6][0] && cmd.params[2] == cmd.params[..6][2];
    assert cmd.params[3] == cmd.params[..6][3] && cmd.params[4] == cmd.params[..6][4];
    assert cmd.params[5] == cmd.params[..6][5];
  }

  /** A user this server bursts is read back from the NICK line, under the
      intended mask, with every field intact and one more hop. */
  lemma BurstNickRecovered(m: Masks.Mask, ws: seq<string>, data: Wire.WriterData)
    requires m.hops + 1 < U32_LIMIT
    requires Wire.Token(m.nick) && Wire.Token(m.timestamp) && Wire.Token(m.user)
    requires Wire.Token(m.host) && Wire.Token(m.servername)
    requires Wire.Sentence(ws) && m.realName == JoinWith(ws, " ")
    ensures var line := Wire.SrplRaw(BurstNick(m), data);
      && LineFsm.HandleLine(line).Ok?
      && LineFsm.HandleLine(line).value.command == "NICK"
      && |LineFsm.HandleLine(line).value.params| >= 6
      && ParseU32(LineFsm.HandleLine(line).value.params[1]) == Some(m.hops + 1)
      && NickMask(LineFsm.HandleLine(line).value) == m.(hops := m.hops + 1)
  {
    assert LineFsm.PlainOrEmpty("0") && LineFsm.PlainOrEmpty("") && LineFsm.PlainOrEmpty("*");
    Wire.NickLineFields(m.nick, m.hops, m.timestamp, m.user, m.host, m.servername, "0", "", "*", ws, data);
    var line := Wire.SrplRaw(BurstNick(m), data);
    NickMaskFromFields(LineFsm.HandleLine(line).value, m, ws);
  }

  // ---------------------------------------------------------------------
  // Reading an SJOIN

  /** `parse_nick`: every `@`, wherever it stands, becomes one `'o'` mode
      and is removed from the nick; the other characters keep their order. */
  function ParseNick(s: string): (r: (string, seq<char>))
    ensures '@' !in r.0 && forall i :: 0 <= i < |r.1| ==> r.1[i] == 'o'
    ensures |r.0| + |r.1| == |s|
  {
    if |s| == 0 then ("", [])
    else
      var (n, m) := ParseNick(s[1..]);
      if s[0] == '@' then (n, ['o'] + m) else ([s[0]] + n, m)
  }

  /** One mode per `@`, and every other character kept as often as it
      occurs. */
  lemma {:induction false} ParseNickCounts(s: string)
    ensures |ParseNick(s).1| == multiset(s)['@']
    ensures forall c :: c != '@' ==> multiset(ParseNick(s).0)[c] == multiset(s)[c]
  {
    if |s| > 0 {
      assert s == [s[0]] + s[1..];
      ParseNickCounts(s[1..]);
    }
  }

  /** Parsing splits over concatenation, so order is kept. */
  lemma {:induction false} ParseNickAppend(a: string, b: string)
    ensures ParseNick(a + b) == (ParseNick(a).0 + ParseNick(b).0, ParseNick(a).1 + ParseNick(b).1)
  {
    if |a| > 0 {
      assert (a + b)[0] == a[0];
      assert (a + b)[1..] == a[1..] + b;
      ParseNickAppend(a[1..], b);
      var pa := ParseNick(a[1..]);
      var pb := ParseNick(b);
      if a[0] == '@' {
        assert ParseNick(a) == (pa.0, ['o'] + pa.1);
        assert ParseNick(a + b) == (pa.0 + pb.0, ['o'] + (pa.1 + pb.1));
        assert ['o'] + (pa.1 + pb.1) == (['o'] + pa.1) + pb.1;
      } else {
        assert ParseNick(a) == ([a[0]] + pa.0, pa.1);
        assert ParseNick(a + b) == ([a[0]] + (pa.0 + pb.0), pa.1 + pb.1);
        assert [a[0]] + (pa.0 + pb.0) == ([a[0]] + pa.0) + pb.0;
      }
    } else {
      assert a + b == b;
      assert ParseNick(a) == ("", []);
      assert ParseNick(a).0 + ParseNick(b).0 == ParseNick(b).0;
      assert ParseNick(a).1 + ParseNick(b).1 == ParseNick(b).1;
    }
  }

  /** A nick without `@` parses to itself and no modes. */
  lemma {:induction false} ParseNickPlain(s: string)
    requires '@' !in s
    ensures ParseNick(s) == (s, [])
  {
    if |s| > 0 {
      assert s[0] != '@' && '@' !in s[1..];
      ParseNickPlain(s[1..]);
      assert s == [s[0]] + s[1..];
    }
  }

  /** A leading `@` becomes one `'o'` mode in front of the rest. */
  lemma ParseNickOp(s: string)
    ensures ParseNick("@" + s) == (ParseNick(s).0, ['o'] + ParseNick(s).1)
  {
    assert ("@" + s)[0] == '@' && ("@" + s)[1..] == s;
  }

  /** `@` inside a nick is removed too, not just the leading flags. */
  lemma ParseNickInnerAt()
    ensures ParseNick("al@ice") == ("alice", ['o'])
  {
    ParseNickPlain("al");
    ParseNickPlain("ice");
    ParseNickOp("ice");
    assert "@" + "ice" == "@ice";
    ParseNickAppend("al", "@ice");
    assert "al" + "@ice" == "al@ice";
    assert "al" + "ice" == "alice";
    assert ParseNick("al").1 + ParseNick("@ice").1 == ['o'];
  }

  function Nicks(users: seq<VUser>): (r: seq<string>)
    ensures |r| == |users| && forall i :: 0 <= i < |users| ==> r[i] == users[i].mask.nick
  {
    seq(|users|, i requires 0 <= i < |users| => users[i].mask.nick)
  }

  /** Index of the first nick equal to `nick`. */
  function FirstWithNick(nicks: seq<string>, nick: string): (r: Option<nat>)
    ensures r.Some? ==> r.value < |nicks| && nicks[r.value] == nick
    ensures r.Some? ==> forall i :: 0 <= i < r.value ==> nicks[i] != nick
    ensures r.None? ==> forall i :: 0 <= i < |nicks| ==> nicks[i] != nick
  {
    if |nicks| == 0 then None
    else if nicks[0] == nick then Some(0)
    else match FirstWithNick(nicks[1..], nick)
      case None => None
      case Some(k) => Some(k + 1)
  }

  /** The proxies an SJOIN's member tokens reach, in token order. */
  function Targets(nicks: seq<string>, tokens: seq<string>): (r: seq<nat>)
    ensures forall k :: 0 <= k < |r| ==> r[k] < |nicks|
    ensures |r| <= |tokens|
  {
    if |tokens| == 0 then []
    else
      var rest := Targets(nicks, tokens[1..]);
      match FirstWithNick(nicks, ParseNick(tokens[0]).0)
      case None => rest
      case Some(i) => [i] + rest
  }

  /** How many times proxy `i` is reached. */
  function Occurrences(t: seq<nat>, i: nat): nat {
    if |t| == 0 then 0 else (if t[0] == i then 1 else 0) + Occurrences(t[1..], i)
  }

  /** The SJOIN loop: each token reaching a proxy makes that proxy join,
      consuming the next join answer. */
  function SjoinEach(h: Handles.ChannelHeap, users: seq<VUser>, tokens: seq<string>, chan: string, joins: seq<JoinAnswer>)
    : (r: (Handles.ChannelHeap, seq<VUser>, seq<Envelope>))
    requires |joins| >= |Targets(Nicks(users), tokens)|
    ensures |r.2| == |Targets(Nicks(users), tokens)|
    ensures forall k :: 0 <= k < |r.2| ==> r.2[k] == ToChannel(joins[k].channel, ChannelMsg.Join(joins[k].me))
    ensures |r.0| == |h| + |r.2| && |r.1| == |users|
    decreases |tokens|
  {
    var nicks := Nicks(users);
    if |tokens| == 0 then (h, users, [])
    else match FirstWithNick(nicks, ParseNick(tokens[0]).0)
      case None => SjoinEach(h, users, tokens[1..], chan, joins)
      case Some(i) =>
        var (h1, v1, o) := VUserJoin(h, users[i], chan, joins[0]);
        var users1 := users[i := v1];
        assert Nicks(users1) == nicks;
        var (h2, users2, os) := SjoinEach(h1, users1, tokens[1..], chan, joins[1..]);
        (h2, users2, o + os)
  }

  /** The SJOIN loop only appends handles. */
  lemma {:induction false} SjoinKeepsHeap(h: Handles.ChannelHeap, users: seq<VUser>, tokens: seq<string>, chan: string, joins: seq<JoinAnswer>)
    requires |joins| >= |Targets(Nicks(users), tokens)|
    ensures SjoinEach(h, users, tokens, chan, joins).0[..|h|] == h
    decreases |tokens|
  {
    var nicks := Nicks(users);
    if |tokens| > 0 {
      match FirstWithNick(nicks, ParseNick(tokens[0]).0)
      case None => SjoinKeepsHeap(h, users, tokens[1..], chan, joins);
      case Some(i) =>
        var (h1, v1, o) := VUserJoin(h, users[i], chan, joins[0]);
        var users1 := users[i := v1];
        assert Nicks(users1) == nicks;
        SjoinKeepsHeap(h1, users1, tokens[1..], chan, joins[1..]);
        var h2 := SjoinEach(h1, users1, tokens[1..], chan, joins[1..]).0;
        assert forall j :: 0 <= j < |h| ==> h2[j] == h2[..|h1|][j] == h1[j] == h[j];
    }
  }

  /** Each proxy keeps its address, directory entry and mask, and gains
      one entry named after the channel per token that reaches it, after
      the entries it already held. */
  lemma {:induction false} SjoinGrowth(h: Handles.ChannelHeap, users: seq<VUser>, tokens: seq<string>, chan: string, joins: seq<JoinAnswer>)
    requires |joins| >= |Targets(Nicks(users), tokens)|
    ensures var r := SjoinEach(h, users, tokens, chan, joins).1;
      var t := Targets(Nicks(users), tokens);
      forall i :: 0 <= i < |users| ==>
        && r[i].self == users[i].self && r[i].dirEntry == users[i].dirEntry && r[i].mask == users[i].mask
        && |r[i].channels| == |users[i].channels| + Occurrences(t, i)
        && r[i].channels[..|users[i].channels|] == users[i].channels
        && forall k :: |users[i].channels| <= k < |r[i].channels| ==> r[i].channels[k].name == chan
    decreases |tokens|
  {
    var nicks := Nicks(users);
    if |tokens| > 0 {
      match FirstWithNick(nicks, ParseNick(tokens[0]).0)
      case None => SjoinGrowth(h, users, tokens[1..], chan, joins);
      case Some(i0) =>
        var (h1, v1, o) := VUserJoin(h, users[i0], chan, joins[0]);
        var users1 := users[i0 := v1];
        assert Nicks(users1) == nicks;
        SjoinGrowth(h1, users1, tokens[1..], chan, joins[1..]);
        var r := SjoinEach(h, users, tokens, chan, joins).1;
        assert r == SjoinEach(h1, users1, tokens[1..], chan, joins[1..]).1;
        var t := Targets(nicks, tokens);
        assert t == [i0] + Targets(nicks, tokens[1..]);
        forall i | 0 <= i < |users|
          ensures |r[i].channels| == |users[i].channels| + Occurrences(t, i)
          ensures r[i].channels[..|users[i].channels|] == users[i].channels
          ensures forall k :: |users[i].channels| <= k < |r[i].channels| ==> r[i].channels[k].name == chan
        {
          assert Occurrences(t, i) == (if i == i0 then 1 else 0) + Occurrences(Targets(nicks, tokens[1..]), i);
          if i == i0 {
            var c1 := users1[i].channels;
            assert c1 == users[i].channels + [StoredChannel(chan, |h|)];
            assert r[i].channels[..|c1|] == c1;
            assert r[i].channels[..|users[i].channels|] == c1[..|users[i].channels|];
            forall k | |users[i].channels| <= k < |r[i].channels| ensures r[i].channels[k].name == chan {
              if k < |c1| {
                assert r[i].channels[k] == r[i].channels[..|c1|][k] == c1[k];
              }
            }
          }
        }
    }
  }

  // ---------------------------------------------------------------------
  // Commands from the peer

  /** The answers the link may receive while handling one command: a fresh
      user address and a directory id for an announced user, and the
      answers of each join an SJOIN causes. */
  datatype Answers = Answers(addr: UserAddr, id: DirectoryId, joins: seq<JoinAnswer>)

  /** What `handle_command` needs to avoid a panic: a NICK indexes six
      params and parses the hop count, an SJOIN indexes two params, and
      every join it causes succeeds. */
  predicate CanHandle(l: Link, cmd: LineFsm.ParsedCommand, ans: Answers) {
    var c := Registration.Upper(cmd.command);
    && (c == "NICK" ==> |cmd.params| >= 6 && ParseU32(cmd.params[1]).Some?)
    && (c == "SJOIN" ==> |cmd.params| >= 2 && |ans.joins| >= |Targets(Nicks(l.users), cmd.trailing)|)
  }

  /** `ServerWorker::handle_command`. */
  function HandleCommand(l: Link, cmd: LineFsm.ParsedCommand, ans: Answers): (r: LStep)
    requires CanHandle(l, cmd, ans)
    ensures !r.stop
    ensures r.l.config == l.config
    ensures r.l.phase != l.phase ==> l.phase == Syncing && r.l.phase == Linked && Registration.Upper(cmd.command) == "EOS"
    ensures |r.l.users| >= |l.users|
  {
    var c := Registration.Upper(cmd.command);
    if c == "SMO" then LStep(l, [], false)
    else if c == "PING" then
      LStep(l, [SWrite(Wire.SRPL.Pong(JoinWith(cmd.params, " ") + JoinWith(cmd.trailing, " ")))], false)
    else if c == "EOS" && l.phase == Syncing then LStep(l.(phase := Linked), [], false)
    else if c == "NICK" then
      var (dirs1, v, out) := NewVUser(l.dirs, ans.addr, ans.id, NickMaskAsWritten(cmd));
      LStep(l.(dirs := dirs1, users := l.users + [v]), out, false)
    else if c == "SJOIN" then
      var (h1, users1, out) := SjoinEach(l.chans, l.users, cmd.trailing, cmd.params[1], ans.joins);
      LStep(l.(chans := h1, users := users1), out, false)
    else LStep(l, [], false)
  }

  /** EOS moves a bursting link to linked; once linked, EOS is ignored. */
  lemma EosOnlyWhileSyncing(l: Link, cmd: LineFsm.ParsedCommand, ans: Answers)
    requires Registration.Upper(cmd.command) == "EOS"
    ensures CanHandle(l, cmd, ans)
    ensures l.phase == Syncing ==> HandleCommand(l, cmd, ans) == LStep(l.(phase := Linked), [], false)
    ensures l.phase == Linked ==> HandleCommand(l, cmd, ans) == LStep(l, [], false)
  {
  }

  /** PING is answered in either phase with everything the peer sent. */
  lemma PingAnswered(l: Link, cmd: LineFsm.ParsedCommand, ans: Answers)
    requires Registration.Upper(cmd.command) == "PING"
    ensures CanHandle(l, cmd, ans)
    ensures HandleCommand(l, cmd, ans).l == l
    ensures HandleCommand(l, cmd, ans).out ==
      [SWrite(Wire.SRPL.Pong(JoinWith(cmd.params, " ") + JoinWith(cmd.trailing, " ")))]
  {
  }

  /** A NICK registers exactly one new proxy carrying the announced mask as
      the handler builds it (real name joined by `".clone() "`), claiming
      its nick. */
  lemma NickAddsProxy(l: Link, cmd: LineFsm.ParsedCommand, ans: Answers)
    requires Registration.Upper(cmd.command) == "NICK"
    requires |cmd.params| >= 6 && ParseU32(cmd.params[1]).Some?
    ensures CanHandle(l, cmd, ans)
    ensures var r := HandleCommand(l, cmd, ans);
      && r.l.users == l.users + [VUser(ans.addr, |l.dirs|, [], NickMaskAsWritten(cmd))]
      && r.out == Claim(ans.addr, ans.id, cmd.params[0])
  {
  }

  /** A member token naming no proxy is skipped without consuming an
      answer. */
  lemma SjoinSkipsUnknown(h: Handles.ChannelHeap, users: seq<VUser>, token: string, rest: seq<string>, chan: string, joins: seq<JoinAnswer>)
    requires FirstWithNick(Nicks(users), ParseNick(token).0).None?
    requires |joins| >= |Targets(Nicks(users), rest)|
    ensures Targets(Nicks(users), [token] + rest) == Targets(Nicks(users), rest)
    ensures SjoinEach(h, users, [token] + rest, chan, joins) == SjoinEach(h, users, rest, chan, joins)
  {
    assert ([token] + rest)[0] == token && ([token] + rest)[1..] == rest;
  }

  /** A member token naming a proxy makes it join with the first answer. */
  lemma SjoinJoinsKnown(h: Handles.ChannelHeap, users: seq<VUser>, token: string, rest: seq<string>, chan: string, joins: seq<JoinAnswer>, i: nat)
    requires FirstWithNick(Nicks(users), ParseNick(token).0) == Some(i)
    requires |joins| >= 1 + |Targets(Nicks(users), rest)|
    ensures Targets(Nicks(users), [token] + rest) == [i] + Targets(Nicks(users), rest)
    ensures var (h1, v1, o) := VUserJoin(h, users[i], chan, joins[0]);
      && Nicks(users[i := v1]) == Nicks(users)
      && SjoinEach(h, users, [token] + rest, chan, joins) ==
         var r := SjoinEach(h1, users[i := v1], rest, chan, joins[1..]); (r.0, r.1, o + r.2)
  {
    assert ([token] + rest)[0] == token && ([token] + rest)[1..] == rest;
    var (h1, v1, o) := VUserJoin(h, users[i], chan, joins[0]);
    assert Nicks(users[i := v1]) == Nicks(users);
  }
}
