/** What a client connection knows about its user before and after
    registration (`UserData` and `State` in
    `components/user/user_thread.rs`), the ASCII upper-casing used to
    dispatch commands, and the user's mode list. */
module Registration {
  import opened Base
  import opened Messages
  import Masks
  import LineFsm
  import Wire

  datatype UserData = UserData(nick: string, timestamp: string, userName: string, realName: string)

  /** `UserData::default()`. */
  const EMPTY: UserData := UserData("", "", "", "")

  /** The timestamp a ready registration is stamped with. */
  const STAMP: string := "123456"

  /** The host every local mask reports. */
  const HOST: string := "TODO"

  /** `State`: collecting NICK/USER, or registered. */
  datatype State = NewConnection(pending: Option<UserData>) | Connected(data: UserData)

  /** `UserData::is_ready`. */
  predicate IsReady(d: UserData) {
    |d.nick| > 0 && |d.userName| > 0 && |d.realName| > 0
  }

  /** What `UserData::apply` needs to avoid a panic: NICK takes its first
      parameter and USER indexes `params[0]`. The comparison is
      case-sensitive. */
  predicate CanApply(cmd: LineFsm.ParsedCommand) {
    (cmd.command == "NICK" || cmd.command == "USER") ==> |cmd.params| > 0
  }

  /** `UserData::apply`. */
  function Apply(d: UserData, cmd: LineFsm.ParsedCommand): (r: UserData)
    requires CanApply(cmd)
    ensures cmd.command == "NICK" ==>
      r.nick == cmd.params[0] && r.userName == d.userName && r.realName == d.realName
    ensures cmd.command == "USER" ==>
      r.nick == d.nick && r.userName == cmd.params[0] && r.realName == JoinWith(cmd.trailing, " ")
    ensures cmd.command != "NICK" && cmd.command != "USER" ==>
      r.nick == d.nick && r.userName == d.userName && r.realName == d.realName
    ensures IsReady(r) ==> r.timestamp == STAMP
    ensures !IsReady(r) ==> r.timestamp == d.timestamp
  {
    var d1 :=
      if cmd.command == "NICK" then d.(nick := cmd.params[0])
      else if cmd.command == "USER" then d.(userName := cmd.params[0], realName := JoinWith(cmd.trailing, " "))
      else d;
    if IsReady(d1) then d1.(timestamp := STAMP) else d1
  }

  /** From an empty record, NICK and USER may come in either order. */
  lemma RegistrationOrderIrrelevant(nick: LineFsm.ParsedCommand, user: LineFsm.ParsedCommand)
    requires nick.command == "NICK" && user.command == "USER"
    requires |nick.params| > 0 && |user.params| > 0
    ensures Apply(Apply(EMPTY, nick), user) == Apply(Apply(EMPTY, user), nick)
  {
  }

  /** NICK and USER with non-empty values leave the record ready. */
  lemma NickAndUserMakeReady(d: UserData, nick: LineFsm.ParsedCommand, user: LineFsm.ParsedCommand)
    requires nick.command == "NICK" && user.command == "USER"
    requires |nick.params| > 0 && |user.params| > 0
    requires |nick.params[0]| > 0 && |user.params[0]| > 0 && |JoinWith(user.trailing, " ")| > 0
    ensures IsReady(Apply(Apply(d, nick), user))
    ensures Apply(Apply(d, nick), user) ==
      UserData(nick.params[0], STAMP, user.params[0], JoinWith(user.trailing, " "))
  {
  }

  /** `UserData::gen_mask`: host `"TODO"`, no hops, this server. */
  function GenMask(d: UserData, config: Config): (r: Masks.Mask)
    ensures r.nick == d.nick && r.user == d.userName && r.realName == d.realName
    ensures r.host == HOST && r.hops == 0 && r.timestamp == d.timestamp
    ensures r.servername == config.serverName
  {
    Masks.Mask(d.nick, d.userName, HOST, d.realName, 0, d.timestamp, config.serverName)
  }

  /** The prefix a registered user's messages carry. */
  lemma GenMaskPrefix(d: UserData, config: Config)
    ensures Masks.ForPrivmsg(GenMask(d, config)) == d.nick + "!" + d.userName + "@" + HOST
  {
  }

  // ---------------------------------------------------------------------
  // Command dispatch

  /** `char::to_uppercase` on ASCII letters; other characters are kept. */
  function UpperChar(c: char): (r: char)
    ensures 'a' <= c <= 'z' ==> r as int == c as int - 32
    ensures !('a' <= c <= 'z') ==> r == c
  {
    if 'a' <= c <= 'z' then (c as int - 32) as char else c
  }

  /** `str::to_uppercase`, restricted to ASCII case mapping. */
  function Upper(s: string): (r: string)
    ensures |r| == |s| && forall i :: 0 <= i < |s| ==> r[i] == UpperChar(s[i])
  {
    seq(|s|, i requires 0 <= i < |s| => UpperChar(s[i]))
  }

  /** Upper-casing is idempotent, so a dispatched name is its own key. */
  lemma UpperIdempotent(s: string)
    ensures Upper(Upper(s)) == Upper(s)
  {
  }

  /** Every ASCII letter case of a command name dispatches alike. */
  lemma UpperDispatch(s: string)
    ensures Upper(s) == "NICK" <==> |s| == 4 && s[0] in "nN" && s[1] in "iI" && s[2] in "cC" && s[3] in "kK"
  {
    if Upper(s) == "NICK" {
      assert |s| == 4;
      assert UpperChar(s[0]) == 'N' && UpperChar(s[1]) == 'I';
      assert UpperChar(s[2]) == 'C' && UpperChar(s[3]) == 'K';
    }
    if |s| == 4 && s[0] in "nN" && s[1] in "iI" && s[2] in "cC" && s[3] in "kK" {
      assert Upper(s)[0] == 'N' && Upper(s)[1] == 'I' && Upper(s)[2] == 'C' && Upper(s)[3] == 'K';
    }
  }

  // ---------------------------------------------------------------------
  // Modes

  /** `UserWorker::set_mode`: add the mode if absent and report it on. */
  function SetMode(modes: seq<char>, m: char): (r: (seq<char>, seq<Envelope>))
    ensures forall x :: x in r.0 <==> x in modes || x == m
    ensures m in modes ==> r.0 == modes
    ensures m !in modes ==> |r.0| == |modes| + 1 && r.0[..|modes|] == modes
    ensures r.1 == [Write(Wire.RPL.ModeSelf(m, true))]
  {
    (if m in modes then modes else modes + [m], [Write(Wire.RPL.ModeSelf(m, true))])
  }

  /** `UserWorker::remove_mode`: drop every copy and report it off. */
  function RemoveMode(modes: seq<char>, m: char): (r: (seq<char>, seq<Envelope>))
    ensures multiset(r.0) == multiset(modes)[m := 0]
    ensures |modes| == 1 ==> r.0 == if modes[0] == m then [] else modes
    ensures r.1 == [Write(Wire.RPL.ModeSelf(m, false))]
  {
    var out := [Write(Wire.RPL.ModeSelf(m, false))];
    if |modes| == 0 then ([], out)
    else
      var rest := RemoveMode(modes[1..], m).0;
      assert modes == [modes[0]] + modes[1..];
      if modes[0] == m then (rest, out) else ([modes[0]] + rest, out)
  }

  /** Removal works piece by piece, so the kept modes stay in their order. */
  lemma {:induction false} RemoveModeAppend(a: seq<char>, b: seq<char>, m: char)
    ensures RemoveMode(a + b, m).0 == RemoveMode(a, m).0 + RemoveMode(b, m).0
  {
    if |a| > 0 {
      assert (a + b)[0] == a[0] && (a + b)[1..] == a[1..] + b;
      RemoveModeAppend(a[1..], b, m);
    } else {
      assert a + b == b;
    }
  }

  predicate NoRepeats(modes: seq<char>) {
    forall i, j :: 0 <= i < j < |modes| ==> modes[i] != modes[j]
  }

  /** Setting keeps the list free of repeats; setting twice is setting once. */
  lemma SetModeIdempotent(modes: seq<char>, m: char)
    requires NoRepeats(modes)
    ensures NoRepeats(SetMode(modes, m).0)
    ensures SetMode(SetMode(modes, m).0, m).0 == SetMode(modes, m).0
  {
  }

  /** Removing a mode right after setting it leaves the other modes. */
  lemma {:induction false} RemoveUndoesSet(modes: seq<char>, m: char)
    requires m !in modes
    ensures RemoveMode(SetMode(modes, m).0, m).0 == modes
  {
    if |modes| == 0 {
      assert SetMode(modes, m).0 == [m];
    } else {
      assert SetMode(modes, m).0 == [modes[0]] + SetMode(modes[1..], m).0;
      RemoveUndoesSet(modes[1..], m);
    }
  }
}
