/** A user's identity (`Mask` in `components/user_traits/user_thread.rs`)
    and its two renderings: the `nick!user@host` prefix used as the source
    of relayed messages, and the same followed by ` * <real name>`. */
module Masks {
  import opened Base

  datatype Mask = Mask(
    nick: string,
    user: string,
    host: string,
    realName: string,
    hops: U32,
    timestamp: string,
    servername: string)

  /** `Mask::for_privmsg`. */
  function ForPrivmsg(m: Mask): string {
    m.nick + "!" + m.user + "@" + m.host
  }

  /** `Mask::full`. */
  function Full(m: Mask): string {
    m.nick + "!" + m.user + "@" + m.host + " * " + m.realName
  }

  /** The long form is the short form followed by ` * ` and the real name. */
  lemma FullExtendsPrivmsg(m: Mask)
    ensures Full(m) == ForPrivmsg(m) + " * " + m.realName
    ensures |ForPrivmsg(m)| <= |Full(m)| && Full(m)[..|ForPrivmsg(m)|] == ForPrivmsg(m)
  {
    assert Full(m) == ForPrivmsg(m) + (" * " + m.realName);
  }

  /** Neither rendering depends on hop count, timestamp or server. */
  lemma RenderingIgnoresRouting(a: Mask, b: Mask)
    requires a.nick == b.nick && a.user == b.user && a.host == b.host
    ensures ForPrivmsg(a) == ForPrivmsg(b)
    ensures a.realName == b.realName ==> Full(a) == Full(b)
  {
  }

  /** Index of the first `c` in `s`, if any. */
  function Find(s: string, c: char): (r: Option<nat>)
    ensures r.Some? ==> r.value < |s| && s[r.value] == c
    ensures r.Some? ==> forall i :: 0 <= i < r.value ==> s[i] != c
    ensures r.None? <==> c !in s
  {
    if |s| == 0 then None
    else if s[0] == c then Some(0)
    else match Find(s[1..], c)
      case None => None
      case Some(k) => Some(k + 1)
  }

  lemma FindAfter(a: string, c: char, b: string)
    requires c !in a
    ensures Find(a + [c] + b, c) == Some(|a|)
  {
    var s := a + [c] + b;
    assert s[|a|] == c;
    assert forall i :: 0 <= i < |a| ==> s[i] == a[i];
  }

  /** Reading a `nick!user@host` prefix back: the text before the first
      `!`, the text up to the next `@`, and the rest. */
  function SplitPrefix(p: string): Option<(string, string, string)> {
    match Find(p, '!')
    case None => None
    case Some(i) =>
      var rest := p[i + 1..];
      match Find(rest, '@')
      case None => None
      case Some(j) => Some((p[..i], rest[..j], rest[j + 1..]))
  }

  /** The prefix of a mask gives back nick, user and host whenever the nick
      holds no `!` and the user name holds no `@`. */
  lemma PrefixRoundTrip(m: Mask)
    requires '!' !in m.nick && '@' !in m.user
    ensures SplitPrefix(ForPrivmsg(m)) == Some((m.nick, m.user, m.host))
  {
    var p := ForPrivmsg(m);
    var tail := m.user + "@" + m.host;
    Regroup(m.nick, "!", m.user, "@", m.host);
    assert p == m.nick + ['!'] + tail;
    FindAfter(m.nick, '!', tail);
    Around(m.nick, '!', tail);
    FindAfter(m.user, '@', m.host);
    Around(m.user, '@', m.host);
  }

  /** Left-nested concatenation regrouped around its second piece. */
  lemma Regroup<T>(a: seq<T>, b: seq<T>, c: seq<T>, d: seq<T>, e: seq<T>)
    ensures a + b + c + d + e == a + b + (c + d + e)
  {
  }

  /** The pieces on either side of a separator. */
  lemma Around<T>(a: seq<T>, x: T, b: seq<T>)
    ensures (a + [x] + b)[..|a|] == a && (a + [x] + b)[|a| + 1..] == b
  {
  }

  /** Masks that agree on the prefix agree on nick, user and host. */
  lemma PrefixDeterminesIdentity(a: Mask, b: Mask)
    requires '!' !in a.nick && '@' !in a.user
    requires '!' !in b.nick && '@' !in b.user
    requires ForPrivmsg(a) == ForPrivmsg(b)
    ensures a.nick == b.nick && a.user == b.user && a.host == b.host
  {
    PrefixRoundTrip(a);
    PrefixRoundTrip(b);
  }
}
