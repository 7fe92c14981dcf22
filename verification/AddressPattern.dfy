/**
 The regular expression of src/amqp_address.cc:94,

   (amqp?|amqps)://(\w+:{0,1}\w*@)?([^/ :]+):?([^/ ]*)(/?[^ #?]*)\x3f?([^ #]*)#?([^ ]*)

 as a declarative set of matches with the order in which a backtracking matcher tries them, and a
 scanner that finds the first match without backtracking (but for one choice).
 */
module AddressPattern {
  import opened Wrappers

  predicate IsWord(c: char) { 'a' <= c <= 'z' || 'A' <= c <= 'Z' || '0' <= c <= '9' || c == '_' }

  predicate IsHost(c: char) { c != '/' && c != ' ' && c != ':' }

  predicate IsPort(c: char) { c != '/' && c != ' ' }

  // The optional slash of the group is itself of this class.
  predicate IsPath(c: char) { c != ' ' && c != '#' && c != '?' }

  predicate IsQuery(c: char) { c != ' ' && c != '#' }

  predicate IsFragment(c: char) { c != ' ' }

  /** The classes as the expression writes them: `\w`, and what each bracket leaves out. */
  lemma Classes(c: char)
    ensures IsWord(c) <==> 48 <= c as int <= 57 || 65 <= c as int <= 90 || c as int == 95 || 97 <= c as int <= 122
    ensures IsHost(c) <==> c !in {'/', ' ', ':'}
    ensures IsPort(c) <==> c !in {'/', ' '}
    ensures IsPath(c) <==> c !in {' ', '#', '?'}
    ensures IsQuery(c) <==> c !in {' ', '#'}
    ensures IsFragment(c) <==> c != ' '
  {
  }

  predicate All(p: char -> bool, s: string) { forall i :: 0 <= i < |s| ==> p(s[i]) }

  datatype Login = Login(user: string, colon: bool, password: string)

  /** What follows the login: the last two groups are read and forgotten. */
  datatype Tail = Tail(
    host: string, colon: bool, port: string, vhost: string,
    mark: bool, query: string, hash: bool, fragment: string)

  datatype Match = Match(proto: string, login: Option<Login>, tail: Tail)

  function If(b: bool, c: char): string { if b then [c] else "" }

  predicate LoginOk(l: Login) { l.user != "" && All(IsWord, l.user) && All(IsWord, l.password) }

  function RenderLogin(l: Login): string { l.user + (If(l.colon, ':') + (l.password + "@")) }

  predicate TailOk(t: Tail) {
    && t.host != "" && All(IsHost, t.host) && All(IsPort, t.port) && All(IsPath, t.vhost)
    && All(IsQuery, t.query) && All(IsFragment, t.fragment)
  }

  function RenderEnd(t: Tail): string {
    If(t.mark, '?') + (t.query + (If(t.hash, '#') + t.fragment))
  }

  function RenderTail(t: Tail): string {
    t.host + (If(t.colon, ':') + (t.port + (t.vhost + RenderEnd(t))))
  }

  predicate ProtoOk(p: string) { p == "amqp" || p == "amq" || p == "amqps" }

  /** The text of the second group. */
  function LoginGroup(l: Option<Login>): string { if l.Some? then RenderLogin(l.value) else "" }

  function Render(m: Match): string {
    m.proto + ("://" + (LoginGroup(m.login) + RenderTail(m.tail)))
  }

  /** `m` is one way for the expression to match the whole of `s`. */
  predicate Matches(m: Match, s: string) {
    && ProtoOk(m.proto) && TailOk(m.tail) && (m.login.Some? ==> LoginOk(m.login.value))
    && Render(m) == s
  }

  // ---- the order of the matcher -------------------------------------------------------------------

  function Bit(b: bool): nat { if b then 1 else 0 }

  /** Alternatives are tried left to right, so `amqp` before `amq` before `amqps`. */
  function ProtoRank(p: string): nat { if p == "amqp" then 2 else if p == "amq" then 1 else 0 }

  function LoginChoices(l: Option<Login>): seq<nat> {
    match l
    case None => [0, 0, 0, 0]
    case Some(l) => [1, |l.user|, Bit(l.colon), |l.password|]
  }

  function TailChoices(t: Tail): seq<nat> {
    [|t.host|, Bit(t.colon), |t.port|, |t.vhost|, Bit(t.mark), |t.query|, Bit(t.hash), |t.fragment|]
  }

  /** Every quantifier is greedy: at each choice the larger number is tried first. */
  function Choices(m: Match): seq<nat> {
    [ProtoRank(m.proto)] + LoginChoices(m.login) + TailChoices(m.tail)
  }

  /** `a` comes before `b` in the order of trial. */
  predicate Earlier(a: seq<nat>, b: seq<nat>) {
    |a| == |b| && exists k :: 0 <= k < |a| && a[..k] == b[..k] && a[k] > b[k]
  }

  // ---- longest runs ---------------------------------------------------------------------------------

  function Span(p: char -> bool, s: string): (n: nat)
    ensures n <= |s|
    ensures All(p, s[..n])
    ensures n < |s| ==> !p(s[n])
  {
    if s != "" && p(s[0]) then
      assert forall i :: 0 < i < 1 + Span(p, s[1..]) ==> s[i] == s[1..][..Span(p, s[1..])][i - 1];
      1 + Span(p, s[1..])
    else 0
  }

  /** The longest run of the class at the start of `s`, and what follows it. */
  function Take(p: char -> bool, s: string): string { s[..Span(p, s)] }

  function Rest(p: char -> bool, s: string): string { s[Span(p, s)..] }

  lemma Cut(p: char -> bool, s: string)
    ensures s == Take(p, s) + Rest(p, s) && All(p, Take(p, s))
    ensures Rest(p, s) != "" ==> !p(Rest(p, s)[0])
  {
  }

  /** A run of the class that starts `s` is no longer than the longest, and equally long only if it is that. */
  lemma RunIsShorter(p: char -> bool, s: string, b: string, rest: string)
    requires s == b + rest && All(p, b)
    ensures |b| <= |Take(p, s)|
    ensures |b| == |Take(p, s)| ==> b == Take(p, s) && rest == Rest(p, s)
  {
    assert forall i :: 0 <= i < |b| ==> s[i] == b[i];
  }

  /** The longest run of `b + rest` is `b` when `rest` cannot extend it. */
  lemma TakeIs(p: char -> bool, b: string, rest: string)
    requires All(p, b) && (rest != "" ==> !p(rest[0]))
    ensures Take(p, b + rest) == b && Rest(p, b + rest) == rest
  {
    var s := b + rest;
    RunIsShorter(p, s, b, rest);
    forall i | 0 <= i < Span(p, s) ensures p(s[i]) { assert p(s[..Span(p, s)][i]); }
    assert rest != "" ==> s[|b|] == rest[0];
  }

  predicate Starts(s: string, c: char) { s != "" && s[0] == c }

  /** What an optional character leaves. */
  function Skip(s: string, c: char): string { if Starts(s, c) then s[1..] else s }

  lemma Option(s: string, c: char)
    ensures s == If(Starts(s, c), c) + Skip(s, c)
  {
  }

  /** An optional character is taken if it can be. */
  lemma OptionIsSmaller(s: string, c: char, b: bool, rest: string)
    requires s == If(b, c) + rest
    ensures b ==> Starts(s, c)
    ensures b == Starts(s, c) ==> rest == Skip(s, c)
  {
  }

  // ---- the scanner ------------------------------------------------------------------------------------

  /** The end of an address, from the optional question mark on, and what it leaves. */
  function ScanEnd(s: string): (bool, string, bool, string, string) {
    var s1 := Skip(s, '?');
    var s2 := Rest(IsQuery, s1);
    var s3 := Skip(s2, '#');
    (Starts(s, '?'), Take(IsQuery, s1), Starts(s2, '#'), Take(IsFragment, s3), Rest(IsFragment, s3))
  }

  /** The greedy reading of what follows the login, and what it leaves. */
  function ReadTail(s: string): (Tail, string) {
    var s1 := Rest(IsHost, s);
    var s2 := Skip(s1, ':');
    var s3 := Rest(IsPort, s2);
    var s4 := Rest(IsPath, s3);
    var (mark, query, hash, fragment, rest) := ScanEnd(s4);
    (Tail(Take(IsHost, s), Starts(s1, ':'), Take(IsPort, s2), Take(IsPath, s3), mark, query, hash, fragment), rest)
  }

  /** It counts if it takes everything and has a host. */
  function ScanTail(s: string): Option<Tail> {
    var (t, rest) := ReadTail(s);
    if t.host == "" || rest != "" then None else Some(t)
  }

  /** The greedy reading of a login at the start of `s`, with what follows it. */
  function ScanLogin(s: string): Option<(Login, string)> {
    var s1 := Rest(IsWord, s);
    var s2 := Skip(s1, ':');
    var s3 := Rest(IsWord, s2);
    if Take(IsWord, s) == "" || !Starts(s3, '@') then None
    else Some((Login(Take(IsWord, s), Starts(s1, ':'), Take(IsWord, s2)), Skip(s3, '@')))
  }

  /** The protocol and what follows its `://`. */
  function ScanProto(s: string): Option<(string, string)> {
    if "amqp://" <= s then Some(("amqp", s[7..]))
    else if "amq://" <= s then Some(("amq", s[6..]))
    else if "amqps://" <= s then Some(("amqps", s[8..]))
    else None
  }

  /** With a login if the rest then matches, otherwise without. */
  function ScanRest(s: string): Option<(Option<Login>, Tail)> {
    var login := ScanLogin(s);
    if login.Some? && ScanTail(login.value.1).Some?
    then Some((Some(login.value.0), ScanTail(login.value.1).value))
    else if ScanTail(s).Some? then Some((None, ScanTail(s).value))
    else None
  }

  function Scan(s: string): Option<Match> {
    var proto := ScanProto(s);
    if proto.None? then None
    else
      var rest := ScanRest(proto.value.1);
      if rest.None? then None else Some(Match(proto.value.0, rest.value.0, rest.value.1))
  }

  // ---- the greedy readings are readings ----------------------------------------------------------------

  lemma ScanEndSound(s: string)
    ensures var (mark, query, hash, fragment, rest) := ScanEnd(s);
            && All(IsQuery, query) && All(IsFragment, fragment)
            && s == If(mark, '?') + (query + (If(hash, '#') + (fragment + rest)))
            && (rest != "" ==> ' ' in rest)
  {
    var s1 := Skip(s, '?');
    var s2 := Rest(IsQuery, s1);
    Option(s, '?');
    Cut(IsQuery, s1);
    Option(s2, '#');
    Cut(IsFragment, Skip(s2, '#'));
  }

  lemma ReadTailSound(s: string)
    ensures var (t, rest) := ReadTail(s);
            && All(IsHost, t.host) && All(IsPort, t.port) && All(IsPath, t.vhost)
            && All(IsQuery, t.query) && All(IsFragment, t.fragment)
            && s == t.host + (If(t.colon, ':') + (t.port + (t.vhost +
                    (If(t.mark, '?') + (t.query + (If(t.hash, '#') + (t.fragment + rest)))))))
            && (rest != "" ==> ' ' in rest)
  {
    var s1 := Rest(IsHost, s);
    var s2 := Skip(s1, ':');
    var s3 := Rest(IsPort, s2);
    Cut(IsHost, s);
    Option(s1, ':');
    Cut(IsPort, s2);
    Cut(IsPath, s3);
    ScanEndSound(Rest(IsPath, s3));
  }

  lemma ScanTailSound(s: string)
    requires ScanTail(s).Some?
    ensures TailOk(ScanTail(s).value) && RenderTail(ScanTail(s).value) == s
  {
    ReadTailSound(s);
    var (t, rest) := ReadTail(s);
    assert t.fragment + rest == t.fragment;
  }

  lemma InConcat(a: string, b: string, c: char)
    ensures c in a + b <==> c in a || c in b
  {
    if c in a {
      var i :| 0 <= i < |a| && a[i] == c;
      assert (a + b)[i] == c;
    }
    if c in b {
      var i :| 0 <= i < |b| && b[i] == c;
      assert (a + b)[|a| + i] == c;
    }
  }

  /** The greedy reading fails only at a blank or for want of a host. */
  lemma ScanTailFails(s: string)
    requires ScanTail(s).None?
    ensures Take(IsHost, s) == "" || ' ' in s
  {
    ReadTailSound(s);
    var (t, rest) := ReadTail(s);
    if rest != "" {
      InConcat(t.fragment, rest, ' ');
      var r1 := If(t.hash, '#') + (t.fragment + rest);
      InConcat(If(t.hash, '#'), t.fragment + rest, ' ');
      InConcat(t.query, r1, ' ');
      var r2 := If(t.mark, '?') + (t.query + r1);
      InConcat(If(t.mark, '?'), t.query + r1, ' ');
      InConcat(t.vhost, r2, ' ');
      InConcat(t.port, t.vhost + r2, ' ');
      InConcat(If(t.colon, ':'), t.port + (t.vhost + r2), ' ');
      InConcat(t.host, If(t.colon, ':') + (t.port + (t.vhost + r2)), ' ');
    }
  }

  lemma NoBlank(t: Tail)
    requires TailOk(t)
    ensures ' ' !in RenderTail(t)
  {
    assert ' ' !in RenderEnd(t);
    InConcat(t.vhost, RenderEnd(t), ' ');
    InConcat(t.port, t.vhost + RenderEnd(t), ' ');
    InConcat(If(t.colon, ':'), t.port + (t.vhost + RenderEnd(t)), ' ');
    InConcat(t.host, If(t.colon, ':') + (t.port + (t.vhost + RenderEnd(t))), ' ');
  }

  /** If there is a reading at all, the greedy one is one. */
  lemma TailFound(s: string, n: Tail)
    requires TailOk(n) && RenderTail(n) == s
    ensures ScanTail(s).Some?
  {
    NoBlank(n);
    RunIsShorter(IsHost, s, n.host, If(n.colon, ':') + (n.port + (n.vhost + RenderEnd(n))));
    if ScanTail(s).None? {
      ScanTailFails(s);
      assert false;
    }
  }

  lemma ScanLoginSound(s: string)
    requires ScanLogin(s).Some?
    ensures var (l, rest) := ScanLogin(s).value; LoginOk(l) && s == RenderLogin(l) + rest
  {
    var (l, rest) := ScanLogin(s).value;
    var s1 := Rest(IsWord, s);
    var s2 := Skip(s1, ':');
    var s3 := Rest(IsWord, s2);
    Cut(IsWord, s);
    Option(s1, ':');
    Cut(IsWord, s2);
    Option(s3, '@');
    assert If(true, '@') == "@";
    assert s == l.user + (If(l.colon, ':') + (l.password + ("@" + rest)));
    Regroup(l.user, If(l.colon, ':'), l.password, rest);
  }

  lemma Regroup(a: string, b: string, c: string, rest: string)
    ensures a + (b + (c + ("@" + rest))) == (a + (b + (c + "@"))) + rest
  {
  }

  lemma ScanRestSound(s: string)
    requires ScanRest(s).Some?
    ensures var (l, t) := ScanRest(s).value;
            && TailOk(t) && (l.Some? ==> LoginOk(l.value))
            && s == LoginGroup(l) + RenderTail(t)
  {
    var (l, t) := ScanRest(s).value;
    if l.Some? {
      ScanLoginSound(s);
      ScanTailSound(ScanLogin(s).value.1);
    } else {
      ScanTailSound(s);
      NothingBefore(s);
    }
  }

  lemma NothingBefore(s: string)
    ensures LoginGroup(None) + s == s
  {
  }

  // ---- the scanner finds the first match ---------------------------------------------------------------

  lemma EarlierAt(a: seq<nat>, b: seq<nat>, k: nat)
    requires |a| == |b| && k < |a| && a[k] > b[k]
    requires forall i :: 0 <= i < k ==> a[i] == b[i]
    ensures Earlier(a, b)
  {
    assert a[..k] == b[..k];
  }

  /** Two readings of the same tail, `m` the greedy one: the first choice that differs. */
  lemma TailDiffers(m: Tail, n: Tail, k: nat)
    requires k < 8 && TailChoices(m)[k] > TailChoices(n)[k]
    requires forall i :: 0 <= i < k ==> TailChoices(m)[i] == TailChoices(n)[i]
    ensures Earlier(TailChoices(m), TailChoices(n))
  {
    EarlierAt(TailChoices(m), TailChoices(n), k);
  }

  predicate TailFirst(m: Tail, n: Tail) {
    m == n || Earlier(TailChoices(m), TailChoices(n))
  }

  /** `m` reads the end greedily from `s`. */
  predicate ReadsEnd(m: Tail, s: string) {
    var (mark, query, hash, fragment, _) := ScanEnd(s);
    m.mark == mark && m.query == query && m.hash == hash && m.fragment == fragment
  }

  lemma HashIsFirst(s: string, m: Tail, n: Tail)
    requires TailOk(n) && s == If(n.hash, '#') + n.fragment
    requires m == n.(hash := Starts(s, '#'), fragment := Take(IsFragment, Skip(s, '#')))
    ensures TailFirst(m, n)
  {
    OptionIsSmaller(s, '#', n.hash, n.fragment);
    if m.hash != n.hash { TailDiffers(m, n, 6); return; }
    assert n.fragment == n.fragment + "";
    TakeIs(IsFragment, n.fragment, "");
  }

  lemma QueryIsFirst(s: string, m: Tail, n: Tail)
    requires TailOk(n) && s == n.query + (If(n.hash, '#') + n.fragment)
    requires var r := Rest(IsQuery, s);
             m == n.(query := Take(IsQuery, s), hash := Starts(r, '#'), fragment := Take(IsFragment, Skip(r, '#')))
    ensures TailFirst(m, n)
  {
    RunIsShorter(IsQuery, s, n.query, If(n.hash, '#') + n.fragment);
    if |m.query| != |n.query| { TailDiffers(m, n, 5); return; }
    HashIsFirst(Rest(IsQuery, s), m, n);
  }

  /** Every other reading of the end takes less at the first difference. */
  lemma EndIsFirst(s: string, m: Tail, n: Tail)
    requires TailOk(n) && RenderEnd(n) == s && ReadsEnd(m, s)
    requires m.host == n.host && m.colon == n.colon && m.port == n.port && m.vhost == n.vhost
    ensures TailFirst(m, n)
  {
    OptionIsSmaller(s, '?', n.mark, n.query + (If(n.hash, '#') + n.fragment));
    if m.mark != n.mark { TailDiffers(m, n, 4); return; }
    QueryIsFirst(Skip(s, '?'), m, n);
  }

  /** One stage for a run: the later stages decide if the runs agree. */
  lemma PathIsFirst(s: string, tail: string, m: Tail, n: Tail)
    requires s == n.vhost + tail && All(IsPath, n.vhost) && m.vhost == Take(IsPath, s)
    requires m.host == n.host && m.colon == n.colon && m.port == n.port
    ensures TailFirst(m, n) || (m.vhost == n.vhost && Rest(IsPath, s) == tail)
  {
    RunIsShorter(IsPath, s, n.vhost, tail);
    if |m.vhost| != |n.vhost| { TailDiffers(m, n, 3); }
  }

  lemma PortIsFirst(s: string, tail: string, m: Tail, n: Tail)
    requires s == n.port + tail && All(IsPort, n.port) && m.port == Take(IsPort, s)
    requires m.host == n.host && m.colon == n.colon
    ensures TailFirst(m, n) || (m.port == n.port && Rest(IsPort, s) == tail)
  {
    RunIsShorter(IsPort, s, n.port, tail);
    if |m.port| != |n.port| { TailDiffers(m, n, 2); }
  }

  lemma ColonIsFirst(s: string, tail: string, m: Tail, n: Tail)
    requires s == If(n.colon, ':') + tail && m.colon == Starts(s, ':') && m.host == n.host
    ensures TailFirst(m, n) || (m.colon == n.colon && Skip(s, ':') == tail)
  {
    OptionIsSmaller(s, ':', n.colon, tail);
    if m.colon != n.colon { TailDiffers(m, n, 1); }
  }

  lemma HostIsFirst(s: string, tail: string, m: Tail, n: Tail)
    requires s == n.host + tail && All(IsHost, n.host) && m.host == Take(IsHost, s)
    ensures TailFirst(m, n) || (m.host == n.host && Rest(IsHost, s) == tail)
  {
    RunIsShorter(IsHost, s, n.host, tail);
    if |m.host| != |n.host| { TailDiffers(m, n, 0); }
  }

  /** Every other reading of what follows the login takes less at the first difference. */
  lemma TailIsFirst(s: string, n: Tail)
    requires TailOk(n) && RenderTail(n) == s
    ensures TailFirst(ReadTail(s).0, n)
  {
    var m := ReadTail(s).0;
    var r4 := RenderEnd(n);
    var r3 := n.vhost + r4;
    var r2 := n.port + r3;
    var r1 := If(n.colon, ':') + r2;
    HostIsFirst(s, r1, m, n);
    if TailFirst(m, n) { return; }
    ColonIsFirst(r1, r2, m, n);
    if TailFirst(m, n) { return; }
    PortIsFirst(r2, r3, m, n);
    if TailFirst(m, n) { return; }
    PathIsFirst(r3, r4, m, n);
    if TailFirst(m, n) { return; }
    EndIsFirst(r4, m, n);
  }

  /** A login with a colon has one reading. */
  lemma ColonLoginFound(s: string, n: Login, rest: string)
    requires LoginOk(n) && n.colon && s == RenderLogin(n) + rest
    ensures ScanLogin(s) == Some((n, rest))
  {
    var r2 := n.password + ("@" + rest);
    Regroup(n.user, If(n.colon, ':'), n.password, rest);
    var r1 := If(n.colon, ':') + r2;
    assert s == n.user + r1;
    TakeIs(IsWord, n.user, r1);
    assert Starts(r1, ':') && Skip(r1, ':') == r2;
    TakeIs(IsWord, n.password, "@" + rest);
    assert Starts("@" + rest, '@') && Skip("@" + rest, '@') == rest;
  }

  /** Without a colon the greedy reading gives the whole word to the user. */
  lemma PlainLoginFound(s: string, n: Login, rest: string)
    requires LoginOk(n) && !n.colon && s == RenderLogin(n) + rest
    ensures ScanLogin(s) == Some((Login(n.user + n.password, false, ""), rest))
  {
    var w, r := n.user + n.password, "@" + rest;
    Regroup(n.user, If(n.colon, ':'), n.password, rest);
    assert s == w + r;
    TakeIs(IsWord, w, r);
    assert Skip(r, ':') == r && r == "" + r;
    TakeIs(IsWord, "", r);
    assert Starts(r, '@') && Skip(r, '@') == rest;
  }

  /** A login, if there is one, is found; any two readings of it end at the same place. */
  lemma LoginIsFirst(s: string, n: Login, rest: string)
    requires LoginOk(n) && s == RenderLogin(n) + rest
    ensures ScanLogin(s).Some? && ScanLogin(s).value.1 == rest
    ensures var m := ScanLogin(s).value.0;
            m == n || Earlier(LoginChoices(Some(m)), LoginChoices(Some(n)))
  {
    if n.colon {
      ColonLoginFound(s, n, rest);
    } else {
      PlainLoginFound(s, n, rest);
      var m := Login(n.user + n.password, false, "");
      if n.password == "" {
        assert n.user + n.password == n.user;
      } else {
        EarlierAt(LoginChoices(Some(m)), LoginChoices(Some(n)), 1);
      }
    }
  }

  lemma EarlierLeft(a: seq<nat>, b: seq<nat>, y: seq<nat>, z: seq<nat>)
    requires Earlier(a, b) && |y| == |z|
    ensures Earlier(a + y, b + z)
  {
    var k :| 0 <= k < |a| && a[..k] == b[..k] && a[k] > b[k];
    forall i | 0 <= i < k ensures (a + y)[i] == (b + z)[i] {
      assert a[..k][i] == b[..k][i];
    }
    EarlierAt(a + y, b + z, k);
  }

  lemma EarlierRight(x: seq<nat>, a: seq<nat>, b: seq<nat>)
    requires Earlier(a, b)
    ensures Earlier(x + a, x + b)
  {
    var k :| 0 <= k < |a| && a[..k] == b[..k] && a[k] > b[k];
    forall i | 0 <= i < |x| + k ensures (x + a)[i] == (x + b)[i] {
      if i >= |x| { assert a[..k][i - |x|] == b[..k][i - |x|]; }
    }
    EarlierAt(x + a, x + b, |x| + k);
  }

  /** The first reading of everything after the protocol. */
  predicate RestFirst(s: string, login: Option<Login>, tail: Tail) {
    && ScanRest(s).Some?
    && var (l, t) := ScanRest(s).value;
       (l == login && t == tail)
       || Earlier(LoginChoices(l) + TailChoices(t), LoginChoices(login) + TailChoices(tail))
  }

  lemma WithLoginIsFirst(s: string, login: Login, tail: Tail)
    requires TailOk(tail) && LoginOk(login) && s == RenderLogin(login) + RenderTail(tail)
    ensures RestFirst(s, Some(login), tail)
  {
    LoginIsFirst(s, login, RenderTail(tail));
    TailFound(RenderTail(tail), tail);
    TailIsFirst(RenderTail(tail), tail);
    var m := ScanLogin(s).value.0;
    var t := ScanTail(RenderTail(tail)).value;
    var a, b := LoginChoices(Some(m)), LoginChoices(Some(login));
    if m != login {
      EarlierLeft(a, b, TailChoices(t), TailChoices(tail));
    } else if t != tail {
      EarlierRight(a, TailChoices(t), TailChoices(tail));
    }
  }

  lemma WithoutLoginIsFirst(s: string, tail: Tail)
    requires TailOk(tail) && s == RenderTail(tail)
    ensures RestFirst(s, None, tail)
  {
    TailFound(s, tail);
    TailIsFirst(s, tail);
    WithoutLogin(s, tail);
  }

  lemma WithoutLogin(s: string, tail: Tail)
    requires ScanTail(s).Some? && TailFirst(ScanTail(s).value, tail)
    ensures RestFirst(s, None, tail)
  {
    var (l, t) := ScanRest(s).value;
    AnyLoginIsEarlier(l, t, tail);
  }

  /** A match with a login is tried before all matches without. */
  lemma AnyLoginIsEarlier(l: Option<Login>, t: Tail, tail: Tail)
    requires l.None? ==> TailFirst(t, tail)
    ensures (l.None? && t == tail)
            || Earlier(LoginChoices(l) + TailChoices(t), LoginChoices(None) + TailChoices(tail))
  {
    if l.Some? {
      EarlierAt(LoginChoices(l), LoginChoices(None), 0);
      EarlierLeft(LoginChoices(l), LoginChoices(None), TailChoices(t), TailChoices(tail));
    } else if t != tail {
      EarlierRight(LoginChoices(None), TailChoices(t), TailChoices(tail));
    }
  }

  /** The three protocols exclude one another once `://` follows. */
  lemma ProtoIsFirst(s: string, proto: string, rest: string)
    requires ProtoOk(proto) && s == proto + ("://" + rest)
    ensures ScanProto(s) == Some((proto, rest))
  {
    if proto == "amqp" {
      assert s[..7] == "amqp://" && s[7..] == rest;
    } else if proto == "amq" {
      assert s[..6] == "amq://" && s[6..] == rest && s[3] == ':';
    } else {
      assert s[..8] == "amqps://" && s[8..] == rest && s[4] == 's';
    }
  }

  lemma ProtoSound(s: string)
    requires ScanProto(s).Some?
    ensures var (proto, rest) := ScanProto(s).value; ProtoOk(proto) && s == proto + ("://" + rest)
  {
  }

  lemma ScanSound(s: string)
    requires Scan(s).Some?
    ensures Matches(Scan(s).value, s)
  {
    ProtoSound(s);
    ScanRestSound(ScanProto(s).value.1);
  }

  lemma RestIsFirst(s: string, login: Option<Login>, tail: Tail)
    requires TailOk(tail) && (login.Some? ==> LoginOk(login.value)) && s == LoginGroup(login) + RenderTail(tail)
    ensures RestFirst(s, login, tail)
  {
    if login.Some? {
      WithLoginIsFirst(s, login.value, tail);
    } else {
      NothingBefore(RenderTail(tail));
      WithoutLoginIsFirst(s, tail);
    }
  }

  lemma ProtoAndRest(proto: string, l: Option<Login>, t: Tail, login: Option<Login>, tail: Tail)
    requires Earlier(LoginChoices(l) + TailChoices(t), LoginChoices(login) + TailChoices(tail))
    ensures Earlier(Choices(Match(proto, l, t)), Choices(Match(proto, login, tail)))
  {
    var x := [ProtoRank(proto)];
    var a, b := LoginChoices(l) + TailChoices(t), LoginChoices(login) + TailChoices(tail);
    EarlierRight(x, a, b);
    assert Choices(Match(proto, l, t)) == x + a;
    assert Choices(Match(proto, login, tail)) == x + b;
  }

  lemma NoneIsEarlier(s: string, n: Match)
    requires Matches(n, s)
    ensures Scan(s).Some? && (Scan(s).value == n || Earlier(Choices(Scan(s).value), Choices(n)))
  {
    var rest := LoginGroup(n.login) + RenderTail(n.tail);
    ProtoIsFirst(s, n.proto, rest);
    RestIsFirst(rest, n.login, n.tail);
    ScanFrom(s, rest, n);
  }

  lemma ScanFrom(s: string, rest: string, n: Match)
    requires ScanProto(s) == Some((n.proto, rest)) && RestFirst(rest, n.login, n.tail)
    ensures Scan(s).Some? && (Scan(s).value == n || Earlier(Choices(Scan(s).value), Choices(n)))
  {
    var (l, t) := ScanRest(rest).value;
    assert Scan(s) == Some(Match(n.proto, l, t));
    if l != n.login || t != n.tail { ProtoAndRest(n.proto, l, t, n.login, n.tail); }
  }

  /**
   The scanner decides the expression, and its match is the one that a backtracking matcher finds:
   of all matches it comes first in the order of trial.
   */
  lemma ScanIsFirst(s: string)
    ensures Scan(s).Some? ==> Matches(Scan(s).value, s)
    ensures forall n :: Matches(n, s) ==>
              Scan(s).Some? && (Scan(s).value == n || Earlier(Choices(Scan(s).value), Choices(n)))
  {
    if Scan(s).Some? { ScanSound(s); }
    forall n | Matches(n, s)
      ensures Scan(s).Some? && (Scan(s).value == n || Earlier(Choices(Scan(s).value), Choices(n)))
    {
      NoneIsEarlier(s, n);
    }
  }
}
