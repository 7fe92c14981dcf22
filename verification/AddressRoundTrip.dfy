/**
 Which addresses, printed from their parts, are read back as those parts. User and password, port,
 virtual host, and a query or fragment may each be there or not.
 */
module AddressRoundTrip {
  import opened Wrappers
  import opened Decimal
  import opened AddressPattern
  import opened PortNumber
  import opened Address

  // ---- the parts ------------------------------------------------------------------------------------

  predicate WordText(s: string) {
    && s != ""
    && forall c :: c in s ==> 'a' <= c <= 'z' || 'A' <= c <= 'Z' || '0' <= c <= '9' || c == '_'
  }

  predicate HostText(s: string) {
    s != "" && forall c :: c in s ==> c != '/' && c != ':' && c != ' ' && c != '\0'
  }

  predicate PathText(s: string) {
    s != "" ==> s[0] == '/' && forall c :: c in s ==> c != ' ' && c != '#' && c != '?' && c != '\0'
  }

  /** A query or a fragment, or both. */
  predicate SuffixText(s: string) {
    s != "" ==> (s[0] == '?' || s[0] == '#') && forall c :: c in s ==> c != ' ' && c != '\0'
  }

  datatype Credentials = Credentials(user: string, password: string)

  datatype Place = Place(host: string, port: Option<nat>, vhost: string, suffix: string)

  predicate PlaceOk(p: Place) {
    && HostText(p.host) && PathText(p.vhost) && SuffixText(p.suffix)
    && (p.port.Some? ==> p.port.value <= 65535)
  }

  predicate LoginText(login: Option<Credentials>) {
    login.Some? ==> WordText(login.value.user) && WordText(login.value.password)
  }

  function PortText(port: Option<nat>): string { if port.Some? then ":" + Print(port.value) else "" }

  function PlaceText(p: Place): string { p.host + (PortText(p.port) + (p.vhost + p.suffix)) }

  function Formatted(proto: string, login: Option<Credentials>, p: Place): string {
    proto + ("://" + ((if login.Some? then login.value.user + (":" + (login.value.password + "@")) else "") + PlaceText(p)))
  }

  function Record(proto: string, login: Option<Credentials>, p: Place): Parsed {
    Parsed(if proto == "amqp" then Amqp else Amqps,
           if login.Some? then login.value.user else "guest",
           if login.Some? then login.value.password else "guest",
           p.host,
           if p.port.Some? then p.port.value else 5672,
           p.vhost)
  }

  /**
   Nothing swallows the query or fragment. Without a virtual host it follows the port, whose group
   takes it up to a slash, or else the host, whose group takes it whatever it is.
   */
  predicate KeptApart(p: Place) {
    p.vhost != "" || p.suffix == "" || (p.port.Some? && '/' !in p.suffix)
  }

  // ---- reading the place -----------------------------------------------------------------------------

  lemma Texts(p: Place)
    requires PlaceOk(p)
    ensures All(IsHost, p.host) && All(IsPath, p.vhost)
    ensures p.vhost != "" ==> p.vhost[0] == '/'
    ensures ' ' !in PlaceText(p) && '\0' !in PlaceText(p)
  {
    forall i | 0 <= i < |p.host| ensures IsHost(p.host[i]) { assert p.host[i] in p.host; }
    forall i | 0 <= i < |p.vhost| ensures IsPath(p.vhost[i]) { assert p.vhost[i] in p.vhost; }
    HasNot(p, ' ');
    HasNot(p, '\0');
  }

  lemma HasNot(p: Place, c: char)
    requires PlaceOk(p) && (c == ' ' || c == '\0')
    ensures c !in PlaceText(p)
  {
    InConcat(p.vhost, p.suffix, c);
    InConcat(PortText(p.port), p.vhost + p.suffix, c);
    InConcat(p.host, PortText(p.port) + (p.vhost + p.suffix), c);
    if p.port.Some? {
      PrintMeaning(p.port.value);
      InConcat(":", Print(p.port.value), c);
    }
  }

  /** A place is read whole: it has a host and no blank. */
  lemma PlaceIsRead(p: Place)
    requires PlaceOk(p)
    ensures ScanTail(PlaceText(p)) == Some(ReadTail(PlaceText(p)).0)
    ensures p.host <= Take(IsHost, PlaceText(p))
  {
    var s := PlaceText(p);
    Texts(p);
    RunIsShorter(IsHost, s, p.host, PortText(p.port) + (p.vhost + p.suffix));
    if ScanTail(s).None? {
      ScanTailFails(s);
      assert false;
    }
  }

  lemma ReadWithPort(p: Place)
    requires PlaceOk(p) && p.port.Some?
    ensures var t := ReadTail(PlaceText(p)).0;
            var rest := Print(p.port.value) + (p.vhost + p.suffix);
            t.host == p.host && t.port == Take(IsPort, rest) && t.vhost == Take(IsPath, Rest(IsPort, rest))
  {
    var rest := Print(p.port.value) + (p.vhost + p.suffix);
    Texts(p);
    ConcatAssociates(":", Print(p.port.value), p.vhost + p.suffix);
    TakeIs(IsHost, p.host, ":" + rest);
    assert Starts(":" + rest, ':') && Skip(":" + rest, ':') == rest;
  }

  lemma PortDigits(n: nat)
    ensures All(IsPort, Print(n)) && Print(n) != "" && '/' !in Print(n)
  {
    PrintMeaning(n);
  }

  lemma PortAndPath(p: Place)
    requires PlaceOk(p) && p.port.Some? && p.vhost != ""
    ensures var t := ReadTail(PlaceText(p)).0;
            t.host == p.host && t.port == Print(p.port.value) && t.vhost == p.vhost
  {
    ReadWithPort(p);
    Texts(p);
    PortDigits(p.port.value);
    TakeIs(IsPort, Print(p.port.value), p.vhost + p.suffix);
    TakeIs(IsPath, p.vhost, p.suffix);
  }

  /** A port at the end takes the query or fragment, up to a slash that then begins the virtual host. */
  lemma PortTakesSuffix(p: Place)
    requires PlaceOk(p) && p.port.Some? && p.vhost == ""
    ensures var t := ReadTail(PlaceText(p)).0;
            && t.host == p.host
            && ('/' !in p.suffix ==> t.port == Print(p.port.value) + p.suffix && t.vhost == "")
            && ('/' in p.suffix ==> t.vhost != "")
  {
    ReadWithPort(p);
    assert p.vhost + p.suffix == p.suffix;
    NumberThenSuffix(p.port.value, p.suffix);
  }

  lemma NumberThenSuffix(n: nat, suffix: string)
    requires SuffixText(suffix)
    ensures var rest := Print(n) + suffix;
            && ('/' !in suffix ==> Take(IsPort, rest) == rest && Take(IsPath, Rest(IsPort, rest)) == "")
            && ('/' in suffix ==> Take(IsPath, Rest(IsPort, rest)) != "")
  {
    var rest := Print(n) + suffix;
    PortDigits(n);
    InConcat(Print(n), suffix, '/');
    InConcat(Print(n), suffix, ' ');
    if '/' in suffix { SlashStops(rest); } else { NothingStops(rest); }
  }

  lemma NothingStops(s: string)
    requires '/' !in s && ' ' !in s
    ensures Take(IsPort, s) == s && Rest(IsPort, s) == ""
  {
    assert s == s + "";
    forall i | 0 <= i < |s| ensures IsPort(s[i]) { assert s[i] in s; }
    TakeIs(IsPort, s, "");
  }

  lemma SlashStops(s: string)
    requires '/' in s && ' ' !in s
    ensures Take(IsPath, Rest(IsPort, s)) != ""
  {
    var r := Rest(IsPort, s);
    Cut(IsPort, s);
    InConcat(Take(IsPort, s), r, '/');
    InConcat(Take(IsPort, s), r, ' ');
    assert '/' in r && r[0] in r;
    assert r[0] == '/' && IsPath(r[0]);
  }

  lemma ReadWithoutPort(p: Place)
    requires PlaceOk(p) && p.port.None? && KeptApart(p)
    ensures var t := ReadTail(PlaceText(p)).0;
            t.host == p.host && t.port == "" && t.vhost == p.vhost
  {
    var rest := p.vhost + p.suffix;
    Texts(p);
    assert PlaceText(p) == p.host + rest;
    TakeIs(IsHost, p.host, rest);
    assert Skip(rest, ':') == rest && rest == "" + rest;
    TakeIs(IsPort, "", rest);
    TakeIs(IsPath, p.vhost, p.suffix);
  }

  /** A host at the end takes the query or fragment. */
  lemma HostTakesSuffix(p: Place)
    requires PlaceOk(p) && p.port.None? && p.vhost == "" && p.suffix != ""
    ensures |ReadTail(PlaceText(p)).0.host| > |p.host|
  {
    Texts(p);
    var first, rest := [p.suffix[0]], p.suffix[1..];
    assert PlaceText(p) == (p.host + first) + rest;
    RunIsShorter(IsHost, PlaceText(p), p.host + first, rest);
  }

  /** The groups of a place are its parts, unless the query or fragment is swallowed. */
  lemma PlaceGroups(p: Place)
    requires PlaceOk(p)
    ensures ScanTail(PlaceText(p)).Some?
    ensures var t := ScanTail(PlaceText(p)).value;
            if KeptApart(p)
            then t.host == p.host && t.vhost == p.vhost && t.port == PortGroup(p)
            else t.host != p.host || t.vhost != p.vhost
  {
    PlaceIsRead(p);
    var t := ReadTail(PlaceText(p)).0;
    assert ScanTail(PlaceText(p)).value == t;
    if p.port.None? {
      if KeptApart(p) { ReadWithoutPort(p); } else { HostTakesSuffix(p); }
    } else if p.vhost == "" {
      PortTakesSuffix(p);
    } else {
      PortAndPath(p);
    }
  }

  /** What the group of the port holds: with no virtual host to stop it, the query or fragment as well. */
  function PortGroup(p: Place): string {
    if p.port.None? then "" else if p.vhost == "" then Print(p.port.value) + p.suffix else Print(p.port.value)
  }

  // ---- reading the login --------------------------------------------------------------------------------

  /** Nothing before the place looks like a login. */
  lemma NoLogin(p: Place)
    requires PlaceOk(p) && '@' !in p.host
    ensures ScanLogin(PlaceText(p)).None?
  {
    var s := PlaceText(p);
    if ScanLogin(s).Some? {
      ScanLoginSound(s);
      var (l, rest) := ScanLogin(s).value;
      LoginEndsAt(l, rest);
      FirstAt(p, |RenderLogin(l)| - 1);
      assert false;
    }
  }

  /** Before the first `@` of a place comes the start of the virtual host, the query or the fragment. */
  lemma FirstAt(p: Place, k: nat)
    requires PlaceOk(p) && '@' !in p.host
    requires k < |PlaceText(p)| && PlaceText(p)[k] == '@'
    ensures exists i :: 0 <= i < k && PlaceText(p)[i] in {'/', '?', '#'}
  {
    var front, rest := p.host + PortText(p.port), p.vhost + p.suffix;
    ConcatAssociates(p.host, PortText(p.port), rest);
    if p.port.Some? {
      PrintMeaning(p.port.value);
      InConcat(":", Print(p.port.value), '@');
    }
    InConcat(p.host, PortText(p.port), '@');
    var s := front + rest;
    forall i | 0 <= i < |front| ensures s[i] != '@' { assert s[i] == front[i] && front[i] in front; }
    assert rest != "" && s[|front|] == rest[0];
    assert rest[0] == if p.vhost != "" then p.vhost[0] else p.suffix[0];
    assert PlaceText(p)[|front|] in {'/', '?', '#'};
  }

  lemma LoginEndsAt(l: Login, rest: string)
    requires LoginOk(l)
    ensures var s, k := RenderLogin(l) + rest, |RenderLogin(l)| - 1;
            && 0 <= k < |s| && s[k] == '@'
            && forall i :: 0 <= i < k ==> s[i] !in {'/', '?', '#'}
  {
    var s, k := RenderLogin(l) + rest, |RenderLogin(l)| - 1;
    forall i | 0 <= i < k ensures s[i] !in {'/', '?', '#'} {
      assert s[i] == (l.user + (If(l.colon, ':') + l.password))[i];
    }
  }

  /** The match that an address printed from its parts has. */
  function MatchOf(proto: string, login: Option<Credentials>, p: Place): Match
    requires ScanTail(PlaceText(p)).Some?
  {
    Match(proto, if login.Some? then Some(Login(login.value.user, true, login.value.password)) else None,
          ScanTail(PlaceText(p)).value)
  }

  lemma FormattedIsRead(proto: string, login: Option<Credentials>, p: Place)
    requires (proto == "amqp" || proto == "amqps") && LoginText(login) && PlaceOk(p) && (login.None? ==> '@' !in p.host)
    ensures ScanTail(PlaceText(p)).Some? && Scan(Formatted(proto, login, p)) == Some(MatchOf(proto, login, p))
  {
    PlaceGroups(p);
    if login.Some? { LoginIsRead(proto, login.value, p); } else { BareIsRead(proto, p); }
  }

  lemma LoginIsRead(proto: string, c: Credentials, p: Place)
    requires (proto == "amqp" || proto == "amqps") && LoginText(Some(c)) && ScanTail(PlaceText(p)).Some?
    ensures Scan(Formatted(proto, Some(c), p)) == Some(MatchOf(proto, Some(c), p))
  {
    var s, place, l := Formatted(proto, Some(c), p), PlaceText(p), Login(c.user, true, c.password);
    var rest := RenderLogin(l) + place;
    assert s == proto + ("://" + rest);
    WordsAreWords(l);
    ProtoIsFirst(s, proto, rest);
    ColonLoginFound(rest, l, place);
    ScanWithLogin(s, rest, MatchOf(proto, Some(c), p));
  }

  lemma BareIsRead(proto: string, p: Place)
    requires (proto == "amqp" || proto == "amqps") && PlaceOk(p) && '@' !in p.host && ScanTail(PlaceText(p)).Some?
    ensures Scan(Formatted(proto, None, p)) == Some(MatchOf(proto, None, p))
  {
    var s, place := Formatted(proto, None, p), PlaceText(p);
    assert "" + place == place;
    ProtoIsFirst(s, proto, place);
    NoLogin(p);
    ScanWithoutLogin(s, place, MatchOf(proto, None, p));
  }

  lemma ScanWithLogin(s: string, rest: string, m: Match)
    requires m.login.Some? && ScanProto(s) == Some((m.proto, rest))
    requires ScanLogin(rest).Some? && ScanLogin(rest).value.0 == m.login.value
    requires ScanTail(ScanLogin(rest).value.1) == Some(m.tail)
    ensures Scan(s) == Some(m)
  {
  }

  lemma ScanWithoutLogin(s: string, rest: string, m: Match)
    requires m.login.None? && ScanProto(s) == Some((m.proto, rest))
    requires ScanLogin(rest).None? && ScanTail(rest) == Some(m.tail)
    ensures Scan(s) == Some(m)
  {
  }

  lemma WordsAreWords(l: Login)
    requires WordText(l.user) && WordText(l.password)
    ensures LoginOk(l)
  {
    forall i | 0 <= i < |l.user| ensures IsWord(l.user[i]) { assert l.user[i] in l.user; }
    forall i | 0 <= i < |l.password| ensures IsWord(l.password[i]) { assert l.password[i] in l.password; }
  }

  lemma NoNull(proto: string, login: Option<Credentials>, p: Place)
    requires (proto == "amqp" || proto == "amqps") && LoginText(login) && PlaceOk(p)
    ensures '\0' !in Formatted(proto, login, p)
  {
    Texts(p);
    var front := if login.Some? then login.value.user + (":" + (login.value.password + "@")) else "";
    if login.Some? {
      InConcat(login.value.password, "@", '\0');
      InConcat(":", login.value.password + "@", '\0');
      InConcat(login.value.user, ":" + (login.value.password + "@"), '\0');
    }
    InConcat(front, PlaceText(p), '\0');
    InConcat("://", front + PlaceText(p), '\0');
    InConcat(proto, "://" + (front + PlaceText(p)), '\0');
  }

  lemma PortIsRead(p: Place)
    requires PlaceOk(p) && p.port.Some?
    ensures Stoi(PortGroup(p)) == Some(p.port.value)
  {
    PlainNumber(p.port.value, if p.vhost == "" then p.suffix else "");
    assert Print(p.port.value) + "" == Print(p.port.value);
  }

  // ---- the round trip -------------------------------------------------------------------------------------

  /** An address printed from its parts is read back as exactly those parts if and only if they are kept apart. */
  lemma RoundTrip(proto: string, login: Option<Credentials>, p: Place)
    requires proto == "amqp" || proto == "amqps"
    requires LoginText(login) && PlaceOk(p) && (login.None? ==> '@' !in p.host)
    ensures Meaning(Formatted(proto, login, p)) == Ok(Record(proto, login, p)) <==> KeptApart(p)
  {
    var s := Formatted(proto, login, p);
    FormattedIsRead(proto, login, p);
    PlaceGroups(p);
    NoNull(proto, login, p);
    WholeCString(s);
    var m := MatchOf(proto, login, p);
    assert Meaning(s) == MeaningOfMatch(m);
    if login.Some? { WordsAreWords(m.login.value); }
    if KeptApart(p) {
      if p.port.Some? { PortIsRead(p); }
      PortDecides(m, p);
    }
    if Meaning(s).Ok? {
      RecordOfMatch(m);
    } else {
      AcceptedMatch(m);
    }
  }

  lemma PortDecides(m: Match, p: Place)
    requires PlaceOk(p) && m.tail.port == PortGroup(p)
    requires p.port.Some? ==> Stoi(m.tail.port) == Some(p.port.value)
    ensures m.tail.port == "" <==> p.port.None?
    ensures m.tail.port != "" ==> Stoi(m.tail.port) == Some(p.port.value) && 0 <= p.port.value <= 65535
  {
    if p.port.Some? { PortDigits(p.port.value); }
  }

  /** An address that is only a host and perhaps a virtual host gets the default port and login. */
  lemma Defaults(proto: string, host: string, vhost: string)
    requires proto == "amqp" || proto == "amqps"
    requires HostText(host) && '@' !in host && PathText(vhost)
    ensures Meaning(proto + ("://" + (host + vhost))) ==
            Ok(Parsed(if proto == "amqp" then Amqp else Amqps, "guest", "guest", host, 5672, vhost))
  {
    var p := Place(host, None, vhost, "");
    assert "" + (vhost + "") == vhost && "" + PlaceText(p) == host + vhost;
    RoundTrip(proto, None, p);
  }
}
