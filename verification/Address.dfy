/**
 Address parsing (src/amqp_address.cc): matching, the port number, the login split, and the
 record that is filled field by field.
 */
module Address {
  import opened Wrappers
  import opened Decimal
  import opened AddressPattern
  import opened PortNumber

  datatype Protocol = Amqp | Amqps | Unknown

  datatype AddressError = EMPTY | PARSE

  datatype Parsed = Parsed(protocol: Protocol, user: string, password: string, hostname: string, port: nat, vhost: string)

  // ---- splitting ------------------------------------------------------------------------------------

  /** The pieces between delimiters; a delimiter at the very end is followed by no piece. */
  function Tokens(s: string, d: char): seq<string>
    decreases |s|
  {
    if s == "" then []
    else
      var n := Find(s, d);
      if n == |s| then [s] else [s[..n]] + Tokens(s[n + 1..], d)
  }

  /** The index of the first `d`, or the length. */
  function Find(s: string, d: char): (n: nat)
    ensures n <= |s|
    ensures forall i :: 0 <= i < n ==> s[i] != d
    ensures n < |s| ==> s[n] == d
  {
    if s == "" || s[0] == d then 0
    else
      var n := Find(s[1..], d);
      assert forall i :: 0 < i < n + 1 ==> s[i] == s[1..][i - 1];
      n + 1
  }

  function Join(tokens: seq<string>, d: char): string {
    if tokens == [] then "" else tokens[0] + (if |tokens| == 1 then "" else [d] + Join(tokens[1..], d))
  }

  function LastDelimiter(s: string, d: char): string {
    if s != "" && s[|s| - 1] == d then [d] else ""
  }

  /** Splitting loses nothing but a delimiter at the end, and no piece holds a delimiter. */
  lemma TokensMeaning(s: string, d: char)
    ensures Join(Tokens(s, d), d) + LastDelimiter(s, d) == s
    ensures forall i :: 0 <= i < |Tokens(s, d)| ==> d !in Tokens(s, d)[i]
  {
    JoinTokens(s, d);
    PiecesHoldNone(s, d);
  }

  lemma {:induction false} JoinTokens(s: string, d: char)
    ensures Join(Tokens(s, d), d) + LastDelimiter(s, d) == s
    decreases |s|
  {
    if s != "" {
      var n := Find(s, d);
      if n < |s| {
        JoinTokens(s[n + 1..], d);
        JoinMore(s[..n], d, s[n + 1..]);
        FirstToken(s, d);
        Around(s, n);
      } else {
        assert Tokens(s, d) == [s] && LastDelimiter(s, d) == "";
      }
    }
  }

  lemma Around(s: string, n: nat)
    requires n < |s|
    ensures s[..n] + [s[n]] + s[n + 1..] == s
  {
    assert s[..n] + [s[n]] == s[..n + 1];
  }

  lemma {:induction false} PiecesHoldNone(s: string, d: char)
    ensures forall i :: 0 <= i < |Tokens(s, d)| ==> d !in Tokens(s, d)[i]
    decreases |s|
  {
    if s != "" {
      var n := Find(s, d);
      assert d !in s[..n];
      if n < |s| { PiecesHoldNone(s[n + 1..], d); }
    }
  }

  lemma JoinMore(a: string, d: char, rest: string)
    requires Join(Tokens(rest, d), d) + LastDelimiter(rest, d) == rest
    ensures Join([a] + Tokens(rest, d), d) + LastDelimiter(a + [d] + rest, d) == a + [d] + rest
  {
    var pieces := Tokens(rest, d);
    assert ([a] + pieces)[1..] == pieces;
    SameLast(a, d, rest);
    if rest == "" {
      assert Join([a] + pieces, d) == a;
      assert a + [d] + rest == a + [d];
    } else {
      Reassociate(a, [d], Join(pieces, d), LastDelimiter(rest, d));
    }
  }

  lemma SameLast(a: string, d: char, rest: string)
    ensures LastDelimiter(a + [d] + rest, d) == if rest == "" then [d] else LastDelimiter(rest, d)
  {
    var s := a + [d] + rest;
    assert s[|s| - 1] == if rest == "" then d else rest[|rest| - 1];
  }

  lemma Reassociate(a: string, b: string, c: string, e: string)
    ensures (a + (b + c)) + e == a + b + (c + e)
  {
  }

  function AfterToken(s: string, d: char): string {
    if Find(s, d) == |s| then "" else s[Find(s, d) + 1..]
  }

  lemma FirstToken(s: string, d: char)
    requires s != ""
    ensures Tokens(s, d) == [s[..Find(s, d)]] + Tokens(AfterToken(s, d), d)
  {
    var n := Find(s, d);
    if n == |s| {
      assert s[..n] == s;
      assert Tokens("", d) == [];
    }
  }

  lemma NextToken(done: seq<string>, s: string, d: char)
    requires s != ""
    ensures done + Tokens(s, d) == (done + [s[..Find(s, d)]]) + Tokens(AfterToken(s, d), d)
  {
    FirstToken(s, d);
    ConcatAssociates(done, [s[..Find(s, d)]], Tokens(AfterToken(s, d), d));
  }

  /** The `getline` loop: one piece a round, until the stream is at its end. */
  method Split(s: string, d: char) returns (tokens: seq<string>)
    ensures tokens == Tokens(s, d)
  {
    tokens := [];
    var rest := s;
    while rest != ""
      invariant tokens + Tokens(rest, d) == Tokens(s, d)
      decreases |rest|
    {
      NextToken(tokens, rest, d);
      tokens := tokens + [rest[..Find(rest, d)]];
      rest := AfterToken(rest, d);
    }
  }

  // ---- meaning --------------------------------------------------------------------------------------

  predicate IsCChar(c: char) { c != '\0' }

  /** What a C string shows of the text. */
  function CString(s: string): string { Take(IsCChar, s) }

  function UpperChar(c: char): char {
    if 'a' <= c <= 'z' then ((c as int) - 32) as char else c
  }

  function Upper(s: string): (r: string)
    ensures |r| == |s| && forall i :: 0 <= i < |s| ==> r[i] == UpperChar(s[i])
  {
    if s == "" then "" else [UpperChar(s[0])] + Upper(s[1..])
  }

  method ToUpper(s: string) returns (r: string)
    ensures r == Upper(s)
    ensures |r| == |s| && forall i :: 0 <= i < |s| ==>
              if 'a' <= s[i] <= 'z' then r[i] as int == s[i] as int - 32 else r[i] == s[i]
  {
    r := s;
    for i := 0 to |s|
      invariant |r| == |s|
      invariant forall j :: 0 <= j < i ==> r[j] == UpperChar(s[j])
      invariant forall j :: i <= j < |s| ==> r[j] == s[j]
    {
      r := r[i := UpperChar(r[i])];
    }
  }

  function ProtocolOf(text: string): Protocol {
    if Upper(text) == "AMQP" then Amqp else if Upper(text) == "AMQPS" then Amqps else Unknown
  }

  const DEFAULT_PORT: nat := 5672

  function PortOf(text: string): Option<nat> {
    if text == "" then Some(DEFAULT_PORT)
    else match Stoi(text) case Some(n) => if 0 <= n <= 65535 then Some(n) else None case None => None
  }

  /** User and password, from the second group of the expression. */
  function CredentialsOf(group: string): Option<(string, string)> {
    if group == "" then Some(("guest", "guest"))
    else
      var pieces := Tokens(group[..|group| - 1], ':');
      if |pieces| < 2 then None else Some((pieces[0], pieces[1]))
  }

  function Meaning(address: string): Result<Parsed, AddressError> {
    if address == "" then Err(EMPTY)
    else
      match Scan(CString(address))
      case None => Err(PARSE)
      case Some(m) => MeaningOfMatch(m)
  }

  function MeaningOfMatch(m: Match): Result<Parsed, AddressError> {
    var protocol, port := ProtocolOf(m.proto), PortOf(m.tail.port);
    var login := CredentialsOf(LoginGroup(m.login));
    if protocol.Unknown? || port.None? || login.None? then Err(PARSE)
    else Ok(Parsed(protocol, login.value.0, login.value.1, m.tail.host, port.value, m.tail.vhost))
  }

  class AddressImpl {
    var protocol: Protocol
    var user: string
    var password: string
    var hostname: string
    var vhost: string
    var port: nat

    function Snapshot(): Parsed
      reads this
    {
      Parsed(protocol, user, password, hostname, port, vhost)
    }

    constructor ()
    {
      protocol, user, password, hostname, vhost, port := Unknown, "", "", "", "", 0;
    }
  }

  /** The result `r` reports `meaning`, in a record of its own. */
  ghost predicate Reports(r: Result<AddressImpl, AddressError>, meaning: Result<Parsed, AddressError>)
    reads if r.Ok? then {r.value} else {}
  {
    match meaning
    case Ok(parsed) => r.Ok? && r.value.Snapshot() == parsed
    case Err(e) => r == Err(e)
  }

  method From(address: string) returns (r: Result<AddressImpl, AddressError>)
    ensures Reports(r, Meaning(address)) && (r.Ok? ==> fresh(r.value))
    ensures r.Ok? ==> Scan(CString(address)).Some? && Says(Scan(CString(address)).value, r.value.Snapshot())
  {
    if Meaning(address).Ok? { RecordSpelledOut(address); }
    if address == "" { return Err(EMPTY); }
    var what := Scan(CString(address));
    if what.None? { return Err(PARSE); }
    r := FromMatch(what.value);
  }

  method FromMatch(m: Match) returns (r: Result<AddressImpl, AddressError>)
    ensures Reports(r, MeaningOfMatch(m)) && (r.Ok? ==> fresh(r.value))
  {
    var proto := ToUpper(m.proto);
    var protocol := Unknown;
    if proto == "AMQP" {
      protocol := Amqp;
    } else if proto == "AMQPS" {
      protocol := Amqps;
    } else {
      return Err(PARSE);
    }

    var imp := new AddressImpl();
    imp.protocol := protocol;
    imp.hostname := m.tail.host;
    var port := ReadPort(m.tail.port);
    if port.None? { return Err(PARSE); }
    imp.port := port.value;
    imp.vhost := m.tail.vhost;
    var login := ReadLogin(LoginGroup(m.login));
    if login.None? { return Err(PARSE); }
    imp.user, imp.password := login.value.0, login.value.1;
    r := Ok(imp);
  }

  method ReadPort(text: string) returns (port: Option<nat>)
    ensures port == PortOf(text)
  {
    if text == "" { return Some(DEFAULT_PORT); }
    var number := Stoi(text);
    if number.Some? && 0 <= number.value <= 65535 { return Some(number.value); }
    port := None;
  }

  method ReadLogin(group: string) returns (login: Option<(string, string)>)
    ensures login == CredentialsOf(group)
  {
    if group == "" { return Some(("guest", "guest")); }
    // pop_back
    var text := group[..|group| - 1];
    var pieces := Split(text, ':');
    if |pieces| < 2 { return None; }
    login := Some((pieces[0], pieces[1]));
  }

  // ---- which addresses are accepted -------------------------------------------------------------------

  lemma NoDelimiter(s: string, d: char)
    requires s != "" && forall i :: 0 <= i < |s| ==> s[i] != d
    ensures Tokens(s, d) == [s]
  {
    assert Find(s, d) == |s|;
  }

  lemma FindAt(a: string, d: char, b: string)
    requires forall i :: 0 <= i < |a| ==> a[i] != d
    ensures Find(a + [d] + b, d) == |a|
    ensures (a + [d] + b)[..|a|] == a && (a + [d] + b)[|a| + 1..] == b
  {
    var s := a + [d] + b;
    var n := Find(s, d);
    assert forall i :: 0 <= i < |a| ==> s[i] == a[i];
    assert s[|a|] == d;
  }

  /** Only a login with a colon and a password splits in two. */
  lemma LoginPieces(l: Login)
    requires LoginOk(l)
    ensures CredentialsOf(RenderLogin(l)) ==
            if l.colon && l.password != "" then Some((l.user, l.password)) else None
  {
    var group := RenderLogin(l);
    if l.colon {
      var text := l.user + [':'] + l.password;
      assert group[..|group| - 1] == text;
      FindAt(l.user, ':', l.password);
      assert Tokens(text, ':') == [l.user] + Tokens(l.password, ':');
      if l.password != "" { NoDelimiter(l.password, ':'); }
    } else {
      var text := l.user + l.password;
      assert group[..|group| - 1] == text;
      NoDelimiter(text, ':');
    }
  }

  lemma Protocols()
    ensures ProtocolOf("amqp") == Amqp && ProtocolOf("amqps") == Amqps && ProtocolOf("amq") == Unknown
  {
    assert UpperChar('a') == 'A' && UpperChar('m') == 'M' && UpperChar('q') == 'Q' && UpperChar('p') == 'P' && UpperChar('s') == 'S';
    var amq, amqp, amqps := Upper("amq"), Upper("amqp"), Upper("amqps");
    assert amq == [amq[0], amq[1], amq[2]] == "AMQ";
    assert amqp == [amqp[0], amqp[1], amqp[2], amqp[3]] == "AMQP";
    assert amqps == [amqps[0], amqps[1], amqps[2], amqps[3], amqps[4]] == "AMQPS";
  }

  /**
   An address is accepted exactly if the expression matches it, its protocol is one of the two, its
   port is absent or a number of 16 bits, and its login is absent or has both parts.
   */
  lemma Accepted(address: string)
    ensures Meaning(address).Ok? <==>
            && address != "" && Scan(CString(address)).Some?
            && var m := Scan(CString(address)).value;
               && m.proto != "amq"
               && (m.tail.port == "" || (Stoi(m.tail.port).Some? && 0 <= Stoi(m.tail.port).value <= 65535))
               && (m.login.Some? ==> m.login.value.colon && m.login.value.password != "")
    ensures Meaning(address).Err? ==> (Meaning(address).error == EMPTY <==> address == "")
  {
    if address != "" && Scan(CString(address)).Some? {
      ScanSound(CString(address));
      AcceptedMatch(Scan(CString(address)).value);
    }
  }

  lemma AcceptedMatch(m: Match)
    requires ProtoOk(m.proto) && (m.login.Some? ==> LoginOk(m.login.value))
    ensures MeaningOfMatch(m).Ok? <==>
            && m.proto != "amq"
            && (m.tail.port == "" || (Stoi(m.tail.port).Some? && 0 <= Stoi(m.tail.port).value <= 65535))
            && (m.login.Some? ==> m.login.value.colon && m.login.value.password != "")
    ensures MeaningOfMatch(m).Err? ==> MeaningOfMatch(m).error == PARSE
  {
    Protocols();
    if m.login.Some? { LoginPieces(m.login.value); }
  }

  // ---- the record ---------------------------------------------------------------------------------------

  /**
   What an accepted address says: the protocol as written, the default port or the number, the guest or
   the login's own user and password, and the host and virtual host as written.
   */
  ghost predicate Says(m: Match, r: Parsed) {
    && r.protocol == (if m.proto == "amqp" then Amqp else Amqps)
    && r.hostname == m.tail.host && r.vhost == m.tail.vhost
    && (m.tail.port == "" ==> r.port == 5672)
    && (m.tail.port != "" ==> Stoi(m.tail.port) == Some(r.port))
    && (m.login.None? ==> r.user == "guest" && r.password == "guest")
    && (m.login.Some? ==> r.user == m.login.value.user && r.password == m.login.value.password)
  }

  /** Every accepted address is recorded as it says, whichever of its parts it leaves out. */
  lemma RecordSpelledOut(address: string)
    requires Meaning(address).Ok?
    ensures Scan(CString(address)).Some? && Says(Scan(CString(address)).value, Meaning(address).value)
  {
    Accepted(address);
    ScanSound(CString(address));
    RecordOfMatch(Scan(CString(address)).value);
  }

  lemma RecordOfMatch(m: Match)
    requires ProtoOk(m.proto) && (m.login.Some? ==> LoginOk(m.login.value)) && MeaningOfMatch(m).Ok?
    ensures Says(m, MeaningOfMatch(m).value)
  {
    Protocols();
    if m.login.Some? { LoginPieces(m.login.value); }
  }

  lemma WholeCString(s: string)
    requires forall i :: 0 <= i < |s| ==> s[i] != '\0'
    ensures CString(s) == s
  {
    assert s == s + "";
    TakeIs(IsCChar, s, "");
  }

  /** What follows a null character is not looked at. */
  lemma NullEndsAddress(s: string, rest: string)
    requires s != "" && forall i :: 0 <= i < |s| ==> s[i] != '\0'
    ensures Meaning(s + ['\0'] + rest) == Meaning(s)
  {
    TakeIs(IsCChar, s, ['\0'] + rest);
    ConcatAssociates(s, ['\0'], rest);
    WholeCString(s);
  }
}
