/**
 A character-by-character automaton for the `.env` language, and the proof that it decides the
 declarative language of `DotenvLanguage`: a text is accepted exactly when it is the text of a
 well-formed file, and the automaton is stuck exactly when the text cannot be completed to one.
 */
module DotenvScan {
  import opened Wrappers
  import opened DotenvLanguage

  datatype Phase =
    | Lead | InKey | AfterKey | AfterEq | InValue | AfterValue | Hash | InComment | AfterCr | Stuck

  datatype Scan = Scan(phase: Phase, key: string, value: string, done: seq<Binding>)

  const START := Scan(Lead, "", "", [])

  /** The current line carries a pair that is not yet counted as done. */
  predicate Pending(st: Scan) {
    st.phase.AfterEq? || st.phase.InValue? || st.phase.AfterValue?
  }

  function Completed(st: Scan): seq<Binding> {
    if Pending(st) then st.done + [(st.key, st.value)] else st.done
  }

  predicate Accepting(st: Scan) {
    st.phase.Lead? || Pending(st) || st.phase.InComment?
  }

  /** What may follow once the rest of the line can only be a comment or a line break. */
  function LeavePair(st: Scan, c: char): Scan {
    if c == '#' then st.(phase := Hash, done := Completed(st))
    else if c == '\n' then st.(phase := Lead, done := Completed(st))
    else if c == '\r' then st.(phase := AfterCr, done := Completed(st))
    else st.(phase := Stuck)
  }

  function Step(st: Scan, c: char): Scan {
    match st.phase
    case Lead =>
      if IsBlank(c) then st
      else if IsKeyChar(c) then st.(phase := InKey, key := [c], value := "")
      else LeavePair(st, c)
    case InKey =>
      if IsKeyChar(c) then st.(key := st.key + [c])
      else if IsBlank(c) then st.(phase := AfterKey)
      else if c == '=' then st.(phase := AfterEq)
      else st.(phase := Stuck)
    case AfterKey =>
      if IsBlank(c) then st
      else if c == '=' then st.(phase := AfterEq)
      else st.(phase := Stuck)
    case AfterEq =>
      if IsBlank(c) then st
      else if IsValueChar(c) then st.(phase := InValue, value := st.value + [c])
      else LeavePair(st, c)
    case InValue =>
      if IsBlank(c) then st.(phase := AfterValue)
      else if IsValueChar(c) then st.(value := st.value + [c])
      else LeavePair(st, c)
    case AfterValue =>
      if IsBlank(c) then st else LeavePair(st, c)
    case Hash =>
      if IsCommentChar(c) then st.(phase := InComment) else st.(phase := Stuck)
    case InComment =>
      if IsCommentChar(c) then st else LeavePair(st, c)
    case AfterCr =>
      if c == '\n' then st.(phase := Lead) else st.(phase := Stuck)
    case Stuck => st
  }

  function Run(st: Scan, s: string): Scan {
    if s == "" then st else Step(Run(st, s[..|s| - 1]), s[|s| - 1])
  }

  lemma {:induction false} RunConcat(st: Scan, a: string, b: string)
    ensures Run(st, a + b) == Run(Run(st, a), b)
    decreases |b|
  {
    if b == "" {
      assert a + b == a;
    } else {
      RunConcat(st, a, b[..|b| - 1]);
      assert (a + b)[..|a + b| - 1] == a + b[..|b| - 1];
    }
  }

  lemma {:induction false} RunStuck(st: Scan, s: string)
    requires st.phase.Stuck?
    ensures Run(st, s) == st
  {
    if s != "" { RunStuck(st, s[..|s| - 1]); }
  }

  // ---- runs over one kind of character ------------------------------------------------

  lemma {:induction false} RunBlanks(st: Scan, s: string)
    requires Blanks(s)
    requires st.phase.Lead? || st.phase.InKey? || st.phase.AfterKey? || Pending(st)
    ensures Run(st, s) ==
            if s != "" && st.phase.InKey? then st.(phase := AfterKey)
            else if s != "" && st.phase.InValue? then st.(phase := AfterValue)
            else st
  {
    if s != "" { RunBlanks(st, s[..|s| - 1]); }
  }

  lemma {:induction false} RunKey(st: Scan, s: string)
    requires KeyText(s) && s != "" && st.phase.Lead?
    ensures Run(st, s) == st.(phase := InKey, key := s, value := "")
  {
    var n := |s| - 1;
    if n == 0 {
      assert s == [s[0]];
      assert Run(st, s[..0]) == st;
    } else {
      RunKey(st, s[..n]);
      assert s == s[..n] + [s[n]];
    }
  }

  lemma {:induction false} RunValue(st: Scan, s: string)
    requires ValueText(s) && st.phase.AfterEq?
    ensures Run(st, s) == if s == "" then st else st.(phase := InValue, value := st.value + s)
  {
    if s != "" {
      var n := |s| - 1;
      RunValue(st, s[..n]);
      assert st.value + s == st.value + s[..n] + [s[n]];
    }
  }

  lemma {:induction false} RunComment(st: Scan, s: string)
    requires CommentText(s) && s != "" && (st.phase.Hash? || st.phase.InComment?)
    ensures Run(st, s) == st.(phase := InComment)
  {
    var n := |s| - 1;
    if n == 0 {
      assert Run(st, s[..0]) == st;
    } else {
      RunComment(st, s[..n]);
    }
  }

  lemma RunOne(st: Scan, c: char)
    ensures Run(st, [c]) == Step(st, c)
  {
    assert [c][..0] == "";
  }

  // ---- every well-formed file is accepted, with its own bindings -----------------------

  lemma RunPair(st: Scan, p: Pair)
    requires st.phase.Lead? && WellFormedPair(p)
    ensures var r := Run(st, RenderPair(p));
            Pending(r) && r.done == st.done && r.key == p.key && r.value == p.value
  {
    var s1 := Run(st, p.key);
    RunKey(st, p.key);
    RunConcat(st, p.key, p.beforeEq);
    RunBlanks(s1, p.beforeEq);
    RunConcat(st, p.key + p.beforeEq, "=");
    RunOne(Run(st, p.key + p.beforeEq), '=');
    var s2 := Run(st, p.key + p.beforeEq + "=");
    RunConcat(st, p.key + p.beforeEq + "=", p.afterEq);
    RunBlanks(s2, p.afterEq);
    RunConcat(st, p.key + p.beforeEq + "=" + p.afterEq, p.value);
    RunValue(s2, p.value);
    var s3 := Run(st, p.key + p.beforeEq + "=" + p.afterEq + p.value);
    RunConcat(st, p.key + p.beforeEq + "=" + p.afterEq + p.value, p.afterValue);
    RunBlanks(s3, p.afterValue);
  }

  lemma RunLine(st: Scan, l: Line)
    requires st.phase.Lead? && WellFormedLine(l)
    ensures var r := Run(st, RenderLine(l));
            Accepting(r) && Completed(r) == st.done + LineBindings(l)
  {
    var a := l.lead;
    RunBlanks(st, a);
    var b := if l.pair.Some? then RenderPair(l.pair.value) else "";
    RunConcat(st, a, b);
    if l.pair.Some? { RunPair(st, l.pair.value); }
    var s1 := Run(st, a + b);
    assert Completed(s1) == st.done + LineBindings(l);
    if l.comment.Some? {
      var c := l.comment.value;
      RunConcat(st, a + b, "#" + c);
      RunConcat(s1, "#", c);
      RunOne(s1, '#');
      RunComment(Step(s1, '#'), c);
    } else {
      assert RenderLine(l) == a + b;
    }
  }

  lemma RunEnding(st: Scan, e: Ending)
    requires Accepting(st)
    ensures Run(st, RenderEnding(e)) == st.(phase := Lead, done := Completed(st))
  {
    if e.LF? {
      RunOne(st, '\n');
    } else {
      assert RenderEnding(e) == ['\r'] + ['\n'];
      RunConcat(st, ['\r'], ['\n']);
      RunOne(st, '\r');
      RunOne(Step(st, '\r'), '\n');
    }
  }

  lemma {:induction false} RunFile(f: File)
    requires WellFormed(f)
    ensures var r := Run(START, Render(f)); Accepting(r) && Completed(r) == Bindings(f)
    ensures var h := Run(START, RenderHead(f));
            h.phase.Lead? && h.done == if f.Snoc? then Bindings(f.before) else []
  {
    if f.Snoc? {
      RunFile(f.before);
      RunConcat(START, Render(f.before), RenderEnding(f.ending));
      RunEnding(Run(START, Render(f.before)), f.ending);
    }
    RunConcat(START, RenderHead(f), RenderLine(f.line));
    RunLine(Run(START, RenderHead(f)), f.line);
  }

  // ---- every text the automaton survives is the beginning of a well-formed file ---------

  /** The shortest way to finish a file from a phase. */
  function Completion(p: Phase): string {
    match p
    case InKey => "="
    case AfterKey => "="
    case Hash => "x"
    case AfterCr => "\n"
    case _ => ""
  }

  function WithLine(f: File, l: Line): File {
    match f
    case Only(_) => Only(l)
    case Snoc(before, e, _) => Snoc(before, e, l)
  }

  lemma RenderWithLine(f: File, l: Line)
    ensures Render(WithLine(f, l)) == RenderHead(f) + RenderLine(l)
    ensures WellFormed(f) && WellFormedLine(l) ==> WellFormed(WithLine(f, l))
  {
    assert RenderHead(WithLine(f, l)) == RenderHead(f);
  }

  const EMPTY_LINE := Line("", None, None)

  /** The last line of a file completed from phase `p` looks like this. */
  predicate Shape(f: File, p: Phase) {
    var l := f.line;
    match p
    case Lead => l.pair.None? && l.comment.None?
    case InKey =>
      && l.pair.Some? && l.comment.None?
      && l.pair.value.beforeEq == "" && l.pair.value.afterEq == ""
      && l.pair.value.value == "" && l.pair.value.afterValue == ""
    case AfterKey =>
      && l.pair.Some? && l.comment.None?
      && l.pair.value.afterEq == "" && l.pair.value.value == "" && l.pair.value.afterValue == ""
    case AfterEq =>
      && l.pair.Some? && l.comment.None?
      && l.pair.value.value == "" && l.pair.value.afterValue == ""
    case InValue => l.pair.Some? && l.comment.None? && l.pair.value.afterValue == ""
    case AfterValue => l.pair.Some? && l.comment.None?
    case Hash => l.comment == Some("x")
    case InComment => l.comment.Some?
    case AfterCr => f.Snoc? && f.ending.CRLF? && l == EMPTY_LINE
    case Stuck => true
  }

  /** `f` is a completion of `s`, which the automaton leaves in phase `p`. */
  predicate Completes(f: File, s: string, p: Phase) {
    WellFormed(f) && Shape(f, p) && Render(f) == s + Completion(p)
  }

  /** Replacing the last line of a completion, when the new last line renders as required. */
  lemma CompleteWith(f: File, l: Line, s: string, p: Phase, s': string, p': Phase)
    requires Completes(f, s, p)
    requires WellFormedLine(l) && Shape(WithLine(f, l), p')
    requires RenderHead(f) + RenderLine(l) == s' + Completion(p')
    ensures Completes(WithLine(f, l), s', p')
  {
    RenderWithLine(f, l);
  }

  /** The last line grows by `t`, and nothing was owed before or is owed after but `Completion(p')`. */
  lemma GrowLine(f: File, l: Line, t: string, s: string, p: Phase, s': string, p': Phase)
    requires Completes(f, s, p) && Completion(p) == ""
    requires WellFormedLine(l) && Shape(WithLine(f, l), p')
    requires RenderLine(l) == RenderLine(f.line) + t && s + t == s' + Completion(p')
    ensures Completes(WithLine(f, l), s', p')
  {
    assert s == s + "";
    assert RenderHead(f) + RenderLine(l) == Render(f) + t;
    CompleteWith(f, l, s, p, s', p');
  }

  lemma RenderLonger(l: Line, lead: string, pair: Option<Pair>, t: string)
    requires l.comment.None?
    requires l.lead + (if l.pair.Some? then RenderPair(l.pair.value) else "") + t ==
             lead + (if pair.Some? then RenderPair(pair.value) else "")
    ensures RenderLine(l.(lead := lead, pair := pair)) == RenderLine(l) + t
  {
  }

  /** Any completion that needs no further text can be followed by a comment or a line break. */
  lemma LeaveCompletes(f: File, s: string, st: Scan, c: char) returns (g: File)
    requires Accepting(st) && Completes(f, s, st.phase)
    requires !LeavePair(st, c).phase.Stuck?
    requires c == '#' ==> !st.phase.InComment?
    ensures Completes(g, s + [c], LeavePair(st, c).phase)
  {
    if c == '#' {
      var l := f.line.(comment := Some("x"));
      assert s + "#x" == s + [c] + "x";
      GrowLine(f, l, "#x", s, st.phase, s + [c], Hash);
      g := WithLine(f, l);
    } else if c == '\n' {
      g := Snoc(f, LF, EMPTY_LINE);
      assert Render(g) == s + [c];
    } else {
      g := Snoc(f, CRLF, EMPTY_LINE);
      assert Render(g) == s + [c] + "\n";
    }
  }

  lemma StepLead(f: File, s: string, st: Scan, c: char) returns (g: File)
    requires st.phase.Lead? && Completes(f, s, st.phase) && !Step(st, c).phase.Stuck?
    ensures Completes(g, s + [c], Step(st, c).phase)
  {
    if IsBlank(c) {
      var l := f.line.(lead := f.line.lead + [c]);
      RenderLonger(f.line, l.lead, None, [c]);
      GrowLine(f, l, [c], s, Lead, s + [c], Lead);
      g := WithLine(f, l);
    } else if IsKeyChar(c) {
      var l := f.line.(pair := Some(Pair([c], "", "", "", "")));
      assert RenderPair(l.pair.value) == [c] + "=";
      RenderLonger(f.line, l.lead, l.pair, [c] + "=");
      GrowLine(f, l, [c] + "=", s, Lead, s + [c], InKey);
      g := WithLine(f, l);
    } else {
      g := LeaveCompletes(f, s, st, c);
    }
  }

  lemma SameButLast(a: string, b: string, c: char)
    requires a + [c] == b + [c]
    ensures a == b
  {
    assert a == (a + [c])[..|a|];
    assert b == (b + [c])[..|b|];
  }

  /** The text before the completing `=` of a line that still waits for it. */
  lemma KeyLineText(f: File, s: string, p: Phase)
    requires (p.InKey? || p.AfterKey?) && Completes(f, s, p)
    ensures s == RenderHead(f) + (f.line.lead + (f.line.pair.value.key + f.line.pair.value.beforeEq))
  {
    var q := f.line.pair.value;
    assert RenderPair(q) == q.key + q.beforeEq + "=";
    assert RenderLine(f.line) == f.line.lead + (q.key + q.beforeEq) + "=";
    SameButLast(s, RenderHead(f) + (f.line.lead + (q.key + q.beforeEq)), '=');
  }

  lemma KeyLineLonger(f: File, s: string, p: Phase, q: Pair, c: char)
    requires (p.InKey? || p.AfterKey?) && Completes(f, s, p)
    requires q.key + q.beforeEq == f.line.pair.value.key + f.line.pair.value.beforeEq + [c]
    requires q.afterEq == "" && q.value == "" && q.afterValue == ""
    ensures RenderHead(f) + RenderLine(f.line.(pair := Some(q))) == s + [c] + "="
  {
    KeyLineText(f, s, p);
    assert RenderPair(q) == q.key + q.beforeEq + "=";
    var l := f.line.(pair := Some(q));
    assert RenderLine(l) == f.line.lead + (q.key + q.beforeEq) + "=";
  }

  lemma StepKey(f: File, s: string, st: Scan, c: char) returns (g: File)
    requires st.phase.InKey? || st.phase.AfterKey?
    requires Completes(f, s, st.phase) && !Step(st, c).phase.Stuck?
    ensures Completes(g, s + [c], Step(st, c).phase)
  {
    var p := f.line.pair.value;
    if c == '=' {
      g := f;
      assert s + [c] + "" == s + "=";
    } else {
      var q := if IsKeyChar(c) then p.(key := p.key + [c]) else p.(beforeEq := p.beforeEq + [c]);
      KeyLineLonger(f, s, st.phase, q, c);
      var l := f.line.(pair := Some(q));
      CompleteWith(f, l, s, st.phase, s + [c], Step(st, c).phase);
      g := WithLine(f, l);
    }
  }

  lemma StepPending(f: File, s: string, st: Scan, c: char) returns (g: File)
    requires Pending(st) && Completes(f, s, st.phase) && !Step(st, c).phase.Stuck?
    ensures Completes(g, s + [c], Step(st, c).phase)
  {
    var p := f.line.pair.value;
    if IsBlank(c) || (IsValueChar(c) && !st.phase.AfterValue?) {
      var q :=
        if !IsBlank(c) then p.(value := p.value + [c])
        else if st.phase.AfterEq? then p.(afterEq := p.afterEq + [c])
        else p.(afterValue := p.afterValue + [c]);
      PairLonger(p, q, c);
      var l := f.line.(pair := Some(q));
      RenderLonger(f.line, l.lead, l.pair, [c]);
      GrowLine(f, l, [c], s, st.phase, s + [c], Step(st, c).phase);
      g := WithLine(f, l);
    } else {
      g := LeaveCompletes(f, s, st, c);
    }
  }

  lemma PairLonger(p: Pair, q: Pair, c: char)
    requires
      || (q == p.(value := p.value + [c]) && p.afterValue == "")
      || (q == p.(afterEq := p.afterEq + [c]) && p.value == "" && p.afterValue == "")
      || q == p.(afterValue := p.afterValue + [c])
    ensures RenderPair(q) == RenderPair(p) + [c]
  {
  }

  function BeforeComment(l: Line): string {
    l.lead + (if l.pair.Some? then RenderPair(l.pair.value) else "") + "#"
  }

  lemma CommentLineText(f: File, s: string, p: Phase)
    requires (p.Hash? || p.InComment?) && Completes(f, s, p)
    ensures s == RenderHead(f) + BeforeComment(f.line) + (if p.Hash? then "" else f.line.comment.value)
  {
    var h := RenderHead(f) + BeforeComment(f.line);
    assert RenderLine(f.line) == BeforeComment(f.line) + f.line.comment.value;
    assert Render(f) == h + f.line.comment.value;
    if p.Hash? {
      SameButLast(s, h, 'x');
      assert h == h + "";
    } else {
      assert s == s + "";
    }
  }

  lemma CommentLineLonger(f: File, s: string, p: Phase, c: char, l: Line)
    requires (p.Hash? || p.InComment?) && Completes(f, s, p)
    requires l == f.line.(comment := Some((if p.Hash? then "" else f.line.comment.value) + [c]))
    ensures RenderHead(f) + RenderLine(l) == s + [c]
  {
    CommentLineText(f, s, p);
    assert RenderLine(l) == BeforeComment(f.line) + l.comment.value;
  }

  lemma StepComment(f: File, s: string, st: Scan, c: char) returns (g: File)
    requires st.phase.Hash? || st.phase.InComment?
    requires Completes(f, s, st.phase) && !Step(st, c).phase.Stuck?
    ensures Completes(g, s + [c], Step(st, c).phase)
  {
    if IsCommentChar(c) {
      var l := f.line.(comment := Some((if st.phase.Hash? then "" else f.line.comment.value) + [c]));
      CommentLineLonger(f, s, st.phase, c, l);
      assert s + [c] == s + [c] + "";
      CompleteWith(f, l, s, st.phase, s + [c], InComment);
      g := WithLine(f, l);
    } else {
      g := LeaveCompletes(f, s, st, c);
    }
  }

  /** A surviving run yields a well-formed file that begins with the text read so far. */
  lemma {:induction false} Survives(s: string) returns (f: File)
    requires !Run(START, s).phase.Stuck?
    ensures Completes(f, s, Run(START, s).phase)
  {
    if s == "" {
      f := Only(EMPTY_LINE);
      assert Render(f) == "";
    } else {
      var t, c := s[..|s| - 1], s[|s| - 1];
      assert s == t + [c];
      var st := Run(START, t);
      var g := Survives(t);
      match st.phase
      case Lead => f := StepLead(g, t, st, c);
      case InKey => f := StepKey(g, t, st, c);
      case AfterKey => f := StepKey(g, t, st, c);
      case AfterEq => f := StepPending(g, t, st, c);
      case InValue => f := StepPending(g, t, st, c);
      case AfterValue => f := StepPending(g, t, st, c);
      case Hash => f := StepComment(g, t, st, c);
      case InComment => f := StepComment(g, t, st, c);
      case AfterCr => f := g;
    }
  }

  // ---- the two characterisations ----------------------------------------------------------

  /** The automaton accepts exactly the declarative language. */
  lemma AcceptsLanguage(s: string)
    ensures Accepting(Run(START, s)) <==> InLanguage(s)
  {
    if Accepting(Run(START, s)) {
      var f := Survives(s);
      assert Render(f) == s;
    }
    if InLanguage(s) {
      var f :| WellFormed(f) && Render(f) == s;
      RunFile(f);
    }
  }

  /** The automaton is stuck exactly on the texts that no continuation can repair. */
  lemma StuckMeansHopeless(s: string)
    ensures Viable(s) <==> !Run(START, s).phase.Stuck?
  {
    if !Run(START, s).phase.Stuck? {
      var f := Survives(s);
      assert InLanguage(s + Completion(Run(START, s).phase));
    }
    forall t | InLanguage(s + t)
      ensures !Run(START, s).phase.Stuck?
    {
      AcceptsLanguage(s + t);
      RunConcat(START, s, t);
      if Run(START, s).phase.Stuck? { RunStuck(Run(START, s), t); }
    }
  }

  /** All well-formed readings of one text agree on its bindings. */
  // ---- what is refused -----------------------------------------------------------------------------

  /** A line begins after `s`: at the start of the text, or after an ended line. */
  ghost predicate BeginsLine(s: string) {
    s == "" || exists f: File, e: Ending :: WellFormed(f) && s == Render(f) + RenderEnding(e)
  }

  lemma LineBegins(s: string)
    requires BeginsLine(s)
    ensures Run(START, s).phase.Lead?
  {
    if s != "" {
      var f: File, e: Ending :| WellFormed(f) && s == Render(f) + RenderEnding(e);
      RunFile(f);
      RunConcat(START, Render(f), RenderEnding(e));
      RunEnding(Run(START, Render(f)), e);
    }
  }

  /** Two more characters decide whether the text can be completed. */
  lemma TwoMore(s: string, a: char, b: char)
    ensures Viable(s + [a, b]) <==> !Step(Step(Run(START, s), a), b).phase.Stuck?
  {
    StuckMeansHopeless(s + [a, b]);
    assert (s + [a, b])[..|s| + 1] == s + [a] && (s + [a])[..|s|] == s;
  }

  /** A comment needs a character. */
  lemma CommentNeedsText(s: string, c: char)
    requires BeginsLine(s)
    ensures Viable(s + ['#', c]) <==> c != '\n' && c != '\r'
  {
    LineBegins(s);
    TwoMore(s, '#', c);
  }

  /** A carriage return needs a line feed. */
  lemma ReturnNeedsFeed(s: string, c: char)
    requires BeginsLine(s)
    ensures Viable(s + ['\r', c]) <==> c == '\n'
  {
    LineBegins(s);
    TwoMore(s, '\r', c);
  }

  /** A key needs an equals sign on its line. */
  lemma KeyNeedsEquals(s: string, k: char, c: char)
    requires BeginsLine(s) && k !in {'#', '=', ' ', '\t', '\n', '\r'}
    ensures Viable(s + [k, c]) <==> c !in {'#', '\n', '\r'}
  {
    LineBegins(s);
    TwoMore(s, k, c);
  }

  /** An equals sign needs a key. */
  lemma EqualsNeedsKey(s: string, c: char)
    requires BeginsLine(s)
    ensures !Viable(s + ['=', c])
  {
    LineBegins(s);
    TwoMore(s, '=', c);
  }

  /** A value ends at a blank; only blanks, a comment or a line break may follow. */
  lemma ValueEndsAtBlank(s: string, k: string, v: string, c: char)
    requires BeginsLine(s) && KeyText(k) && k != "" && ValueText(v) && v != ""
    ensures Viable(s + (k + "=" + v) + [' ', c]) <==> c in {' ', '\t', '#', '\n', '\r'}
  {
    LineBegins(s);
    RunPlainPair(Run(START, s), k, v);
    RunConcat(START, s, k + "=" + v);
    TwoMore(s + (k + "=" + v), ' ', c);
  }

  lemma RunPlainPair(st: Scan, k: string, v: string)
    requires st.phase.Lead? && KeyText(k) && k != "" && ValueText(v) && v != ""
    ensures Run(st, k + "=" + v).phase.InValue?
  {
    RunKey(st, k);
    RunOne(Run(st, k), '=');
    RunConcat(st, k, "=");
    RunValue(Run(st, k + "="), v);
    RunConcat(st, k + "=", v);
  }

  lemma Unambiguous(f: File, g: File)
    requires WellFormed(f) && WellFormed(g) && Render(f) == Render(g)
    ensures Bindings(f) == Bindings(g)
  {
    RunFile(f);
    RunFile(g);
  }
}
