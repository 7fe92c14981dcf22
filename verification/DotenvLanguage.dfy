/**
 The language of `.env` files, stated declaratively and without reference to the parser:
 a file is a list of lines separated by LF or CR LF; a line is blanks, an optional
 `key = value` pair and an optional comment of at least one character.
 */
module DotenvLanguage {
  import opened Wrappers

  predicate IsBlank(c: char) { c == ' ' || c == '\t' }

  predicate IsBreak(c: char) { c == '\n' || c == '\r' }

  // Quotes are ordinary characters of keys and values.
  predicate IsKeyChar(c: char) { c != '#' && c != '=' && !IsBlank(c) && !IsBreak(c) }

  predicate IsValueChar(c: char) { c != '#' && !IsBlank(c) && !IsBreak(c) }

  predicate IsCommentChar(c: char) { !IsBreak(c) }

  predicate Blanks(s: string) { forall i :: 0 <= i < |s| ==> IsBlank(s[i]) }

  predicate KeyText(s: string) { forall i :: 0 <= i < |s| ==> IsKeyChar(s[i]) }

  predicate ValueText(s: string) { forall i :: 0 <= i < |s| ==> IsValueChar(s[i]) }

  predicate CommentText(s: string) { forall i :: 0 <= i < |s| ==> IsCommentChar(s[i]) }

  datatype Pair = Pair(key: string, beforeEq: string, afterEq: string, value: string, afterValue: string)

  datatype Line = Line(lead: string, pair: Option<Pair>, comment: Option<string>)

  datatype Ending = LF | CRLF

  /** A file is never empty of lines: the last line has no ending. */
  datatype File = Only(line: Line) | Snoc(before: File, ending: Ending, line: Line)

  predicate WellFormedPair(p: Pair) {
    && p.key != "" && KeyText(p.key)
    && Blanks(p.beforeEq) && Blanks(p.afterEq) && Blanks(p.afterValue)
    && ValueText(p.value)
  }

  predicate WellFormedLine(l: Line) {
    && Blanks(l.lead)
    && (l.pair.Some? ==> WellFormedPair(l.pair.value))
    && (l.comment.Some? ==> l.comment.value != "" && CommentText(l.comment.value))
  }

  predicate WellFormed(f: File) {
    WellFormedLine(f.line) && (f.Snoc? ==> WellFormed(f.before))
  }

  function RenderPair(p: Pair): string {
    p.key + p.beforeEq + "=" + p.afterEq + p.value + p.afterValue
  }

  function RenderLine(l: Line): string {
    l.lead
    + (if l.pair.Some? then RenderPair(l.pair.value) else "")
    + (if l.comment.Some? then "#" + l.comment.value else "")
  }

  function RenderEnding(e: Ending): string {
    if e.LF? then "\n" else "\r\n"
  }

  /** The text of a file up to the start of its last line. */
  function RenderHead(f: File): string
    decreases f, 0
  {
    match f
    case Only(_) => ""
    case Snoc(before, e, _) => Render(before) + RenderEnding(e)
  }

  function Render(f: File): string
    decreases f, 1
  {
    RenderHead(f) + RenderLine(f.line)
  }

  type Binding = (string, string)

  function LineBindings(l: Line): seq<Binding> {
    if l.pair.Some? then [(l.pair.value.key, l.pair.value.value)] else []
  }

  /** The key/value pairs of a file, top to bottom. */
  function Bindings(f: File): seq<Binding> {
    match f
    case Only(l) => LineBindings(l)
    case Snoc(before, _, l) => Bindings(before) + LineBindings(l)
  }

  /** `s` is the text of a well-formed file. */
  ghost predicate InLanguage(s: string) {
    exists f: File :: WellFormed(f) && Render(f) == s
  }

  /** `s` can be completed to the text of a well-formed file. */
  ghost predicate Viable(s: string) {
    exists t: string :: InLanguage(s + t)
  }

  /** Insertion that leaves a key already present alone. */
  function Emplace(m: map<string, string>, b: Binding): map<string, string> {
    if b.0 in m then m else m[b.0 := b.1]
  }

  /** The map after inserting the pairs in order. */
  function FirstWins(m: map<string, string>, bs: seq<Binding>): map<string, string> {
    if bs == [] then m else Emplace(FirstWins(m, bs[..|bs| - 1]), bs[|bs| - 1])
  }

  lemma FirstWinsSnoc(m: map<string, string>, bs: seq<Binding>, b: Binding)
    ensures FirstWins(m, bs + [b]) == Emplace(FirstWins(m, bs), b)
  {
    assert (bs + [b])[..|bs|] == bs;
  }

  /** 1-based line number of the character that follows `s`. */
  function RowAfter(s: string): nat {
    if s == "" then 1
    else RowAfter(s[..|s| - 1]) + (if s[|s| - 1] == '\n' then 1 else 0)
  }

  /** 1-based column of the character that follows `s`. */
  function ColumnAfter(s: string): nat {
    if s == "" || s[|s| - 1] == '\n' then 1
    else ColumnAfter(s[..|s| - 1]) + 1
  }

  predicate HasKey(bs: seq<Binding>, k: string) {
    exists i :: 0 <= i < |bs| && bs[i].0 == k
  }

  predicate DistinctKeys(bs: seq<Binding>) {
    forall i, j :: 0 <= i < j < |bs| ==> bs[i].0 != bs[j].0
  }

  /** What `FirstWins` means: old entries stay, and a new key gets the value of its first pair. */
  lemma {:induction false} FirstWinsMeaning(m: map<string, string>, bs: seq<Binding>, k: string)
    ensures k in FirstWins(m, bs) <==> k in m || HasKey(bs, k)
    ensures k in m ==> FirstWins(m, bs)[k] == m[k]
    ensures forall i :: 0 <= i < |bs| && bs[i].0 == k && k !in m && !HasKey(bs[..i], k)
              ==> FirstWins(m, bs)[k] == bs[i].1
  {
    if bs != [] {
      var n := |bs| - 1;
      var t := bs[..n];
      FirstWinsMeaning(m, t, k);
      assert HasKey(t, k) ==> HasKey(bs, k) by {
        if HasKey(t, k) {
          var i :| 0 <= i < |t| && t[i].0 == k;
          assert bs[i].0 == k;
        }
      }
      assert HasKey(bs, k) ==> HasKey(t, k) || bs[n].0 == k by {
        if HasKey(bs, k) {
          var i :| 0 <= i < |bs| && bs[i].0 == k;
          assert i < n ==> t[i].0 == k;
        }
      }
      assert bs[n].0 == k ==> HasKey(bs, k);
      forall i | 0 <= i < n
        ensures t[i] == bs[i] && t[..i] == bs[..i]
      {
      }
    }
  }

  /** The reported position is the real one: the column counts back to the start of the line. */
  lemma {:induction false} PositionMeaning(s: string)
    ensures 1 <= ColumnAfter(s) <= |s| + 1
    ensures var start := |s| + 1 - ColumnAfter(s);
            && (start == 0 || s[start - 1] == '\n')
            && (forall i :: start <= i < |s| ==> s[i] != '\n')
    ensures RowAfter(s) == 1 + |set i | 0 <= i < |s| && s[i] == '\n'|
  {
    if s != "" {
      var n := |s| - 1;
      var t := s[..n];
      PositionMeaning(t);
      var before := set i | 0 <= i < |t| && t[i] == '\n';
      var now := set i | 0 <= i < |s| && s[i] == '\n';
      if s[n] == '\n' {
        assert now == before + {n};
      } else {
        assert now == before;
      }
    }
  }
}
