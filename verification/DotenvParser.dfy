/**
 The recursive-descent parser of external/dotenv/dotenv.h: one character of lookahead, a bound
 output buffer, row and column counters that wrap at 32 bits, and a map that is filled in place.
 Exceptions are outcomes of the methods.
 */
module DotenvParser {
  import opened Wrappers
  import opened DotenvLanguage
  import opened DotenvScan

  /** A character class: the listed characters, or all but the listed ones. */
  datatype Container = Container(included: set<char>, excluded: set<char>) {
    predicate Has(token: char) {
      token in included || (excluded != {} && token !in excluded)
    }

    function Or(c: char): Container {
      Container(included + {c}, excluded)
    }
  }

  function Just(c: char): Container { Container({c}, {}) }

  const SP := Container({' ', '\t'}, {})
  const UNQUOTED_KEY_CHAR := Container({}, {'#', '=', ' ', '\"', '\'', '\t', '\n', '\r'})
  const UNQUOTED_VALUE_CHAR := Container({}, {'#', ' ', '\"', '\'', '\t', '\n', '\r'})
  const UNQUOTED_COMMENT_CHAR := Container({}, {'\n', '\r'})

  function Quoted(c: Container): Container { c.Or('\"').Or('\'') }

  /** Which string, if any, the parser's output pointer is bound to. */
  datatype Target = Nowhere | KeyBuffer | ValueBuffer

  datatype Outcome = Fine | SyntaxError(row: nat, col: nat) | InternalError {
    predicate IsFailure() { !Fine? }

    function PropagateFailure(): Outcome
      requires IsFailure()
    { this }
  }

  // What a stream returns past its end, once converted to a character.
  const EOF_CHAR := 255 as char

  lemma Classes(c: char)
    ensures SP.Has(c) <==> IsBlank(c)
    ensures Quoted(UNQUOTED_KEY_CHAR).Has(c) <==> IsKeyChar(c)
    ensures Quoted(UNQUOTED_VALUE_CHAR).Has(c) <==> IsValueChar(c)
    ensures UNQUOTED_COMMENT_CHAR.Has(c) <==> IsCommentChar(c)
    ensures UNQUOTED_KEY_CHAR.Has(c) ==> IsKeyChar(c)
    ensures UNQUOTED_VALUE_CHAR.Has(c) ==> IsValueChar(c)
    // that is:
    ensures IsBlank(c) <==> c in {' ', '\t'}
    ensures IsKeyChar(c) <==> c !in {'#', '=', ' ', '\t', '\n', '\r'}
    ensures IsValueChar(c) <==> c !in {'#', ' ', '\t', '\n', '\r'}
    ensures IsCommentChar(c) <==> c !in {'\n', '\r'}
  {
  }

  /** The automaton state after the first `p` characters of `s`. */
  ghost function At(s: string, p: nat): Scan
    requires p <= |s|
  {
    Run(START, s[..p])
  }

  /** The counters name the position of character `p`. */
  ghost predicate Tracks(s: string, p: nat, row: nat, col: nat)
    requires p <= |s|
  {
    row == Wrap32(RowAfter(s[..p])) && col == Wrap32(ColumnAfter(s[..p]))
  }

  lemma {:induction false} SameLine(s: string, p: nat, q: nat)
    requires p <= q <= |s|
    requires forall i :: p <= i < q ==> s[i] != '\n'
    ensures RowAfter(s[..q]) == RowAfter(s[..p])
    ensures ColumnAfter(s[..q]) == ColumnAfter(s[..p]) + (q - p)
    decreases q
  {
    if p < q {
      SameLine(s, p, q - 1);
      assert s[..q][..q - 1] == s[..q - 1];
    }
  }

  lemma Advance(s: string, p: nat, q: nat, row: nat, col: nat, col': nat)
    requires p <= q <= |s| && Tracks(s, p, row, col)
    requires forall i :: p <= i < q ==> s[i] != '\n'
    requires col' == Wrap32(col + (q - p))
    ensures Tracks(s, q, row, col')
  {
    SameLine(s, p, q);
    WrapAdd(ColumnAfter(s[..p]), q - p);
  }

  lemma Segment(s: string, p: nat, q: nat)
    requires p <= q <= |s|
    ensures At(s, q) == Run(At(s, p), s[p..q])
  {
    assert s[..q] == s[..p] + s[p..q];
    RunConcat(START, s[..p], s[p..q]);
  }

  lemma BlanksPart(s: string, p: nat, q: nat)
    requires p <= q <= |s| && forall i :: p <= i < q ==> IsBlank(s[i])
    requires var st := At(s, p); st.phase.Lead? || st.phase.InKey? || st.phase.AfterKey? || Pending(st)
    ensures var st := At(s, p);
            At(s, q) == if p < q && st.phase.InKey? then st.(phase := AfterKey)
                        else if p < q && st.phase.InValue? then st.(phase := AfterValue)
                        else st
  {
    Segment(s, p, q);
    RunBlanks(At(s, p), s[p..q]);
  }

  lemma LeadPart(s: string, p: nat, q: nat)
    requires p <= q <= |s| && At(s, p).phase.Lead?
    requires forall i :: p <= i < q ==> IsBlank(s[i])
    ensures At(s, q) == At(s, p)
  {
    BlanksPart(s, p, q);
  }

  /** From the start of a line to the character after its key and the blanks that follow. */
  lemma KeyPart(s: string, p: nat, k: nat, b: nat)
    requires p < k <= b <= |s| && At(s, p).phase.Lead?
    requires forall i :: p <= i < k ==> IsKeyChar(s[i])
    requires forall i :: k <= i < b ==> IsBlank(s[i])
    requires b < |s| ==> !IsBlank(s[b]) && (k == b ==> !IsKeyChar(s[b]))
    ensures b < |s| && s[b] == '=' ==> At(s, b + 1) == Scan(AfterEq, s[p..k], "", At(s, p).done)
    ensures !(b < |s| && s[b] == '=') ==> Offends(s, b) && Completed(At(s, b)) == At(s, p).done
  {
    Segment(s, p, k);
    RunKey(At(s, p), s[p..k]);
    BlanksPart(s, k, b);
    if b < |s| { OneMore(s, b); }
  }

  /** From after the equals sign to the character after the value and the blanks around it. */
  lemma ValuePart(s: string, p: nat, v: nat, w: nat, b: nat)
    requires p <= v <= w <= b <= |s| && At(s, p).phase.AfterEq? && At(s, p).value == ""
    requires forall i :: p <= i < v ==> IsBlank(s[i])
    requires forall i :: v <= i < w ==> IsValueChar(s[i])
    requires forall i :: w <= i < b ==> IsBlank(s[i])
    requires b < |s| ==> !IsBlank(s[b]) && (w == b ==> !IsValueChar(s[b]))
    requires v == w ==> w == b
    ensures Pending(At(s, b))
    ensures Completed(At(s, b)) == At(s, p).done + [(At(s, p).key, s[v..w])]
    ensures b < |s| && IsValueChar(s[b]) ==> At(s, b).phase.AfterValue?
  {
    BlanksPart(s, p, v);
    Segment(s, v, w);
    RunValue(At(s, p), s[v..w]);
    assert "" + s[v..w] == s[v..w];
    BlanksPart(s, w, b);
  }

  /** From a hash sign to the character after the comment. */
  lemma CommentPart(s: string, p: nat, q: nat)
    requires p < q <= |s| && s[p] == '#' && (At(s, p).phase.Lead? || Pending(At(s, p)))
    requires forall i :: p < i < q ==> IsCommentChar(s[i])
    requires q < |s| ==> !IsCommentChar(s[q])
    ensures Completed(At(s, q)) == Completed(At(s, p))
    ensures if q == p + 1 then Offends(s, q) else At(s, q).phase.InComment?
  {
    OneMore(s, p);
    assert At(s, p + 1).phase.Hash? && Completed(At(s, p + 1)) == Completed(At(s, p));
    if q == p + 1 {
      if q < |s| { OneMore(s, q); }
    } else {
      Segment(s, p + 1, q);
      RunComment(At(s, p + 1), s[p + 1..q]);
    }
  }

  lemma BreakPart(s: string, p: nat)
    requires p < |s| && Accepting(At(s, p)) && IsBreak(s[p])
    ensures s[p] == '\n' ==> At(s, p + 1).phase.Lead?
    ensures Completed(At(s, p + 1)) == Completed(At(s, p))
    ensures s[p] == '\r' ==>
              if p + 1 < |s| && s[p + 1] == '\n'
              then At(s, p + 2).phase.Lead? && Completed(At(s, p + 2)) == Completed(At(s, p))
              else Offends(s, p + 1)
  {
    OneMore(s, p);
    if p + 1 < |s| { OneMore(s, p + 1); }
  }

  lemma NewLine(s: string, p: nat, row: nat, col: nat)
    requires p < |s| && s[p] == '\n' && Tracks(s, p, row, col)
    ensures Tracks(s, p + 1, Wrap32(row + 1), 1)
  {
    OneMore(s, p);
    WrapAdd(RowAfter(s[..p]), 1);
  }

  lemma OneMore(s: string, p: nat)
    requires p < |s|
    ensures At(s, p + 1) == Step(At(s, p), s[p])
    ensures s[p] == '\n' ==> RowAfter(s[..p + 1]) == RowAfter(s[..p]) + 1 && ColumnAfter(s[..p + 1]) == 1
  {
    assert s[..p + 1][..p] == s[..p];
  }

  /** The parse rightly stops before character `p` of `s`. */
  ghost predicate Offends(s: string, p: nat) {
    && p <= |s|
    && !At(s, p).phase.Stuck?
    && (if p == |s| then !Accepting(At(s, p)) else Step(At(s, p), s[p]).phase.Stuck?)
  }

  /** Only a line feed may come at `q`; with it, the pairs read so far are `done`. */
  ghost predicate FeedExpected(s: string, q: nat, done: seq<Binding>) {
    && q <= |s|
    && if q < |s| && s[q] == '\n'
       then At(s, q + 1).phase.Lead? && Completed(At(s, q + 1)) == done
       else Offends(s, q) && Completed(At(s, q)) == done
  }

  class Parser {
    const input: string
    // The stream: how many characters were extracted, and its end-of-file flag.
    var taken: nat
    var eof: bool

    var token: char
    var row: nat
    var col: nat
    var bond: bool
    var binded: Target
    var key: string
    var value: string
    var env: map<string, string>

    constructor (input: string, env: map<string, string>)
      ensures this.input == input && this.env == env
      ensures taken == 0 && !eof && Unbound()
    {
      this.input, this.env := input, env;
      taken, eof := 0, false;
      token, row, col := EOF_CHAR, 0, 0;
      bond, binded, key, value := false, Nowhere, "", "";
    }

    /** The lookahead is the next unread character, or the stream has reported its end. */
    predicate Ready()
      reads this
    {
      && taken <= |input|
      && (eof ==> taken == |input|)
      && (!eof ==> 1 <= taken && token == input[taken - 1])
    }

    /** Index of the lookahead; the characters before it are consumed. */
    function Pos(): (p: nat)
      reads this
      requires Ready()
      ensures p <= |input| && (eof <==> p == |input|)
      ensures !eof ==> token == input[p]
    {
      if eof then taken else taken - 1
    }

    /** A buffer after the characters in `text` were consumed. */
    function Grown(buffer: Target, was: string, text: string): string
      reads this
    {
      if bond && binded == buffer then was + text else was
    }

    predicate Unbound()
      reads this
    {
      !bond && binded.Nowhere?
    }

    predicate TokenIs(c: Container)
      reads this
    {
      !eof && c.Has(token)
    }

    // ---- the stream and the lookahead -------------------------------------------------

    /** `is.get()` */
    method Get() returns (c: char)
      requires taken <= |input|
      modifies this`taken, this`eof
      ensures old(taken) < |input| ==> c == input[old(taken)] && taken == old(taken) + 1 && eof == old(eof)
      ensures old(taken) == |input| ==> c == EOF_CHAR && taken == old(taken) && eof
    {
      if taken < |input| {
        c := input[taken];
        taken := taken + 1;
      } else {
        c := EOF_CHAR;
        eof := true;
      }
    }

    method Init()
      requires taken == 0 && !eof
      modifies this`taken, this`eof, this`token, this`row, this`col
      ensures Ready() && Pos() == 0 && row == 0 && col == 1
    {
      token := Get();
      row := 0;
      col := 1;
    }

    /** Consumes the lookahead into the bound buffer. */
    method Next() returns (o: Outcome)
      requires Ready() && !eof
      modifies this`taken, this`eof, this`token, this`col, this`key, this`value
      ensures o == if bond && binded.Nowhere? then InternalError else Fine
      ensures o.InternalError? ==> unchanged(this)
      ensures o.Fine? ==>
                && Ready() && Pos() == old(Pos()) + 1 && col == Wrap32(old(col) + 1)
                && key == Grown(KeyBuffer, old(key), [old(token)])
                && value == Grown(ValueBuffer, old(value), [old(token)])
    {
      if bond && !binded.Nowhere? {
        if binded.KeyBuffer? { key := key + [token]; } else { value := value + [token]; }
      } else if bond && binded.Nowhere? {
        return InternalError;
      }
      token := Get();
      col := Wrap32(col + 1);
      o := Fine;
    }

    method SyntaxErr() returns (o: Outcome)
      ensures o == SyntaxError(row, col)
    {
      o := SyntaxError(row, col);
    }

    method Match(c: Container) returns (o: Outcome)
      requires Ready() && (bond ==> !binded.Nowhere?)
      modifies this`taken, this`eof, this`token, this`col, this`key, this`value
      ensures o == if old(TokenIs(c)) then Fine else SyntaxError(row, old(col))
      ensures o.SyntaxError? ==> unchanged(this)
      ensures o.Fine? ==>
                && Ready() && Pos() == old(Pos()) + 1 && col == Wrap32(old(col) + 1)
                && key == Grown(KeyBuffer, old(key), [old(token)])
                && value == Grown(ValueBuffer, old(value), [old(token)])
    {
      if TokenIs(c) { o := Next(); } else { o := SyntaxErr(); }
    }

    /** The loops `while (token_is(c)) match(c);` */
    method MatchWhile(c: Container)
      requires Ready() && (bond ==> !binded.Nowhere?) && col < UINT32_RANGE
      modifies this`taken, this`eof, this`token, this`col, this`key, this`value
      ensures Ready() && old(Pos()) <= Pos() && !TokenIs(c)
      ensures col == Wrap32(old(col) + (Pos() - old(Pos())))
      ensures forall i :: old(Pos()) <= i < Pos() ==> c.Has(input[i])
      ensures key == Grown(KeyBuffer, old(key), input[old(Pos())..Pos()])
      ensures value == Grown(ValueBuffer, old(value), input[old(Pos())..Pos()])
    {
      ghost var p := Pos();
      while TokenIs(c)
        invariant Ready() && p <= Pos() && col == Wrap32(old(col) + (Pos() - p))
        invariant forall i :: p <= i < Pos() ==> c.Has(input[i])
        invariant key == Grown(KeyBuffer, old(key), input[p..Pos()])
        invariant value == Grown(ValueBuffer, old(value), input[p..Pos()])
        decreases |input| - Pos()
      {
        ghost var q := Pos();
        assert input[p..q + 1] == input[p..q] + [token];
        WrapAdd(old(col) + (q - p), 1);
        var o := Match(c);
      }
    }

    /** UNQUOTED_KEY, UNQUOTED_VALUE and UNQUOTED_COMMENT: one character, then as many as follow. */
    method Unquoted(c: Container) returns (o: Outcome)
      requires Ready() && (bond ==> !binded.Nowhere?)
      modifies this`taken, this`eof, this`token, this`col, this`key, this`value
      ensures o == if old(TokenIs(c)) then Fine else SyntaxError(row, old(col))
      ensures o.SyntaxError? ==> unchanged(this)
      ensures o.Fine? ==>
                && Ready() && old(Pos()) < Pos() && !TokenIs(c)
                && col == Wrap32(old(col) + (Pos() - old(Pos())))
                && (forall i :: old(Pos()) <= i < Pos() ==> c.Has(input[i]))
                && key == Grown(KeyBuffer, old(key), input[old(Pos())..Pos()])
                && value == Grown(ValueBuffer, old(value), input[old(Pos())..Pos()])
    {
      ghost var p := Pos();
      o := Match(c);
      if o.Fine? {
        MatchWhile(c);
        assert input[p..Pos()] == [input[p]] + input[p + 1..Pos()];
        WrapAdd(old(col) + 1, Pos() - p - 1);
      }
    }

    // ---- keys and values ------------------------------------------------------------

    method Bind(target: Target)
      requires !target.Nowhere?
      modifies this`key, this`value, this`binded, this`bond
      ensures bond && binded == target
      ensures key == if target.KeyBuffer? then "" else old(key)
      ensures value == if target.ValueBuffer? then "" else old(value)
    {
      if target.KeyBuffer? { key := ""; } else { value := ""; }
      binded := target;
      bond := true;
    }

    method Unbind()
      modifies this`binded, this`bond
      ensures Unbound()
    {
      binded := Nowhere;
      bond := false;
    }

    /** One round of the loops of `key` and `value`: unquoted characters, or a single quote mark. */
    method Stretch(c: Container)
      requires Ready() && bond && !binded.Nowhere? && TokenIs(Quoted(c))
      modifies this`taken, this`eof, this`token, this`col, this`key, this`value
      ensures Ready() && old(Pos()) < Pos()
      ensures col == Wrap32(old(col) + (Pos() - old(Pos())))
      ensures forall i :: old(Pos()) <= i < Pos() ==> Quoted(c).Has(input[i])
      ensures key == Grown(KeyBuffer, old(key), input[old(Pos())..Pos()])
      ensures value == Grown(ValueBuffer, old(value), input[old(Pos())..Pos()])
    {
      ghost var p := Pos();
      if TokenIs(c) {
        var o := Unquoted(c);
      } else {
        assert input[p..p + 1] == [token];
        var o := Next();
      }
    }

    /** The loops of `key` and `value`. */
    method Stretches(c: Container)
      requires Ready() && bond && !binded.Nowhere? && col < UINT32_RANGE
      modifies this`taken, this`eof, this`token, this`col, this`key, this`value
      ensures Ready() && old(Pos()) <= Pos() && !TokenIs(Quoted(c))
      ensures col == Wrap32(old(col) + (Pos() - old(Pos())))
      ensures forall i :: old(Pos()) <= i < Pos() ==> Quoted(c).Has(input[i])
      ensures key == Grown(KeyBuffer, old(key), input[old(Pos())..Pos()])
      ensures value == Grown(ValueBuffer, old(value), input[old(Pos())..Pos()])
    {
      ghost var p := Pos();
      while TokenIs(Quoted(c))
        invariant Ready() && p <= Pos() && col == Wrap32(old(col) + (Pos() - p))
        invariant forall i :: p <= i < Pos() ==> Quoted(c).Has(input[i])
        invariant key == Grown(KeyBuffer, old(key), input[p..Pos()])
        invariant value == Grown(ValueBuffer, old(value), input[p..Pos()])
        decreases |input| - Pos()
      {
        ghost var q := Pos();
        Stretch(c);
        assert input[p..Pos()] == input[p..q] + input[q..Pos()];
        ConcatAssociates(old(key), input[p..q], input[q..Pos()]);
        ConcatAssociates(old(value), input[p..q], input[q..Pos()]);
        WrapAdd(old(col) + (q - p), Pos() - q);
      }
    }

    method SomeStretches(c: Container)
      requires Ready() && bond && !binded.Nowhere? && col < UINT32_RANGE && TokenIs(Quoted(c))
      modifies this`taken, this`eof, this`token, this`col, this`key, this`value
      ensures Ready() && old(Pos()) < Pos() && !TokenIs(Quoted(c))
      ensures col == Wrap32(old(col) + (Pos() - old(Pos())))
      ensures forall i :: old(Pos()) <= i < Pos() ==> Quoted(c).Has(input[i])
      ensures key == Grown(KeyBuffer, old(key), input[old(Pos())..Pos()])
      ensures value == Grown(ValueBuffer, old(value), input[old(Pos())..Pos()])
    {
      ghost var p := Pos();
      Stretch(c);
      ghost var q := Pos();
      Stretches(c);
      assert input[p..Pos()] == input[p..q] + input[q..Pos()];
      ConcatAssociates(old(key), input[p..q], input[q..Pos()]);
      ConcatAssociates(old(value), input[p..q], input[q..Pos()]);
      WrapAdd(old(col) + (q - p), Pos() - q);
    }

    method Key()
      requires Ready() && TokenIs(Quoted(UNQUOTED_KEY_CHAR)) && col < UINT32_RANGE
      modifies this`taken, this`eof, this`token, this`col, this`key, this`value, this`binded, this`bond
      ensures Ready() && Unbound() && !TokenIs(Quoted(UNQUOTED_KEY_CHAR))
      ensures old(Pos()) < Pos() && col == Wrap32(old(col) + (Pos() - old(Pos())))
      ensures key == input[old(Pos())..Pos()]
      ensures forall i :: old(Pos()) <= i < Pos() ==> Quoted(UNQUOTED_KEY_CHAR).Has(input[i])
    {
      Bind(KeyBuffer);
      SomeStretches(UNQUOTED_KEY_CHAR);
      Unbind();
    }

    method Value()
      requires Ready() && col < UINT32_RANGE
      modifies this`taken, this`eof, this`token, this`col, this`key, this`value, this`binded, this`bond
      ensures Ready() && Unbound() && !TokenIs(Quoted(UNQUOTED_VALUE_CHAR))
      ensures old(Pos()) <= Pos() && col == Wrap32(old(col) + (Pos() - old(Pos())))
      ensures key == old(key) && value == input[old(Pos())..Pos()]
      ensures forall i :: old(Pos()) <= i < Pos() ==> Quoted(UNQUOTED_VALUE_CHAR).Has(input[i])
    {
      Bind(ValueBuffer);
      Stretches(UNQUOTED_VALUE_CHAR);
      Unbind();
    }

    method InsertToMap() returns (o: Outcome)
      modifies this`env
      ensures o == if Unbound() && key != "" then Fine else InternalError
      ensures env == if o.Fine? then Emplace(old(env), (key, value)) else old(env)
    {
      if bond || !binded.Nowhere? { return InternalError; }
      if key == "" { return InternalError; }
      if key !in env { env := env[key := value]; }
      o := Fine;
    }

    // ---- lines ------------------------------------------------------------------------

    /** Between two tokens of a line: nothing bound, counters right. */
    ghost predicate Settled()
      reads this
    {
      Ready() && Unbound() && Tracks(input, Pos(), row, col)
    }

    /** The map holds what the consumed text binds, on top of what was there at the start. */
    ghost predicate Stored(env0: map<string, string>)
      reads this
    {
      Ready() && env == FirstWins(env0, Completed(At(input, Pos())))
    }

    /** The parse stopped at the lookahead, and rightly so. */
    ghost predicate FailsHere(o: Outcome)
      reads this
    {
      Settled() && o == SyntaxError(row, col) && Offends(input, Pos())
    }

    method SkipBlanks()
      requires Settled()
      modifies this`taken, this`eof, this`token, this`col, this`key, this`value
      ensures Settled() && old(Pos()) <= Pos() && key == old(key) && value == old(value)
      ensures forall i :: old(Pos()) <= i < Pos() ==> IsBlank(input[i])
      ensures !eof ==> !IsBlank(token)
    {
      ghost var p := Pos();
      MatchWhile(SP);
      Advance(input, p, Pos(), row, old(col), col);
    }

    /** `match` of a character that is not a line feed. */
    method MatchSettled(c: char) returns (o: Outcome)
      requires Settled() && c != '\n'
      modifies this`taken, this`eof, this`token, this`col, this`key, this`value
      ensures Settled() && key == old(key) && value == old(value)
      ensures o == if old(!eof && token == c) then Fine else SyntaxError(row, col)
      ensures Pos() == if o.Fine? then old(Pos()) + 1 else old(Pos())
    {
      ghost var p := Pos();
      o := Match(Just(c));
      if o.Fine? { Advance(input, p, p + 1, row, old(col), col); }
    }

    method KeySettled()
      requires Settled() && TokenIs(Quoted(UNQUOTED_KEY_CHAR))
      modifies this`taken, this`eof, this`token, this`col, this`key, this`value, this`binded, this`bond
      ensures Settled() && old(Pos()) < Pos() && key == input[old(Pos())..Pos()]
      ensures forall i :: old(Pos()) <= i < Pos() ==> IsKeyChar(input[i])
      ensures !eof ==> !IsKeyChar(token)
    {
      ghost var p := Pos();
      Key();
      forall i | p <= i < |input| ensures Quoted(UNQUOTED_KEY_CHAR).Has(input[i]) <==> IsKeyChar(input[i]) {
        Classes(input[i]);
      }
      Advance(input, p, Pos(), row, old(col), col);
    }

    method ValueSettled()
      requires Settled()
      modifies this`taken, this`eof, this`token, this`col, this`key, this`value, this`binded, this`bond
      ensures Settled() && old(Pos()) <= Pos() && key == old(key) && value == input[old(Pos())..Pos()]
      ensures forall i :: old(Pos()) <= i < Pos() ==> IsValueChar(input[i])
      ensures !eof ==> !IsValueChar(token)
    {
      ghost var p := Pos();
      Value();
      forall i | p <= i < |input| ensures Quoted(UNQUOTED_VALUE_CHAR).Has(input[i]) <==> IsValueChar(input[i]) {
        Classes(input[i]);
      }
      Advance(input, p, Pos(), row, old(col), col);
    }

    /** `key`, blanks and the equals sign. */
    method KeyAndEquals() returns (o: Outcome)
      requires Settled() && At(input, Pos()).phase.Lead?
      requires TokenIs(Quoted(UNQUOTED_KEY_CHAR))
      modifies this`taken, this`eof, this`token, this`col, this`key, this`value, this`binded, this`bond
      ensures Settled() && old(Pos()) < Pos()
      ensures o.Fine? ==> key != "" && At(input, Pos()) == Scan(AfterEq, key, "", At(input, old(Pos())).done)
      ensures !o.Fine? ==> FailsHere(o) && Completed(At(input, Pos())) == At(input, old(Pos())).done
    {
      ghost var p := Pos();
      KeySettled();
      ghost var k := Pos();
      SkipBlanks();
      KeyPart(input, p, k, Pos());
      o := MatchSettled('=');
    }

    /** Blanks, the value, and blanks. */
    method ValueAndBlanks()
      requires Settled() && At(input, Pos()).phase.AfterEq? && At(input, Pos()).value == ""
      modifies this`taken, this`eof, this`token, this`col, this`key, this`value, this`binded, this`bond
      ensures Settled() && old(Pos()) <= Pos() && key == old(key) && Pending(At(input, Pos()))
      ensures Completed(At(input, Pos())) == At(input, old(Pos())).done + [(At(input, old(Pos())).key, value)]
      ensures !eof ==> !IsBlank(token)
      ensures !eof && IsValueChar(token) ==> At(input, Pos()).phase.AfterValue?
    {
      ghost var p := Pos();
      SkipBlanks();
      ghost var v := Pos();
      ValueSettled();
      ghost var w := Pos();
      SkipBlanks();
      ValuePart(input, p, v, w, Pos());
    }

    /** The `key = value` part of a line, not yet inserted. */
    method PairText() returns (o: Outcome)
      requires Settled() && At(input, Pos()).phase.Lead?
      requires TokenIs(Quoted(UNQUOTED_KEY_CHAR))
      modifies this`taken, this`eof, this`token, this`col, this`key, this`value, this`binded, this`bond
      ensures Settled() && old(Pos()) < Pos()
      ensures o.Fine? ==> key != "" && Pending(At(input, Pos()))
      ensures o.Fine? && !eof ==> !IsBlank(token) && (IsValueChar(token) ==> At(input, Pos()).phase.AfterValue?)
      ensures o.Fine? || FailsHere(o)
      ensures Completed(At(input, Pos())) ==
              if o.Fine? then At(input, old(Pos())).done + [(key, value)] else At(input, old(Pos())).done
    {
      o := KeyAndEquals();
      if o.Fine? { ValueAndBlanks(); }
    }

    /** The `key = value` part of a line. */
    method PairContent(ghost env0: map<string, string>) returns (o: Outcome)
      requires Settled() && At(input, Pos()).phase.Lead? && Stored(env0)
      requires TokenIs(Quoted(UNQUOTED_KEY_CHAR))
      modifies this`taken, this`eof, this`token, this`col, this`key, this`value, this`binded, this`bond, this`env
      ensures Settled() && old(Pos()) < Pos() && Stored(env0)
      ensures o.Fine? || FailsHere(o)
      ensures o.Fine? ==> Pending(At(input, Pos()))
      ensures o.Fine? && !eof ==> !IsBlank(token) && (IsValueChar(token) ==> At(input, Pos()).phase.AfterValue?)
    {
      ghost var done := At(input, Pos()).done;
      o := PairText();
      if o.Fine? {
        FirstWinsSnoc(env0, done, (key, value));
        o := InsertToMap();
      }
    }

    method Comment() returns (o: Outcome)
      requires Settled() && TokenIs(Just('#'))
      requires At(input, Pos()).phase.Lead? || Pending(At(input, Pos()))
      modifies this`taken, this`eof, this`token, this`col, this`key, this`value
      ensures Settled() && old(Pos()) < Pos()
      ensures Completed(At(input, Pos())) == Completed(At(input, old(Pos())))
      ensures o.Fine? || FailsHere(o)
      ensures o.Fine? ==> At(input, Pos()).phase.InComment? && (!eof ==> IsBreak(token))
    {
      ghost var p := Pos();
      o := MatchSettled('#');
      ghost var c := col;
      forall i | p < i < |input| ensures UNQUOTED_COMMENT_CHAR.Has(input[i]) <==> IsCommentChar(input[i]) {
        Classes(input[i]);
      }
      o := Unquoted(UNQUOTED_COMMENT_CHAR);
      CommentPart(input, p, Pos());
      if o.Fine? { Advance(input, p + 1, Pos(), row, c, col); }
    }

    /** What is left of a line once its leading blanks are skipped. */
    method LineBody(ghost env0: map<string, string>) returns (o: Outcome)
      requires Settled() && At(input, Pos()).phase.Lead? && Stored(env0) && (!eof ==> !IsBlank(token))
      modifies this`taken, this`eof, this`token, this`col, this`key, this`value, this`binded, this`bond, this`env
      ensures Settled() && Stored(env0) && old(Pos()) <= Pos()
      ensures o.Fine? || FailsHere(o)
      ensures o.Fine? ==> Accepting(At(input, Pos()))
      ensures o.Fine? && !eof && !IsBreak(token) ==> Step(At(input, Pos()), token).phase.Stuck?
    {
      if !eof { Classes(token); }
      if TokenIs(Quoted(UNQUOTED_KEY_CHAR)) {
        :- PairContent(env0);
      }
      if TokenIs(Just('#')) {
        :- Comment();
      }
      o := Fine;
    }

    method LineContent(ghost env0: map<string, string>) returns (o: Outcome)
      requires Ready() && Unbound() && At(input, Pos()).phase.Lead? && Stored(env0)
      requires Tracks(input, Pos(), Wrap32(row + 1), 1)
      modifies this
      ensures Settled() && Stored(env0) && old(Pos()) <= Pos()
      ensures o.Fine? || FailsHere(o)
      ensures o.Fine? ==> Accepting(At(input, Pos()))
      ensures o.Fine? && !eof && !IsBreak(token) ==> Step(At(input, Pos()), token).phase.Stuck?
    {
      row := Wrap32(row + 1);
      col := 1;
      ghost var p := Pos();
      SkipBlanks();
      LeadPart(input, p, Pos());
      o := LineBody(env0);
    }

    /** `match` of the line feed; the row and column then name the next line. */
    method MatchLineFeed() returns (o: Outcome)
      requires Settled()
      modifies this`taken, this`eof, this`token, this`col, this`key, this`value
      ensures o == if old(!eof && token == '\n') then Fine else SyntaxError(row, old(col))
      ensures o.SyntaxError? ==> unchanged(this)
      ensures o.Fine? ==> Ready() && Pos() == old(Pos()) + 1 && Tracks(input, Pos(), Wrap32(row + 1), 1)
    {
      if !eof && token == '\n' { NewLine(input, Pos(), row, col); }
      o := Match(Just('\n'));
    }

    /** The optional carriage return of a line break. */
    method CarriageReturn()
      requires Settled() && Accepting(At(input, Pos())) && !eof && IsBreak(token)
      modifies this`taken, this`eof, this`token, this`col, this`key, this`value
      ensures Settled() && old(Pos()) <= Pos()
      ensures old(Pos()) == Pos() ==> token == '\n'
      ensures FeedExpected(input, Pos(), Completed(At(input, old(Pos()))))
    {
      BreakPart(input, Pos());
      if TokenIs(Just('\r')) {
        var o := MatchSettled('\r');
      }
    }

    method NL() returns (o: Outcome)
      requires Settled() && Accepting(At(input, Pos())) && !eof && IsBreak(token)
      modifies this`taken, this`eof, this`token, this`col, this`key, this`value
      ensures Ready() && old(Pos()) < Pos()
      ensures Completed(At(input, Pos())) == Completed(At(input, old(Pos())))
      ensures o.Fine? || FailsHere(o)
      ensures o.Fine? ==> At(input, Pos()).phase.Lead? && Tracks(input, Pos(), Wrap32(row + 1), 1)
    {
      CarriageReturn();
      o := MatchLineFeed();
    }

    method EofCheck() returns (o: Outcome)
      ensures o == if eof then Fine else SyntaxError(row, col)
    {
      if !eof { o := SyntaxErr(); } else { o := Fine; }
    }

    method Env(ghost env0: map<string, string>) returns (o: Outcome)
      requires taken == 0 && !eof && Unbound() && env == env0
      modifies this
      ensures Stored(env0)
      ensures o.Fine? || FailsHere(o)
      ensures o.Fine? ==> eof && Accepting(At(input, Pos()))
    {
      Init();
      assert input[..Pos()] == "";
      :- LineContent(env0);
      while TokenIs(Just('\n')) || TokenIs(Just('\r'))
        invariant Settled() && Accepting(At(input, Pos())) && Stored(env0)
        invariant !eof && !IsBreak(token) ==> Step(At(input, Pos()), token).phase.Stuck?
        decreases |input| - Pos()
      {
        :- NL();
        :- LineContent(env0);
      }
      o := EofCheck();
    }

    /**
     The parser against the declarative language: it succeeds exactly on well-formed files and then
     stores the first binding of each key; otherwise it reports the exact position of the first
     character (or the end of input) that no continuation can repair.
     */
    method Parse() returns (o: Outcome)
      requires taken == 0 && !eof && Unbound()
      modifies this
      ensures !o.InternalError?
      ensures Ready()
      ensures o.Fine? <==> InLanguage(input)
      ensures forall f: File :: WellFormed(f) && Render(f) == input
                ==> env == FirstWins(old(env), Bindings(f))
      ensures o.SyntaxError? ==>
                && o.row == Wrap32(RowAfter(input[..Pos()])) && o.col == Wrap32(ColumnAfter(input[..Pos()]))
                && Viable(input[..Pos()])
                && (Pos() < |input| ==> !Viable(input[..Pos() + 1]))
      // A failed parse keeps the pairs it had read.
      ensures o.SyntaxError? ==> env == FirstWins(old(env), Completed(At(input, Pos())))
    {
      o := Env(env);
      OutcomeMeaning(input, Pos());
      forall f: File | WellFormed(f) && Render(f) == input
        ensures env == FirstWins(old(env), Bindings(f))
      {
        RunFile(f);
        assert InLanguage(input);
        assert input[..|input|] == input;
      }
    }
  }

  /** The pairs that a failed parse keeps are those of the longest file that the text it consumed starts with. */
  lemma {:induction false} KeptPairs(s: string, p: nat, q: nat, f: File)
    requires q <= p <= |s| && !At(s, p).phase.Stuck?
    requires WellFormed(f) && Render(f) == s[..q]
    requires forall r :: q < r <= p ==> !InLanguage(s[..r])
    ensures Completed(At(s, p)) == Bindings(f)
    decreases p
  {
    if p == q {
      RunFile(f);
    } else {
      OneMore(s, p - 1);
      NotAccepted(s, p);
      StepBetween(At(s, p - 1), s[p - 1]);
      KeptPairs(s, p - 1, q, f);
    }
  }

  lemma NotAccepted(s: string, p: nat)
    requires p <= |s| && !InLanguage(s[..p])
    ensures !Accepting(At(s, p))
  {
    AcceptsLanguage(s[..p]);
  }

  /** A step into the middle of something settles no pair. */
  lemma StepBetween(st: Scan, c: char)
    requires !Step(st, c).phase.Stuck? && !Accepting(Step(st, c))
    ensures !st.phase.Stuck? && Completed(Step(st, c)) == Completed(st)
  {
  }

  /** What stopping at `p` says about the text, in terms of the declarative language. */
  lemma OutcomeMeaning(s: string, p: nat)
    requires p <= |s|
    ensures Offends(s, p) ==> !InLanguage(s) && Viable(s[..p]) && (p < |s| ==> !Viable(s[..p + 1]))
    ensures p == |s| && Accepting(At(s, p)) ==> InLanguage(s)
  {
    assert s[..|s|] == s;
    AcceptsLanguage(s);
    StuckMeansHopeless(s[..p]);
    if p < |s| {
      OneMore(s, p);
      StuckMeansHopeless(s[..p + 1]);
      if InLanguage(s) {
        assert s == s[..p + 1] + s[p + 1..];
        assert Viable(s[..p + 1]);
      }
    }
  }

  /** When the keys of a file are distinct, first-wins drops none of its pairs. */
  lemma DistinctKeysSurvive(f: File)
    requires WellFormed(f) && DistinctKeys(Bindings(f))
    ensures InLanguage(Render(f))
    ensures forall i :: 0 <= i < |Bindings(f)| ==>
              var (k, v) := Bindings(f)[i]; k in FirstWins(map[], Bindings(f)) && FirstWins(map[], Bindings(f))[k] == v
    ensures forall k :: k in FirstWins(map[], Bindings(f)) ==> HasKey(Bindings(f), k)
  {
    var bs := Bindings(f);
    forall i | 0 <= i < |bs|
      ensures var (k, v) := bs[i]; k in FirstWins(map[], bs) && FirstWins(map[], bs)[k] == v
    {
      FirstWinsMeaning(map[], bs, bs[i].0);
      assert !HasKey(bs[..i], bs[i].0);
    }
    forall k | k in FirstWins(map[], bs)
      ensures HasKey(bs, k)
    {
      FirstWinsMeaning(map[], bs, k);
    }
  }

  /**
   Round trip: a file whose keys are distinct, printed with any blanks, comments and line endings,
   parses into an empty map as exactly its own pairs.
   */
  method RoundTrip(f: File) returns (o: Outcome, env: map<string, string>)
    requires WellFormed(f) && DistinctKeys(Bindings(f))
    ensures o.Fine?
    ensures forall i :: 0 <= i < |Bindings(f)| ==>
              Bindings(f)[i].0 in env && env[Bindings(f)[i].0] == Bindings(f)[i].1
    ensures forall k :: k in env ==> HasKey(Bindings(f), k)
  {
    DistinctKeysSurvive(f);
    var parser := new Parser(Render(f), map[]);
    o := parser.Parse();
    env := parser.env;
  }
}
