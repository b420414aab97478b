/** sh.c: the parser over characters, and nulterminate. */
module Shell {
  import opened Blocks
  import opened Grammar
  import Syntax

  const NUL: char := '\0'

  predicate Space(c: char) { c == ' ' || c == '\t' || c == '\r' || c == '\n' || c == '\U{B}' }
  predicate Symbol(c: char) { c in "<|>&;()" }
  predicate Ordinary(c: char) { !Space(c) && !Symbol(c) }

  ghost predicate NoNul(l: string) { forall i :: 0 <= i < |l| ==> l[i] != NUL }

  // ---- the tokens of a line ----

  function Skip(l: string, s: nat): (p: nat)
    requires s <= |l|
    ensures s <= p <= |l| && (forall i :: s <= i < p ==> Space(l[i])) && (p < |l| ==> !Space(l[p]))
    decreases |l| - s
  {
    if s < |l| && Space(l[s]) then Skip(l, s + 1) else s
  }

  function RunEnd(l: string, s: nat): (e: nat)
    requires s <= |l|
    ensures s <= e <= |l| && (forall i :: s <= i < e ==> Ordinary(l[i])) && (e < |l| ==> !Ordinary(l[e]))
    decreases |l| - s
  {
    if s < |l| && Ordinary(l[s]) then RunEnd(l, s + 1) else s
  }

  /** The token at p and where it ends. */
  function TokenAt(l: string, p: nat): (r: (Tok, nat))
    requires p < |l| && !Space(l[p])
    ensures p < r.1 <= |l|
  {
    if l[p] == '>' && p + 1 < |l| && l[p + 1] == '>' then (Sym('+'), p + 2)
    else if Symbol(l[p]) then (Sym(l[p]), p + 1)
    else (Word(Span(p, RunEnd(l, p))), RunEnd(l, p))
  }

  function Lex(l: string, s: nat): (ts: seq<Tok>)
    requires s <= |l|
    decreases |l| - s
  {
    var p := Skip(l, s);
    if p == |l| then [] else [TokenAt(l, p).0] + Lex(l, TokenAt(l, p).1)
  }

  lemma LexSkips(l: string, s: nat, p: nat)
    requires s <= |l| && s <= p <= Skip(l, s)
    ensures Skip(l, p) == Skip(l, s) && Lex(l, p) == Lex(l, s)
    decreases p - s
  {
    if s < p {
      LexSkips(l, s + 1, p);
    }
  }

  // ---- words are maximal runs of ordinary characters ----

  ghost predicate IsRun(l: string, w: Span)
  {
    && w.q < w.e <= |l| && (forall i :: w.q <= i < w.e ==> Ordinary(l[i]))
    && (w.q == 0 || !Ordinary(l[w.q - 1])) && (w.e == |l| || !Ordinary(l[w.e]))
  }

  /** No word lies across s. */
  ghost predicate Boundary(l: string, s: nat) { s == 0 || s >= |l| || !Ordinary(l[s]) || !Ordinary(l[s - 1]) }

  /** The words among the tokens from s on are the maximal runs there, each once. */
  lemma {:induction false} WordsAreRuns(l: string, s: nat, w: Span)
    requires s <= |l| && Boundary(l, s)
    ensures TokWords(Lex(l, s))[w] == if IsRun(l, w) && s <= w.q then 1 else 0
    decreases |l| - s
  {
    hide Ordinary;
    var p := Skip(l, s);
    if p < |l| {
      var (t, e) := TokenAt(l, p);
      AfterToken(l, s);
      WordsAreRuns(l, e, w);
      var ts := Lex(l, s);
      assert ts[0] == t && ts[1..] == Lex(l, e);
      if IsRun(l, w) && s <= w.q < e {
        RunHere(l, s, w);
      }
    } else {
      SpaceIsNotOrdinary(l, s);
      assert IsRun(l, w) ==> Ordinary(l[w.q]);
    }
  }

  lemma AfterToken(l: string, s: nat)
    requires s <= |l| && Boundary(l, s) && Skip(l, s) < |l|
    ensures var (t, e) := TokenAt(l, Skip(l, s));
      Boundary(l, e) && (t.Word? ==> IsRun(l, t.span) && s <= t.span.q < e)
  {
  }

  lemma SpaceIsNotOrdinary(l: string, s: nat)
    requires s <= |l| && Skip(l, s) == |l|
    ensures forall i :: s <= i < |l| ==> !Ordinary(l[i])
  {
  }

  /** The first run from s on is the token there. */
  lemma RunHere(l: string, s: nat, w: Span)
    requires s <= |l| && Boundary(l, s) && IsRun(l, w) && s <= w.q && Skip(l, s) < |l| && w.q < TokenAt(l, Skip(l, s)).1
    ensures TokenAt(l, Skip(l, s)).0 == Word(w)
  {
    var p := Skip(l, s);
    assert Ordinary(l[w.q]);
    assert w.q >= p;
    assert !Symbol(l[p]);
    assert w.q == 0 || !Ordinary(l[w.q - 1]);
  }

  // ---- lines and the commands they spell ----

  /** White space, and what a word is made of, character by character. */
  predicate Blank(c: char) { c in " \t\r\n\U{B}" }
  predicate Plain(c: char) { c !in " \t\r\n\U{B}<|>&;()" }

  /** From s on the next token is t, on characters p to e, with nothing but white space before. */
  ghost predicate WrittenAt(l: string, s: nat, p: nat, e: nat, t: Tok)
  {
    && s <= p < e <= |l| && (forall i :: s <= i < p ==> Blank(l[i]))
    && match t
       case Word(w) => w == Span(p, e) && (forall i :: p <= i < e ==> Plain(l[i])) && (e == |l| || !Plain(l[e]))
       case Sym(c) =>
         if c == '+' then l[p..e] == ">>"
         else if c == '>' then l[p..e] == ">" && (e == |l| || l[e] != '>')
         else c in "<|&;()" && l[p..e] == [c]
  }

  /** From s on the line is these tokens, with any white space between them and at the end. */
  ghost predicate Spelled(l: string, s: nat, ts: seq<Tok>)
    decreases |ts|
  {
    && s <= |l|
    && if ts == [] then forall i :: s <= i < |l| ==> Blank(l[i])
       else exists p: nat, e: nat :: WrittenAt(l, s, p, e, ts[0]) && Spelled(l, e, ts[1..])
  }

  lemma CharKinds(c: char)
    ensures (Blank(c) <==> Space(c)) && (Plain(c) <==> Ordinary(c))
    ensures c in "<|&;()" ==> Symbol(c) && !Blank(c)
    ensures c == '>' ==> Symbol(c) && !Blank(c)
    ensures Symbol(c) && c != '>' ==> c in "<|&;()"
  {
  }

  lemma KindsOf(l: string)
    ensures forall i :: 0 <= i < |l| ==> (Blank(l[i]) <==> Space(l[i])) && (Plain(l[i]) <==> Ordinary(l[i]))
  {
    forall i | 0 <= i < |l| ensures (Blank(l[i]) <==> Space(l[i])) && (Plain(l[i]) <==> Ordinary(l[i])) {
      CharKinds(l[i]);
    }
  }

  lemma TokenIsWritten(l: string, s: nat)
    requires s <= |l| && Skip(l, s) < |l|
    ensures var p := Skip(l, s); WrittenAt(l, s, p, TokenAt(l, p).1, TokenAt(l, p).0)
  {
    hide Ordinary, Space, Blank, Plain, Symbol;
    KindsOf(l);
    var p := Skip(l, s);
    CharKinds(l[p]);
    RunStarts(l, p);
  }

  lemma RunStarts(l: string, p: nat)
    requires p < |l| && !Space(l[p])
    ensures !Symbol(l[p]) ==> Ordinary(l[p]) && p < RunEnd(l, p)
  {
  }

  lemma WrittenIsToken(l: string, s: nat, p: nat, e: nat, t: Tok)
    requires WrittenAt(l, s, p, e, t)
    ensures Skip(l, s) == p && TokenAt(l, p) == (t, e)
  {
    hide Ordinary, Space, Blank, Plain, Symbol;
    KindsOf(l);
    CharKinds(l[p]);
    assert l[p..e][0] == l[p];
    FirstIs(l, s, p, t);
    SkipsTo(l, s, p);
    if t.Word? {
      EndsThere(l, p, e);
    } else if t.c == '+' {
      assert l[p..e][1] == l[p + 1];
    }
  }

  lemma FirstIs(l: string, s: nat, p: nat, t: Tok)
    requires p < |l| && (if t.Word? then Plain(l[p]) else if t.c == '+' then l[p] == '>' else l[p] == t.c)
    requires t.Sym? && t.c != '+' ==> t.c == '>' || t.c in "<|&;()"
    ensures !Space(l[p]) && (t.Sym? <==> Symbol(l[p]))
  {
  }

  lemma {:induction false} SkipsTo(l: string, s: nat, p: nat)
    requires s <= p < |l| && (forall i :: s <= i < p ==> Space(l[i])) && !Space(l[p])
    ensures Skip(l, s) == p
    decreases p - s
  {
    hide Space;
    if s < p {
      SkipsTo(l, s + 1, p);
    }
  }

  lemma {:induction false} EndsThere(l: string, p: nat, e: nat)
    requires p <= e <= |l| && (forall i :: p <= i < e ==> Ordinary(l[i])) && (e == |l| || !Ordinary(l[e]))
    ensures RunEnd(l, p) == e
    decreases e - p
  {
    hide Ordinary;
    if p < e {
      EndsThere(l, p + 1, e);
    }
  }

  lemma {:induction false} LexIsSpelled(l: string, s: nat)
    requires s <= |l|
    ensures Spelled(l, s, Lex(l, s))
    decreases |l| - s
  {
    hide TokenAt, WrittenAt, Blank, Space;
    KindsOf(l);
    var p := Skip(l, s);
    if p < |l| {
      var ts, e := Lex(l, s), TokenAt(l, p).1;
      TokenIsWritten(l, s);
      LexIsSpelled(l, e);
      assert ts[1..] == Lex(l, e);
      assert WrittenAt(l, s, p, e, ts[0]) && Spelled(l, e, ts[1..]);
    }
  }

  lemma {:induction false} SpelledIsLex(l: string, s: nat, ts: seq<Tok>)
    requires Spelled(l, s, ts)
    ensures ts == Lex(l, s)
    decreases |ts|
  {
    hide TokenAt, WrittenAt, Blank, Space;
    KindsOf(l);
    if ts != [] {
      var p, e: nat :| WrittenAt(l, s, p, e, ts[0]) && Spelled(l, e, ts[1..]);
      WrittenIsToken(l, s, p, e, ts[0]);
      SpelledIsLex(l, e, ts[1..]);
      assert ts == [ts[0]] + ts[1..];
      InLine(l, s, p, e, ts[0]);
    }
  }

  lemma InLine(l: string, s: nat, p: nat, e: nat, t: Tok)
    requires WrittenAt(l, s, p, e, t)
    ensures s <= p < e <= |l|
  {
  }

  /** Lexing reads off what is written, and nothing else can be read. */
  lemma LexesExactly(l: string, ts: seq<Tok>)
    ensures Spelled(l, 0, ts) <==> ts == Lex(l, 0)
  {
    hide Spelled, Lex;
    LexIsSpelled(l, 0);
    if Spelled(l, 0, ts) {
      SpelledIsLex(l, 0, ts);
    }
  }

  /** Line l is a way to write command c. */
  ghost predicate Writes(l: string, c: Cmd)
  {
    exists t :: Syntax.Allowed(t) && Spelled(l, 0, Syntax.LineToks(t)) && Syntax.LineMeans(t) == c
  }

  /** The parser over characters is exact. */
  lemma LineMeansExactly(l: string, c: Cmd)
    ensures Parse(Lex(l, 0)) == Ok(c, []) <==> Writes(l, c)
  {
    hide Parse, Lex, Spelled, Syntax.Allowed, Syntax.LineToks, Syntax.LineMeans;
    var ts := Lex(l, 0);
    Syntax.ParsesExactly(ts, c);
    if Parse(ts) == Ok(c, []) {
      var t :| Syntax.Allowed(t) && Syntax.LineToks(t) == ts && Syntax.LineMeans(t) == c;
      LexesExactly(l, Syntax.LineToks(t));
    }
    if t :| Syntax.Allowed(t) && Spelled(l, 0, Syntax.LineToks(t)) && Syntax.LineMeans(t) == c {
      LexesExactly(l, Syntax.LineToks(t));
      Syntax.TreeParses(t);
    }
  }

  // ---- the parser ----

  /** The character peek sees. */
  function First(t: Tok): char { if t.Word? then 'a' else if t.c == '+' then '>' else t.c }

  /** The parser's answer and the tokens it left are what the grammar says. */
  ghost predicate Agrees(x: Result<Cmd>, r: Option<Cmd>, rest: seq<Tok>)
  {
    if x.Fail? then r.None? else r == Some(x.value) && rest == x.rest
  }

  class Parser {
    const line: string
    var s: nat

    ghost predicate Valid()
      reads this
    {
      s <= |line| && NoNul(line)
    }

    /** The tokens not read yet. */
    ghost function Rest(): seq<Tok>
      reads this
      requires s <= |line|
    {
      Lex(line, s)
    }

    constructor (l: string)
      requires NoNul(l)
      ensures Valid() && line == l && s == 0
    {
      line, s := l, 0;
    }

    /** `*p`, which is NUL at the end of the line. */
    function At(p: nat): char { if p < |line| then line[p] else NUL }

    method SkipSpace(p0: nat) returns (p: nat)
      requires Valid() && p0 <= |line|
      ensures p == Skip(line, p0)
    {
      p := p0;
      while p < |line| && Space(line[p])
        invariant p0 <= p <= |line| && Skip(line, p) == Skip(line, p0)
      {
        p := p + 1;
      }
    }

    method Gettoken() returns (tok: char, q: nat, eq: nat)
      requires Valid()
      modifies this
      ensures Valid() && old(s) <= s
      ensures old(Rest()) == [] ==> tok == NUL && Rest() == []
      ensures old(Rest()) != [] ==> s > old(s) && Rest() == old(Rest())[1..]
      ensures old(Rest()) != [] ==> old(Rest())[0] == if tok == 'a' then Word(Span(q, eq)) else Sym(tok)
      ensures old(Rest()) != [] ==> tok != NUL
    {
      hide Ordinary;
      var p := SkipSpace(s);
      q := p;
      tok := At(p);
      if tok == NUL {
      } else if tok == '|' || tok == '(' || tok == ')' || tok == ';' || tok == '&' || tok == '<' {
        p := p + 1;
      } else if tok == '>' {
        p := p + 1;
        if At(p) == '>' {
          tok := '+';
          p := p + 1;
        }
      } else {
        tok := 'a';
        while p < |line| && Ordinary(line[p])
          invariant q <= p <= |line| && RunEnd(line, p) == RunEnd(line, q)
        {
          p := p + 1;
        }
      }
      eq := p;
      assert q < |line| ==> p == TokenAt(line, q).1 && TokenAt(line, q).0 == if tok == 'a' then Word(Span(q, p))
                                                                             else Sym(tok);
      ghost var end := p;
      p := SkipSpace(p);
      LexSkips(line, end, p);
      LexSkips(line, s, q);
      s := p;
    }

    method Peek(toks: string) returns (b: bool)
      requires Valid() && forall c :: c in toks ==> Symbol(c)
      modifies this
      ensures Valid() && old(s) <= s == Skip(line, old(s)) && Rest() == old(Rest())
      ensures b <==> Rest() != [] && Rest()[0].Sym? && First(Rest()[0]) in toks
    {
      var p := SkipSpace(s);
      LexSkips(line, s, p);
      s := p;
      return At(s) != NUL && At(s) in toks;
    }

    /** parseredirs, as the redirections it adds. */
    method Parseredirs() returns (r: Option<seq<Redir>>)
      requires Valid()
      modifies this
      ensures Valid() && old(s) <= s
      ensures var x := Redirs(old(Rest())); r == if x.Ok? then Some(x.value) else None
      ensures r.Some? ==> Rest() == Redirs(old(Rest())).rest
    {
      hide Lex;
      var rs: seq<Redir> := [];
      ghost var ts := Rest();
      assert Redirs(ts).Ok? ==> rs + Redirs(ts).value == Redirs(ts).value;
      var more := Peek("<>");
      while more
        invariant Valid() && old(s) <= s
        invariant more <==> Rest() != [] && Rest()[0].IsRedir()
        invariant var x := Redirs(Rest()); Redirs(ts) == if x.Fail? then Fail else Ok(rs + x.value, x.rest)
        decreases |line| - s
      {
        ghost var before := Rest();
        var tok, q, eq := Gettoken();
        ghost var middle := Rest();
        assert before[1..] == middle;
        var t, q', eq' := Gettoken();
        if t != 'a' {
          return None;
        }
        assert before[2..] == Rest();
        var redir := if tok == '<' then Redir(Span(q', eq'), Read, 0) else Redir(Span(q', eq'), Create, 1);
        RedirsStep(before, rs);
        rs := rs + [redir];
        more := Peek("<>");
      }
      assert rs + [] == rs;
      return Some(rs);
    }

    /** parseexec. */
    method Parseexec() returns (r: Option<Cmd>)
      requires Valid()
      modifies this
      ensures Valid() && old(s) <= s
      ensures Agrees(Command(old(Rest())), r, Rest())
      decreases |line| - s, 2
    {
      hide Lex, Redirs, Args, Wrap, Parenthesized;
      ghost var ts := Rest();
      var block := Peek("(");
      if block {
        r := Parseblock();
        return;
      }
      var rs := Parseredirs();
      if rs.None? {
        return None;
      }
      var args, all := [], rs.value;
      var stop := Peek("|)&;");
      while !stop
        invariant Valid() && old(s) <= s
        invariant stop <==> Rest() != [] && Rest()[0].Ends()
        invariant Args(args, all, Rest()) == Command(ts) && |args| < MAXARGS
        decreases |line| - s, !stop
      {
        ghost var before := Rest();
        ArgsStep(args, all, before);
        var tok, q, eq := Gettoken();
        if tok == NUL {
          break;
        }
        if tok != 'a' {
          return None;
        }
        args := args + [Span(q, eq)];
        if |args| >= MAXARGS {
          return None;
        }
        rs := Parseredirs();
        if rs.None? {
          return None;
        }
        all := all + rs.value;
        stop := Peek("|)&;");
      }
      ArgsEnd(args, all, Rest());
      return Some(Wrap(Exec(args), all));
    }

    /** parseblock. */
    method Parseblock() returns (r: Option<Cmd>)
      requires Valid() && Rest() != [] && Rest()[0] == Sym('(')
      modifies this
      ensures Valid() && old(s) <= s
      ensures Agrees(Parenthesized(old(Rest())), r, Rest())
      decreases |line| - s, 1
    {
      hide Lex, Redirs, Line, Wrap;
      var tok, q, eq := Gettoken();
      var c := Parseline();
      if c.None? {
        return None;
      }
      var close := Peek(")");
      if !close {
        return None;
      }
      tok, q, eq := Gettoken();
      var rs := Parseredirs();
      return if rs.None? then None else Some(Wrap(c.value, rs.value));
    }

    /** parsepipe. */
    method Parsepipe() returns (r: Option<Cmd>)
      requires Valid()
      modifies this
      ensures Valid() && old(s) <= s
      ensures Agrees(Pipeline(old(Rest())), r, Rest())
      decreases |line| - s, 3
    {
      hide Lex, Command;
      r := Parseexec();
      if r.None? {
        return None;
      }
      var pipe := Peek("|");
      if pipe {
        var tok, q, eq := Gettoken();
        var right := Parsepipe();
        r := if right.None? then None else Some(Pipe(r.value, right.value));
      }
    }

    /** parseline. */
    method Parseline() returns (r: Option<Cmd>)
      requires Valid()
      modifies this
      ensures Valid() && old(s) <= s
      ensures Agrees(Line(old(Rest())), r, Rest())
      decreases |line| - s, 4
    {
      hide Lex, Pipeline;
      ghost var ts := Rest();
      r := Parsepipe();
      if r.None? {
        return None;
      }
      var cmd, back := r.value, false;
      back := Peek("&");
      while back
        invariant Valid() && old(s) <= s
        invariant back <==> Rest() != [] && Rest()[0] == Sym('&')
        invariant Backs(cmd, Rest()) == Backs(Pipeline(ts).value, Pipeline(ts).rest)
        decreases |line| - s
      {
        var tok, q, eq := Gettoken();
        cmd := Back(cmd);
        back := Peek("&");
      }
      var semi := Peek(";");
      if semi {
        var tok, q, eq := Gettoken();
        var right := Parseline();
        return if right.None? then None else Some(List(cmd, right.value));
      }
      return Some(cmd);
    }
  }

  lemma ArgsStep(args: seq<Span>, rs: seq<Redir>, ts: seq<Tok>)
    requires !(ts != [] && ts[0].Ends()) && |args| < MAXARGS
    ensures ts != [] && !ts[0].Word? ==> Args(args, rs, ts).Fail?
    ensures ts != [] && |args| + 1 >= MAXARGS ==> Args(args, rs, ts).Fail?
    ensures ts != [] && ts[0].Word? && |args| + 1 < MAXARGS ==>
      var x := Redirs(ts[1..]);
      Args(args, rs, ts) == if x.Fail? then Fail else Args(args + [ts[0].span], rs + x.value, x.rest)
  {
  }

  lemma ArgsEnd(args: seq<Span>, rs: seq<Redir>, ts: seq<Tok>)
    requires ts == [] || ts[0].Ends()
    ensures Args(args, rs, ts) == Ok(Wrap(Exec(args), rs), ts)
  {
  }

  lemma RedirsStep(ts: seq<Tok>, rs: seq<Redir>)
    requires |ts| > 1 && ts[0].IsRedir() && ts[1].Word?
    ensures var x, y := Redirs(ts), Redirs(ts[2..]);
      if y.Fail? then x.Fail?
      else x.Ok? && x.rest == y.rest && rs + x.value == rs + [RedirOf(ts[0], ts[1].span)] + y.value
  {
  }

  // ---- nulterminate ----

  /** The C string at q. */
  function CString(b: seq<char>, q: nat): (r: string)
    ensures NoNul(r) && (q <= |b| ==> q + |r| <= |b| && r == b[q..q + |r|] && (q + |r| < |b| ==> b[q + |r|] == NUL))
    decreases |b| - q
  {
    if q >= |b| || b[q] == NUL then [] else [b[q]] + CString(b, q + 1)
  }

  lemma {:induction false} CStringIs(b: seq<char>, q: nat, e: nat)
    requires q <= e < |b| && b[e] == NUL && forall i :: q <= i < e ==> b[i] != NUL
    ensures CString(b, q) == b[q..e]
    decreases e - q
  {
    if q < e {
      CStringIs(b, q + 1, e);
    }
  }

  /** A word of c ends at i. */
  ghost predicate EndsAt(c: Cmd, i: int) { exists w :: w in Words(c) && w.e == i }

  /** b' is b with a NUL behind every word of c. */
  ghost predicate Nulled(b: seq<char>, b': seq<char>, c: Cmd)
  {
    |b'| == |b| && forall i :: 0 <= i < |b| ==> b'[i] == if EndsAt(c, i) then NUL else b[i]
  }

  method NulterminateArgs(buf: array<char>, args: seq<Span>)
    requires forall w :: w in args ==> w.e < buf.Length
    modifies buf
    ensures Nulled(old(buf[..]), buf[..], Exec(args))
  {
    var i := 0;
    while i < |args|
      invariant 0 <= i <= |args|
      invariant forall j :: 0 <= j < buf.Length ==> buf[j] == if (exists k :: 0 <= k < i && args[k].e == j) then NUL
                                                              else old(buf[j])
    {
      buf[args[i].e] := NUL;
      i := i + 1;
    }
    forall j | 0 <= j < buf.Length ensures EndsAt(Exec(args), j) <==> exists k :: 0 <= k < |args| && args[k].e == j {
      ArgEnds(args, j);
    }
  }

  method Nulterminate(buf: array<char>, c: Cmd)
    requires forall w :: w in Words(c) ==> w.e < buf.Length
    modifies buf
    ensures Nulled(old(buf[..]), buf[..], c)
    decreases c
  {
    hide EndsAt;
    WordsOfParts(c);
    match c
    case Exec(args) =>
      NulterminateArgs(buf, args);
    case Redirected(c', r) =>
      Nulterminate(buf, c');
      buf[r.file.e] := NUL;
    case Pipe(l, r) =>
      Nulterminate(buf, l);
      Nulterminate(buf, r);
    case List(l, r) =>
      Nulterminate(buf, l);
      Nulterminate(buf, r);
    case Back(c') =>
      Nulterminate(buf, c');
  }

  lemma WordsOfParts(c: Cmd)
    ensures c.Exec? ==> forall w :: w in c.args ==> w in Words(c)
    ensures c.Redirected? ==> c.redir.file in Words(c) && forall i :: EndsAt(c, i) <==>
      EndsAt(c.cmd, i) || i == c.redir.file.e
    ensures c.Pipe? || c.List? ==> forall i :: EndsAt(c, i) <==> EndsAt(c.left, i) || EndsAt(c.right, i)
    ensures c.Back? ==> forall i :: EndsAt(c, i) <==> EndsAt(c.cmd, i)
  {
    if c.Redirected? {
      assert c.redir.file in Words(c);
    }
  }

  lemma ArgEnds(args: seq<Span>, j: int)
    ensures EndsAt(Exec(args), j) <==> exists k :: 0 <= k < |args| && args[k].e == j
  {
    if k :| 0 <= k < |args| && args[k].e == j {
      assert args[k] in Words(Exec(args));
    }
    if EndsAt(Exec(args), j) {
      var w :| w in Words(Exec(args)) && w.e == j;
      assert w in args;
    }
  }

  /** Each word of line l is a string of its own in b. */
  ghost predicate Terminated(l: string, b: seq<char>)
  {
    forall w :: IsRun(l, w) ==> CString(b, w.q) == l[w.q..w.e]
  }

  /** No word ends inside another. */
  lemma NoEndInside(l: string, c: Cmd, w: Span, i: nat)
    requires (forall w :: w in Words(c) <==> IsRun(l, w)) && IsRun(l, w) && w.q <= i < w.e
    ensures !EndsAt(c, i)
  {
    assert Ordinary(l[i]);
    hide Ordinary;
    forall w' | w' in Words(c) ensures w'.e != i {
      assert IsRun(l, w');
    }
  }

  /** NULs behind the words of a line leave each word a string of its own. */
  lemma WordStrings(l: string, b: seq<char>, b': seq<char>, c: Cmd)
    requires NoNul(l) && |b| == |b'| && |l| < |b| && l == b[..|l|] && b[|l|] == NUL
    requires forall w :: w in Words(c) <==> IsRun(l, w)
    requires Nulled(b, b', c)
    ensures Terminated(l, b')
  {
    hide Ordinary, Words, CString;
    forall w | IsRun(l, w) ensures CString(b', w.q) == l[w.q..w.e] {
      assert w in Words(c);
      assert EndsAt(c, w.e) && b'[w.e] == NUL;
      forall i | w.q <= i < w.e ensures b'[i] == l[i] {
        NoEndInside(l, c, w, i);
        assert b[i] == b[..|l|][i];
      }
      OneString(l, b', w);
    }
  }

  lemma OneString(l: string, b: seq<char>, w: Span)
    requires NoNul(l) && |l| < |b| && w.q <= w.e <= |l| && b[w.e] == NUL && forall i :: w.q <= i < w.e ==> b[i] == l[i]
    ensures CString(b, w.q) == l[w.q..w.e]
  {
    CStringIs(b, w.q, w.e);
    assert b[w.q..w.e] == l[w.q..w.e];
  }

  method Strlen(buf: array<char>) returns (n: nat)
    requires NUL in buf[..]
    ensures n < buf.Length && buf[n] == NUL && buf[..n] == CString(buf[..], 0)
  {
    n := 0;
    ghost var k :| 0 <= k < buf.Length && buf[k] == NUL;
    while buf[n] != NUL
      invariant n <= k && forall i :: 0 <= i < n ==> buf[i] != NUL
      decreases k - n
    {
      n := n + 1;
    }
    CStringIs(buf[..], 0, n);
  }

  /** parsecmd: the command the line is a way to write, or none if it is no way to write any;
      every word of the line occurs in it once, and is a NUL-terminated string in the buffer. */
  method Parsecmd(buf: array<char>) returns (r: Option<Cmd>)
    requires NUL in buf[..]
    modifies buf
    ensures var l := CString(old(buf[..]), 0);
      && r == (match Parse(Lex(l, 0)) case Fail => None case Ok(c, _) => Some(c))
      && (forall c :: r == Some(c) <==> Writes(l, c))
      && (r.Some? ==> forall w :: Words(r.value)[w] == if IsRun(l, w) then 1 else 0)
      && (r.Some? ==> Terminated(l, buf[..]))
  {
    hide Line, Lex, IsRun, Writes;
    var n := Strlen(buf);
    var l := buf[..n];
    forall c ensures Parse(Lex(l, 0)) == Ok(c, []) <==> Writes(l, c) {
      LineMeansExactly(l, c);
    }
    var p := new Parser(l);
    ghost var b := buf[..];
    var c := p.Parseline();
    if c.None? {
      return None;
    }
    var none := p.Peek("");
    LexEmpty(l, p.s);
    if p.s != |l| {
      return None;
    }
    forall w ensures Words(c.value)[w] == if IsRun(l, w) then 1 else 0 {
      LineWords(Lex(l, 0));
      WordsAreRuns(l, 0, w);
    }
    forall w | w in Words(c.value) ensures w.e < buf.Length {
      RunEnds(l, w);
    }
    Nulterminate(buf, c.value);
    WordStrings(l, b, buf[..], c.value);
    return c;
  }

  lemma RunEnds(l: string, w: Span)
    requires IsRun(l, w)
    ensures w.q <= w.e <= |l|
  {
  }

  lemma LexEmpty(l: string, s: nat)
    requires s <= |l| && s == Skip(l, s)
    ensures Lex(l, s) == [] <==> s == |l|
  {
  }
}
