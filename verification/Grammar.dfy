/** The command language of sh.c over tokens, as its parser goes through a line. */
module Grammar {

  const MAXARGS := 10

  /** Characters q to e of the line. */
  datatype Span = Span(q: nat, e: nat)

  /** A word, or one of `| ( ) ; & < >`, with '+' for `>>`. */
  datatype Tok = Word(span: Span) | Sym(c: char)
  {
    predicate IsRedir() { Sym? && (c == '<' || c == '>' || c == '+') }
    predicate Ends() { Sym? && (c == '|' || c == ')' || c == '&' || c == ';') }
  }

  datatype Mode = Read | Create

  datatype Redir = Redir(file: Span, mode: Mode, fd: nat)

  datatype Cmd =
    | Exec(args: seq<Span>)
    | Redirected(cmd: Cmd, redir: Redir)
    | Pipe(left: Cmd, right: Cmd)
    | List(left: Cmd, right: Cmd)
    | Back(cmd: Cmd)

  datatype Result<+T> = Fail | Ok(value: T, rest: seq<Tok>)

  function RedirOf(t: Tok, file: Span): Redir
    requires t.IsRedir()
  {
    if t.c == '<' then Redir(file, Read, 0) else Redir(file, Create, 1)
  }

  function Wrap(c: Cmd, rs: seq<Redir>): Cmd
  {
    if rs == [] then c else Redirected(Wrap(c, rs[..|rs| - 1]), rs[|rs| - 1])
  }

  // ---- parsing ----

  /** parseredirs, as the redirections it adds. */
  function Redirs(ts: seq<Tok>): (r: Result<seq<Redir>>)
    ensures r.Ok? ==> |r.rest| <= |ts| && (r.rest != [] ==> !r.rest[0].IsRedir())
  {
    if ts == [] || !ts[0].IsRedir() then Ok([], ts)
    else if |ts| == 1 || !ts[1].Word? then Fail
    else
      var r := Redirs(ts[2..]);
      if r.Fail? then Fail else Ok([RedirOf(ts[0], ts[1].span)] + r.value, r.rest)
  }

  /** parseexec's loop. */
  function Args(args: seq<Span>, rs: seq<Redir>, ts: seq<Tok>): (r: Result<Cmd>)
    ensures r.Ok? ==> |r.rest| <= |ts| && (r.rest != [] ==> r.rest[0].Ends())
    decreases |ts|
  {
    if ts == [] || ts[0].Ends() then Ok(Wrap(Exec(args), rs), ts)
    else if !ts[0].Word? || |args| + 1 >= MAXARGS then Fail
    else
      var r := Redirs(ts[1..]);
      if r.Fail? then Fail else Args(args + [ts[0].span], rs + r.value, r.rest)
  }

  function Backs(c: Cmd, ts: seq<Tok>): (r: Result<Cmd>)
    ensures r.Ok? && |r.rest| <= |ts| && (r.rest != [] ==> r.rest[0] != Sym('&'))
    decreases |ts|
  {
    if ts != [] && ts[0] == Sym('&') then Backs(Back(c), ts[1..]) else Ok(c, ts)
  }

  function Line(ts: seq<Tok>): (r: Result<Cmd>)
    ensures r.Ok? ==> |r.rest| <= |ts|
    decreases |ts|, 4
  {
    var p := Pipeline(ts);
    if p.Fail? then Fail
    else
      var b := Backs(p.value, p.rest);
      if b.rest != [] && b.rest[0] == Sym(';') then
        var l := Line(b.rest[1..]);
        if l.Fail? then Fail else Ok(List(b.value, l.value), l.rest)
      else b
  }

  function Pipeline(ts: seq<Tok>): (r: Result<Cmd>)
    ensures r.Ok? ==> |r.rest| <= |ts|
    decreases |ts|, 3
  {
    var e := Command(ts);
    if e.Fail? then Fail
    else if e.rest != [] && e.rest[0] == Sym('|') then
      var p := Pipeline(e.rest[1..]);
      if p.Fail? then Fail else Ok(Pipe(e.value, p.value), p.rest)
    else e
  }

  function Command(ts: seq<Tok>): (r: Result<Cmd>)
    ensures r.Ok? ==> |r.rest| <= |ts|
    decreases |ts|, 2
  {
    if ts != [] && ts[0] == Sym('(') then Parenthesized(ts)
    else
      var rs := Redirs(ts);
      if rs.Fail? then Fail else Args([], rs.value, rs.rest)
  }

  function Parenthesized(ts: seq<Tok>): (r: Result<Cmd>)
    requires ts != [] && ts[0] == Sym('(')
    ensures r.Ok? ==> |r.rest| < |ts|
    decreases |ts|, 1
  {
    var l := Line(ts[1..]);
    if l.Fail? || l.rest == [] || l.rest[0] != Sym(')') then Fail
    else
      var rs := Redirs(l.rest[1..]);
      if rs.Fail? then Fail else Ok(Wrap(l.value, rs.value), rs.rest)
  }

  /** parsecmd: a whole line, or None where it panics. */
  function Parse(ts: seq<Tok>): Result<Cmd>
  {
    var r := Line(ts);
    if r.Ok? && r.rest == [] then r else Fail
  }

  // ---- every word has its place ----

  function Words(c: Cmd): multiset<Span>
  {
    match c
    case Exec(args) => multiset(args)
    case Redirected(c', r) => Words(c') + multiset{r.file}
    case Pipe(l, r) => Words(l) + Words(r)
    case List(l, r) => Words(l) + Words(r)
    case Back(c') => Words(c')
  }

  function TokWords(ts: seq<Tok>): multiset<Span>
  {
    if ts == [] then multiset{} else (if ts[0].Word? then multiset{ts[0].span} else multiset{}) + TokWords(ts[1..])
  }

  function FileSeq(rs: seq<Redir>): (fs: seq<Span>)
    ensures |fs| == |rs| && forall k :: 0 <= k < |rs| ==> fs[k] == rs[k].file
  {
    seq(|rs|, k requires 0 <= k < |rs| => rs[k].file)
  }

  function Files(rs: seq<Redir>): multiset<Span> { multiset(FileSeq(rs)) }

  lemma FilesConcat(a: seq<Redir>, b: seq<Redir>)
    ensures Files(a + b) == Files(a) + Files(b)
  {
    assert FileSeq(a + b) == FileSeq(a) + FileSeq(b);
  }

  lemma {:induction false} WrapWords(c: Cmd, rs: seq<Redir>)
    ensures Words(Wrap(c, rs)) == Words(c) + Files(rs)
  {
    if rs != [] {
      var n := |rs| - 1;
      WrapWords(c, rs[..n]);
      assert FileSeq(rs) == FileSeq(rs[..n]) + [rs[n].file];
    }
  }

  lemma {:induction false} RedirsWords(ts: seq<Tok>)
    ensures Redirs(ts).Ok? ==> TokWords(ts) == Files(Redirs(ts).value) + TokWords(Redirs(ts).rest)
  {
    if ts != [] && ts[0].IsRedir() && |ts| > 1 && ts[1].Word? {
      var r := Redirs(ts[2..]);
      RedirsWords(ts[2..]);
      if r.Ok? {
        var one := [RedirOf(ts[0], ts[1].span)];
        FilesConcat(one, r.value);
        assert ts[1..][1..] == ts[2..];
        assert FileSeq(one) == [ts[1].span];
      }
    }
  }

  lemma {:induction false} ArgsWords(args: seq<Span>, rs: seq<Redir>, ts: seq<Tok>)
    ensures Args(args, rs, ts).Ok? ==>
      multiset(args) + Files(rs) + TokWords(ts) == Words(Args(args, rs, ts).value) + TokWords(Args(args, rs, ts).rest)
    decreases |ts|
  {
    if ts == [] || ts[0].Ends() {
      WrapWords(Exec(args), rs);
    } else if ts[0].Word? && |args| + 1 < MAXARGS && Redirs(ts[1..]).Ok? {
      var r := Redirs(ts[1..]);
      RedirsWords(ts[1..]);
      FilesConcat(rs, r.value);
      ArgsWords(args + [ts[0].span], rs + r.value, r.rest);
    }
  }

  lemma {:induction false} BacksWords(c: Cmd, ts: seq<Tok>)
    ensures Words(c) + TokWords(ts) == Words(Backs(c, ts).value) + TokWords(Backs(c, ts).rest)
    decreases |ts|
  {
    if ts != [] && ts[0] == Sym('&') {
      BacksWords(Back(c), ts[1..]);
    }
  }

  /** Every word of a line that parses is an argument or a file of the command, once. */
  lemma {:induction false} LineWords(ts: seq<Tok>)
    ensures Line(ts).Ok? ==> TokWords(ts) == Words(Line(ts).value) + TokWords(Line(ts).rest)
    decreases |ts|, 4
  {
    hide Pipeline, Backs;
    PipelineWords(ts);
    var p := Pipeline(ts);
    if p.Ok? {
      BacksWords(p.value, p.rest);
      var b := Backs(p.value, p.rest);
      if b.rest != [] && b.rest[0] == Sym(';') {
        LineWords(b.rest[1..]);
      }
    }
  }

  lemma {:induction false} PipelineWords(ts: seq<Tok>)
    ensures Pipeline(ts).Ok? ==> TokWords(ts) == Words(Pipeline(ts).value) + TokWords(Pipeline(ts).rest)
    decreases |ts|, 3
  {
    hide Command;
    CommandWords(ts);
    var e := Command(ts);
    if e.Ok? && e.rest != [] && e.rest[0] == Sym('|') {
      PipelineWords(e.rest[1..]);
    }
  }

  lemma {:induction false} CommandWords(ts: seq<Tok>)
    ensures Command(ts).Ok? ==> TokWords(ts) == Words(Command(ts).value) + TokWords(Command(ts).rest)
    decreases |ts|, 2
  {
    if ts != [] && ts[0] == Sym('(') {
      LineWords(ts[1..]);
      var l := Line(ts[1..]);
      if l.Ok? && l.rest != [] && l.rest[0] == Sym(')') && Redirs(l.rest[1..]).Ok? {
        RedirsWords(l.rest[1..]);
        WrapWords(l.value, Redirs(l.rest[1..]).value);
      }
    } else {
      RedirsWords(ts);
      if Redirs(ts).Ok? {
        ArgsWords([], Redirs(ts).value, Redirs(ts).rest);
      }
    }
  }

  // ---- the trees the parser makes ----

  /** At most nine arguments, and redirections as `<`, `>` and `>>` make them. */
  predicate Proper(c: Cmd)
  {
    match c
    case Exec(args) => |args| < MAXARGS
    case Redirected(c', r) => Proper(c') && ProperRedir(r)
    case Pipe(l, r) => Proper(l) && Proper(r)
    case List(l, r) => Proper(l) && Proper(r)
    case Back(c') => Proper(c')
  }

  predicate ProperRedir(r: Redir) { r.fd == if r.mode.Read? then 0 else 1 }

  lemma {:induction false} WrapProper(c: Cmd, rs: seq<Redir>)
    requires Proper(c) && forall k :: 0 <= k < |rs| ==> ProperRedir(rs[k])
    ensures Proper(Wrap(c, rs))
  {
    if rs != [] {
      WrapProper(c, rs[..|rs| - 1]);
    }
  }

  lemma {:induction false} RedirsProper(ts: seq<Tok>)
    ensures Redirs(ts).Ok? ==> forall k :: 0 <= k < |Redirs(ts).value| ==> ProperRedir(Redirs(ts).value[k])
  {
    if ts != [] && ts[0].IsRedir() && |ts| > 1 && ts[1].Word? {
      RedirsProper(ts[2..]);
    }
  }

  lemma {:induction false} ArgsProper(args: seq<Span>, rs: seq<Redir>, ts: seq<Tok>)
    requires |args| < MAXARGS && forall k :: 0 <= k < |rs| ==> ProperRedir(rs[k])
    ensures Args(args, rs, ts).Ok? ==> Proper(Args(args, rs, ts).value)
    decreases |ts|
  {
    if ts == [] || ts[0].Ends() {
      WrapProper(Exec(args), rs);
    } else if ts[0].Word? && |args| + 1 < MAXARGS && Redirs(ts[1..]).Ok? {
      RedirsProper(ts[1..]);
      ArgsProper(args + [ts[0].span], rs + Redirs(ts[1..]).value, Redirs(ts[1..]).rest);
    }
  }

  lemma {:induction false} BacksProper(c: Cmd, ts: seq<Tok>)
    requires Proper(c)
    ensures Proper(Backs(c, ts).value)
    decreases |ts|
  {
    if ts != [] && ts[0] == Sym('&') {
      BacksProper(Back(c), ts[1..]);
    }
  }

  /** The parser makes proper trees only. */
  lemma {:induction false} LineProper(ts: seq<Tok>)
    ensures Line(ts).Ok? ==> Proper(Line(ts).value)
    decreases |ts|, 4
  {
    hide Pipeline;
    PipelineProper(ts);
    var p := Pipeline(ts);
    if p.Ok? {
      BacksProper(p.value, p.rest);
      var b := Backs(p.value, p.rest);
      if b.rest != [] && b.rest[0] == Sym(';') {
        LineProper(b.rest[1..]);
      }
    }
  }

  lemma {:induction false} PipelineProper(ts: seq<Tok>)
    ensures Pipeline(ts).Ok? ==> Proper(Pipeline(ts).value)
    decreases |ts|, 3
  {
    hide Command;
    CommandProper(ts);
    var e := Command(ts);
    if e.Ok? && e.rest != [] && e.rest[0] == Sym('|') {
      PipelineProper(e.rest[1..]);
    }
  }

  lemma {:induction false} CommandProper(ts: seq<Tok>)
    ensures Command(ts).Ok? ==> Proper(Command(ts).value)
    decreases |ts|, 2
  {
    if ts != [] && ts[0] == Sym('(') {
      LineProper(ts[1..]);
      var l := Line(ts[1..]);
      if l.Ok? && l.rest != [] && l.rest[0] == Sym(')') && Redirs(l.rest[1..]).Ok? {
        RedirsProper(l.rest[1..]);
        WrapProper(l.value, Redirs(l.rest[1..]).value);
      }
    } else {
      RedirsProper(ts);
      if Redirs(ts).Ok? {
        ArgsProper([], Redirs(ts).value, Redirs(ts).rest);
      }
    }
  }
}
