/** What may stand on a line of sh.c, written down as trees of its own: every way to write a
    command, what each means, and that the parser takes exactly these lines for exactly these
    commands. */
module Syntax {
  import opened Grammar

  /** `<`, `>` and `>>`. */
  datatype Sign = In | Out | Append

  datatype Target = Target(sign: Sign, file: Span)

  /** A word and the redirections behind it. */
  datatype Arg = Arg(word: Span, targets: seq<Target>)

  /** A pipeline and the `&`s behind it, and what follows a `;`. */
  datatype LineTree = Last(pipe: PipeTree, backs: nat) | Then(pipe: PipeTree, backs: nat, next: LineTree)

  datatype PipeTree = One(cmd: CmdTree) | Into(cmd: CmdTree, next: PipeTree)

  datatype CmdTree = Simple(lead: seq<Target>, args: seq<Arg>) | Block(line: LineTree, targets: seq<Target>)

  // ---- the tokens of a tree ----

  function SignTok(s: Sign): Tok {
    match s
    case In => Sym('<')
    case Out => Sym('>')
    case Append => Sym('+')
  }

  function TargetToks(rs: seq<Target>): seq<Tok>
  {
    if rs == [] then [] else [SignTok(rs[0].sign), Word(rs[0].file)] + TargetToks(rs[1..])
  }

  function ArgToks(args: seq<Arg>): seq<Tok>
  {
    if args == [] then [] else [Word(args[0].word)] + TargetToks(args[0].targets) + ArgToks(args[1..])
  }

  function Amps(n: nat): (ts: seq<Tok>)
    ensures |ts| == n && forall i :: 0 <= i < n ==> ts[i] == Sym('&')
  {
    seq(n, _ => Sym('&'))
  }

  function LineToks(t: LineTree): seq<Tok>
  {
    match t
    case Last(p, n) => PipeToks(p) + Amps(n)
    case Then(p, n, next) => PipeToks(p) + Amps(n) + [Sym(';')] + LineToks(next)
  }

  function PipeToks(t: PipeTree): seq<Tok>
  {
    match t
    case One(c) => CmdToks(c)
    case Into(c, next) => CmdToks(c) + [Sym('|')] + PipeToks(next)
  }

  function CmdToks(t: CmdTree): seq<Tok>
  {
    match t
    case Simple(lead, args) => TargetToks(lead) + ArgToks(args)
    case Block(line, rs) => [Sym('(')] + LineToks(line) + [Sym(')')] + TargetToks(rs)
  }

  // ---- what a tree means ----

  function Means(r: Target): Redir {
    match r.sign
    case In => Redir(r.file, Read, 0)
    case Out => Redir(r.file, Create, 1)
    case Append => Redir(r.file, Create, 1)
  }

  function TargetsMean(rs: seq<Target>): (r: seq<Redir>)
    ensures |r| == |rs| && forall k :: 0 <= k < |rs| ==> r[k] == Means(rs[k])
  {
    seq(|rs|, k requires 0 <= k < |rs| => Means(rs[k]))
  }

  function ArgWords(args: seq<Arg>): (ws: seq<Span>)
    ensures |ws| == |args| && forall k :: 0 <= k < |args| ==> ws[k] == args[k].word
  {
    seq(|args|, k requires 0 <= k < |args| => args[k].word)
  }

  /** The redirections among the arguments, in the order they are written. */
  function ArgsMean(args: seq<Arg>): seq<Redir>
  {
    if args == [] then [] else TargetsMean(args[0].targets) + ArgsMean(args[1..])
  }

  function InBack(c: Cmd, n: nat): Cmd
    decreases n
  {
    if n == 0 then c else InBack(Back(c), n - 1)
  }

  function LineMeans(t: LineTree): Cmd
  {
    match t
    case Last(p, n) => InBack(PipeMeans(p), n)
    case Then(p, n, next) => List(InBack(PipeMeans(p), n), LineMeans(next))
  }

  function PipeMeans(t: PipeTree): Cmd
  {
    match t
    case One(c) => CmdMeans(c)
    case Into(c, next) => Pipe(CmdMeans(c), PipeMeans(next))
  }

  function CmdMeans(t: CmdTree): Cmd
  {
    match t
    case Simple(lead, args) => Wrap(Exec(ArgWords(args)), TargetsMean(lead) + ArgsMean(args))
    case Block(line, rs) => Wrap(LineMeans(line), TargetsMean(rs))
  }

  /** No command has more than nine words. */
  predicate Allowed(t: LineTree)
  {
    match t
    case Last(p, _) => PipeAllowed(p)
    case Then(p, _, next) => PipeAllowed(p) && Allowed(next)
  }

  predicate PipeAllowed(t: PipeTree)
  {
    match t
    case One(c) => CmdAllowed(c)
    case Into(c, next) => CmdAllowed(c) && PipeAllowed(next)
  }

  predicate CmdAllowed(t: CmdTree)
  {
    match t
    case Simple(_, args) => |args| < MAXARGS
    case Block(line, _) => Allowed(line)
  }

  // ---- the parser takes every tree ----

  /** The tokens that may follow a command. */
  predicate Follows(rest: seq<Tok>) { rest == [] || rest[0].Ends() }

  lemma SignsAreRedirs(r: Target)
    ensures SignTok(r.sign).IsRedir() && SignTok(r.sign) != Sym('(') && RedirOf(SignTok(r.sign), r.file) == Means(r)
  {
    match r.sign
    case In =>
    case Out =>
    case Append =>
  }

  lemma FirstTarget(r: Target, more: seq<Target>)
    ensures TargetToks([r] + more) == [SignTok(r.sign), Word(r.file)] + TargetToks(more)
    ensures TargetsMean([r] + more) == [Means(r)] + TargetsMean(more)
  {
    hide SignTok, Means;
    assert ([r] + more)[1..] == more;
  }

  lemma RedirsStep(ts: seq<Tok>)
    ensures ts == [] || !ts[0].IsRedir() ==> Redirs(ts) == Ok([], ts)
    ensures ts != [] && ts[0].IsRedir() && Redirs(ts).Ok? ==> |ts| > 1 && ts[1].Word? && Redirs(ts[2..]).Ok?
    ensures |ts| > 1 && ts[0].IsRedir() && ts[1].Word? && Redirs(ts[2..]).Ok? ==>
      Redirs(ts) == Ok([RedirOf(ts[0], ts[1].span)] + Redirs(ts[2..]).value, Redirs(ts[2..]).rest)
  {
    hide RedirOf;
  }

  lemma {:induction false} TargetsBack(rs: seq<Target>, rest: seq<Tok>)
    requires rest == [] || !rest[0].IsRedir()
    ensures Redirs(TargetToks(rs) + rest) == Ok(TargetsMean(rs), rest)
  {
    hide Redirs, Means, SignTok, RedirOf;
    var ts := TargetToks(rs) + rest;
    RedirsStep(ts);
    if rs == [] {
      assert ts == rest && TargetsMean(rs) == [];
    } else {
      var r, more := rs[0], rs[1..];
      assert rs == [r] + more;
      FirstTarget(r, more);
      SignsAreRedirs(r);
      hide TargetToks, TargetsMean;
      assert ts[0] == SignTok(r.sign) && ts[1] == Word(r.file) && ts[2..] == TargetToks(more) + rest;
      TargetsBack(more, rest);
    }
  }

  lemma {:induction false} ArgsBack(got: seq<Span>, rs: seq<Redir>, args: seq<Arg>, rest: seq<Tok>)
    requires Follows(rest) && |got| + |args| < MAXARGS
    ensures Args(got, rs, ArgToks(args) + rest) == Ok(Wrap(Exec(got + ArgWords(args)), rs + ArgsMean(args)), rest)
    decreases |args|
  {
    hide Redirs, Wrap, TargetToks, ArgToks, ArgsMean;
    NoArgs(got, rs);
    var ts := ArgToks(args) + rest;
    if args == [] {
      assert ts == rest;
    } else {
      var a, more := args[0], args[1..];
      assert args == [a] + more;
      FirstArg(got, rs, a, more);
      var tail := ArgToks(more) + rest;
      assert ts[0] == Word(a.word) && ts[1..] == TargetToks(a.targets) + tail;
      NoRedirNext(more, rest);
      TargetsBack(a.targets, tail);
      ArgsBack(got + [a.word], rs + TargetsMean(a.targets), more, rest);
    }
  }

  lemma NoArgs(got: seq<Span>, rs: seq<Redir>)
    ensures ArgToks([]) == [] && got + ArgWords([]) == got && rs + ArgsMean([]) == rs
  {
  }

  lemma FirstArg(got: seq<Span>, rs: seq<Redir>, a: Arg, more: seq<Arg>)
    ensures ArgToks([a] + more) == [Word(a.word)] + TargetToks(a.targets) + ArgToks(more)
    ensures got + [a.word] + ArgWords(more) == got + ArgWords([a] + more)
    ensures rs + TargetsMean(a.targets) + ArgsMean(more) == rs + ArgsMean([a] + more)
  {
    hide TargetToks, TargetsMean, ArgToks, ArgsMean;
    FirstArgIs(a, more);
    assert ArgWords([a] + more) == [a.word] + ArgWords(more);
    Twice(got, [a.word], ArgWords(more));
    Twice(rs, TargetsMean(a.targets), ArgsMean(more));
  }

  lemma FirstArgIs(a: Arg, more: seq<Arg>)
    ensures ArgToks([a] + more) == [Word(a.word)] + TargetToks(a.targets) + ArgToks(more)
    ensures ArgsMean([a] + more) == TargetsMean(a.targets) + ArgsMean(more)
  {
    hide TargetToks, TargetsMean;
    assert ([a] + more)[1..] == more;
  }

  lemma Twice<T>(a: seq<T>, b: seq<T>, c: seq<T>)
    ensures a + b + c == a + (b + c)
  {
  }

  lemma NoRedirNext(args: seq<Arg>, rest: seq<Tok>)
    requires Follows(rest)
    ensures var ts := ArgToks(args) + rest; ts == [] || !ts[0].IsRedir()
  {
    assert args == [] ==> ArgToks(args) + rest == rest;
  }

  lemma SimpleBack(lead: seq<Target>, args: seq<Arg>, rest: seq<Tok>)
    requires Follows(rest) && |args| < MAXARGS
    ensures Command(TargetToks(lead) + ArgToks(args) + rest) == Ok(CmdMeans(Simple(lead, args)), rest)
  {
    hide Redirs, Args, Wrap, TargetToks, ArgToks, TargetsMean, ArgsMean, Command;
    var ts, tail := TargetToks(lead) + ArgToks(args) + rest, ArgToks(args) + rest;
    assert ts == TargetToks(lead) + tail;
    NoRedirNext(args, rest);
    TargetsBack(lead, tail);
    ArgsBack([], TargetsMean(lead), args, rest);
    assert [] + ArgWords(args) == ArgWords(args);
    NoBlock(lead, args, rest);
    CommandOf(ts);
  }

  lemma NoBlock(lead: seq<Target>, args: seq<Arg>, rest: seq<Tok>)
    requires Follows(rest)
    ensures var ts := TargetToks(lead) + ArgToks(args) + rest; ts == [] || ts[0] != Sym('(')
  {
    var ts := TargetToks(lead) + ArgToks(args) + rest;
    if lead != [] {
      assert ts[0] == SignTok(lead[0].sign);
      SignsAreRedirs(lead[0]);
    } else if args != [] {
      assert ts[0] == Word(args[0].word);
    } else {
      assert ts == rest;
    }
  }

  lemma CommandOf(ts: seq<Tok>)
    requires (ts == [] || ts[0] != Sym('(')) && Redirs(ts).Ok?
    ensures Command(ts) == Args([], Redirs(ts).value, Redirs(ts).rest)
  {
    hide Redirs, Args;
  }

  lemma {:induction false} CommandBack(t: CmdTree, rest: seq<Tok>)
    requires CmdAllowed(t) && Follows(rest)
    ensures Command(CmdToks(t) + rest) == Ok(CmdMeans(t), rest)
    decreases t
  {
    hide Redirs, Args, Line, TargetToks, LineToks;
    var ts := CmdToks(t) + rest;
    match t
    case Simple(lead, args) =>
      SimpleBack(lead, args, rest);
    case Block(line, rs) =>
      var tail := TargetToks(rs) + rest;
      assert ts == [Sym('(')] + (LineToks(line) + ([Sym(')')] + tail));
      assert ts[1..] == LineToks(line) + ([Sym(')')] + tail);
      LineBack(line, [Sym(')')] + tail);
      assert ([Sym(')')] + tail)[1..] == tail;
      TargetsBack(rs, rest);
  }

  lemma {:induction false} PipeBack(t: PipeTree, rest: seq<Tok>)
    requires PipeAllowed(t) && Follows(rest) && (rest != [] ==> rest[0] != Sym('|'))
    ensures Pipeline(PipeToks(t) + rest) == Ok(PipeMeans(t), rest)
    decreases t
  {
    hide Command, CmdToks;
    match t
    case One(c) =>
      CommandBack(c, rest);
    case Into(c, next) =>
      var tail := [Sym('|')] + PipeToks(next) + rest;
      assert PipeToks(t) + rest == CmdToks(c) + tail;
      CommandBack(c, tail);
      assert tail[1..] == PipeToks(next) + rest;
      PipeBack(next, rest);
  }

  lemma {:induction false} AmpsBack(c: Cmd, n: nat, rest: seq<Tok>)
    requires rest == [] || rest[0] != Sym('&')
    ensures Backs(c, Amps(n) + rest) == Ok(InBack(c, n), rest)
    decreases n
  {
    if n == 0 {
      assert Amps(0) + rest == rest;
    } else {
      assert (Amps(n) + rest)[1..] == Amps(n - 1) + rest;
      AmpsBack(Back(c), n - 1, rest);
    }
  }

  /** Whatever tree is written, the parser gives back what it means. */
  lemma {:induction false} LineBack(t: LineTree, rest: seq<Tok>)
    requires Allowed(t) && (rest == [] || rest[0] == Sym(')'))
    ensures Line(LineToks(t) + rest) == Ok(LineMeans(t), rest)
    decreases t
  {
    hide Pipeline, PipeToks, Backs;
    match t
    case Last(p, n) =>
      var tail := Amps(n) + rest;
      assert LineToks(t) + rest == PipeToks(p) + tail;
      PipeBack(p, tail);
      AmpsBack(PipeMeans(p), n, rest);
    case Then(p, n, next) =>
      var more := [Sym(';')] + LineToks(next) + rest;
      var tail := Amps(n) + more;
      assert LineToks(t) + rest == PipeToks(p) + tail;
      PipeBack(p, tail);
      AmpsBack(PipeMeans(p), n, more);
      assert more[1..] == LineToks(next) + rest;
      LineBack(next, rest);
  }

  // ---- and nothing else ----

  lemma SignOf(t: Tok) returns (s: Sign)
    requires t.IsRedir()
    ensures SignTok(s) == t
  {
    s := if t.c == '<' then In else if t.c == '>' then Out else Append;
  }

  lemma {:induction false} RedirsRead(ts: seq<Tok>) returns (rs: seq<Target>)
    requires Redirs(ts).Ok?
    ensures ts == TargetToks(rs) + Redirs(ts).rest && Redirs(ts).value == TargetsMean(rs)
  {
    hide Redirs, Means, SignTok, RedirOf;
    RedirsStep(ts);
    if ts == [] || !ts[0].IsRedir() {
      rs := [];
    } else {
      var more := RedirsRead(ts[2..]);
      var sign := SignOf(ts[0]);
      var r := Target(sign, ts[1].span);
      SignsAreRedirs(r);
      rs := [r] + more;
      FirstTarget(r, more);
      assert ts == [ts[0], ts[1]] + ts[2..];
    }
  }

  lemma {:induction false} ArgsRead(got: seq<Span>, rs: seq<Redir>, ts: seq<Tok>) returns (args: seq<Arg>)
    requires Args(got, rs, ts).Ok? && |got| < MAXARGS
    ensures ts == ArgToks(args) + Args(got, rs, ts).rest && |got| + |args| < MAXARGS
    ensures Args(got, rs, ts).value == Wrap(Exec(got + ArgWords(args)), rs + ArgsMean(args))
    decreases |ts|
  {
    hide Redirs, Wrap, TargetToks, TargetsMean, ArgToks, ArgsMean, Args;
    NoArgs(got, rs);
    ArgsStep(got, rs, ts);
    if ts == [] || ts[0].Ends() {
      args := [];
    } else {
      var r := Redirs(ts[1..]);
      var targets := RedirsRead(ts[1..]);
      var a := Arg(ts[0].span, targets);
      var more := ArgsRead(got + [a.word], rs + r.value, r.rest);
      args := [a] + more;
      FirstArg(got, rs, a, more);
      assert ts == [Word(a.word)] + ts[1..];
      Regroup([Word(a.word)], TargetToks(targets), ArgToks(more), Args(got, rs, ts).rest);
    }
  }

  lemma ArgsStep(got: seq<Span>, rs: seq<Redir>, ts: seq<Tok>)
    requires Args(got, rs, ts).Ok?
    ensures ts == [] || ts[0].Ends() ==> Args(got, rs, ts) == Ok(Wrap(Exec(got), rs), ts)
    ensures ts != [] && !ts[0].Ends() ==>
      && ts[0].Word? && |got| + 1 < MAXARGS && Redirs(ts[1..]).Ok? && |Redirs(ts[1..]).rest| < |ts|
      && Args(got, rs, ts) == Args(got + [ts[0].span], rs + Redirs(ts[1..]).value, Redirs(ts[1..]).rest)
  {
    hide Redirs, Wrap;
  }

  lemma Regroup(a: seq<Tok>, b: seq<Tok>, c: seq<Tok>, d: seq<Tok>)
    ensures a + (b + (c + d)) == a + b + c + d
  {
  }

  lemma {:induction false} BacksRead(c: Cmd, ts: seq<Tok>) returns (n: nat)
    ensures ts == Amps(n) + Backs(c, ts).rest && Backs(c, ts).value == InBack(c, n)
    decreases |ts|
  {
    if ts != [] && ts[0] == Sym('&') {
      var m := BacksRead(Back(c), ts[1..]);
      n := m + 1;
      assert ts == [Sym('&')] + ts[1..];
      assert Amps(n) == [Sym('&')] + Amps(m);
    } else {
      n := 0;
    }
  }

  lemma {:induction false} LineRead(ts: seq<Tok>) returns (t: LineTree)
    requires Line(ts).Ok?
    ensures Allowed(t) && ts == LineToks(t) + Line(ts).rest && Line(ts).value == LineMeans(t)
    decreases |ts|, 4
  {
    hide Pipeline, Backs, PipeToks;
    var p := Pipeline(ts);
    var pipe := PipelineRead(ts);
    var n := BacksRead(p.value, p.rest);
    var b := Backs(p.value, p.rest);
    if b.rest != [] && b.rest[0] == Sym(';') {
      var next := LineRead(b.rest[1..]);
      t := Then(pipe, n, next);
      assert b.rest == [Sym(';')] + b.rest[1..];
    } else {
      t := Last(pipe, n);
    }
  }

  lemma {:induction false} PipelineRead(ts: seq<Tok>) returns (t: PipeTree)
    requires Pipeline(ts).Ok?
    ensures PipeAllowed(t) && ts == PipeToks(t) + Pipeline(ts).rest && Pipeline(ts).value == PipeMeans(t)
    decreases |ts|, 3
  {
    hide Command, CmdToks;
    var e := Command(ts);
    var cmd := CommandRead(ts);
    if e.rest != [] && e.rest[0] == Sym('|') {
      var next := PipelineRead(e.rest[1..]);
      t := Into(cmd, next);
      assert e.rest == [Sym('|')] + e.rest[1..];
    } else {
      t := One(cmd);
    }
  }

  lemma {:induction false} CommandRead(ts: seq<Tok>) returns (t: CmdTree)
    requires Command(ts).Ok?
    ensures CmdAllowed(t) && ts == CmdToks(t) + Command(ts).rest && Command(ts).value == CmdMeans(t)
    decreases |ts|, 2
  {
    hide Redirs, Args, Line, TargetToks, LineToks, ArgToks, Wrap, TargetsMean, ArgsMean;
    if ts != [] && ts[0] == Sym('(') {
      var l := Line(ts[1..]);
      var line := LineRead(ts[1..]);
      var rs := RedirsRead(l.rest[1..]);
      t := Block(line, rs);
      assert ts == [Sym('(')] + ts[1..] && l.rest == [Sym(')')] + l.rest[1..];
      Regroup([Sym('(')], LineToks(line), [Sym(')')], TargetToks(rs) + Command(ts).rest);
    } else {
      var lead := RedirsRead(ts);
      var args := ArgsRead([], Redirs(ts).value, Redirs(ts).rest);
      t := Simple(lead, args);
      assert [] + ArgWords(args) == ArgWords(args);
    }
  }

  lemma TreeParses(t: LineTree)
    requires Allowed(t)
    ensures Parse(LineToks(t)) == Ok(LineMeans(t), [])
  {
    hide Line, LineToks, LineMeans, Allowed;
    LineBack(t, []);
    assert LineToks(t) + [] == LineToks(t);
  }

  /** The parser is exact: a line parses to c exactly if it is a way to write c. */
  lemma ParsesExactly(ts: seq<Tok>, c: Cmd)
    ensures Parse(ts) == Ok(c, []) <==> exists t :: Allowed(t) && LineToks(t) == ts && LineMeans(t) == c
  {
    hide Line, LineToks, LineMeans, Allowed;
    if Parse(ts) == Ok(c, []) {
      var t := LineRead(ts);
      assert LineToks(t) + [] == LineToks(t);
    }
    if t :| Allowed(t) && LineToks(t) == ts && LineMeans(t) == c {
      TreeParses(t);
    }
  }

  // ---- every command can be written ----

  function Size(c: Cmd): nat
  {
    match c
    case Exec(_) => 0
    case Redirected(c', _) => 1 + Size(c')
    case Pipe(l, r) => 1 + Size(l) + Size(r)
    case List(l, r) => 1 + Size(l) + Size(r)
    case Back(c') => 1 + Size(c')
  }

  predicate Compound(c: Cmd) { c.Pipe? || c.List? || c.Back? }

  /** The command under c's redirections, and these in order. */
  function Base(c: Cmd): (b: Cmd)
    ensures !b.Redirected? && Size(b) <= Size(c) && (c.Redirected? ==> Size(b) < Size(c))
  {
    if c.Redirected? then Base(c.cmd) else c
  }

  function Outer(c: Cmd): seq<Redir>
  {
    if c.Redirected? then Outer(c.cmd) + [c.redir] else []
  }

  lemma {:induction false} BaseAndOuter(c: Cmd)
    requires Proper(c)
    ensures Wrap(Base(c), Outer(c)) == c && Proper(Base(c))
    ensures forall k :: 0 <= k < |Outer(c)| ==> ProperRedir(Outer(c)[k])
  {
    if c.Redirected? {
      BaseAndOuter(c.cmd);
      assert Outer(c)[..|Outer(c)| - 1] == Outer(c.cmd);
    }
  }

  /** The command under c's `&`s, and their number. */
  function Bare(c: Cmd): (b: Cmd)
    ensures !b.Back? && Size(b) <= Size(c) && (c.Back? ==> Size(b) < Size(c))
  {
    if c.Back? then Bare(c.cmd) else c
  }

  function BackCount(c: Cmd): nat { if c.Back? then 1 + BackCount(c.cmd) else 0 }

  lemma {:induction false} OneBackMore(c: Cmd, n: nat)
    ensures InBack(c, n + 1) == Back(InBack(c, n))
    decreases n
  {
    if n > 0 {
      OneBackMore(Back(c), n - 1);
    }
  }

  lemma {:induction false} BareInBack(c: Cmd)
    ensures InBack(Bare(c), BackCount(c)) == c && (Proper(c) ==> Proper(Bare(c)))
  {
    if c.Back? {
      BareInBack(c.cmd);
      OneBackMore(Bare(c), BackCount(c.cmd));
    }
  }

  function TargetsFor(rs: seq<Redir>): (r: seq<Target>)
    ensures |r| == |rs| && forall k :: 0 <= k < |rs| ==>
      r[k] == Target(if rs[k].mode.Read? then In else Out, rs[k].file)
  {
    seq(|rs|, k requires 0 <= k < |rs| => Target(if rs[k].mode.Read? then In else Out, rs[k].file))
  }

  function ArgsFor(ws: seq<Span>): (args: seq<Arg>)
    ensures |args| == |ws| && forall k :: 0 <= k < |ws| ==> args[k] == Arg(ws[k], [])
  {
    seq(|ws|, k requires 0 <= k < |ws| => Arg(ws[k], []))
  }

  lemma {:induction false} PlainArgs(args: seq<Arg>)
    requires forall k :: 0 <= k < |args| ==> args[k].targets == []
    ensures ArgsMean(args) == []
  {
    if args != [] {
      PlainArgs(args[1..]);
    }
  }

  /** c as a line; a command that binds weaker than its place goes in parentheses. */
  function LineOf(c: Cmd): LineTree
    decreases Size(c), if Compound(c) then 2 else 5
  {
    match c
    case List(l, r) => Then(PipeOf(Bare(l)), BackCount(l), LineOf(r))
    case _ => Last(PipeOf(Bare(c)), BackCount(c))
  }

  function PipeOf(c: Cmd): PipeTree
    decreases Size(c), if c.Pipe? then 1 else 4
  {
    match c
    case Pipe(l, r) => Into(CmdOf(l), PipeOf(r))
    case _ => One(CmdOf(c))
  }

  function CmdOf(c: Cmd): CmdTree
    decreases Size(c), if Compound(c) then 3 else 0
  {
    if Base(c).Exec? then Simple(TargetsFor(Outer(c)), ArgsFor(Base(c).args))
    else Block(LineOf(Base(c)), TargetsFor(Outer(c)))
  }

  lemma {:induction false} LineOfMeans(c: Cmd)
    requires Proper(c)
    ensures Allowed(LineOf(c)) && LineMeans(LineOf(c)) == c
    decreases Size(c), if Compound(c) then 2 else 5
  {
    BareInBack(c);
    match c
    case List(l, r) =>
      BareInBack(l);
      PipeOfMeans(Bare(l));
      LineOfMeans(r);
    case _ =>
      PipeOfMeans(Bare(c));
  }

  lemma {:induction false} PipeOfMeans(c: Cmd)
    requires Proper(c)
    ensures PipeAllowed(PipeOf(c)) && PipeMeans(PipeOf(c)) == c
    decreases Size(c), if c.Pipe? then 1 else 4
  {
    match c
    case Pipe(l, r) =>
      CmdOfMeans(l);
      PipeOfMeans(r);
    case _ =>
      CmdOfMeans(c);
  }

  lemma {:induction false} CmdOfMeans(c: Cmd)
    requires Proper(c)
    ensures CmdAllowed(CmdOf(c)) && CmdMeans(CmdOf(c)) == c
    decreases Size(c), if Compound(c) then 3 else 0
  {
    var b, rs := Base(c), Outer(c);
    BaseAndOuter(c);
    assert TargetsMean(TargetsFor(rs)) == rs;
    if b.Exec? {
      PlainArgs(ArgsFor(b.args));
      assert ArgWords(ArgsFor(b.args)) == b.args && rs + [] == rs;
    } else {
      LineOfMeans(b);
    }
  }

  /** Every proper command is the meaning of some line. */
  lemma ParsePrint(c: Cmd)
    requires Proper(c)
    ensures Parse(LineToks(LineOf(c))) == Ok(c, [])
  {
    hide Line, LineToks, LineMeans, Allowed, LineOf;
    LineOfMeans(c);
    TreeParses(LineOf(c));
  }
}
