/**
 The command parser of user/sh.c as functions from the rest of the line to a
 command and the rest after it. ShCode.dfy holds the code that advances a
 cursor over the line.
 */
module Sh {

  const MAXARGS: nat := 10

  datatype Result<T> = Ok(value: T) | Err(message: string)

  datatype Mode = Read | Write | Append

  datatype Cmd =
    | Exec(argv: seq<string>)
    | Redir(cmd: Cmd, file: string, mode: Mode)
    | Pipe(left: Cmd, right: Cmd)
    | List(left: Cmd, right: Cmd)
    | Back(cmd: Cmd)

  predicate IsSpace(c: char) { c == ' ' || c == '\t' || c == '\r' || c == '\n' || c == '\U{b}' }

  predicate IsSymbol(c: char) { c == '<' || c == '|' || c == '>' || c == '&' || c == ';' || c == '(' || c == ')' }

  predicate IsWordChar(c: char) { !IsSpace(c) && !IsSymbol(c) }

  function SkipWs(r: string): (t: string)
    ensures |t| <= |r| && (t != "" ==> !IsSpace(t[0])) && (r != "" && !IsSpace(r[0]) ==> t == r)
  {
    if r != "" && IsSpace(r[0]) then SkipWs(r[1..]) else r
  }

  function WordLen(r: string): (n: nat)
    ensures n <= |r| && (forall i :: 0 <= i < n ==> IsWordChar(r[i])) && (n < |r| ==> !IsWordChar(r[n]))
  {
    if r != "" && IsWordChar(r[0]) then 1 + WordLen(r[1..]) else 0
  }

  datatype Tok = TEnd | TSym(c: char) | TAppend | TWord(w: string)

  /** gettoken on a line without leading white space: the token and what follows it */
  function Lex(r: string): (t: (Tok, string))
    requires r != "" ==> !IsSpace(r[0])
    ensures t.0.TEnd? <==> r == ""
    ensures |t.1| <= |r| && (r != "" ==> |t.1| < |r|) && (t.1 != "" ==> !IsSpace(t.1[0]))
  {
    if r == "" then (TEnd, "")
    else if r[0] == '>' && |r| > 1 && r[1] == '>' then (TAppend, SkipWs(r[2..]))
    else if IsSymbol(r[0]) then (TSym(r[0]), SkipWs(r[1..]))
    else (TWord(r[..WordLen(r)]), SkipWs(r[WordLen(r)..]))
  }

  function GetToken(r: string): (t: (Tok, string))
    ensures |t.1| <= |r| && (!t.0.TEnd? ==> |t.1| < |r|) && (t.1 != "" ==> !IsSpace(t.1[0]))
  {
    Lex(SkipWs(r))
  }

  predicate Peek(r: string, toks: string) { SkipWs(r) != "" && SkipWs(r)[0] in toks }

  /** A command and the rest of the line. */
  type Parsed = Result<(Cmd, string)>

  /** The rest after a successful parse is no longer than n and has no leading white space. */
  predicate Shorter(x: Parsed, n: nat) {
    x.Ok? ==> |x.value.1| <= n && (x.value.1 != "" ==> !IsSpace(x.value.1[0]))
  }

  function RedirMode(t: Tok): Mode { if t == TSym('<') then Read else if t == TAppend then Append else Write }

  function Redirs(c: Cmd, r: string): (x: Parsed)
    ensures Shorter(x, |r|)
    decreases |r|
  {
    if !Peek(r, "<>") then Ok((c, SkipWs(r)))
    else
      var t := GetToken(r);
      var u := GetToken(t.1);
      if u.0.TWord? then Redirs(Redir(c, u.0.w, RedirMode(t.0)), u.1) else Err("missing file for redirection")
  }

  /** The argument goes to the command inside the redirections. */
  function AddArg(c: Cmd, w: string): Cmd {
    match c
    case Exec(argv) => Exec(argv + [w])
    case Redir(d, file, mode) => Redir(AddArg(d, w), file, mode)
    case _ => c
  }

  function Args(c: Cmd, argc: nat, r: string): (x: Parsed)
    ensures Shorter(x, |r|)
    decreases |r|
  {
    if Peek(r, "|)&;") then Ok((c, SkipWs(r)))
    else
      var t := GetToken(r);
      if t.0.TEnd? then Ok((c, t.1))
      else if !t.0.TWord? then Err("syntax")
      else if argc + 1 >= MAXARGS then Err("too many args")
      else
        var d := Redirs(AddArg(c, t.0.w), t.1);
        if d.Err? then d else Args(d.value.0, argc + 1, d.value.1)
  }

  function ParseExec(r: string): (x: Parsed)
    ensures Shorter(x, |r|)
    decreases |r|, 1
  {
    if Peek(r, "(") then ParseBlock(r)
    else
      var d := Redirs(Exec([]), r);
      if d.Err? then d else Args(d.value.0, 0, d.value.1)
  }

  function ParseBlock(r: string): (x: Parsed)
    ensures Shorter(x, |r|)
    decreases |r|, 0
  {
    if !Peek(r, "(") then Err("parseblock")
    else
      var d := ParseLine(GetToken(r).1);
      if d.Err? then d
      else if !Peek(d.value.1, ")") then Err("syntax - missing )")
      else Redirs(d.value.0, GetToken(d.value.1).1)
  }

  function ParsePipe(r: string): (x: Parsed)
    ensures Shorter(x, |r|)
    decreases |r|, 2
  {
    var d := ParseExec(r);
    if d.Err? then d
    else if !Peek(d.value.1, "|") then Ok((d.value.0, SkipWs(d.value.1)))
    else
      var e := ParsePipe(GetToken(d.value.1).1);
      if e.Err? then e else Ok((Pipe(d.value.0, e.value.0), e.value.1))
  }

  function Backs(c: Cmd, r: string): (x: (Cmd, string))
    ensures |x.1| <= |r| && (x.1 != "" ==> !IsSpace(x.1[0]))
    decreases |r|
  {
    if Peek(r, "&") then Backs(Back(c), GetToken(r).1) else (c, SkipWs(r))
  }

  function ParseLine(r: string): (x: Parsed)
    ensures Shorter(x, |r|)
    decreases |r|, 3
  {
    var d := ParsePipe(r);
    if d.Err? then d
    else
      var b := Backs(d.value.0, d.value.1);
      if !Peek(b.1, ";") then Ok((b.0, SkipWs(b.1)))
      else
        var e := ParseLine(GetToken(b.1).1);
        if e.Err? then e else Ok((List(b.0, e.value.0), e.value.1))
  }

  function ParseCmd(line: string): Result<Cmd> {
    var d := ParseLine(line);
    if d.Err? then Err(d.message)
    else if SkipWs(d.value.1) != "" then Err("syntax")
    else Ok(d.value.0)
  }

  // ----- printing -----

  predicate Word(w: string) { w != "" && forall i :: 0 <= i < |w| ==> IsWordChar(w[i]) }

  /** Command trees that can be written down: words without white space or symbols, at most nine to a command. */
  predicate Legal(c: Cmd) {
    match c
    case Exec(argv) => |argv| < MAXARGS && forall i :: 0 <= i < |argv| ==> Word(argv[i])
    case Redir(d, file, _) => Legal(d) && Word(file)
    case Pipe(l, r) => Legal(l) && Legal(r)
    case List(l, r) => Legal(l) && Legal(r)
    case Back(d) => Legal(d)
  }

  function Join(argv: seq<string>): string { if argv == [] then "" else argv[0] + " " + Join(argv[1..]) }

  function Arrow(m: Mode): string {
    match m
    case Read => "<"
    case Write => ">"
    case Append => ">>"
  }

  /** A command as text, every part of it in parentheses. */
  function Print(c: Cmd): string
    decreases c, 0
  {
    match c
    case Exec(argv) => Join(argv)
    case Redir(d, file, mode) => Paren(d) + Arrow(mode) + file + " "
    case Pipe(l, r) => Paren(l) + "|" + Paren(r)
    case List(l, r) => Paren(l) + ";" + Paren(r)
    case Back(d) => Paren(d) + "&"
  }

  function Paren(c: Cmd): string
    decreases c, 1
  {
    "(" + Print(c) + ")"
  }

  // ----- the round trip -----

  /** What may follow a printed command: the end of the line or a closing parenthesis. */
  predicate Stops(rest: string) { rest == "" || rest[0] == ')' }

  predicate Tight(r: string) { r != "" ==> !IsSpace(r[0]) }

  lemma {:induction false} WordLenIs(w: string, r: string)
    requires Word(w) || w == ""
    requires r != "" ==> !IsWordChar(r[0])
    ensures WordLen(w + r) == |w|
    decreases |w|
  {
    if w == "" {
      assert w + r == r;
    } else {
      assert (w + r)[0] == w[0] && (w + r)[1..] == w[1..] + r;
      WordLenIs(w[1..], r);
    }
  }

  lemma {:induction false} WordToken(w: string, r: string)
    requires Word(w) && (r != "" ==> !IsWordChar(r[0]))
    ensures GetToken(w + r) == (TWord(w), SkipWs(r)) && !Peek(w + r, "|)&;") && !Peek(w + r, "<>") && !Peek(w + r, "(")
  {
    WordLenIs(w, r);
    assert (w + r)[0] == w[0] && IsWordChar(w[0]);
    assert SkipWs(w + r) == w + r;
    assert (w + r)[..|w|] == w && (w + r)[|w|..] == r;
  }

  lemma {:induction false} SymToken(c: char, r: string)
    requires IsSymbol(c) && c != '>'
    ensures GetToken([c] + r) == (TSym(c), SkipWs(r)) && SkipWs([c] + r) == [c] + r
  {
    assert ([c] + r)[0] == c && ([c] + r)[1..] == r;
  }

  lemma {:induction false} PrintTight(c: Cmd, r: string)
    requires Legal(c) && Tight(r)
    ensures Tight(Print(c) + r)
  {
    if c.Exec? {
      JoinTight(c.argv, r);
    } else {
      var d := if c.Pipe? || c.List? then c.left else c.cmd;
      assert Paren(d)[0] == '(';
    }
  }

  lemma {:induction false} JoinTight(argv: seq<string>, r: string)
    requires (forall i :: 0 <= i < |argv| ==> Word(argv[i])) && Tight(r)
    ensures Tight(Join(argv) + r)
  {
    if argv != [] {
      assert Word(argv[0]);
      assert (Join(argv) + r)[0] == argv[0][0] && IsWordChar(argv[0][0]);
    } else {
      assert Join(argv) + r == r;
    }
  }

  /** One word of a command, with no redirection behind it. */
  lemma {:induction false} ArgsStep(done: seq<string>, w: string, tail: string)
    requires |done| + 1 < MAXARGS && Word(w) && Tight(tail) && !Peek(tail, "<>")
    ensures Args(Exec(done), |done|, w + (" " + tail)) == Args(Exec(done + [w]), |done| + 1, tail)
  {
    WordToken(w, " " + tail);
    assert (" " + tail)[1..] == tail;
    assert SkipWs(" " + tail) == tail;
    assert Redirs(Exec(done + [w]), tail) == Ok((Exec(done + [w]), tail));
    hide GetToken, Peek, Redirs, SkipWs;
  }

  lemma {:induction false} ArgsEnd(c: Cmd, argc: nat, rest: string)
    requires Stops(rest)
    ensures Args(c, argc, rest) == Ok((c, rest))
  {
  }

  lemma {:induction false} JoinSplit(argv: seq<string>, rest: string)
    requires argv != []
    ensures Join(argv) + rest == argv[0] + (" " + (Join(argv[1..]) + rest))
  {
  }

  lemma {:induction false} ArgsTrip(done: seq<string>, argv: seq<string>, rest: string)
    requires |done| + |argv| < MAXARGS && Stops(rest) && forall i :: 0 <= i < |argv| ==> Word(argv[i])
    ensures Args(Exec(done), |done|, Join(argv) + rest) == Ok((Exec(done + argv), rest))
    decreases |argv|
  {
    hide Args, Peek, Word, Stops, Tight;
    if argv == [] {
      assert Join(argv) + rest == rest && done + argv == done;
      ArgsEnd(Exec(done), |done|, rest);
    } else {
      var w, tail := argv[0], Join(argv[1..]) + rest;
      JoinSplit(argv, rest);
      StopsTight(rest);
      JoinTight(argv[1..], rest);
      NoArrow(argv[1..], rest);
      hide Join;
      ArgsStep(done, w, tail);
      ArgsTrip(done + [w], argv[1..], rest);
      assert done + [w] + argv[1..] == done + argv;
    }
  }

  lemma {:induction false} StopsTight(rest: string)
    requires Stops(rest)
    ensures Tight(rest)
  {
  }

  lemma {:induction false} NoArrow(argv: seq<string>, rest: string)
    requires Stops(rest) && forall i :: 0 <= i < |argv| ==> Word(argv[i])
    ensures !Peek(Join(argv) + rest, "<>") && !Peek(Join(argv) + rest, "(")
  {
    if argv == [] {
      assert Join(argv) + rest == rest;
    } else {
      assert Word(argv[0]);
      assert Join(argv) + rest == argv[0] + (" " + Join(argv[1..]) + rest);
      WordToken(argv[0], " " + Join(argv[1..]) + rest);
    }
  }

  lemma {:induction false} ExecTrip(argv: seq<string>, rest: string)
    requires |argv| < MAXARGS && Stops(rest) && forall i :: 0 <= i < |argv| ==> Word(argv[i])
    ensures ParseExec(Join(argv) + rest) == Ok((Exec(argv), rest))
  {
    JoinTight(argv, rest);
    NoArrow(argv, rest);
    assert Redirs(Exec([]), Join(argv) + rest) == Ok((Exec([]), Join(argv) + rest));
    ArgsTrip([], argv, rest);
    assert [] + argv == argv;
  }

  lemma {:induction false} PipeEnds(r: string, c: Cmd, rest: string)
    requires ParseExec(r) == Ok((c, rest)) && Tight(rest) && !Peek(rest, "|")
    ensures ParsePipe(r) == Ok((c, rest))
  {
  }

  lemma {:induction false} LineEnds(r: string, c: Cmd, rest: string)
    requires ParsePipe(r) == Ok((c, rest)) && Stops(rest)
    ensures ParseLine(r) == Ok((c, rest))
  {
    assert Backs(c, rest) == (c, rest);
  }

  lemma {:induction false} NoPipe(rest: string)
    requires Stops(rest)
    ensures Tight(rest) && !Peek(rest, "|")
  {
  }

  /** A parenthesised command, up to the redirections after it. */
  lemma {:induction false} BlockTrip(c: Cmd, rest: string)
    requires Legal(c) && ParseLine(Print(c) + (")" + rest)) == Ok((c, ")" + rest))
    ensures ParseExec(Paren(c) + rest) == Redirs(c, SkipWs(rest))
  {
    var inner := Print(c) + (")" + rest);
    assert Paren(c) + rest == "(" + inner;
    SymToken('(', inner);
    PrintTight(c, ")" + rest);
    SymToken(')', rest);
    assert Peek("(" + inner, "(") && Peek(")" + rest, ")");
  }

  lemma {:induction false} ArrowToken(m: Mode, f: string, rest: string)
    requires Word(f)
    ensures Peek(Arrow(m) + f + rest, "<>")
    ensures RedirMode(GetToken(Arrow(m) + f + rest).0) == m && GetToken(Arrow(m) + f + rest).1 == f + rest
  {
    var r := Arrow(m) + f + rest;
    assert f[0] != '>' && IsWordChar(f[0]);
    assert (f + rest)[0] == f[0];
    if m.Append? {
      assert r[0] == '>' && r[1] == '>' && r[2..] == f + rest;
    } else {
      assert r[0] == Arrow(m)[0] && r[1..] == f + rest && r[1] == f[0];
    }
  }

  lemma {:induction false} RedirTrip(c: Cmd, m: Mode, f: string, rest: string)
    requires Word(f) && Stops(rest)
    ensures Redirs(c, SkipWs(Arrow(m) + f + (" " + rest))) == Ok((Redir(c, f, m), rest))
  {
    var r := Arrow(m) + f + (" " + rest);
    ArrowToken(m, f, " " + rest);
    WordToken(f, " " + rest);
    assert (" " + rest)[1..] == rest;
    assert SkipWs(" " + rest) == rest;
    assert SkipWs(r) == r by { assert r[0] == Arrow(m)[0]; }
    assert Redirs(Redir(c, f, m), rest) == Ok((Redir(c, f, m), rest));
  }

  /** Two parenthesised commands with a pipe between them. */
  lemma {:induction false} PipeTrip(l: Cmd, r: Cmd, rest: string)
    requires Legal(l) && Legal(r) && Stops(rest)
    requires ParseLine(Print(l) + (")" + ("|" + Paren(r) + rest))) == Ok((l, ")" + ("|" + Paren(r) + rest)))
    requires ParseLine(Print(r) + (")" + rest)) == Ok((r, ")" + rest))
    ensures ParsePipe(Paren(l) + ("|" + Paren(r) + rest)) == Ok((Pipe(l, r), rest))
  {
    var x, y := Paren(r) + rest, "|" + Paren(r) + rest;
    assert y == "|" + x;
    BlockTrip(r, rest);
    BlockTrip(l, y);
    SymToken('|', x);
    assert x[0] == '(';
    assert Redirs(l, y) == Ok((l, y)) && Redirs(r, rest) == Ok((r, rest));
    PipeEnds(x, r, rest);
    assert Peek(y, "|");
  }

  lemma {:induction false} ListTrip(l: Cmd, r: Cmd, rest: string)
    requires Legal(l) && Legal(r) && Stops(rest)
    requires ParseLine(Print(l) + (")" + (";" + Paren(r) + rest))) == Ok((l, ")" + (";" + Paren(r) + rest)))
    requires ParseLine(Print(r) + (")" + rest)) == Ok((r, ")" + rest))
    ensures ParseLine(Paren(l) + (";" + Paren(r) + rest)) == Ok((List(l, r), rest))
  {
    var x, y := Paren(r) + rest, ";" + Paren(r) + rest;
    assert y == ";" + x;
    BlockTrip(r, rest);
    BlockTrip(l, y);
    SymToken(';', x);
    assert x[0] == '(';
    assert Redirs(l, y) == Ok((l, y)) && Redirs(r, rest) == Ok((r, rest));
    PipeEnds(x, r, rest);
    LineEnds(x, r, rest);
    PipeEnds(Paren(l) + y, l, y);
    assert Backs(l, y) == (l, y);
    assert Peek(y, ";");
  }

  lemma {:induction false} BackTrip(c: Cmd, rest: string)
    requires Legal(c) && Stops(rest) && ParseLine(Print(c) + (")" + ("&" + rest))) == Ok((c, ")" + ("&" + rest)))
    ensures ParseLine(Paren(c) + ("&" + rest)) == Ok((Back(c), rest))
  {
    var y := "&" + rest;
    BlockTrip(c, y);
    SymToken('&', rest);
    assert Redirs(c, y) == Ok((c, y));
    PipeEnds(Paren(c) + y, c, y);
    assert Peek(y, "&");
    assert Backs(Back(c), rest) == (Back(c), rest);
    assert Backs(c, y) == (Back(c), rest);
  }

  lemma {:induction false} LineExec(argv: seq<string>, rest: string)
    requires Legal(Exec(argv)) && Stops(rest)
    ensures ParseLine(Join(argv) + rest) == Ok((Exec(argv), rest))
  {
    hide ParseLine, ParsePipe, ParseExec, Peek;
    ExecTrip(argv, rest);
    NoPipe(rest);
    PipeEnds(Join(argv) + rest, Exec(argv), rest);
    LineEnds(Join(argv) + rest, Exec(argv), rest);
  }

  lemma {:induction false} LineRedir(d: Cmd, m: Mode, f: string, rest: string)
    requires Legal(d) && Word(f) && Stops(rest)
    requires var y := Arrow(m) + f + (" " + rest); ParseLine(Print(d) + (")" + y)) == Ok((d, ")" + y))
    ensures ParseLine(Paren(d) + (Arrow(m) + f + (" " + rest))) == Ok((Redir(d, f, m), rest))
  {
    hide ParseLine, ParsePipe, ParseExec, Redirs, Peek, Print;
    var y := Arrow(m) + f + (" " + rest);
    BlockTrip(d, y);
    RedirTrip(d, m, f, rest);
    NoPipe(rest);
    PipeEnds(Paren(d) + y, Redir(d, f, m), rest);
    LineEnds(Paren(d) + y, Redir(d, f, m), rest);
  }

  /** Parsing the printed form of a command gives back the command and stops right behind it. */
  lemma {:induction false} LineTrip(c: Cmd, rest: string)
    requires Legal(c) && Stops(rest)
    ensures ParseLine(Print(c) + rest) == Ok((c, rest))
    decreases c
  {
    match c
    case Exec(argv) =>
      LineExec(argv, rest);
    case Redir(d, f, m) =>
      hide ParseLine;
      var y := Arrow(m) + f + (" " + rest);
      assert Print(c) + rest == Paren(d) + y;
      LineTrip(d, ")" + y);
      LineRedir(d, m, f, rest);
    case Pipe(l, r) =>
      hide ParseLine, ParsePipe;
      assert Print(c) + rest == Paren(l) + ("|" + Paren(r) + rest);
      LineTrip(l, ")" + ("|" + Paren(r) + rest));
      LineTrip(r, ")" + rest);
      PipeTrip(l, r, rest);
      LineEnds(Print(c) + rest, c, rest);
    case List(l, r) =>
      hide ParseLine;
      assert Print(c) + rest == Paren(l) + (";" + Paren(r) + rest);
      LineTrip(l, ")" + (";" + Paren(r) + rest));
      LineTrip(r, ")" + rest);
      ListTrip(l, r, rest);
    case Back(d) =>
      hide ParseLine;
      assert Print(c) + rest == Paren(d) + ("&" + rest);
      LineTrip(d, ")" + ("&" + rest));
      BackTrip(d, rest);
  }

  /** Every legal command tree survives printing and parsing, and nothing of the line is left over. */
  lemma {:induction false} RoundTrip(c: Cmd)
    requires Legal(c)
    ensures ParseCmd(Print(c)) == Ok(c)
  {
    LineTrip(c, "");
    assert Print(c) + "" == Print(c);
  }
}
