/**
 The parser of user/sh.c as it runs: a cursor moves over the line, commands
 point into the line, and nulterminate cuts the words out in place.
 */
module ShCode {
  import opened Sh

  /** A counted string: argv[i] and eargv[i], or file and efile. */
  datatype Span = Span(q: nat, eq: nat)

  datatype Node =
    | NExec(args: seq<Span>)
    | NRedir(cmd: Node, file: Span, mode: Mode)
    | NPipe(left: Node, right: Node)
    | NList(left: Node, right: Node)
    | NBack(cmd: Node)

  /** A span is a whole word of the line. */
  predicate IsToken(s: string, sp: Span) {
    && sp.q < sp.eq <= |s| && (forall i :: sp.q <= i < sp.eq ==> IsWordChar(s[i]))
    && (sp.eq < |s| ==> !IsWordChar(s[sp.eq]))
  }

  function TextOf(s: string, sp: Span): string { if sp.q <= sp.eq <= |s| then s[sp.q..sp.eq] else "" }

  function Texts(s: string, sps: seq<Span>): (t: seq<string>)
    ensures |t| == |sps| && forall i :: 0 <= i < |sps| ==> t[i] == TextOf(s, sps[i])
  {
    if sps == [] then [] else Texts(s, sps[..|sps| - 1]) + [TextOf(s, sps[|sps| - 1])]
  }

  /** The command with the words its pointers delimit. */
  function Text(s: string, n: Node): Cmd {
    match n
    case NExec(args) => Exec(Texts(s, args))
    case NRedir(c, f, m) => Redir(Text(s, c), TextOf(s, f), m)
    case NPipe(l, r) => Pipe(Text(s, l), Text(s, r))
    case NList(l, r) => List(Text(s, l), Text(s, r))
    case NBack(c) => Back(Text(s, c))
  }

  predicate Tokens(s: string, n: Node) {
    match n
    case NExec(args) => forall i :: 0 <= i < |args| ==> IsToken(s, args[i])
    case NRedir(c, f, _) => Tokens(s, c) && IsToken(s, f)
    case NPipe(l, r) => Tokens(s, l) && Tokens(s, r)
    case NList(l, r) => Tokens(s, l) && Tokens(s, r)
    case NBack(c) => Tokens(s, c)
  }

  function PutArg(n: Node, sp: Span): Node {
    match n
    case NExec(args) => NExec(args + [sp])
    case NRedir(c, f, m) => NRedir(PutArg(c, sp), f, m)
    case _ => n
  }

  lemma {:induction false} PutArgText(s: string, n: Node, sp: Span)
    requires Tokens(s, n) && IsToken(s, sp)
    ensures Text(s, PutArg(n, sp)) == AddArg(Text(s, n), TextOf(s, sp)) && Tokens(s, PutArg(n, sp))
    decreases n
  {
    match n
    case NExec(args) => assert (args + [sp])[..|args|] == args;
    case NRedir(c, _, _) => PutArgText(s, c, sp);
    case _ =>
  }

  /** A parse by code agrees with the parse of the rest of the line. */
  predicate Agrees(s: string, x: Parsed, n: Result<Node>, pos: nat) {
    && pos <= |s|
    && (x.Err? ==> n == Err(x.message))
    && (x.Ok? ==> n.Ok? && Tokens(s, n.value) && Text(s, n.value) == x.value.0 && s[pos..] == x.value.1)
  }

  /** gettoken's return code and pointers stand for the token t. */
  predicate Coded(s: string, t: Tok, ret: char, sp: Span) {
    match t
    case TEnd => ret == '\0'
    case TSym(c) => ret == c && IsSymbol(c)
    case TAppend => ret == '+'
    case TWord(w) => ret == 'a' && IsToken(s, sp) && TextOf(s, sp) == w
  }

  class Parser {
    const s: string
    var pos: nat

    constructor (line: string)
      ensures s == line && pos == 0
    {
      s, pos := line, 0;
    }

    /** while(s < es && strchr(whitespace, *s)) s++; */
    method Skip()
      requires pos <= |s|
      modifies this
      ensures pos <= |s| && s[pos..] == SkipWs(old(s[pos..]))
    {
      while pos < |s| && IsSpace(s[pos])
        invariant pos <= |s| && SkipWs(s[pos..]) == SkipWs(old(s[pos..]))
      {
        assert s[pos..][1..] == s[pos + 1..];
        pos := pos + 1;
      }
    }

    /** while(s < es && !strchr(whitespace, *s) && !strchr(symbols, *s)) s++; */
    method SkipWord()
      requires pos <= |s|
      modifies this
      ensures old(pos) <= pos <= |s| && pos - old(pos) == WordLen(old(s[pos..]))
    {
      while pos < |s| && IsWordChar(s[pos])
        invariant old(pos) <= pos <= |s| && pos - old(pos) + WordLen(s[pos..]) == WordLen(old(s[pos..]))
      {
        assert s[pos..][1..] == s[pos + 1..];
        pos := pos + 1;
      }
    }

    /** The case of a symbol in gettoken; >> counts as one. */
    method TakeSymbol() returns (ret: char)
      requires pos < |s| && IsSymbol(s[pos])
      modifies this
      ensures pos <= |s| && SkipWs(s[pos..]) == Lex(old(s[pos..])).1 && Coded(s, Lex(old(s[pos..])).0, ret, Span(0, 0))
    {
      ghost var r := s[pos..];
      assert r[1..] == s[pos + 1..];
      ret := s[pos];
      pos := pos + 1;
      if ret == '>' && pos < |s| && s[pos] == '>' {
        ret := '+';
        assert r[2..] == s[pos + 1..];
        pos := pos + 1;
      }
    }

    /** The default case of gettoken: a word. */
    method TakeWord() returns (ret: char)
      requires pos < |s| && IsWordChar(s[pos])
      modifies this
      ensures pos <= |s| && SkipWs(s[pos..]) == Lex(old(s[pos..])).1
      ensures Coded(s, Lex(old(s[pos..])).0, ret, Span(old(pos), pos))
    {
      var q := pos;
      ghost var r := s[pos..];
      ret := 'a';
      SkipWord();
      assert r[pos - q..] == s[pos..] && r[..pos - q] == s[q..pos];
      forall i | q <= i < pos ensures IsWordChar(s[i]) {
        assert s[i] == r[i - q];
      }
      assert pos < |s| ==> s[pos] == r[pos - q];
    }

    method GetTok() returns (ret: char, sp: Span)
      requires pos <= |s|
      modifies this
      ensures pos <= |s| && s[pos..] == GetToken(old(s[pos..])).1 && Coded(s, GetToken(old(s[pos..])).0, ret, sp)
    {
      hide Lex, IsToken;
      Skip();
      var q := pos;
      ret := '\0';
      if pos == |s| {
        LexEnd();
      } else if IsSymbol(s[pos]) {
        LexSymbol(s[pos..]);
        ret := TakeSymbol();
      } else {
        ret := TakeWord();
      }
      sp := Span(q, pos);
      Skip();
    }

    method PeekTok(toks: string) returns (b: bool)
      requires pos <= |s|
      modifies this
      ensures pos <= |s| && s[pos..] == SkipWs(old(s[pos..])) && b == Peek(old(s[pos..]), toks)
    {
      Skip();
      b := pos < |s| && s[pos] in toks;
    }
  
    method ParseRedirs(n: Node) returns (res: Result<Node>)
      requires pos <= |s| && Tokens(s, n)
      modifies this
      ensures Agrees(s, Redirs(Text(s, n), old(s[pos..])), res, pos)
    {
      hide GetToken, Peek, Redirs, SkipWs, IsToken;
      var cur := n;
      ghost var goal := Redirs(Text(s, n), s[pos..]);
      while true
        invariant pos <= |s| && Tokens(s, cur) && Redirs(Text(s, cur), s[pos..]) == goal
        decreases |s| - pos
      {
        ghost var r := s[pos..];
        RedirsStep(Text(s, cur), r);
        PeekSkips(r, "<>");
        var more := PeekTok("<>");
        if !more {
          return Ok(cur);
        }
        var tok, q, w, file;
        tok, q := GetTok();
        w, file := GetTok();
        if w != 'a' {
          return Err("missing file for redirection");
        }
        cur := NRedir(cur, file, if tok == '<' then Read else if tok == '+' then Append else Write);
      }
    }

    /** The loop of parseexec. */
    method ParseArgs(n: Node) returns (res: Result<Node>)
      requires pos <= |s| && Tokens(s, n)
      modifies this
      ensures Agrees(s, Args(Text(s, n), 0, old(s[pos..])), res, pos)
    {
      hide GetToken, Peek, Redirs, SkipWs, IsToken, Args, Text, Tokens, PutArg, AddArg, TextOf;
      var argc, ret := 0, n;
      ghost var goal := Args(Text(s, n), 0, s[pos..]);
      while true
        invariant pos <= |s| && argc < MAXARGS && Tokens(s, ret) && Args(Text(s, ret), argc, s[pos..]) == goal
        decreases |s| - pos
      {
        ghost var r := s[pos..];
        ArgsUnfold(Text(s, ret), argc, r);
        PeekSkips(r, "|)&;");
        var stop := PeekTok("|)&;");
        if stop {
          return Ok(ret);
        }
        var tok, w;
        tok, w := GetTok();
        if tok == '\0' {
          return Ok(ret);
        }
        if tok != 'a' {
          return Err("syntax");
        }
        PutArgText(s, ret, w);
        ret := PutArg(ret, w);
        argc := argc + 1;
        if argc >= MAXARGS {
          return Err("too many args");
        }
        res := ParseRedirs(ret);
        if res.Err? {
          return;
        }
        ret := res.value;
      }
    }

    method ParseExecCmd() returns (res: Result<Node>)
      requires pos <= |s|
      modifies this
      ensures Agrees(s, ParseExec(old(s[pos..])), res, pos)
      decreases |s| - pos, 1
    {
      hide GetToken, Peek, Redirs, SkipWs, IsToken, Args;
      ghost var r0 := s[pos..];
      ExecSkips(r0);
      PeekSkips(r0, "(");
      var block := PeekTok("(");
      if block {
        res := ParseBlockCmd();
        return;
      }
      res := ParseRedirs(NExec([]));
      if res.Err? {
        return;
      }
      res := ParseArgs(res.value);
    }

    method ParseBlockCmd() returns (res: Result<Node>)
      requires pos <= |s|
      modifies this
      ensures Agrees(s, ParseBlock(old(s[pos..])), res, pos)
      decreases |s| - pos, 0
    {
      hide GetToken, Peek, Redirs, SkipWs, IsToken, ParseLine;
      PeekSkips(s[pos..], "(");
      var b := PeekTok("(");
      if !b {
        return Err("parseblock");
      }
      var tok, w;
      tok, w := GetTok();
      res := ParseLineCmd();
      if res.Err? {
        return;
      }
      PeekSkips(s[pos..], ")");
      b := PeekTok(")");
      if !b {
        return Err("syntax - missing )");
      }
      tok, w := GetTok();
      res := ParseRedirs(res.value);
    }

    method ParsePipeCmd() returns (res: Result<Node>)
      requires pos <= |s|
      modifies this
      ensures Agrees(s, ParsePipe(old(s[pos..])), res, pos)
      decreases |s| - pos, 2
    {
      hide GetToken, Peek, SkipWs, IsToken, ParseExec;
      res := ParseExecCmd();
      if res.Err? {
        return;
      }
      PeekSkips(s[pos..], "|");
      var b := PeekTok("|");
      if b {
        var tok, w, right;
        tok, w := GetTok();
        right := ParsePipeCmd();
        if right.Err? {
          return right;
        }
        res := Ok(NPipe(res.value, right.value));
      }
    }

    method ParseLineCmd() returns (res: Result<Node>)
      requires pos <= |s|
      modifies this
      ensures Agrees(s, ParseLine(old(s[pos..])), res, pos)
      decreases |s| - pos, 3
    {
      hide GetToken, Peek, SkipWs, IsToken, ParsePipe, Backs;
      res := ParsePipeCmd();
      if res.Err? {
        return;
      }
      var cmd := res.value;
      ghost var goal := Backs(Text(s, cmd), s[pos..]);
      ghost var start := pos;
      while true
        invariant start <= pos <= |s| && Tokens(s, cmd) && Backs(Text(s, cmd), s[pos..]) == goal
        decreases |s| - pos
      {
        BacksUnfold(Text(s, cmd), s[pos..]);
        PeekSkips(s[pos..], "&");
        var more := PeekTok("&");
        if !more {
          break;
        }
        var tok, w;
        tok, w := GetTok();
        cmd := NBack(cmd);
      }
      PeekSkips(s[pos..], ";");
      var b := PeekTok(";");
      if b {
        var tok, w, right;
        tok, w := GetTok();
        right := ParseLineCmd();
        if right.Err? {
          return right;
        }
        return Ok(NList(cmd, right.value));
      }
      return Ok(cmd);
    }

    /** parsecmd up to nulterminate: the whole line must be one command. */
    method ParseCommand() returns (res: Result<Node>)
      requires pos == 0
      modifies this
      ensures ParseCmd(s).Err? ==> res == Err(ParseCmd(s).message)
      ensures ParseCmd(s).Ok? ==> res.Ok? && Tokens(s, res.value) && Text(s, res.value) == ParseCmd(s).value
    {
      hide ParseLine, SkipWs, Peek, IsToken;
      assert s[0..] == s;
      res := ParseLineCmd();
      if res.Err? {
        return;
      }
      var b := PeekTok("");
      if pos != |s| {
        return Err("syntax");
      }
    }
  }

  // ----- nulterminate -----

  /** The positions at which words of the command end. */
  function Ends(n: Node): set<nat> {
    match n
    case NExec(args) => set i | 0 <= i < |args| :: args[i].eq
    case NRedir(c, f, _) => Ends(c) + {f.eq}
    case NPipe(l, r) => Ends(l) + Ends(r)
    case NList(l, r) => Ends(l) + Ends(r)
    case NBack(c) => Ends(c)
  }

  predicate Has(n: Node, sp: Span) {
    match n
    case NExec(args) => sp in args
    case NRedir(c, f, _) => sp == f || Has(c, sp)
    case NPipe(l, r) => Has(l, sp) || Has(r, sp)
    case NList(l, r) => Has(l, sp) || Has(r, sp)
    case NBack(c) => Has(c, sp)
  }

  /** Zero the character behind every word of the command. */
  method Nulterminate(n: Node, buf: array<char>, s: string)
    requires buf.Length > |s| && Tokens(s, n)
    modifies buf
    ensures forall k :: 0 <= k < buf.Length ==> buf[k] == if k in Ends(n) then '\0' else old(buf[k])
    decreases n
  {
    match n
    case NExec(args) =>
      var i := 0;
      while i < |args|
        invariant i <= |args|
        invariant forall k ::
          0 <= k < buf.Length ==> buf[k] == if k in Ends(NExec(args[..i])) then '\0' else old(buf[k])
      {
        assert IsToken(s, args[i]);
        EndsStep(args, i);
        buf[args[i].eq] := '\0';
        i := i + 1;
      }
      assert args[..|args|] == args;
    case NRedir(c, f, _) =>
      Nulterminate(c, buf, s);
      buf[f.eq] := '\0';
    case NPipe(l, r) =>
      Nulterminate(l, buf, s);
      Nulterminate(r, buf, s);
    case NList(l, r) =>
      Nulterminate(l, buf, s);
      Nulterminate(r, buf, s);
    case NBack(c) =>
      Nulterminate(c, buf, s);
  }

  lemma {:induction false} EndsStep(args: seq<Span>, i: nat)
    requires i < |args|
    ensures Ends(NExec(args[..i + 1])) == Ends(NExec(args[..i])) + {args[i].eq}
  {
    var a, b := args[..i], args[..i + 1];
    assert forall k :: 0 <= k < i ==> b[k] == a[k];
    assert b[i] == args[i];
  }

  /** The C string at p: everything up to the first NUL. */
  function CString(b: string, p: nat): string
    decreases |b| - p
  {
    if p < |b| && b[p] != '\0' then [b[p]] + CString(b, p + 1) else ""
  }

  /** The line and its final NUL, with NULs at the positions e. */
  predicate Cut(b: string, s: string, e: set<nat>) {
    |b| > |s| && forall k :: 0 <= k <= |s| ==> b[k] == if k in e || k == |s| then '\0' else s[k]
  }

  lemma {:induction false} EndsAreEnds(s: string, n: Node, k: nat)
    requires Tokens(s, n) && k in Ends(n)
    ensures k <= |s| && (k < |s| ==> !IsWordChar(s[k]))
    decreases n
  {
    match n
    case NExec(args) =>
    case NRedir(c, f, _) => if k in Ends(c) { EndsAreEnds(s, c, k); }
    case NPipe(l, r) => if k in Ends(l) { EndsAreEnds(s, l, k); } else { EndsAreEnds(s, r, k); }
    case NList(l, r) => if k in Ends(l) { EndsAreEnds(s, l, k); } else { EndsAreEnds(s, r, k); }
    case NBack(c) => EndsAreEnds(s, c, k);
  }

  lemma {:induction false} SpanEnds(s: string, n: Node, sp: Span)
    requires Tokens(s, n) && Has(n, sp)
    ensures IsToken(s, sp) && sp.eq in Ends(n)
    decreases n
  {
    match n
    case NExec(args) =>
    case NRedir(c, f, _) => if sp != f { SpanEnds(s, c, sp); }
    case NPipe(l, r) => if Has(l, sp) { SpanEnds(s, l, sp); } else { SpanEnds(s, r, sp); }
    case NList(l, r) => if Has(l, sp) { SpanEnds(s, l, sp); } else { SpanEnds(s, r, sp); }
    case NBack(c) => SpanEnds(s, c, sp);
  }

  lemma {:induction false} CStringIs(b: string, p: nat, e: nat)
    requires p <= e < |b| && b[e] == '\0' && forall k :: p <= k < e ==> b[k] != '\0'
    ensures CString(b, p) == b[p..e]
    decreases e - p
  {
    if p < e {
      CStringIs(b, p + 1, e);
      assert b[p..e] == [b[p]] + b[p + 1..e];
    }
  }

  /** After nulterminate, the C string at every argument and file name is exactly its word. */
  lemma {:induction false} WordsCut(s: string, n: Node, b: string, sp: Span)
    requires '\0' !in s && Tokens(s, n) && Cut(b, s, Ends(n)) && Has(n, sp)
    ensures CString(b, sp.q) == TextOf(s, sp)
  {
    SpanEnds(s, n, sp);
    forall k | sp.q <= k < sp.eq ensures b[k] == s[k] && s[k] != '\0' {
      if k in Ends(n) {
        EndsAreEnds(s, n, k);
        assert false;
      }
    }
    CStringIs(b, sp.q, sp.eq);
    assert b[sp.q..sp.eq] == s[sp.q..sp.eq];
  }

  /**
   parsecmd on the line in buf. Afterwards every argument and every file name of
   the command is a C string in buf, and it is the word that was written there.
   */
  method Parsecmd(buf: array<char>) returns (res: Result<Node>)
    requires '\0' in buf[..]
    modifies buf
    ensures var line := old(CString(buf[..], 0));
      && (ParseCmd(line).Err? ==> res == Err(ParseCmd(line).message) && buf[..] == old(buf[..]))
      && (ParseCmd(line).Ok? ==> res.Ok? && Tokens(line, res.value) && Text(line, res.value) == ParseCmd(line).value)
      && (res.Ok? ==> forall sp :: Has(res.value, sp) ==> CString(buf[..], sp.q) == TextOf(line, sp))
  {
    hide ParseCmd, Text;
    var n := 0;
    while buf[n] != '\0'
      invariant n < buf.Length && '\0' !in buf[..n]
      decreases buf.Length - n
    {
      assert buf[..n + 1] == buf[..n] + [buf[n]];
      assert buf[..] == buf[..n + 1] + buf[n + 1..];
      n := n + 1;
    }
    var line := buf[..n];
    CStringIs(buf[..], 0, n);
    var parser := new Parser(line);
    res := parser.ParseCommand();
    if res.Ok? {
      Nulterminate(res.value, buf, line);
      forall sp | Has(res.value, sp) ensures CString(buf[..], sp.q) == TextOf(line, sp) {
        WordsCut(line, res.value, buf[..], sp);
      }
    }
  }

  lemma {:induction false} LexEnd()
    ensures Lex("") == (TEnd, "") && SkipWs("") == ""
  {
  }

  lemma {:induction false} LexSymbol(r: string)
    requires r != "" && IsSymbol(r[0])
    ensures Lex(r).0.TSym? || Lex(r).0.TAppend?
  {
  }

  /** peek leaves the cursor where the next token begins. */
  lemma {:induction false} PeekSkips(r: string, toks: string)
    ensures SkipWs(SkipWs(r)) == SkipWs(r) && GetToken(SkipWs(r)) == GetToken(r) && |SkipWs(r)| <= |r|
    ensures Peek(r, toks) ==> !GetToken(r).0.TEnd? && |GetToken(r).1| < |r|
    ensures Peek(SkipWs(r), toks) == Peek(r, toks)
  {
  }

  lemma {:induction false} RedirsStep(c: Cmd, r: string)
    ensures !Peek(r, "<>") ==> Redirs(c, r) == Ok((c, SkipWs(r)))
    ensures Peek(r, "<>") && GetToken(GetToken(r).1).0.TWord? ==>
      Redirs(c, r) == Redirs(Redir(c, GetToken(GetToken(r).1).0.w, RedirMode(GetToken(r).0)), GetToken(GetToken(r).1).1)
    ensures Peek(r, "<>") && !GetToken(GetToken(r).1).0.TWord? ==> Redirs(c, r) == Err("missing file for redirection")
  {
  }

  lemma {:induction false} ArgsUnfold(c: Cmd, argc: nat, r: string)
    ensures Peek(r, "|)&;") ==> Args(c, argc, r) == Ok((c, SkipWs(r)))
    ensures !Peek(r, "|)&;") && GetToken(r).0.TEnd? ==> Args(c, argc, r) == Ok((c, GetToken(r).1))
    ensures !Peek(r, "|)&;") && !GetToken(r).0.TEnd? && !GetToken(r).0.TWord? ==> Args(c, argc, r) == Err("syntax")
    ensures !Peek(r, "|)&;") && GetToken(r).0.TWord? && argc + 1 >= MAXARGS ==> Args(c, argc, r) == Err("too many args")
    ensures !Peek(r, "|)&;") && GetToken(r).0.TWord? && argc + 1 < MAXARGS ==>
      var d := Redirs(AddArg(c, GetToken(r).0.w), GetToken(r).1);
      Args(c, argc, r) == if d.Err? then d else Args(d.value.0, argc + 1, d.value.1)
  {
  }

  lemma {:induction false} BacksUnfold(c: Cmd, r: string)
    ensures Backs(c, r) == if Peek(r, "&") then Backs(Back(c), GetToken(r).1) else (c, SkipWs(r))
  {
  }

  lemma {:induction false} ExecSkips(r: string)
    ensures ParseBlock(SkipWs(r)) == ParseBlock(r) && Redirs(Exec([]), SkipWs(r)) == Redirs(Exec([]), r)
  {
    PeekSkips(r, "(");
    PeekSkips(r, "<>");
    hide SkipWs, GetToken, Peek;
  }
}
