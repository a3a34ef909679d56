/** The imperative parser (compiler/parser.c, `parser_t`). Every method is proved against
    its function in ParseSpec or StmtSpec. The declaration parsers are in Declarations. */
module Parser {
  import opened Wrappers
  import opened Tokens
  import opened ParseSpec
  import opened StmtSpec
  import A = Ast

  class Parser {
    const tokens: seq<Lexeme>
    var pos: nat
    var hadError: bool

    ghost predicate Valid()
      reads this
    {
      Terminated(tokens) && pos < |tokens|
    }

    constructor (toks: seq<Lexeme>)
      requires Terminated(toks)
      ensures Valid() && tokens == toks && pos == 0 && !hadError
    {
      tokens := toks;
      pos, hadError := 0, false;
    }

    /** p_cur: past the end, the last token. */
    function Cur(): Lexeme
      requires |tokens| > 0
      reads this
    {
      tokens[if pos < |tokens| then pos else |tokens| - 1]
    }

    function Peek(ahead: nat): Lexeme
      requires |tokens| > 0
      reads this
    {
      tokens[if pos + ahead < |tokens| then pos + ahead else |tokens| - 1]
    }

    method Advance()
      requires Valid()
      modifies this`pos
      ensures Valid() && pos == Adv(tokens, old(pos))
    {
      if pos < |tokens| - 1 {
        pos := pos + 1;
      }
    }

    method ExpectTok(k: Tok) returns (ok: bool)
      requires Valid()
      modifies this
      ensures Valid()
      ensures var r := Expect(tokens, old(pos), k);
              pos == r.pos && ok == !r.err && hadError == (old(hadError) || r.err)
    {
      if Cur().kind != k {
        hadError := true;
        return false;
      }
      Advance();
      ok := true;
    }

    // ----- expressions -----

    /** What every expression method promises. */
    ghost predicate Did<T>(r: Parsed<T>, val: T, before: bool)
      reads this
    {
      Valid() && val == r.val && pos == r.pos && hadError == (before || r.err)
    }

    method ParsePath(first: string) returns (e: A.Expr)
      requires Valid() && 1 <= pos
      modifies this
      ensures var r := PathTail(tokens, old(pos), 1);
              Did(Parsed(PathOf([first] + r.val), r.pos, false), e, old(hadError))
    {
      var parts := [first];
      while Cur().kind.Dot? && Peek(1).kind.Ident? && |parts| < 4
        invariant Valid() && hadError == old(hadError) && old(pos) <= pos && 1 <= |parts| <= 4
        invariant parts + PathTail(tokens, pos, |parts|).val == [first] + PathTail(tokens, old(pos), 1).val
        invariant PathTail(tokens, pos, |parts|).pos == PathTail(tokens, old(pos), 1).pos
        decreases |tokens| - pos
      {
        Advance();
        parts := parts + [Cur().text];
        Advance();
      }
      assert PathTail(tokens, pos, |parts|) == Parsed([], pos, false);
      assert parts + [] == parts;
      e := if |parts| > 1 then A.Path(parts) else A.Ident(parts[0]);
    }

    method ParseRead() returns (e: A.Expr)
      requires Valid() && Cur().kind == READ
      modifies this
      ensures Did(Primary(tokens, old(pos)), e, old(hadError))
      decreases |tokens| - pos, 0
    {
      hide ParseSpec.Climb;
      Advance();
      var _ := ExpectTok(LParen);
      var x := ParseExpr();
      var _ := ExpectTok(RParen);
      e := A.Read(x);
    }

    method ParseParen() returns (e: A.Expr)
      requires Valid() && Cur().kind.LParen?
      modifies this
      ensures Did(Primary(tokens, old(pos)), e, old(hadError))
      decreases |tokens| - pos, 0
    {
      hide ParseSpec.Climb;
      Advance();
      e := ParseExpr();
      var _ := ExpectTok(RParen);
    }

    method ParsePrefix() returns (e: A.Expr)
      requires Valid() && IsUnary(Cur().kind)
      modifies this
      ensures Did(Primary(tokens, old(pos)), e, old(hadError))
      decreases |tokens| - pos, 0
    {
      hide ParseSpec.Climb;
      var op := UnOpOf(Cur().kind);
      Advance();
      var x := ParsePrimary();
      e := A.Un(op, x);
    }

    method ParsePrimary() returns (e: A.Expr)
      requires Valid()
      modifies this
      ensures Did(Primary(tokens, old(pos)), e, old(hadError))
      decreases |tokens| - pos, 1
    {
      hide ParseSpec.Climb, ParseSpec.PathTail;
      var t := Cur();
      var k := t.kind;
      if k.Int? || k.Hex? || k.BinLit? {
        Advance();
        e := A.IntLit(t.ival);
      } else if k.BoolTrue? || k.BoolFalse? {
        Advance();
        e := A.BoolLit(t.ival != 0);
      } else if k.Str? {
        Advance();
        e := A.StrLit(t.text);
      } else if k == READ {
        e := ParseRead();
      } else if k.Ident? {
        Advance();
        e := ParsePath(t.text);
      } else if k.LParen? {
        e := ParseParen();
      } else if IsUnary(k) {
        e := ParsePrefix();
      } else {
        hadError := true;
        Advance();
        e := A.Null;
      }
    }

    method ParseExprPrec(min: nat) returns (e: A.Expr)
      requires Valid() && min >= 1
      modifies this
      ensures Did(Climb(tokens, old(pos), min), e, old(hadError))
      decreases |tokens| - pos, 2
    {
      hide ParseSpec.Primary;
      e := ParsePrimary();
      if e.Null? {
        return;
      }
      ghost var l := Primary(tokens, old(pos));
      ghost var goal := Operators(tokens, l.pos, min, l.val, l.err);
      ghost var err := l.err;
      while true
        invariant Valid() && !e.Null? && old(pos) < pos
        invariant hadError == (old(hadError) || err)
        invariant Operators(tokens, pos, min, e, err) == goal
        decreases |tokens| - pos
      {
        var prec := Prec(Cur().kind);
        if prec < min {
          break;
        }
        var op := Cur().kind;
        ghost var r := Climb(tokens, pos + 1, prec + 1);
        Advance();
        var rhs := ParseExprPrec(prec + 1);
        if rhs.Null? {
          return;
        }
        err := err || r.err;
        e := A.Bin(BinOpOf(op), e, rhs);
      }
    }

    method ParseExpr() returns (e: A.Expr)
      requires Valid()
      modifies this
      ensures Did(Climb(tokens, old(pos), 1), e, old(hadError))
      decreases |tokens| - pos, 3
    {
      e := ParseExprPrec(1);
    }

    // ----- statements -----

    /** Expect a token; `r` is what the statement has parsed so far. */
    method Take<T>(ghost r: Parsed<T>, k: Tok) returns (ghost s: Parsed<T>)
      requires Valid() && pos == r.pos && (r.err ==> hadError)
      modifies this
      ensures s == Then(tokens, r, k)
      ensures Valid() && pos == s.pos && hadError == (old(hadError) || s.err)
    {
      s := Then(tokens, r, k);
      var _ := ExpectTok(k);
    }

    /** The closing parenthesis and the semicolon of a call. */
    method TakeClose(ghost r: Parsed<seq<A.Node>>) returns (ghost s: Parsed<seq<A.Node>>)
      requires Valid() && pos == r.pos && (r.err ==> hadError)
      modifies this
      ensures s == CloseCall(tokens, r)
      ensures Valid() && pos == s.pos && hadError == (old(hadError) || s.err)
    {
      hide StmtSpec.Then;
      s := Take(r, RParen);
      s := Take(s, Semicolon);
    }

    /** Parse an expression and add it to the statement's children. */
    method AddExpr(kids: seq<A.Node>, ghost r: Parsed<seq<A.Node>>)
      returns (more: seq<A.Node>, ghost s: Parsed<seq<A.Node>>)
      requires Valid() && pos == r.pos && kids == r.val && (r.err ==> hadError)
      modifies this
      ensures s == ThenExpr(tokens, r)
      ensures Valid() && pos == s.pos && more == s.val && hadError == (old(hadError) || s.err)
    {
      hide ParseSpec.Climb;
      s := ThenExpr(tokens, r);
      var e := ParseExpr();
      more := kids + Kid(e);
    }

    method ParseTwoArgs() returns (kids: seq<A.Node>)
      requires Valid()
      modifies this
      ensures Did(TwoArgs(tokens, old(pos)), kids, old(hadError))
    {
      hide StmtSpec.ThenExpr, StmtSpec.Then;
      ghost var r := Take(From(pos), LParen);
      kids, r := AddExpr([], r);
      r := Take(r, Comma);
      kids, r := AddExpr(kids, r);
      r := TakeClose(r);
    }

    method ParseEmitArgs() returns (kids: seq<A.Node>)
      requires Valid()
      modifies this
      ensures Did(EmitArgs(tokens, old(pos)), kids, old(hadError))
    {
      hide StmtSpec.ThenExpr, StmtSpec.Then, StmtSpec.CloseCall, ParseSpec.Climb, ParseSpec.Expect;
      ghost var r := Take(From(pos), LParen);
      kids, r := AddExpr([], r);
      if Cur().kind.Comma? {
        Advance();
        kids, r := AddExpr(kids, Parsed(r.val, pos, r.err));
      }
      r := TakeClose(r);
    }

    method ParseCancelArg() returns (kids: seq<A.Node>)
      requires Valid()
      modifies this
      ensures Did(CloseCall(tokens, OpenArg(tokens, old(pos))), kids, old(hadError))
    {
      hide StmtSpec.ThenExpr, StmtSpec.Then;
      ghost var r := Take(From(pos), LParen);
      kids, r := AddExpr([], r);
      r := TakeClose(r);
    }

    method ParseLogArgs() returns (kids: seq<A.Node>)
      requires Valid()
      modifies this
      ensures Did(LogCall(tokens, old(pos)), kids, old(hadError))
    {
      hide ParseSpec.Climb, StmtSpec.Then, StmtSpec.LogArgs;
      ghost var o := Take(From(pos), LParen);
      ghost var all := LogArgs(tokens, o.pos);
      ghost var err := o.err;
      kids := [];
      while true
        invariant Valid() && hadError == (old(hadError) || err)
        invariant var r := LogArgs(tokens, pos);
                  all.pos == r.pos && all.val == kids + r.val && (o.err || all.err) == (err || r.err)
        decreases |tokens| - pos
      {
        ghost var x := Climb(tokens, pos, 1);
        LogArgsStep(tokens, pos);
        err := err || x.err;
        var e := ParseExpr();
        if e.Null? {
          assert kids + [] == kids;
          break;
        }
        kids := kids + [A.E(e)];
        if !Cur().kind.Comma? {
          break;
        }
        Advance();
      }
      ghost var r := Take(Parsed(all.val, all.pos, o.err || all.err), RParen);
      r := Take(r, Semicolon);
    }

    method ParseLet() returns (node: Option<A.Node>)
      requires Valid()
      modifies this
      ensures Did(LetRest(tokens, old(pos)), node, old(hadError))
    {
      hide StmtSpec.ThenExpr, StmtSpec.Then;
      var name := Cur();
      if !name.kind.Ident? {
        hadError := true;
        return None;
      }
      Advance();
      if Cur().kind.Colon? {
        Advance();
        Advance();
      }
      assert pos == if tokens[old(pos)+1].kind.Colon? then Adv(tokens, old(pos) + 2) else old(pos) + 1;
      var kids := [A.E(A.Ident(name.text))];
      ghost var r := Take(Parsed(kids, pos, false), Eq);
      kids, r := AddExpr(kids, r);
      r := Take(r, Semicolon);
      node := Some(A.S(A.LetStmt, kids));
    }

    method ParseReturn() returns (kids: seq<A.Node>)
      requires Valid()
      modifies this
      ensures Did(ReturnRest(tokens, old(pos)), kids, old(hadError))
    {
      hide StmtSpec.ThenExpr, StmtSpec.Then;
      kids := [];
      ghost var r := From(pos);
      if !Cur().kind.Semicolon? {
        kids, r := AddExpr(kids, r);
      }
      r := Take(r, Semicolon);
    }

    method ParseAssignment() returns (node: Option<A.Node>)
      requires Valid()
      modifies this
      ensures Did(AssignRest(tokens, old(pos)), node, old(hadError))
    {
      hide StmtSpec.ThenExpr, StmtSpec.Then;
      var kids;
      ghost var r;
      kids, r := AddExpr([], From(pos));
      if Cur().kind.Eq? {
        Advance();
        kids, r := AddExpr(kids, Parsed(r.val, pos, r.err));
        r := Take(r, Semicolon);
        return Some(A.S(A.AssignStmt, kids));
      }
      hadError := true;
      node := None;
    }

    /** `{ statements }`, appended to the children. */
    method ParseBlock(kids: seq<A.Node>, ghost r: Parsed<seq<A.Node>>, sub: bool)
      returns (more: seq<A.Node>, ghost s: Parsed<seq<A.Node>>)
      requires Valid() && pos == r.pos && kids == r.val && (r.err ==> hadError)
      modifies this
      ensures s == Block(tokens, r, sub)
      ensures Valid() && pos == s.pos && more == s.val && hadError == (old(hadError) || s.err)
      decreases |tokens| - pos, 5
    {
      hide StmtSpec.Then, StmtSpec.StatementList;
      s := Take(r, LBrace);
      ghost var b := StatementList(tokens, pos);
      var body := ParseStatementList();
      more := kids + if sub then BodyOr(body) else body;
      s := Take(Parsed(more, b.pos, s.err || b.err), RBrace);
    }

    /** `( condition )`. */
    method ParseCond(kids: seq<A.Node>, ghost r: Parsed<seq<A.Node>>)
      returns (more: seq<A.Node>, ghost s: Parsed<seq<A.Node>>)
      requires Valid() && pos == r.pos && kids == r.val && (r.err ==> hadError)
      modifies this
      ensures s == Then(tokens, ThenExpr(tokens, Then(tokens, r, LParen)), RParen)
      ensures Valid() && old(pos) <= pos == s.pos && more == s.val && hadError == (old(hadError) || s.err)
    {
      hide StmtSpec.Then, StmtSpec.ThenExpr;
      s := Take(r, LParen);
      more, s := AddExpr(kids, s);
      s := Take(s, RParen);
    }

    method ParseArm(kids: seq<A.Node>, ghost r: Parsed<seq<A.Node>>)
      returns (more: seq<A.Node>, ghost s: Parsed<seq<A.Node>>)
      requires Valid() && pos == r.pos && kids == r.val && (r.err ==> hadError)
      requires Cur().kind == IF || Cur().kind == ELIF
      modifies this
      ensures s == Arm(tokens, r)
      ensures Valid() && pos == s.pos && more == s.val && hadError == (old(hadError) || s.err)
      decreases |tokens| - pos, 0
    {
      hide StmtSpec.Then, StmtSpec.ThenExpr, StmtSpec.Arm, StmtSpec.Block, ParseSpec.Expect;
      ArmStep(tokens, r);
      Advance();
      assert pos == r.pos + 1;
      var mid;
      ghost var c;
      mid, c := ParseCond(kids, Parsed(r.val, r.pos + 1, r.err));
      more, s := ParseBlock(mid, c, true);
    }

    method ParseIf() returns (kids: seq<A.Node>)
      requires Valid() && Cur().kind == IF
      modifies this
      ensures Did(IfRest(tokens, From(old(pos))), kids, old(hadError))
      decreases |tokens| - pos, 1
    {
      hide StmtSpec.Then, StmtSpec.ThenExpr, StmtSpec.IfRest, StmtSpec.Arm, StmtSpec.Block, StmtSpec.StatementList;
      kids := [];
      ghost var all := IfRest(tokens, From(pos));
      ghost var r := From(pos);
      while true
        invariant Valid() && pos == r.pos && kids == r.val && hadError == (old(hadError) || r.err)
        invariant old(pos) <= pos && (Cur().kind == IF || Cur().kind == ELIF)
        invariant IfRest(tokens, r) == all
        decreases |tokens| - pos
      {
        IfRestStep(tokens, r);
        kids, r := ParseArm(kids, r);
        if Cur().kind != ELIF {
          break;
        }
      }
      if Cur().kind == ELSE {
        Advance();
        kids, r := ParseBlock(kids, Parsed(kids, pos, r.err), true);
      }
    }

    method ParseFor() returns (kids: seq<A.Node>)
      requires Valid()
      modifies this
      ensures Did(ForRest(tokens, old(pos)), kids, old(hadError))
      decreases |tokens| - pos, 6
    {
      hide StmtSpec.Then, StmtSpec.ThenExpr;
      kids := [A.E(A.Ident(Cur().text))];
      Advance();
      ghost var r := Take(Parsed(kids, pos, false), IN);
      kids, r := AddExpr(kids, r);
      r := Take(r, DotDot);
      kids, r := AddExpr(kids, r);
      kids, r := ParseBlock(kids, r, false);
    }

    // Statements that start with a keyword of their own.

    method ParseWriteStatement() returns (node: Option<A.Node>)
      requires Valid() && Cur().kind == WRITE
      modifies this
      ensures Did(Statement(tokens, old(pos)), node, old(hadError))
    {
      hide StmtSpec.Statement, StmtSpec.TwoArgs;
      StatementOfCall(tokens, pos, A.RegWriteStmt);
      Advance();
      var kids := ParseTwoArgs();
      node := Some(A.S(A.RegWriteStmt, kids));
    }

    method ParseEmitStatement() returns (node: Option<A.Node>)
      requires Valid() && Cur().kind == EMIT
      modifies this
      ensures Did(Statement(tokens, old(pos)), node, old(hadError))
    {
      hide StmtSpec.Statement, StmtSpec.EmitArgs;
      StatementOfCall(tokens, pos, A.EmitStmt);
      Advance();
      var kids := ParseEmitArgs();
      node := Some(A.S(A.EmitStmt, kids));
    }

    method ParseWaitStatement() returns (node: Option<A.Node>)
      requires Valid() && Cur().kind == WAIT
      modifies this
      ensures Did(Statement(tokens, old(pos)), node, old(hadError))
    {
      hide StmtSpec.Statement, StmtSpec.TwoArgs;
      StatementOfCall(tokens, pos, A.WaitStmt);
      Advance();
      var kids := ParseTwoArgs();
      node := Some(A.S(A.WaitStmt, kids));
    }

    method ParseArmStatement() returns (node: Option<A.Node>)
      requires Valid() && Cur().kind == ARM
      modifies this
      ensures Did(Statement(tokens, old(pos)), node, old(hadError))
    {
      hide StmtSpec.Statement, StmtSpec.TwoArgs;
      StatementOfCall(tokens, pos, A.ArmStmt);
      Advance();
      var kids := ParseTwoArgs();
      node := Some(A.S(A.ArmStmt, kids));
    }

    method ParseCancelStatement() returns (node: Option<A.Node>)
      requires Valid() && Cur().kind == CANCEL
      modifies this
      ensures Did(Statement(tokens, old(pos)), node, old(hadError))
    {
      hide StmtSpec.Statement, StmtSpec.CloseCall, StmtSpec.OpenArg;
      StatementOfCall(tokens, pos, A.CancelStmt);
      Advance();
      var kids := ParseCancelArg();
      node := Some(A.S(A.CancelStmt, kids));
    }

    method ParseReturnStatement() returns (node: Option<A.Node>)
      requires Valid() && Cur().kind == RETURN
      modifies this
      ensures Did(Statement(tokens, old(pos)), node, old(hadError))
    {
      hide StmtSpec.Statement, StmtSpec.ReturnRest;
      StatementOfReturn(tokens, pos);
      Advance();
      var kids := ParseReturn();
      node := Some(A.S(A.ReturnStmt, kids));
    }

    method ParseLogStatement() returns (node: Option<A.Node>)
      requires Valid() && Cur().kind == LOG
      modifies this
      ensures Did(Statement(tokens, old(pos)), node, old(hadError))
    {
      hide StmtSpec.Statement, StmtSpec.LogCall;
      StatementOfCall(tokens, pos, A.LogStmt);
      Advance();
      var kids := ParseLogArgs();
      node := Some(A.S(A.LogStmt, kids));
    }

    method ParseLetStatement() returns (node: Option<A.Node>)
      requires Valid() && Cur().kind == LET
      modifies this
      ensures Did(Statement(tokens, old(pos)), node, old(hadError))
    {
      hide StmtSpec.Statement, StmtSpec.LetRest;
      StatementOfLet(tokens, pos);
      Advance();
      node := ParseLet();
    }

    method ParseForStatement() returns (node: Option<A.Node>)
      requires Valid() && Cur().kind == FOR
      modifies this
      ensures Did(Statement(tokens, old(pos)), node, old(hadError))
      decreases |tokens| - pos, 2
    {
      hide StmtSpec.Statement, StmtSpec.ForRest;
      StatementOfFor(tokens, pos);
      Advance();
      var kids := ParseFor();
      node := Some(A.S(A.ForStmt, kids));
    }

    method ParseIfStatement() returns (node: Option<A.Node>)
      requires Valid() && Cur().kind == IF
      modifies this
      ensures Did(Statement(tokens, old(pos)), node, old(hadError))
      decreases |tokens| - pos, 2
    {
      hide StmtSpec.Statement, StmtSpec.IfRest;
      StatementOfIf(tokens, pos);
      var kids := ParseIf();
      node := Some(A.S(A.IfStmt, kids));
    }

    method ParseStatement() returns (node: Option<A.Node>)
      requires Valid()
      modifies this
      ensures Did(Statement(tokens, old(pos)), node, old(hadError))
      decreases |tokens| - pos, 3
    {
      hide StmtSpec.Statement, StmtSpec.AssignRest, ParseSpec.Terminated;
      var k := Cur().kind;
      if k == LET {
        node := ParseLetStatement();
      } else if k == WRITE {
        node := ParseWriteStatement();
      } else if k == EMIT {
        node := ParseEmitStatement();
      } else if k == WAIT {
        node := ParseWaitStatement();
      } else if k == ARM {
        node := ParseArmStatement();
      } else if k == CANCEL {
        node := ParseCancelStatement();
      } else if k == RETURN {
        node := ParseReturnStatement();
      } else if k == LOG {
        node := ParseLogStatement();
      } else if k == FOR {
        node := ParseForStatement();
      } else if k == IF {
        node := ParseIfStatement();
      } else {
        StatementOfAssign(tokens, pos);
        node := ParseAssignment();
      }
    }

    method ParseStatementList() returns (nodes: seq<A.Node>)
      requires Valid()
      modifies this
      ensures Did(StatementList(tokens, old(pos)), nodes, old(hadError))
      decreases |tokens| - pos, 4
    {
      hide StmtSpec.Statement;
      nodes := [];
      ghost var all := StatementList(tokens, pos);
      ghost var err := false;
      assert nodes + all.val == all.val;
      while !EndsList(Cur().kind)
        invariant Valid() && old(pos) <= pos && hadError == (old(hadError) || err)
        invariant var r := StatementList(tokens, pos);
                  all == Parsed(nodes + r.val, r.pos, err || r.err)
        decreases |tokens| - pos
      {
        ghost var s := Statement(tokens, pos);
        var node := ParseStatement();
        err := err || s.err;
        if node.Some? {
          ghost var rest := StatementList(tokens, pos).val;
          assert (nodes + [node.value]) + rest == nodes + ([node.value] + rest);
          nodes := nodes + [node.value];
        } else {
          Advance();
        }
      }
      assert nodes + [] == nodes;
    }
  }
}
