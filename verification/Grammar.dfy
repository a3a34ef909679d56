/** Precedence climbing is sound and complete for the expression grammar.

    A concrete tree keeps every token, so its yield is the text it came from; dropping
    parentheses and punctuation gives the syntax tree. */
module Grammar {
  import opened Tokens
  import opened ParseSpec
  import opened Seqs
  import A = Ast

  datatype Cst =
    | Atom(tok: Lexeme)
    | Dotted(toks: seq<Lexeme>)
    | ReadC(kw: Lexeme, open: Lexeme, inner: Cst, close: Lexeme)
    | Paren(open: Lexeme, inner: Cst, close: Lexeme)
    | Prefix(op: Lexeme, operand: Cst)
    | Infix(op: Lexeme, left: Cst, right: Cst)

  function Yield(c: Cst): (y: seq<Lexeme>)
  {
    match c
    case Atom(k) => [k]
    case Dotted(ts) => ts
    case ReadC(kw, o, x, cl) => [kw, o] + Yield(x) + [cl]
    case Paren(o, x, cl) => [o] + Yield(x) + [cl]
    case Prefix(op, x) => [op] + Yield(x)
    case Infix(op, l, r) => Yield(l) + [op] + Yield(r)
  }

  function Level(c: Cst): nat {
    if c.Infix? then Prec(c.op.kind) else 11
  }

  predicate IsNumber(k: Tok) { k.Int? || k.Hex? || k.BinLit? }
  predicate IsBool(k: Tok) { k.BoolTrue? || k.BoolFalse? }

  /** One to four identifiers separated by dots. */
  predicate IsPath(ts: seq<Lexeme>) {
    |ts| <= 7 && Alternates(ts)
  }

  predicate Alternates(ts: seq<Lexeme>) {
    && ts != [] && ts[0].kind.Ident?
    && (|ts| > 1 ==> |ts| > 2 && ts[1].kind.Dot? && Alternates(ts[2..]))
  }

  /** The grammar: the ten levels of binary operators are left-associative, and a prefix
      operator takes a primary. */
  ghost predicate Proper(c: Cst)
    ensures Proper(c) ==> 1 <= Level(c)
  {
    match c
    case Atom(k) => IsNumber(k.kind) || IsBool(k.kind) || k.kind.Str?
    case Dotted(ts) => IsPath(ts)
    case ReadC(kw, o, x, cl) => kw.kind == READ && o.kind.LParen? && cl.kind.RParen? && Proper(x)
    case Paren(o, x, cl) => o.kind.LParen? && cl.kind.RParen? && Proper(x)
    case Prefix(op, x) => IsUnary(op.kind) && !x.Infix? && Proper(x)
    case Infix(op, l, r) =>
      && 1 <= Prec(op.kind)
      && Prec(op.kind) <= Level(l) && Prec(op.kind) < Level(r)
      && Proper(l) && Proper(r)
  }

  function Names(ts: seq<Lexeme>): (ns: seq<string>)
    ensures |ns| == (|ts| + 1) / 2
  {
    if ts == [] then [] else if |ts| == 1 then [ts[0].text] else [ts[0].text] + Names(ts[2..])
  }

  /** The syntax tree of a concrete tree. */
  ghost function Abstract(c: Cst): A.Expr
    requires Proper(c)
  {
    match c
    case Atom(k) =>
      if IsNumber(k.kind) then A.IntLit(k.ival)
      else if IsBool(k.kind) then A.BoolLit(k.ival != 0) else A.StrLit(k.text)
    case Dotted(ts) => PathOf(Names(ts))
    case ReadC(_, _, x, _) => A.Read(Abstract(x))
    case Paren(_, x, _) => Abstract(x)
    case Prefix(op, x) => A.Un(UnOpOf(op.kind), Abstract(x))
    case Infix(op, l, r) => A.Bin(BinOpOf(op.kind), Abstract(l), Abstract(r))
  }

  // ===== soundness =====

  lemma {:induction false} PathTailSound(t: seq<Lexeme>, p: nat, n: nat)
    requires Terminated(t) && 1 <= p < |t| && 1 <= n <= 4 && t[p-1].kind.Ident?
    ensures var r := PathTail(t, p, n);
            var ts := t[p-1..r.pos];
            |ts| <= 9 - 2 * n && Alternates(ts) && Names(ts) == [t[p-1].text] + r.val
    decreases |t| - p
  {
    var r := PathTail(t, p, n);
    var ts := t[p-1..r.pos];
    if t[p].kind.Dot? && t[p+1].kind.Ident? && n < 4 {
      PathTailSound(t, p + 2, n + 1);
      assert ts[2..] == t[p+1..r.pos];
      assert ts[0] == t[p-1] && ts[1] == t[p];
      assert Names(ts) == [ts[0].text] + Names(ts[2..]);
    } else {
      assert ts == [t[p-1]];
    }
  }

  // One-step equations of `Primary`, so that longer proofs need not open it.

  lemma PrimaryOfParen(t: seq<Lexeme>, p: nat)
    requires Terminated(t) && p < |t| && t[p].kind.LParen?
    ensures var x := Climb(t, p + 1, 1);
            var c := Expect(t, x.pos, RParen);
            Primary(t, p) == Parsed(x.val, c.pos, x.err || c.err)
  {
    hide ParseSpec.Climb;
  }

  lemma PrimaryOfRead(t: seq<Lexeme>, p: nat)
    requires Terminated(t) && p < |t| && t[p].kind == READ
    ensures p + 1 < |t|
    ensures var o := Expect(t, p + 1, LParen);
            var x := Climb(t, o.pos, 1);
            var c := Expect(t, x.pos, RParen);
            Primary(t, p) == Parsed(A.Read(x.val), c.pos, o.err || x.err || c.err)
  {
    hide ParseSpec.Climb;
  }

  lemma PrimaryOfPrefix(t: seq<Lexeme>, p: nat)
    requires Terminated(t) && p < |t| && IsUnary(t[p].kind)
    ensures p + 1 < |t|
    ensures var x := Primary(t, p + 1);
            Primary(t, p) == Parsed(A.Un(UnOpOf(t[p].kind), x.val), x.pos, x.err)
  {
    hide ParseSpec.Climb;
  }

  lemma PrimaryOfPath(t: seq<Lexeme>, p: nat)
    requires Terminated(t) && p < |t| && t[p].kind.Ident?
    ensures p + 1 < |t|
    ensures var r := PathTail(t, p + 1, 1);
            Primary(t, p) == Parsed(PathOf([t[p].text] + r.val), r.pos, false)
  {
    hide ParseSpec.Climb, ParseSpec.PathTail;
  }

  lemma PrimaryOfAtom(t: seq<Lexeme>, p: nat)
    requires Terminated(t) && p < |t| && Proper(Atom(t[p]))
    ensures Primary(t, p) == Parsed(Abstract(Atom(t[p])), p + 1, false)
  {
    hide ParseSpec.Climb, ParseSpec.PathTail;
  }

  lemma PrimaryOfOther(t: seq<Lexeme>, p: nat)
    requires Terminated(t) && p < |t| && !Proper(Atom(t[p])) && !IsUnary(t[p].kind)
    requires !t[p].kind.Ident? && !t[p].kind.LParen? && t[p].kind != READ
    ensures Primary(t, p) == Parsed(A.Null, Adv(t, p), true)
  {
    hide ParseSpec.Climb, ParseSpec.PathTail;
  }

  lemma LeafSound(t: seq<Lexeme>, p: nat) returns (c: Cst)
    requires Terminated(t) && p < |t| && !Primary(t, p).err
    requires !IsUnary(t[p].kind) && !t[p].kind.LParen? && t[p].kind != READ
    ensures var r := Primary(t, p);
            Proper(c) && !c.Infix? && Abstract(c) == r.val && Yield(c) == t[p..r.pos]
  {
    hide ParseSpec.Primary, ParseSpec.PathTail;
    if t[p].kind.Ident? {
      PrimaryOfPath(t, p);
      PathTailSound(t, p + 1, 1);
      c := Dotted(t[p..Primary(t, p).pos]);
    } else if Proper(Atom(t[p])) {
      PrimaryOfAtom(t, p);
      c := Atom(t[p]);
    } else {
      PrimaryOfOther(t, p);
    }
  }

  lemma ReadSound(t: seq<Lexeme>, p: nat, x: Cst) returns (c: Cst)
    requires Terminated(t) && p < |t| && !Primary(t, p).err && t[p].kind == READ && p + 2 < |t|
    requires Proper(x) && Abstract(x) == Climb(t, p + 2, 1).val && Yield(x) == t[p+2..Climb(t, p + 2, 1).pos]
    ensures var r := Primary(t, p);
            Proper(c) && !c.Infix? && Abstract(c) == r.val && Yield(c) == t[p..r.pos]
  {
    hide ParseSpec.Primary, ParseSpec.Climb, ParseSpec.Prec;
    PrimaryOfRead(t, p);
    var q := Climb(t, p + 2, 1).pos;
    c := ReadC(t[p], t[p+1], x, t[q]);
    assert t[p..q+1] == [t[p], t[p+1]] + t[p+2..q] + [t[q]];
  }

  lemma ParenSound(t: seq<Lexeme>, p: nat, x: Cst) returns (c: Cst)
    requires Terminated(t) && p < |t| && !Primary(t, p).err && t[p].kind.LParen?
    requires Proper(x) && Abstract(x) == Climb(t, p + 1, 1).val && Yield(x) == t[p+1..Climb(t, p + 1, 1).pos]
    ensures var r := Primary(t, p);
            Proper(c) && !c.Infix? && Abstract(c) == r.val && Yield(c) == t[p..r.pos]
  {
    hide ParseSpec.Primary, ParseSpec.Climb, ParseSpec.Prec;
    PrimaryOfParen(t, p);
    var q := Climb(t, p + 1, 1).pos;
    c := Paren(t[p], x, t[q]);
    assert t[p..q+1] == [t[p]] + t[p+1..q] + [t[q]];
  }

  lemma {:induction false} PrimarySound(t: seq<Lexeme>, p: nat) returns (c: Cst)
    requires Terminated(t) && p < |t| && !Primary(t, p).err
    ensures var r := Primary(t, p);
            Proper(c) && !c.Infix? && Abstract(c) == r.val && Yield(c) == t[p..r.pos]
    decreases |t| - p, 0
  {
    hide ParseSpec.Primary, ParseSpec.Climb, ParseSpec.Prec;
    var r := Primary(t, p);
    if IsUnary(t[p].kind) {
      PrimaryOfPrefix(t, p);
      var x := PrimarySound(t, p + 1);
      c := Prefix(t[p], x);
      assert t[p..r.pos] == [t[p]] + t[p+1..r.pos];
    } else if t[p].kind == READ {
      PrimaryOfRead(t, p);
      var x := ClimbSound(t, p + 2, 1);
      c := ReadSound(t, p, x);
    } else if t[p].kind.LParen? {
      PrimaryOfParen(t, p);
      var x := ClimbSound(t, p + 1, 1);
      c := ParenSound(t, p, x);
    } else {
      c := LeafSound(t, p);
    }
  }

  /** An error-free parse at level `min` consumed exactly the yield of a proper tree of
      at least that level, returned its syntax tree, and stopped before a token that is
      no operator of that level. */
  lemma {:induction false} ClimbSound(t: seq<Lexeme>, p: nat, min: nat) returns (c: Cst)
    requires Terminated(t) && p < |t| && 1 <= min <= 11 && !Climb(t, p, min).err
    ensures var r := Climb(t, p, min);
            && Proper(c) && Level(c) >= min && Abstract(c) == r.val && Yield(c) == t[p..r.pos]
            && Prec(t[r.pos].kind) < min
    decreases |t| - p, 2
  {
    var l := Primary(t, p);
    var cl := PrimarySound(t, p);
    c := OperatorsSound(t, p, l.pos, min, cl);
  }

  lemma OperatorsMore(t: seq<Lexeme>, p: nat, min: nat, lhs: A.Expr)
    requires Terminated(t) && p < |t| && 1 <= min && !lhs.Null? && !Operators(t, p, min, lhs, false).err
    ensures Prec(t[p].kind) < min ==> Operators(t, p, min, lhs, false) == Parsed(lhs, p, false)
    ensures Prec(t[p].kind) >= min ==>
              var r := Climb(t, p + 1, Prec(t[p].kind) + 1);
              && !r.err
              && Operators(t, p, min, lhs, false)
                 == Operators(t, r.pos, min, A.Bin(BinOpOf(t[p].kind), lhs, r.val), false)
  {
    hide ParseSpec.Climb, ParseSpec.BinOpOf, ParseSpec.Prec;
  }

  lemma InfixBuild(op: Lexeme, l: Cst, r: Cst)
    requires Proper(l) && Proper(r) && 1 <= Prec(op.kind) <= Level(l) && Prec(op.kind) < Level(r)
    ensures var c := Infix(op, l, r);
            && Proper(c) && Level(c) == Prec(op.kind) && Yield(c) == Yield(l) + [op] + Yield(r)
            && Abstract(c) == A.Bin(BinOpOf(op.kind), Abstract(l), Abstract(r))
  {
    hide ParseSpec.Prec, ParseSpec.BinOpOf;
  }

  lemma {:induction false} OperatorsSound(t: seq<Lexeme>, start: nat, p: nat, min: nat, lhs: Cst)
    returns (c: Cst)
    requires Terminated(t) && start < p < |t| && 1 <= min <= 11
    requires Proper(lhs) && Yield(lhs) == t[start..p]
    requires Level(lhs) >= min && Level(lhs) >= Prec(t[p].kind)
    requires !Abstract(lhs).Null? && !Operators(t, p, min, Abstract(lhs), false).err
    ensures var r := Operators(t, p, min, Abstract(lhs), false);
            && Proper(c) && Level(c) >= min && Abstract(c) == r.val && Yield(c) == t[start..r.pos]
            && Prec(t[r.pos].kind) < min
    decreases |t| - p, 1
  {
    hide *;
    OperatorsMore(t, p, min, Abstract(lhs));
    var prec := Prec(t[p].kind);
    if prec < min {
      c := lhs;
    } else {
      var r := Climb(t, p + 1, prec + 1);
      var cr := ClimbSound(t, p + 1, prec + 1);
      InfixBuild(t[p], lhs, cr);
      assert t[start..r.pos] == t[start..p] + [t[p]] + t[p+1..r.pos];
      c := OperatorsSound(t, start, r.pos, min, Infix(t[p], lhs, cr));
    }
  }

  // ===== completeness =====

  /** The tokens `ts` stand in `t` at `p`. */
  ghost predicate Occurs(t: seq<Lexeme>, p: nat, ts: seq<Lexeme>) {
    p + |ts| <= |t| && forall i :: 0 <= i < |ts| ==> t[p+i] == ts[i]
  }

  lemma OccursSplit(t: seq<Lexeme>, p: nat, a: seq<Lexeme>, b: seq<Lexeme>)
    requires Occurs(t, p, a + b)
    ensures Occurs(t, p, a) && Occurs(t, p + |a|, b)
  {
    forall i | 0 <= i < |a|
      ensures t[p+i] == a[i]
    {
      assert (a + b)[i] == a[i];
    }
    forall i | 0 <= i < |b|
      ensures t[p+|a|+i] == b[i]
    {
      assert t[p+(|a|+i)] == (a + b)[|a|+i] == b[i];
    }
  }

  lemma {:induction false} PathIsPrintable(ts: seq<Lexeme>)
    requires Alternates(ts)
    ensures forall k :: k in ts ==> !k.kind.EOF?
  {
    if |ts| > 1 {
      PathIsPrintable(ts[2..]);
      assert ts == [ts[0], ts[1]] + ts[2..];
    }
  }

  lemma {:induction false} YieldIsPrintable(c: Cst)
    requires Proper(c)
    ensures Yield(c) != [] && forall k :: k in Yield(c) ==> !k.kind.EOF?
    ensures !Abstract(c).Null? && A.Complete(Abstract(c))
  {
    match c
    case Atom(_) =>
    case Dotted(ts) => PathIsPrintable(ts);
    case ReadC(_, _, x, _) => YieldIsPrintable(x);
    case Paren(_, x, _) => YieldIsPrintable(x);
    case Prefix(_, x) => YieldIsPrintable(x);
    case Infix(_, l, r) => YieldIsPrintable(l); YieldIsPrintable(r);
  }

  lemma {:induction false} PathTailComplete(t: seq<Lexeme>, p: nat, n: nat, ts: seq<Lexeme>)
    requires Terminated(t) && 1 <= n <= 4 && |ts| <= 9 - 2 * n && Alternates(ts)
    requires 1 <= p && Occurs(t, p - 1, ts) && p - 1 + |ts| < |t| && !t[p - 1 + |ts|].kind.Dot?
    ensures PathTail(t, p, n).pos == p - 1 + |ts|
    ensures [ts[0].text] + PathTail(t, p, n).val == Names(ts)
    decreases |ts|
  {
    assert t[p-1+0] == ts[0];
    if |ts| > 1 {
      assert t[p-1+1] == ts[1] && t[p-1+2] == ts[2];
      OccursSplit(t, p - 1, ts[..2], ts[2..]);
      assert ts == ts[..2] + ts[2..];
      PathTailComplete(t, p + 2, n + 1, ts[2..]);
      var r := PathTail(t, p + 2, n + 1);
      assert PathTail(t, p, n) == Parsed([t[p+1].text] + r.val, r.pos, false);
    }
  }

  /** Bracketed primaries, given that the inner expression is parsed back. */
  lemma BracketComplete(c: Cst, t: seq<Lexeme>, p: nat)
    requires Terminated(t) && Proper(c) && (c.ReadC? || c.Paren?)
    requires Occurs(t, p, Yield(c)) && p + |Yield(c)| < |t|
    requires var q := p + if c.Paren? then 1 else 2;
             Climb(t, q, 1) == Parsed(Abstract(c.inner), q + |Yield(c.inner)|, false)
    ensures Primary(t, p) == Parsed(Abstract(c), p + |Yield(c)|, false)
  {
    hide ParseSpec.Primary, ParseSpec.Climb;
    BracketOccurs(c, t, p);
    if c.Paren? {
      PrimaryOfParen(t, p);
    } else {
      PrimaryOfRead(t, p);
    }
  }

  lemma BracketOccurs(c: Cst, t: seq<Lexeme>, p: nat)
    requires (c.ReadC? || c.Paren?) && Occurs(t, p, Yield(c))
    ensures var q := p + if c.Paren? then 1 else 2;
            && Occurs(t, q, Yield(c.inner)) && q + |Yield(c.inner)| < |t|
            && t[q - 1] == c.open && t[q + |Yield(c.inner)|] == c.close
            && (c.ReadC? ==> t[p] == c.kw)
  {
    var head := if c.Paren? then [c.open] else [c.kw, c.open];
    var y := Yield(c.inner);
    assert Yield(c) == head + (y + [c.close]);
    OccursSplit(t, p, head, y + [c.close]);
    OccursSplit(t, p + |head|, y, [c.close]);
    assert t[p+(|head|-1)] == head[|head|-1] && t[p+0] == head[0] && t[p + |head| + |y| + 0] == [c.close][0];
  }

  lemma LeafComplete(c: Cst, t: seq<Lexeme>, p: nat)
    requires Terminated(t) && Proper(c) && (c.Atom? || c.Dotted?)
    requires Occurs(t, p, Yield(c)) && p + |Yield(c)| < |t| && !t[p + |Yield(c)|].kind.Dot?
    ensures Primary(t, p) == Parsed(Abstract(c), p + |Yield(c)|, false)
  {
    hide ParseSpec.Primary, ParseSpec.PathTail;
    assert t[p+0] == Yield(c)[0];
    if c.Atom? {
      PrimaryOfAtom(t, p);
    } else {
      PrimaryOfPath(t, p);
      PathTailComplete(t, p + 1, 1, c.toks);
    }
  }

  lemma PrefixParts(c: Cst, t: seq<Lexeme>, p: nat)
    requires c.Prefix? && Proper(c) && Occurs(t, p, Yield(c))
    ensures Proper(c.operand) && !c.operand.Infix? && IsUnary(c.op.kind)
    ensures t[p] == c.op && Occurs(t, p + 1, Yield(c.operand)) && |Yield(c)| == 1 + |Yield(c.operand)|
    ensures Abstract(c) == A.Un(UnOpOf(c.op.kind), Abstract(c.operand))
  {
    OccursSplit(t, p, [c.op], Yield(c.operand));
    assert t[p+0] == [c.op][0];
  }

  lemma BracketParts(c: Cst)
    requires (c.ReadC? || c.Paren?) && Proper(c)
    ensures Proper(c.inner) && 1 <= Level(c.inner) && c.close.kind.RParen?
    ensures Prec(RParen) == 0
  {
  }

  /** A primary is parsed back whatever follows it, except a dot after a path. */
  lemma {:induction false} PrimaryComplete(c: Cst, t: seq<Lexeme>, p: nat)
    requires Terminated(t) && Proper(c) && !c.Infix?
    requires Occurs(t, p, Yield(c)) && p + |Yield(c)| < |t| && !t[p + |Yield(c)|].kind.Dot?
    ensures Primary(t, p) == Parsed(Abstract(c), p + |Yield(c)|, false)
    decreases c, 0
  {
    hide *;
    if c.ReadC? || c.Paren? {
      BracketOccurs(c, t, p);
      BracketParts(c);
      ClimbComplete(c.inner, t, p + if c.Paren? then 1 else 2, 1);
      BracketComplete(c, t, p);
    } else if c.Prefix? {
      PrefixParts(c, t, p);
      PrimaryOfPrefix(t, p);
      PrimaryComplete(c.operand, t, p + 1);
    } else {
      LeafComplete(c, t, p);
    }
  }

  lemma ClimbOfPrimary(t: seq<Lexeme>, p: nat, min: nat)
    requires Terminated(t) && p < |t| && min >= 1 && !Primary(t, p).val.Null?
    ensures var l := Primary(t, p);
            Climb(t, p, min) == Operators(t, l.pos, min, l.val, l.err)
  {
    hide ParseSpec.Primary, ParseSpec.Operators;
  }

  lemma SpineStep(t: seq<Lexeme>, p: nat, min: nat, lhs: A.Expr, rhs: A.Expr, q: nat)
    requires Terminated(t) && p < q < |t| && 1 <= min <= Prec(t[p].kind)
    requires !lhs.Null? && !rhs.Null?
    requires Climb(t, p + 1, Prec(t[p].kind) + 1) == Parsed(rhs, q, false)
    ensures Operators(t, p, min, lhs, false)
         == Operators(t, q, min, A.Bin(BinOpOf(t[p].kind), lhs, rhs), false)
  {
    hide ParseSpec.Climb, ParseSpec.BinOpOf, ParseSpec.Prec;
  }

  lemma InfixParts(c: Cst, t: seq<Lexeme>, p: nat)
    requires c.Infix? && Proper(c) && Occurs(t, p, Yield(c))
    ensures Yield(c) == Yield(c.left) + [c.op] + Yield(c.right)
    ensures Occurs(t, p, Yield(c.left)) && Occurs(t, p + |Yield(c.left)| + 1, Yield(c.right))
    ensures t[p + |Yield(c.left)|] == c.op && !c.op.kind.Dot?
    ensures Proper(c.left) && Proper(c.right)
    ensures 1 <= Level(c) == Prec(c.op.kind) <= Level(c.left) && Level(c) < Level(c.right)
    ensures Abstract(c) == A.Bin(BinOpOf(c.op.kind), Abstract(c.left), Abstract(c.right))
  {
    hide ParseSpec.Prec, ParseSpec.BinOpOf;
    var l, r := c.left, c.right;
    var q := p + |Yield(l)|;
    assert Yield(c) == Yield(l) + ([c.op] + Yield(r));
    OccursSplit(t, p, Yield(l), [c.op] + Yield(r));
    OccursSplit(t, q, [c.op], Yield(r));
    assert t[q+0] == [c.op][0];
  }

  /** Climbing over a proper tree brings the loop to its end with the tree as left
      operand, when the next token does not bind tighter than the tree. */
  lemma {:induction false} ClimbSpine(c: Cst, t: seq<Lexeme>, p: nat, min: nat)
    requires Terminated(t) && Proper(c) && 1 <= min <= Level(c)
    requires Occurs(t, p, Yield(c)) && p + |Yield(c)| < |t|
    requires !t[p + |Yield(c)|].kind.Dot? && Prec(t[p + |Yield(c)|].kind) <= Level(c)
    ensures !Abstract(c).Null?
    ensures Climb(t, p, min) == Operators(t, p + |Yield(c)|, min, Abstract(c), false)
    decreases c, 1
  {
    hide *;
    YieldIsPrintable(c);
    if c.Infix? {
      InfixParts(c, t, p);
      var q := p + |Yield(c.left)|;
      ClimbSpine(c.left, t, p, min);
      ClimbComplete(c.right, t, q + 1, Prec(c.op.kind) + 1);
      SpineStep(t, q, min, Abstract(c.left), Abstract(c.right), q + 1 + |Yield(c.right)|);
    } else {
      PrimaryComplete(c, t, p);
      ClimbOfPrimary(t, p, min);
    }
  }

  /** Every proper tree of level at least `min`, followed by neither an operator of
      that level nor a dot, is parsed back to its syntax tree. */
  lemma {:induction false} ClimbComplete(c: Cst, t: seq<Lexeme>, p: nat, min: nat)
    requires Terminated(t) && Proper(c) && 1 <= min <= Level(c)
    requires Occurs(t, p, Yield(c)) && p + |Yield(c)| < |t|
    requires !t[p + |Yield(c)|].kind.Dot? && Prec(t[p + |Yield(c)|].kind) < min
    ensures Climb(t, p, min) == Parsed(Abstract(c), p + |Yield(c)|, false)
    decreases c, 2
  {
    ClimbSpine(c, t, p, min);
  }

  /** The grammar is unambiguous. */
  lemma GrammarIsUnambiguous(c: Cst, d: Cst)
    requires Proper(c) && Proper(d) && Yield(c) == Yield(d)
    ensures Abstract(c) == Abstract(d)
  {
    var y := Yield(c);
    var t := y + [Lexeme(EOF, "", 0)];
    YieldIsPrintable(c);
    assert Terminated(t) && t[0..0+|y|] == y;
    ClimbComplete(c, t, 0, 1);
    ClimbComplete(d, t, 0, 1);
  }
}
