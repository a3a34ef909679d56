/** End to end over the expression tool chain: emitter, lexer, parser, simulator. */
module RoundTrip {
  import opened Tokens
  import opened LexSpec
  import opened LexProofs
  import opened ParseSpec
  import opened Codegen
  import Sim = Simulate
  import A = Ast

  lemma {:induction false} NormalEvaluatesTheSame(h: Sim.Host, f: Sim.File, e: A.Expr)
    ensures Sim.Eval(h, f, Normal(e)) == Sim.Eval(h, f, e)
    decreases e
  {
    hide Sim.BinValue, Sim.UnValue, Sim.Value, Sim.AfterRead;
    match e
    case Un(_, x) => NormalEvaluatesTheSame(h, f, x);
    case Bin(_, l, r) =>
      NormalEvaluatesTheSame(h, f, l);
      NormalEvaluatesTheSame(h, Sim.Eval(h, f, l).1, r);
    case _ =>
  }

  /** Reading back the text emitted for a plain tree - tokens, then precedence climbing -
      gives a tree with the same value and the same effect on every register file. */
  lemma EmittedTextMeansTheSame(h: Sim.Host, f: Sim.File, e: A.Expr)
    requires Plain(e)
    ensures var lx := TokensFrom(Emit(e), 0);
            var t := Strip(lx.toks);
            && !lx.err && Terminated(t)
            && !Climb(t, 0, 1).err && Climb(t, 0, 1).pos == |t| - 1
            && Sim.Eval(h, f, Climb(t, 0, 1).val) == Sim.Eval(h, f, e)
  {
    hide *;
    EmitLexParse(e);
    TokensAreLexemes(Emit(e), 0);
    assert Emit(e)[0..] == Emit(e);
    NormalEvaluatesTheSame(h, f, e);
  }
}
