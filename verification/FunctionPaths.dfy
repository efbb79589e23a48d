/** What the paths through the compiled statements pass, in terms of their parts. */
module FunctionPaths {
  import opened IrBodies
  import opened TraceLaws
  import opened ControlFlowComplete

  /** The paths of a function pass what its body passes, however it ends. */
  lemma PathsHave(b: seq<Stmt>, tr: seq<nat>)
    requires ResolvedBody(b, {}, {})
    ensures HasPath(b, tr) <==> exists out :: Has(b, tr, out)
  {
    hide HasPath, ResolvedBody;
    PathsAreTraces(b, tr);
    if HasRun(b, tr) {
      var r :| RunsBody(b, r) && Trace(r) == tr;
      assert Has(b, tr, OutBody(b, r));
    }
  }

  /** The paths through a compiled switch: which body follows which conditions, and when no body is entered. */
  lemma SwitchPaths(s: Stmt, tr: seq<nat>)
    requires s.Switch? && ResolvedStmt(s, {}, {})
    ensures HasPath([s], tr) <==> exists out :: SwitchPasses(s, tr, out)
  {
    hide HasPath, ResolvedStmt, Has, HasStmt, SwitchPasses;
    PathsHave([s], tr);
    SingleHas(s);
    forall out ensures Has([s], tr, out) <==> SwitchPasses(s, tr, out) {
      SwitchHas(s, tr, out);
    }
  }

  /** The paths through a compiled select: with a default none of them awaits a confirmation in a second pass. */
  lemma SelectPaths(s: Stmt, tr: seq<nat>)
    requires s.Select? && ResolvedStmt(s, {}, {})
    ensures HasPath([s], tr) <==> exists out :: SelectPasses(s, tr, out)
  {
    hide HasPath, ResolvedStmt, Has, HasStmt, SelectPasses;
    PathsHave([s], tr);
    SingleHas(s);
    forall out ensures Has([s], tr, out) <==> SelectPasses(s, tr, out) {
      SelectHas(s, tr, out);
    }
  }
}
