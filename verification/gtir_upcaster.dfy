/**
 * The GTIR upcasting pass: inserts `Cast` nodes so that the operands of a
 * binary operation, the branches of a ternary operation and the arguments of
 * a native call share the widest of their data types, and the right side of
 * an assignment gets the data type of its left side. Nodes whose children do
 * not change are returned as they are.
 *
 * Precondition of the pass: all dtypes are resolved (here: every node has an
 * integer dtype). Postcondition: all dtype transitions are explicit.
 */
module GtirUpcaster {
  import opened Outcomes
  import opened Gtir

  /** `max()` of an empty sequence raises `ValueError`. */
  datatype UpcastError = EmptyMax

  /** `_upcast_node`: the node itself when it already has the target dtype, else a cast of it. */
  function UpcastNode(target: DataType, e: Expr): (r: Expr)
    ensures r.dtype == target
    ensures r == e <==> e.dtype == target
    ensures r != e ==> r == Cast(target, e)
    ensures StripCasts(r) == StripCasts(e)
    ensures Explicit(r) <==> Explicit(e)
    ensures CallsHaveArgs(r) <==> CallsHaveArgs(e)
  {
    if e.dtype == target then e else Cast(target, e)
  }

  /** Python's `max` over data types: an element no smaller than any other. */
  function MaxDType(ds: seq<DataType>): (m: DataType)
    requires |ds| > 0
    ensures m in ds
    ensures forall i :: 0 <= i < |ds| ==> ds[i] <= m
  {
    if |ds| == 1 then ds[0]
    else
      var rest := MaxDType(ds[1..]);
      if ds[0] >= rest then ds[0] else rest
  }

  function DTypes(es: seq<Expr>): (ds: seq<DataType>)
    ensures |ds| == |es| && forall i :: 0 <= i < |es| ==> ds[i] == es[i].dtype
  {
    seq(|es|, i requires 0 <= i < |es| => es[i].dtype)
  }

  /**
   * `_upcast_nodes`: every expression promoted to the widest dtype among them.
   * Count and order are kept, operands already at that dtype are returned
   * untouched (so at least one is), and the others are wrapped in one cast.
   */
  function UpcastNodes(es: seq<Expr>): (r: seq<Expr>)
    requires |es| > 0
    ensures |r| == |es|
    ensures forall i :: 0 <= i < |es| ==> es[i].dtype <= r[i].dtype
    ensures forall i :: 0 <= i < |es| ==> r[i].dtype == r[0].dtype
    ensures exists j :: 0 <= j < |es| && r[j] == es[j]
    ensures forall i :: 0 <= i < |es| ==> (r[i] == es[i] <==> es[i].dtype == r[i].dtype)
    ensures forall i :: 0 <= i < |es| && r[i] != es[i] ==> r[i] == Cast(r[i].dtype, es[i])
  {
    var target := MaxDType(DTypes(es));
    seq(|es|, i requires 0 <= i < |es| => UpcastNode(target, es[i]))
  }

  /** The dtype every operand gets from `UpcastNodes`. */
  lemma UpcastNodesTarget(es: seq<Expr>)
    requires |es| > 0
    ensures forall i :: 0 <= i < |es| ==> UpcastNodes(es)[i].dtype == MaxDType(DTypes(es))
  {
  }

  /** Operands that already share a dtype are all returned untouched. */
  lemma UpcastNodesUniform(es: seq<Expr>)
    requires |es| > 0
    requires forall i :: 0 <= i < |es| ==> es[i].dtype == es[0].dtype
    ensures UpcastNodes(es) == es
  {
    var r := UpcastNodes(es);
    var j :| 0 <= j < |es| && r[j] == es[j];
    assert forall i :: 0 <= i < |es| ==> r[i].dtype == es[i].dtype;
  }

  /**
   * `_update_node`: a copy of `e` with the new children when any of them
   * differs from the old one, otherwise `e` itself. Either way only the
   * children can differ from `e`.
   */
  function UpdateNode(e: Expr, children: seq<Expr>): (r: Expr)
    requires |children| == |Children(e)|
    ensures Children(r) == children
    ensures SameShell(r, e)
    ensures r == e <==> children == Children(e)
  {
    if children != Children(e) then WithChildren(e, children) else e
  }

  function WithChildren(e: Expr, cs: seq<Expr>): (r: Expr)
    requires |cs| == |Children(e)|
    ensures Children(r) == cs && SameShell(r, e)
  {
    match e
    case Leaf(_, _) => e
    case Cast(d, _) => Cast(d, cs[0])
    case BinaryOp(op, _, _, d) => BinaryOp(op, cs[0], cs[1], d)
    case TernaryOp(_, _, _, d) => TernaryOp(cs[0], cs[1], cs[2], d)
    case NativeFuncCall(f, _, d) => NativeFuncCall(f, cs, d)
    case Other(k, _, d) => Other(k, cs, d)
  }

  /** The properties every visit of an expression establishes. */
  predicate VisitedFrom(r: Expr, e: Expr)
  {
    && SameShell(r, e)
    && CallsHaveArgs(r)
    && Explicit(r)
    && StripCasts(r) == StripCasts(e)
  }

  /**
   * The translator's visit of an expression: dispatch on the node kind;
   * kinds without a rule of their own are rebuilt from their visited children.
   */
  function Visit(e: Expr): (r: Expr)
    requires CallsHaveArgs(e)
    ensures VisitedFrom(r, e)
    decreases e, 2
  {
    match e
    case Leaf(_, _) => e
    case BinaryOp(_, _, _, _) => VisitBinaryOp(e)
    case TernaryOp(_, _, _, _) => VisitTernaryOp(e)
    case NativeFuncCall(_, _, _) => VisitNativeFuncCall(e)
    case _ => GenericVisit(e)
  }

  /** `visit_BinaryOp`: both visited operands promoted to the wider of their dtypes. */
  function VisitBinaryOp(e: Expr): (r: Expr)
    requires e.BinaryOp? && CallsHaveArgs(e)
    ensures VisitedFrom(r, e)
    decreases e, 1
  {
    var operands := UpcastNodes([Visit(e.left), Visit(e.right)]);
    RebuildKeepsStripped(e, operands);
    UpdateNode(e, operands)
  }

  /** `visit_TernaryOp`: the branches promoted jointly; the condition only visited. */
  function VisitTernaryOp(e: Expr): (r: Expr)
    requires e.TernaryOp? && CallsHaveArgs(e)
    ensures VisitedFrom(r, e)
    decreases e, 1
  {
    var branches := UpcastNodes([Visit(e.trueExpr), Visit(e.falseExpr)]);
    var children := [Visit(e.cond), branches[0], branches[1]];
    RebuildKeepsStripped(e, children);
    UpdateNode(e, children)
  }

  /** `visit_NativeFuncCall`: all visited arguments promoted jointly. */
  function VisitNativeFuncCall(e: Expr): (r: Expr)
    requires e.NativeFuncCall? && CallsHaveArgs(e)
    ensures VisitedFrom(r, e)
    decreases e, 1
  {
    var operands := UpcastNodes(VisitAll(e.args));
    RebuildKeepsStripped(e, operands);
    UpdateNode(e, operands)
  }

  /** The default arm: visit the children and rebuild only if one changed. */
  function GenericVisit(e: Expr): (r: Expr)
    requires (e.Cast? || e.Other?) && CallsHaveArgs(e)
    ensures VisitedFrom(r, e)
    ensures e.Cast? ==> r == Cast(e.dtype, Visit(e.expr))
    ensures e.Other? ==> r == Other(e.kind, VisitAll(e.operands), e.dtype)
    decreases e, 1
  {
    if e.Cast? then UpdateNode(e, [Visit(e.expr)])
    else
      var operands := VisitAll(e.operands);
      RebuildKeepsStripped(e, operands);
      UpdateNode(e, operands)
  }

  /** Replacing the children of a non-cast node by ones equal up to casts keeps the node equal up to casts. */
  lemma RebuildKeepsStripped(e: Expr, cs: seq<Expr>)
    requires !e.Cast? && |cs| == |Children(e)|
    requires forall i :: 0 <= i < |cs| ==> StripCasts(cs[i]) == StripCasts(Children(e)[i])
    ensures StripCasts(UpdateNode(e, cs)) == StripCasts(e)
  {
    var r := UpdateNode(e, cs);
    match e
    case BinaryOp(_, _, _, _) =>
      assert StripCasts(cs[0]) == StripCasts(e.left) && StripCasts(cs[1]) == StripCasts(e.right);
    case TernaryOp(_, _, _, _) =>
      assert StripCasts(cs[0]) == StripCasts(e.cond);
      assert StripCasts(cs[1]) == StripCasts(e.trueExpr) && StripCasts(cs[2]) == StripCasts(e.falseExpr);
    case NativeFuncCall(_, args, _) =>
      assert r.args == cs;
    case Other(_, xs, _) =>
      assert r.operands == cs;
    case Leaf(_, _) =>
  }

  function VisitAll(es: seq<Expr>): (rs: seq<Expr>)
    requires forall i :: 0 <= i < |es| ==> CallsHaveArgs(es[i])
    ensures |rs| == |es|
    ensures forall i :: 0 <= i < |es| ==> rs[i] == Visit(es[i])
    decreases es, 0
  {
    if |es| == 0 then [] else [Visit(es[0])] + VisitAll(es[1..])
  }

  /** The properties every visit of a statement establishes; an assignment's left side is kept. */
  predicate StmtVisitedFrom(r: Stmt, s: Stmt)
  {
    && (match (r, s)
        case (ParAssignStmt(l1, _), ParAssignStmt(l2, _)) => l1 == l2
        case (OtherStmt(k1, _, _), OtherStmt(k2, _, _)) => k1 == k2
        case _ => false)
    && StmtCallsHaveArgs(r)
    && StmtExplicit(r)
    && StripStmt(r) == StripStmt(s)
  }

  function VisitStmt(s: Stmt): (r: Stmt)
    requires StmtCallsHaveArgs(s)
    ensures StmtVisitedFrom(r, s)
    ensures s.OtherStmt? ==> r == OtherStmt(s.kind, VisitAll(s.exprs), VisitStmts(s.body))
    decreases s, 1
  {
    match s
    case ParAssignStmt(_, _) => VisitParAssignStmt(s)
    case OtherStmt(k, xs, body) =>
      var exprs := VisitAll(xs);
      var stmts := VisitStmts(body);
      assert forall i :: 0 <= i < |xs| ==> StripCasts(exprs[i]) == StripCasts(xs[i]);
      assert forall i :: 0 <= i < |body| ==> StripStmt(stmts[i]) == StripStmt(body[i]);
      if exprs == xs && stmts == body then s else OtherStmt(k, exprs, stmts)
  }

  /**
   * `visit_ParAssignStmt`: the visited right side cast to the left side's
   * dtype, wider or not; the left side is neither visited nor changed.
   */
  function VisitParAssignStmt(s: Stmt): (r: Stmt)
    requires s.ParAssignStmt? && StmtCallsHaveArgs(s)
    ensures StmtVisitedFrom(r, s)
    ensures r.ParAssignStmt? && r.left == s.left
    ensures r.right == UpcastNode(s.left.dtype, Visit(s.right))
    ensures r == s <==> r.right == s.right
    decreases s, 0
  {
    var right := UpcastNode(s.left.dtype, Visit(s.right));
    if right == s.right then s else s.(right := right)
  }

  function VisitStmts(ss: seq<Stmt>): (rs: seq<Stmt>)
    requires forall i :: 0 <= i < |ss| ==> StmtCallsHaveArgs(ss[i])
    ensures |rs| == |ss|
    ensures forall i :: 0 <= i < |ss| ==> rs[i] == VisitStmt(ss[i])
    decreases ss, 0
  {
    if |ss| == 0 then [] else [VisitStmt(ss[0])] + VisitStmts(ss[1..])
  }

  /**
   * `upcast`: the rewritten tree, or the `ValueError` of `max()` when a
   * visited native call has no arguments.
   */
  function Upcast(root: Stmt): (r: Result<Stmt, UpcastError>)
    ensures r.Failure? <==> !StmtCallsHaveArgs(root)
    ensures r.Success? ==> StmtVisitedFrom(r.value, root)
  {
    if StmtCallsHaveArgs(root) then Success(VisitStmt(root)) else Failure(EmptyMax)
  }
}
