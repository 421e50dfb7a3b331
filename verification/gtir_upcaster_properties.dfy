/**
 * Properties of the upcasting pass: it reaches a fixpoint in one run, leaves
 * explicit trees untouched, and applies the promotion rule of each node kind.
 */
module GtirUpcasterProperties {
  import opened Outcomes
  import opened Gtir
  import opened GtirUpcaster

  /** An explicit tree is returned as it is: nothing is rebuilt and no cast is added. */
  lemma {:induction false} VisitFixesExplicit(e: Expr)
    requires CallsHaveArgs(e) && Explicit(e)
    ensures Visit(e) == e
    decreases e, 1
  {
    match e
    case Leaf(_, _) =>
    case Cast(_, x) =>
      VisitFixesExplicit(x);
    case BinaryOp(_, l, r, _) =>
      VisitFixesExplicit(l);
      VisitFixesExplicit(r);
      UpcastNodesUniform([l, r]);
    case TernaryOp(c, t, f, _) =>
      VisitFixesExplicit(c);
      VisitFixesExplicit(t);
      VisitFixesExplicit(f);
      UpcastNodesUniform([t, f]);
    case NativeFuncCall(_, args, _) =>
      VisitAllFixesExplicit(args);
      UpcastNodesUniform(args);
    case Other(_, xs, _) =>
      VisitAllFixesExplicit(xs);
  }

  lemma {:induction false} VisitAllFixesExplicit(es: seq<Expr>)
    requires forall i :: 0 <= i < |es| ==> CallsHaveArgs(es[i]) && Explicit(es[i])
    ensures VisitAll(es) == es
    decreases es, 0
  {
    forall i | 0 <= i < |es|
      ensures VisitAll(es)[i] == es[i]
    {
      VisitFixesExplicit(es[i]);
    }
  }

  /** A tree is a fixpoint of the visit exactly when all its dtype transitions are explicit. */
  lemma FixpointIffExplicit(e: Expr)
    requires CallsHaveArgs(e)
    ensures Visit(e) == e <==> Explicit(e)
  {
    if Explicit(e) {
      VisitFixesExplicit(e);
    }
  }

  /** The same for statements. */
  lemma {:induction false} VisitStmtFixesExplicit(s: Stmt)
    requires StmtCallsHaveArgs(s) && StmtExplicit(s)
    ensures VisitStmt(s) == s
    decreases s, 1
  {
    match s
    case ParAssignStmt(_, right) =>
      VisitFixesExplicit(right);
    case OtherStmt(_, xs, body) =>
      VisitAllFixesExplicit(xs);
      VisitStmtsFixExplicit(body);
  }

  lemma {:induction false} VisitStmtsFixExplicit(ss: seq<Stmt>)
    requires forall i :: 0 <= i < |ss| ==> StmtCallsHaveArgs(ss[i]) && StmtExplicit(ss[i])
    ensures VisitStmts(ss) == ss
    decreases ss, 0
  {
    forall i | 0 <= i < |ss|
      ensures VisitStmts(ss)[i] == ss[i]
    {
      VisitStmtFixesExplicit(ss[i]);
    }
  }

  /** Running the pass on its own output changes nothing. */
  lemma UpcastIdempotent(root: Stmt)
    requires Upcast(root).Success?
    ensures Upcast(Upcast(root).value) == Upcast(root)
  {
    VisitStmtFixesExplicit(Upcast(root).value);
  }

  /** An explicit tree is its own upcast. */
  lemma UpcastFixesExplicit(root: Stmt)
    requires StmtCallsHaveArgs(root) && StmtExplicit(root)
    ensures Upcast(root) == Success(root)
  {
    VisitStmtFixesExplicit(root);
  }

  /**
   * After `visit_BinaryOp`, both operands have the wider of the visited
   * operands' dtypes, and each is its visited operand, cast only if narrower.
   */
  lemma BinaryOpOperandsPromoted(e: Expr)
    requires e.BinaryOp? && CallsHaveArgs(e)
    ensures var t := if e.left.dtype >= e.right.dtype then e.left.dtype else e.right.dtype;
      && Visit(e).left == UpcastNode(t, Visit(e.left))
      && Visit(e).right == UpcastNode(t, Visit(e.right))
      && Visit(e).left.dtype == t && Visit(e).right.dtype == t
  {
    var operands := [Visit(e.left), Visit(e.right)];
    assert DTypes(operands) == [e.left.dtype, e.right.dtype];
    assert Children(Visit(e)) == UpcastNodes(operands);
  }

  /**
   * `visit_TernaryOp` promotes the two branches jointly and never casts the
   * condition: it becomes its own visit.
   */
  lemma TernaryOpBranchesPromoted(e: Expr)
    requires e.TernaryOp? && CallsHaveArgs(e)
    ensures Visit(e).cond == Visit(e.cond)
    ensures var t := if e.trueExpr.dtype >= e.falseExpr.dtype then e.trueExpr.dtype else e.falseExpr.dtype;
      && Visit(e).trueExpr == UpcastNode(t, Visit(e.trueExpr))
      && Visit(e).falseExpr == UpcastNode(t, Visit(e.falseExpr))
  {
    var branches := [Visit(e.trueExpr), Visit(e.falseExpr)];
    assert DTypes(branches) == [e.trueExpr.dtype, e.falseExpr.dtype];
    var u := UpcastNodes(branches);
    assert Children(Visit(e)) == [Visit(e.cond), u[0], u[1]];
  }

  /**
   * A binary operation on explicit operands of dtypes `a < b`: the narrower
   * left operand is wrapped in a cast to `b`, the right one is untouched.
   */
  lemma BinaryOpPromotesNarrowerOperand(op: string, left: Expr, right: Expr, d: DataType)
    requires CallsHaveArgs(left) && Explicit(left)
    requires CallsHaveArgs(right) && Explicit(right)
    requires left.dtype < right.dtype
    ensures Visit(BinaryOp(op, left, right, d)) == BinaryOp(op, Cast(right.dtype, left), right, d)
  {
    var e := BinaryOp(op, left, right, d);
    VisitFixesExplicit(left);
    VisitFixesExplicit(right);
    BinaryOpOperandsPromoted(e);
  }

  /**
   * Node kinds without a rule of their own get no cast: the visit rebuilds
   * them from their visited children, keeping everything else.
   */
  lemma OtherKindsOnlyRebuilt(k: string, xs: seq<Expr>, d: DataType, x: Expr)
    requires CallsHaveArgs(Other(k, xs, d)) && CallsHaveArgs(x)
    ensures Visit(Other(k, xs, d)) == Other(k, VisitAll(xs), d)
    ensures Visit(Cast(d, x)) == Cast(d, Visit(x))
  {
    assert Visit(Other(k, xs, d)) == GenericVisit(Other(k, xs, d));
    assert Visit(Cast(d, x)) == GenericVisit(Cast(d, x));
  }

  /** Statements other than assignments are rebuilt from their visited expressions and sub-statements. */
  lemma OtherStmtsOnlyRebuilt(k: string, xs: seq<Expr>, body: seq<Stmt>)
    requires StmtCallsHaveArgs(OtherStmt(k, xs, body))
    ensures VisitStmt(OtherStmt(k, xs, body)) == OtherStmt(k, VisitAll(xs), VisitStmts(body))
  {
  }

  /**
   * For every assignment, the statement visit keeps the left side and makes
   * the right side its visit upcast to the left side's dtype; the statement
   * is returned as it is exactly when that leaves the right side unchanged.
   */
  lemma AssignmentRightUpcastToLeft(s: Stmt)
    requires s.ParAssignStmt? && StmtCallsHaveArgs(s)
    ensures VisitStmt(s).ParAssignStmt? && VisitStmt(s).left == s.left
    ensures VisitStmt(s).right == UpcastNode(s.left.dtype, Visit(s.right))
    ensures VisitStmt(s) == s <==> UpcastNode(s.left.dtype, Visit(s.right)) == s.right
  {
    assert VisitStmt(s) == VisitParAssignStmt(s);
  }

  /**
   * An assignment whose explicit right side has another dtype than the left
   * side, even a wider one: the right side is cast to the left side's dtype.
   */
  lemma AssignmentCastsToLeft(left: Expr, right: Expr)
    requires CallsHaveArgs(right) && Explicit(right)
    requires right.dtype != left.dtype
    ensures VisitStmt(ParAssignStmt(left, right)) == ParAssignStmt(left, Cast(left.dtype, right))
  {
    VisitFixesExplicit(right);
  }

  /**
   * `visit_NativeFuncCall` promotes all visited arguments jointly to the
   * widest of their dtypes, keeping their count and order.
   */
  lemma NativeFuncCallArgsPromoted(e: Expr)
    requires e.NativeFuncCall? && CallsHaveArgs(e)
    ensures |Visit(e).args| == |e.args|
    ensures forall i :: 0 <= i < |e.args| ==>
      Visit(e).args[i] == UpcastNode(MaxDType(DTypes(e.args)), Visit(e.args[i]))
  {
    var visited := VisitAll(e.args);
    assert DTypes(visited) == DTypes(e.args);
    assert Visit(e).args == UpcastNodes(visited);
  }

  /**
   * A native call on three explicit arguments of dtypes `a, a, b` with `a < b`:
   * exactly the two narrower arguments get a cast to `b`.
   */
  lemma CallPromotesArgumentsJointly(f: string, x: Expr, y: Expr, z: Expr, d: DataType)
    requires CallsHaveArgs(x) && Explicit(x)
    requires CallsHaveArgs(y) && Explicit(y)
    requires CallsHaveArgs(z) && Explicit(z)
    requires x.dtype == y.dtype < z.dtype
    ensures Visit(NativeFuncCall(f, [x, y, z], d)) ==
      NativeFuncCall(f, [Cast(z.dtype, x), Cast(z.dtype, y), z], d)
  {
    var args := [x, y, z];
    assert CallsHaveArgs(NativeFuncCall(f, args, d)) && forall i :: 0 <= i < |args| ==> Explicit(args[i]) by {
      assert forall i :: 0 <= i < |args| ==> args[i] == x || args[i] == y || args[i] == z;
    }
    CallOnExplicitArgs(NativeFuncCall(f, args, d));
    ThreeArgsPromoted(x, y, z);
  }

  lemma ThreeArgsPromoted(x: Expr, y: Expr, z: Expr)
    requires x.dtype == y.dtype < z.dtype
    ensures UpcastNodes([x, y, z]) == [Cast(z.dtype, x), Cast(z.dtype, y), z]
  {
    assert DTypes([x, y, z]) == [x.dtype, y.dtype, z.dtype];
    MaxOfThree(x.dtype, y.dtype, z.dtype);
  }

  lemma MaxOfThree(a: DataType, b: DataType, c: DataType)
    requires a == b < c
    ensures MaxDType([a, b, c]) == c
  {
    assert [a, b, c][1..] == [b, c];
    assert [b, c][1..] == [c];
  }

  /** A call on explicit arguments: the visit is the call on the promoted arguments. */
  lemma CallOnExplicitArgs(e: Expr)
    requires e.NativeFuncCall? && CallsHaveArgs(e)
    requires forall i :: 0 <= i < |e.args| ==> Explicit(e.args[i])
    ensures Visit(e) == NativeFuncCall(e.func, UpcastNodes(e.args), e.dtype)
  {
    VisitAllFixesExplicit(e.args);
    assert Visit(e) == VisitNativeFuncCall(e);
    assert Children(Visit(e)) == UpcastNodes(e.args);
    ShellAndChildrenDetermine(Visit(e), NativeFuncCall(e.func, UpcastNodes(e.args), e.dtype));
  }

  /** A visited native call without arguments makes the whole pass fail. */
  lemma CallWithoutArgsFails(left: Expr, f: string, d: DataType)
    ensures Upcast(ParAssignStmt(left, NativeFuncCall(f, [], d))) == Failure(EmptyMax)
  {
  }

  /** ... but one on an assignment's left side does not, because that side is never visited. */
  lemma LeftSideIsNotVisited(f: string, d: DataType, right: Expr)
    requires CallsHaveArgs(right)
    ensures Upcast(ParAssignStmt(NativeFuncCall(f, [], d), right)).Success?
    ensures Upcast(ParAssignStmt(NativeFuncCall(f, [], d), right)).value.left == NativeFuncCall(f, [], d)
  {
  }
}
