/**
 * The part of the GTIR tree the upcasting pass looks at. Every expression
 * node carries its resolved `dtype`, computed by the IR when the node was
 * built; copying a node with new children keeps that stored `dtype`.
 */
module Gtir {

  /**
   * A scalar data type, by its value in the `DataType` enumeration. Python's
   * `max` over data types compares these values; which numbers the
   * enumeration assigns is not part of this model.
   */
  type DataType = int

  datatype Expr =
    | Leaf(name: string, dtype: DataType)                                   // literals and accesses
    | Cast(dtype: DataType, expr: Expr)
    | BinaryOp(op: string, left: Expr, right: Expr, dtype: DataType)
    | TernaryOp(cond: Expr, trueExpr: Expr, falseExpr: Expr, dtype: DataType)
    | NativeFuncCall(func: string, args: seq<Expr>, dtype: DataType)
    | Other(kind: string, operands: seq<Expr>, dtype: DataType)             // any other expression kind

  datatype Stmt =
    | ParAssignStmt(left: Expr, right: Expr)
    | OtherStmt(kind: string, exprs: seq<Expr>, body: seq<Stmt>)            // loops, sections, if-statements, the stencil

  /** The expression-valued fields of a node, in declaration order. */
  function Children(e: Expr): seq<Expr>
  {
    match e
    case Leaf(_, _) => []
    case Cast(_, x) => [x]
    case BinaryOp(_, l, r, _) => [l, r]
    case TernaryOp(c, t, f, _) => [c, t, f]
    case NativeFuncCall(_, args, _) => args
    case Other(_, xs, _) => xs
  }

  /** Same kind of node with the same non-expression fields (operator, name, dtype, ...). */
  predicate SameShell(a: Expr, b: Expr)
  {
    match (a, b)
    case (Leaf(n1, d1), Leaf(n2, d2)) => n1 == n2 && d1 == d2
    case (Cast(d1, _), Cast(d2, _)) => d1 == d2
    case (BinaryOp(o1, _, _, d1), BinaryOp(o2, _, _, d2)) => o1 == o2 && d1 == d2
    case (TernaryOp(_, _, _, d1), TernaryOp(_, _, _, d2)) => d1 == d2
    case (NativeFuncCall(f1, _, d1), NativeFuncCall(f2, _, d2)) => f1 == f2 && d1 == d2
    case (Other(k1, _, d1), Other(k2, _, d2)) => k1 == k2 && d1 == d2
    case _ => false
  }

  /** A node is determined by its shell and its children. */
  lemma ShellAndChildrenDetermine(a: Expr, b: Expr)
    requires SameShell(a, b) && Children(a) == Children(b)
    ensures a == b
  {
    match a
    case Cast(_, _) => assert Children(a)[0] == Children(b)[0];
    case BinaryOp(_, _, _, _) => assert Children(a)[0] == Children(b)[0] && Children(a)[1] == Children(b)[1];
    case TernaryOp(_, _, _, _) =>
      assert Children(a)[0] == Children(b)[0] && Children(a)[1] == Children(b)[1] && Children(a)[2] == Children(b)[2];
    case _ =>
  }

  /** No `NativeFuncCall` that the pass visits has an empty argument list. */
  predicate CallsHaveArgs(e: Expr)
  {
    match e
    case Leaf(_, _) => true
    case Cast(_, x) => CallsHaveArgs(x)
    case BinaryOp(_, l, r, _) => CallsHaveArgs(l) && CallsHaveArgs(r)
    case TernaryOp(c, t, f, _) => CallsHaveArgs(c) && CallsHaveArgs(t) && CallsHaveArgs(f)
    case NativeFuncCall(_, args, _) => |args| > 0 && forall i :: 0 <= i < |args| ==> CallsHaveArgs(args[i])
    case Other(_, xs, _) => forall i :: 0 <= i < |xs| ==> CallsHaveArgs(xs[i])
  }

  /** The same for statements; the left side of an assignment is not visited. */
  predicate StmtCallsHaveArgs(s: Stmt)
  {
    match s
    case ParAssignStmt(_, right) => CallsHaveArgs(right)
    case OtherStmt(_, xs, body) =>
      && (forall i :: 0 <= i < |xs| ==> CallsHaveArgs(xs[i]))
      && (forall i :: 0 <= i < |body| ==> StmtCallsHaveArgs(body[i]))
  }

  /**
   * Every dtype transition is explicit: the operands of a binary operation,
   * the two branches of a ternary operation and the arguments of a call share
   * one dtype.
   */
  predicate Explicit(e: Expr)
  {
    match e
    case Leaf(_, _) => true
    case Cast(_, x) => Explicit(x)
    case BinaryOp(_, l, r, _) => l.dtype == r.dtype && Explicit(l) && Explicit(r)
    case TernaryOp(c, t, f, _) => t.dtype == f.dtype && Explicit(c) && Explicit(t) && Explicit(f)
    case NativeFuncCall(_, args, _) =>
      && (forall i :: 0 <= i < |args| ==> args[i].dtype == args[0].dtype)
      && (forall i :: 0 <= i < |args| ==> Explicit(args[i]))
    case Other(_, xs, _) => forall i :: 0 <= i < |xs| ==> Explicit(xs[i])
  }

  /** ... and every assignment's right side has the dtype of its left side. */
  predicate StmtExplicit(s: Stmt)
  {
    match s
    case ParAssignStmt(left, right) => right.dtype == left.dtype && Explicit(right)
    case OtherStmt(_, xs, body) =>
      && (forall i :: 0 <= i < |xs| ==> Explicit(xs[i]))
      && (forall i :: 0 <= i < |body| ==> StmtExplicit(body[i]))
  }

  /** The tree with every `Cast` node removed. */
  function StripCasts(e: Expr): Expr
  {
    match e
    case Leaf(_, _) => e
    case Cast(_, x) => StripCasts(x)
    case BinaryOp(op, l, r, d) => BinaryOp(op, StripCasts(l), StripCasts(r), d)
    case TernaryOp(c, t, f, d) => TernaryOp(StripCasts(c), StripCasts(t), StripCasts(f), d)
    case NativeFuncCall(fn, args, d) => NativeFuncCall(fn, seq(|args|, i requires 0 <= i < |args| => StripCasts(args[i])), d)
    case Other(k, xs, d) => Other(k, seq(|xs|, i requires 0 <= i < |xs| => StripCasts(xs[i])), d)
  }

  function StripStmt(s: Stmt): Stmt
  {
    match s
    case ParAssignStmt(l, r) => ParAssignStmt(StripCasts(l), StripCasts(r))
    case OtherStmt(k, xs, body) =>
      OtherStmt(k, seq(|xs|, i requires 0 <= i < |xs| => StripCasts(xs[i])),
                seq(|body|, i requires 0 <= i < |body| => StripStmt(body[i])))
  }
}
