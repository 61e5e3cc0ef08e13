/**
 * Reading the printed form back.  A printed expression shows its operators
 * and, at each leaf, a number with or without "not " in front; the reader
 * below recovers exactly that much from the text, which shows the printing of
 * boolean_solver.py is unambiguous up to the kind of leaf (`1` may be the
 * constant One, a raw id 1 or a variable with id 1).
 */
module Reading {
  import opened Outcomes
  import opened Decimal
  import opened BooleanSolver

  /** What the printed form of an expression shows. */
  datatype Text = Leaf(neg: bool, n: int) | Node(op: Op, l: Text, r: Text)

  /** The printed form of `e` when its variables carry the flags `flags`. */
  function ShapeWith(e: Expr, flags: map<M, bool>): Text
    requires Vars(e) <= flags.Keys
  {
    match e
    case Gate(op, a, b) => Node(op, ShapeWith(a, flags), ShapeWith(b, flags))
    case One => Leaf(false, 1)
    case Zero => Leaf(false, 0)
    case Var(m) => Leaf(flags[m], m.id)
    case RawId(id) => Leaf(false, id)
  }

  /** The printed form of `e` with the flags its variables hold now. */
  function Shape(e: Expr): Text
    reads Vars(e)
  {
    ShapeWith(e, Flags(e))
  }

  /** Reads a leaf: an optional "not " and then an integer. */
  function ParseLeaf(s: string): (r: Option<(Text, string)>)
    ensures r.Some? ==> |r.value.1| < |s|
  {
    var neg := |s| >= 4 && s[..4] == "not ";
    match ParseInt(if neg then s[4..] else s)
    case None => None
    case Some((n, rest)) => Some((Leaf(neg, n), rest))
  }

  /**
   * Reads one printed expression at the head of `s` and returns it with the
   * text that follows it: "(l * r)", "(l + r)", "[(l) * (r)]", "[(l) + (r)]"
   * or a leaf.
   */
  function Parse(s: string): (r: Option<(Text, string)>)
    ensures r.Some? ==> |r.value.1| < |s|
    decreases |s|, 0
  {
    if |s| > 0 && s[0] == '(' then ParseGate(s[1..], false)
    else if |s| >= 2 && s[..2] == "[(" then ParseGate(s[2..], true)
    else ParseLeaf(s)
  }

  /** After the opening "(" or "[(": the left operand, then the rest of the node. */
  function ParseGate(s: string, negated: bool): (r: Option<(Text, string)>)
    ensures r.Some? ==> |r.value.1| < |s|
    decreases |s|, 1
  {
    match Parse(s)
    case None => None
    case Some((l, s1)) => ParseRight(l, s1, negated)
  }

  /** The text between the two operands of an operator node. */
  function Sym(op: Op): string {
    match op
    case And => " * "
    case Or => " + "
    case Nand => ") * ("
    case Nor => ") + ("
  }

  /** The text that opens an operator node. */
  function Open(op: Op): string {
    if op.Nand? || op.Nor? then "[(" else "("
  }

  /** The text that closes an operator node. */
  function Close(op: Op): string {
    if op.Nand? || op.Nor? then ")]" else ")"
  }

  /**
   * After the left operand: the symbol between the operands, the right
   * operand and the closing text, of the plain forms or of the bracketed ones.
   */
  function ParseRight(l: Text, s: string, negated: bool): (r: Option<(Text, string)>)
    ensures r.Some? ==> |r.value.1| < |s|
    decreases |s|, 2
  {
    var star, plus := if negated then Nand else And, if negated then Nor else Or;
    var k := |Sym(star)|;
    if |s| < k || (s[..k] != Sym(star) && s[..k] != Sym(plus)) then None
    else
      var op := if s[..k] == Sym(star) then star else plus;
      match Parse(s[k..])
      case None => None
      case Some((r, s2)) =>
        if |s2| >= |Close(op)| && s2[..|Close(op)|] == Close(op) then Some((Node(op, l, r), s2[|Close(op)|..]))
        else None
  }

  /** Every leaf prints as `M.__repr__` would print its flag and number. */
  lemma LeafText(e: Expr, flags: map<M, bool>)
    requires !e.Gate? && Vars(e) <= flags.Keys
    ensures RenderWith(e, flags) == VarText(ShapeWith(e, flags).neg, ShapeWith(e, flags).n)
  {
    assert IntToString(1) == "1" && IntToString(0) == "0";
    assert "" + IntToString(ShapeWith(e, flags).n) == IntToString(ShapeWith(e, flags).n);
  }

  /** Shorthand: what may follow a printed expression for it to be read back intact. */
  predicate Delimited(rest: string) {
    rest == [] || !IsDigit(rest[0])
  }

  /** Text that starts with neither "(" nor "[" is read as a leaf. */
  lemma ParseAtLeaf(s: string)
    requires |s| > 0 && s[0] != '(' && s[0] != '['
    ensures Parse(s) == ParseLeaf(s)
  {
    assert |s| >= 2 ==> s[..2][0] == s[0];
  }

  /** A leaf's text is read back as that leaf, whatever follows it that is not a digit. */
  lemma ParseVarText(neg: bool, n: int, rest: string)
    requires Delimited(rest)
    ensures Parse(VarText(neg, n) + rest) == Some((Leaf(neg, n), rest))
  {
    if neg {
      ParseNegatedLeaf(n, rest);
    } else {
      ParsePlainLeaf(n, rest);
    }
  }

  lemma ParseNegatedLeaf(n: int, rest: string)
    requires Delimited(rest)
    ensures Parse(VarText(true, n) + rest) == Some((Leaf(true, n), rest))
  {
    var s := VarText(true, n) + rest;
    assert s == "not " + (IntToString(n) + rest);
    assert s[..4] == "not ";
    assert s[4..] == IntToString(n) + rest;
    ParseIntRoundTrip(n, rest);
    assert ParseLeaf(s) == Some((Leaf(true, n), rest));
    ParseAtLeaf(s);
  }

  lemma ParsePlainLeaf(n: int, rest: string)
    requires Delimited(rest)
    ensures Parse(VarText(false, n) + rest) == Some((Leaf(false, n), rest))
  {
    var d := IntToString(n);
    var s := VarText(false, n) + rest;
    assert s == d + rest;
    assert s[0] == d[0];
    assert |s| >= 4 ==> s[..4][0] == s[0];
    ParseIntRoundTrip(n, rest);
    assert ParseLeaf(s) == Some((Leaf(false, n), rest));
    ParseAtLeaf(s);
  }

  /**
   * Reading back the printed form of any expression gives its shape and leaves
   * the text after it untouched.
   */
  lemma {:induction false} ParseRenderWith(e: Expr, flags: map<M, bool>, rest: string)
    requires Vars(e) <= flags.Keys
    requires Delimited(rest)
    ensures Parse(RenderWith(e, flags) + rest) == Some((ShapeWith(e, flags), rest))
  {
    match e
    case Gate(op, a, b) =>
      var rb := RenderWith(b, flags);
      ParseRenderWith(a, flags, Sym(op) + (rb + (Close(op) + rest)));
      ParseRenderWith(b, flags, Close(op) + rest);
      GateText(e, flags);
      ParseNodeText(op, RenderWith(a, flags), rb, ShapeWith(a, flags), ShapeWith(b, flags), rest);
    case _ =>
      LeafText(e, flags);
      ParseVarText(ShapeWith(e, flags).neg, ShapeWith(e, flags).n, rest);
  }

  /** The rest of an operator node is read back once its right operand is. */
  lemma ParseRightOf(l: Text, r: Text, op: Op, rb: string, rest: string)
    requires Parse(rb + (Close(op) + rest)) == Some((r, Close(op) + rest))
    ensures ParseRight(l, Sym(op) + (rb + (Close(op) + rest)), op.Nand? || op.Nor?) == Some((Node(op, l, r), rest))
  {
    var s := Sym(op) + (rb + (Close(op) + rest));
    var k := |Sym(op)|;
    assert s[..k] == Sym(op);
    assert s[k..] == rb + (Close(op) + rest);
    var c := Close(op) + rest;
    assert c[..|Close(op)|] == Close(op);
    assert c[|Close(op)|..] == rest;
  }

  /** The text of an operator node: its opening, left operand, symbol, right operand and closing. */
  lemma GateText(e: Expr, flags: map<M, bool>)
    requires e.Gate? && Vars(e) <= flags.Keys
    ensures RenderWith(e, flags) == Open(e.op) + RenderWith(e.a, flags) + Sym(e.op) + RenderWith(e.b, flags) + Close(e.op)
  {
  }

  /** The text of an operator node is read back as that node. */
  lemma ParseNodeText(op: Op, ra: string, rb: string, l: Text, r: Text, rest: string)
    requires Parse(ra + (Sym(op) + (rb + (Close(op) + rest)))) == Some((l, Sym(op) + (rb + (Close(op) + rest))))
    requires Parse(rb + (Close(op) + rest)) == Some((r, Close(op) + rest))
    ensures Parse(Open(op) + ra + Sym(op) + rb + Close(op) + rest) == Some((Node(op, l, r), rest))
  {
    var tail := Sym(op) + (rb + (Close(op) + rest));
    ParseRightOf(l, r, op, rb, rest);
    Regroup(Open(op), ra, Sym(op), rb, Close(op), rest);
    ParseOpening(ra + tail, op);
    assert ParseGate(ra + tail, op.Nand? || op.Nor?) == Some((Node(op, l, r), rest));
  }

  lemma Regroup(o: string, a: string, x: string, b: string, c: string, rest: string)
    ensures o + a + x + b + c + rest == o + (a + (x + (b + (c + rest))))
  {
  }

  /** After "(" the reader expects a plain node, after "[(" a bracketed one. */
  lemma ParseOpening(t: string, op: Op)
    ensures Parse(Open(op) + t) == ParseGate(t, op.Nand? || op.Nor?)
  {
    var open := Open(op);
    var s := open + t;
    assert s[..|open|] == open;
    assert s[|open|..] == t;
  }

  /** `str(e)` read back is the shape of `e`, with nothing left over. */
  lemma ParseRender(e: Expr)
    ensures Parse(Render(e)) == Some((Shape(e), ""))
  {
    ParseRenderWith(e, Flags(e), "");
    assert Render(e) + "" == Render(e);
  }

  /** Two expressions with the same shape print the same text. */
  lemma {:induction false} SameShapeSameText(e1: Expr, f1: map<M, bool>, e2: Expr, f2: map<M, bool>)
    requires Vars(e1) <= f1.Keys && Vars(e2) <= f2.Keys
    requires ShapeWith(e1, f1) == ShapeWith(e2, f2)
    ensures RenderWith(e1, f1) == RenderWith(e2, f2)
  {
    if e1.Gate? {
      SameShapeSameText(e1.a, f1, e2.a, f2);
      SameShapeSameText(e1.b, f1, e2.b, f2);
      GateText(e1, f1);
      GateText(e2, f2);
    } else {
      LeafText(e1, f1);
      LeafText(e2, f2);
    }
  }

  /** Two expressions print the same text exactly when they have the same shape. */
  lemma TextIsShape(e1: Expr, e2: Expr)
    ensures Render(e1) == Render(e2) <==> Shape(e1) == Shape(e2)
  {
    ParseRender(e1);
    ParseRender(e2);
    if Shape(e1) == Shape(e2) {
      SameShapeSameText(e1, Flags(e1), e2, Flags(e2));
    }
  }

  /** The shape of `e` depends only on the flags of the variables of `e`. */
  lemma {:induction false} ShapeWithAgree(e: Expr, f: map<M, bool>, g: map<M, bool>)
    requires Vars(e) <= f.Keys && Vars(e) <= g.Keys
    requires forall v :: v in Vars(e) ==> f[v] == g[v]
    ensures ShapeWith(e, f) == ShapeWith(e, g)
  {
    if e.Gate? {
      ShapeWithAgree(e.a, f, g);
      ShapeWithAgree(e.b, f, g);
    }
  }

  /**
   * `x.OP(y)` prints as an OP node whose right operand is `y` as it prints,
   * and whose left operand is `x` as it prints, except that an `M` receiver
   * prints as its bare id whatever its flag.
   */
  lemma ChainShape(x: Expr, op: Op, y: Expr)
    requires !x.RawId?
    ensures Chain(x, op, y).Success?
    ensures Shape(Chain(x, op, y).value) ==
      Node(op, if x.Var? then Leaf(false, x.m.id) else Shape(x), Shape(y))
  {
    var r := Chain(x, op, y).value;
    var f := Flags(r);
    assert Shape(r) == Node(op, ShapeWith(r.a, f), ShapeWith(y, f));
    ShapeWithAgree(y, f, Flags(y));
    if x.Var? {
      assert ShapeWith(r.a, f) == Leaf(false, x.m.id);
    } else {
      ShapeWithAgree(x, f, Flags(x));
      assert ShapeWith(r.a, f) == Shape(x);
    }
  }
}
