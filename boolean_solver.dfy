/**
 * The boolean-expression builder and printer of boolean_solver.py.
 *
 * Expressions are trees of the four binary operators AND, OR, NAND, NOR over
 * the constants One and Zero, variable objects `M`, and raw identifiers (the
 * bare id an `M` receiver passes on when it starts a chain).  A variable is an
 * object with a mutable negation flag; expressions hold references to it, so
 * printing an expression reads the flags of the variables it contains.
 */
module BooleanSolver {
  import opened Outcomes
  import opened Decimal

  /** The four operator classes; the attribute name used in a chain selects one. */
  datatype Op = And | Or | Nand | Nor

  /** The Python exceptions the builder can raise. */
  datatype Fault =
    | AttributeError  // the receiver has no such attribute (a raw id)
    | TypeError       // the chaining wrapper was called without its operand

  /** A variable: an id fixed at construction and a negation flag flipped in place. */
  class M {
    const id: int
    var neg: bool

    constructor (id: int)
      ensures this.id == id && !neg
    {
      this.id := id;
      neg := false;
    }

    /** `not_`: flips the flag of this very object and returns it. */
    method Not() returns (self: M)
      modifies this
      ensures self == this
      ensures neg == !old(neg)
    {
      neg := !neg;
      self := this;
    }

    /** `__repr__`, read from the flag as it is now. */
    function Repr(): string
      reads this
    {
      VarText(neg, id)
    }
  }

  /** What `M.__repr__` prints for a flag and an id: "not " before the id exactly when negated. */
  function VarText(neg: bool, id: int): (r: string)
    ensures |r| > (if neg then 4 else 0)
    ensures r[0] == 'n' <==> neg
    ensures neg ==> r[..4] == "not "
    ensures !neg ==> r[0] == '-' || IsDigit(r[0])
    ensures r[if neg then 4 else 0..] == IntToString(id)
  {
    (if neg then "not " else "") + IntToString(id)
  }

  datatype Expr =
    | Gate(op: Op, a: Expr, b: Expr)
    | One
    | Zero
    | Var(m: M)
    | RawId(id: int)

  /** The variable objects an expression refers to. */
  function Vars(e: Expr): set<M> {
    match e
    case Gate(_, a, b) => Vars(a) + Vars(b)
    case Var(m) => {m}
    case _ => {}
  }

  /** How many times the object `m` is referred to in `e`. */
  function Occurrences(e: Expr, m: M): nat {
    match e
    case Gate(_, a, b) => Occurrences(a, m) + Occurrences(b, m)
    case Var(v) => if v == m then 1 else 0
    case _ => 0
  }

  /** The flags of the variables of `e` as they are now. */
  function Flags(e: Expr): (f: map<M, bool>)
    reads Vars(e)
    ensures f.Keys == Vars(e)
  {
    map v | v in Vars(e) :: v.neg
  }

  /**
   * `str(e)` when the variables carry the flags `flags`: each operator class's
   * `__repr__`, the two constants, `M.__repr__` and `str(id)` for a raw id.
   */
  function RenderWith(e: Expr, flags: map<M, bool>): (r: string)
    requires Vars(e) <= flags.Keys
    ensures |r| > 0
    ensures e.Gate? ==> r[0] == (if e.op.And? || e.op.Or? then '(' else '[')
    ensures !e.Gate? ==> r[0] == 'n' || r[0] == '-' || IsDigit(r[0])
  {
    match e
    case Gate(And, a, b) => "(" + RenderWith(a, flags) + " * " + RenderWith(b, flags) + ")"
    case Gate(Or, a, b) => "(" + RenderWith(a, flags) + " + " + RenderWith(b, flags) + ")"
    case Gate(Nand, a, b) => "[(" + RenderWith(a, flags) + ") * (" + RenderWith(b, flags) + ")]"
    case Gate(Nor, a, b) => "[(" + RenderWith(a, flags) + ") + (" + RenderWith(b, flags) + ")]"
    case One => "1"
    case Zero => "0"
    case Var(m) => VarText(flags[m], m.id)
    case RawId(id) => IntToString(id)
  }

  /** `str(e)`: the expression printed with the flags its variables hold at the time of printing. */
  function Render(e: Expr): (r: string)
    reads Vars(e)
    ensures e.Var? ==> r == e.m.Repr()
    ensures NotMarks(r) == NegatedCount(e, Flags(e))
  {
    NotMarksCount(e, Flags(e));
    RenderWith(e, Flags(e))
  }

  /** A variable prints with the "not " prefix exactly when its flag is set. */
  lemma ReprMarksNegation(m: M)
    ensures m.neg <==> |m.Repr()| >= 4 && m.Repr()[..4] == "not "
  {
    if !m.neg {
      assert m.Repr()[0] == IntToString(m.id)[0] != 'n';
    }
  }

  /**
   * `x.OP(y)` through `__getattr__`: an operator node, One or Zero becomes the
   * left operand itself; an `M` contributes only its bare id, so the object
   * (and its flag) is not retained; a raw id has no such attribute.
   */
  function Chain(x: Expr, op: Op, y: Expr): (r: Result<Expr, Fault>)
    ensures r.Failure? <==> x.RawId?
    ensures r.Failure? ==> r.error == AttributeError
    ensures r.Success? ==> r.value.Gate? && r.value.op == op && r.value.b == y
    ensures r.Success? ==> Vars(r.value) == (if x.Var? then {} else Vars(x)) + Vars(y)
    ensures r.Success? && x.Var? ==> r.value.a == RawId(x.m.id)
    ensures r.Success? && !x.Var? ==> r.value.a == x
  {
    match x
    case RawId(_) => Failure(AttributeError)
    case Var(m) => Success(Gate(op, RawId(m.id), y))
    case _ => Success(Gate(op, x, y))
  }

  /** `x.OP1(y1).OP2(y2)...`: the calls of a chain applied left to right. */
  function ChainAll(x: Expr, steps: seq<(Op, Expr)>): (r: Result<Expr, Fault>)
    ensures r.Failure? <==> x.RawId? && steps != []
    ensures r.Failure? ==> r.error == AttributeError
    ensures r.Success? && steps != [] ==> r.value.Gate? && (r.value.op, r.value.b) == steps[|steps| - 1]
    decreases |steps|
  {
    if steps == [] then Success(x)
    else
      match Chain(x, steps[0].0, steps[0].1)
      case Failure(f) => Failure(f)
      case Success(x') => ChainAll(x', steps[1..])
  }

  /** The operators and right operands along the left edge of `e`, innermost first. */
  function Spine(e: Expr): seq<(Op, Expr)> {
    if e.Gate? then Spine(e.a) + [(e.op, e.b)] else []
  }

  /** The leftmost operand of `e`. */
  function Base(e: Expr): Expr {
    if e.Gate? then Base(e.a) else e
  }

  /**
   * Chains nest to the left: the left edge of the result lists the receiver's
   * own left edge followed by every call of the chain in order, and its
   * leftmost operand is the receiver's, or the bare id of an `M` receiver.
   */
  lemma {:induction false} ChainAllSpine(x: Expr, steps: seq<(Op, Expr)>)
    ensures ChainAll(x, steps).Success? ==>
      Spine(ChainAll(x, steps).value) == Spine(x) + steps &&
      Base(ChainAll(x, steps).value) == (if x.Var? && steps != [] then RawId(x.m.id) else Base(x))
    decreases |steps|
  {
    if steps != [] && !x.RawId? {
      var g := Chain(x, steps[0].0, steps[0].1).value;
      assert Spine(g) == Spine(g.a) + [steps[0]];
      ChainAllSpine(g, steps[1..]);
      assert [steps[0]] + steps[1..] == steps;
    }
  }

  /** `One.not_` and `Zero.not_`: a fresh constant of the other kind. */
  function FlipConst(c: Expr): (r: Expr)
    requires c.One? || c.Zero?
    ensures r.One? || r.Zero?
    ensures Render(r) != Render(c)
  {
    if c.One? then Zero else One
  }

  /** Negating a constant twice gives back a constant that prints the same. */
  lemma FlipConstTwice(c: Expr)
    requires c.One? || c.Zero?
    ensures FlipConst(FlipConst(c)) == c
    ensures Render(FlipConst(FlipConst(c))) == Render(c)
  {
  }

  /**
   * `x.not_()` for every kind of `x`: constants give the other constant, a
   * variable flips its own flag and is returned, an operator node's
   * `__getattr__` wrapper is called without its operand, and a raw id has no
   * `not_` attribute.
   */
  method Negate(x: Expr) returns (r: Result<Expr, Fault>)
    modifies if x.Var? then {x.m} else {}
    ensures x.One? || x.Zero? ==> r == Success(FlipConst(x))
    ensures x.Var? ==> r == Success(x) && x.m.neg == !old(x.m.neg)
    ensures x.Gate? ==> r == Failure(TypeError)
    ensures x.RawId? ==> r == Failure(AttributeError)
  {
    match x
    case One => r := Success(FlipConst(x));
    case Zero => r := Success(FlipConst(x));
    case Var(m) =>
      var self := m.Not();
      r := Success(Var(self));
    case Gate(_, _, _) => r := Failure(TypeError);
    case RawId(_) => r := Failure(AttributeError);
  }

  /** Number of 'n' characters; in a rendering only the "not " prefixes have one. */
  function NotMarks(s: string): nat {
    if s == [] then 0 else (if s[0] == 'n' then 1 else 0) + NotMarks(s[1..])
  }

  lemma {:induction false} NotMarksAppend(s: string, t: string)
    ensures NotMarks(s + t) == NotMarks(s) + NotMarks(t)
    decreases |s|
  {
    if s == [] {
      assert s + t == t;
    } else {
      assert (s + t)[0] == s[0];
      assert (s + t)[1..] == s[1..] + t;
      NotMarksAppend(s[1..], t);
    }
  }

  lemma {:induction false} NotMarksOfDigits(s: string)
    requires AllDigits(s)
    ensures NotMarks(s) == 0
    decreases |s|
  {
    if s != [] {
      NotMarksOfDigits(s[1..]);
    }
  }

  /** An operator's brackets and symbol carry no 'n'. */
  lemma NotMarksOfGate(open: string, a: string, mid: string, b: string, close: string)
    requires open in {"(", "[("} && mid in {" * ", " + ", ") * (", ") + ("} && close in {")", ")]"}
    ensures NotMarks(open + a + mid + b + close) == NotMarks(a) + NotMarks(b)
  {
    assert NotMarks(open) == 0 && NotMarks(mid) == 0 && NotMarks(close) == 0;
    NotMarksAppend(open + a + mid + b, close);
    NotMarksAppend(open + a + mid, b);
    NotMarksAppend(open + a, mid);
    NotMarksAppend(open, a);
  }

  lemma NotMarksOfId(n: int)
    ensures NotMarks(IntToString(n)) == 0
  {
    if n < 0 {
      NotMarksAppend("-", NatToString(-n));
      NotMarksOfDigits(NatToString(-n));
    } else {
      NotMarksOfDigits(NatToString(n));
    }
  }

  /** `m` occurs in `e` exactly when `e` refers to it at least once. */
  lemma {:induction false} OccurrencesPositive(e: Expr, m: M)
    ensures m in Vars(e) <==> Occurrences(e, m) > 0
  {
    if e.Gate? {
      OccurrencesPositive(e.a, m);
      OccurrencesPositive(e.b, m);
    }
  }

  /** How many references in `e` are to variables whose flag in `flags` is set. */
  function NegatedCount(e: Expr, flags: map<M, bool>): nat
    requires Vars(e) <= flags.Keys
  {
    match e
    case Gate(_, a, b) => NegatedCount(a, flags) + NegatedCount(b, flags)
    case Var(v) => if flags[v] then 1 else 0
    case _ => 0
  }

  /** The printed text carries one "not " per reference to a negated variable, and no other 'n'. */
  lemma {:induction false} NotMarksCount(e: Expr, flags: map<M, bool>)
    requires Vars(e) <= flags.Keys
    ensures NotMarks(RenderWith(e, flags)) == NegatedCount(e, flags)
  {
    match e
    case Gate(op, a, b) =>
      NotMarksCount(a, flags);
      NotMarksCount(b, flags);
      var ra, rb := RenderWith(a, flags), RenderWith(b, flags);
      match op {
        case And => NotMarksOfGate("(", ra, " * ", rb, ")");
        case Or => NotMarksOfGate("(", ra, " + ", rb, ")");
        case Nand => NotMarksOfGate("[(", ra, ") * (", rb, ")]");
        case Nor => NotMarksOfGate("[(", ra, ") + (", rb, ")]");
      }
    case Var(v) =>
      NotMarksOfId(v.id);
      NotMarksAppend("not ", IntToString(v.id));
      assert "" + IntToString(v.id) == IntToString(v.id);
      assert NotMarks("not ") == 1;
    case One =>
    case Zero =>
    case RawId(id) =>
      NotMarksOfId(id);
  }

  /** Flipping one variable's flag moves each of its references into or out of the negated count. */
  lemma {:induction false} NegatedShift(e: Expr, flags: map<M, bool>, m: M)
    requires Vars(e) <= flags.Keys && m in flags
    ensures NegatedCount(e, flags[m := !flags[m]]) + (if flags[m] then Occurrences(e, m) else 0)
         == NegatedCount(e, flags) + (if flags[m] then 0 else Occurrences(e, m))
  {
    if e.Gate? {
      NegatedShift(e.a, flags, m);
      NegatedShift(e.b, flags, m);
    }
  }

  /** Flipping the flag of a variable that `e` refers to changes how `e` prints. */
  lemma FlipChangesRendering(e: Expr, flags: map<M, bool>, m: M)
    requires Vars(e) <= flags.Keys && m in Vars(e)
    ensures RenderWith(e, flags[m := !flags[m]]) != RenderWith(e, flags)
  {
    NotMarksCount(e, flags);
    NotMarksCount(e, flags[m := !flags[m]]);
    NegatedShift(e, flags, m);
    OccurrencesPositive(e, m);
  }

  /**
   * Operator nodes keep references to their operands: after `m.not_()`, every
   * expression that refers to `m` prints differently, and every expression
   * that does not prints as before.
   */
  twostate lemma NegationIsVisible(m: M, e: Expr)
    requires forall v :: v in Vars(e) ==> old(allocated(v))
    requires unchanged(Vars(e) - {m})
    requires m.neg != old(m.neg)
    ensures m in Vars(e) ==> Render(e) != old(Render(e))
    ensures m !in Vars(e) ==> Render(e) == old(Render(e))
  {
    if m in Vars(e) {
      var now := Flags(e);
      assert old(Flags(e)) == now[m := !now[m]];
      FlipChangesRendering(e, now, m);
    } else {
      assert old(Flags(e)) == Flags(e);
    }
  }

  /** Flag maps that differ only at `m`, a variable of `e`, print `e` differently. */
  lemma FlipOneFlag(e: Expr, flags: map<M, bool>, now: map<M, bool>, m: M)
    requires Vars(e) <= flags.Keys && m in Vars(e) && now.Keys == flags.Keys
    requires now[m] == !flags[m]
    requires forall v :: v in now && v != m ==> now[v] == flags[v]
    ensures RenderWith(e, now) != RenderWith(e, flags)
  {
    assert now == flags[m := !flags[m]];
    FlipChangesRendering(e, flags, m);
  }

  /** Flag maps with the same keys and the same flag at every key are the same map. */
  lemma SameFlags(f: map<M, bool>, g: map<M, bool>)
    requires f.Keys == g.Keys
    requires forall v :: v in f ==> f[v] == g[v]
    ensures f == g
  {
  }

  /** Every variable an expression refers to is an allocated object. */
  lemma {:induction false} VarsAlloc(e: Expr)
    ensures forall v :: v in Vars(e) ==> allocated(v)
  {
    if e.Gate? {
      VarsAlloc(e.a);
      VarsAlloc(e.b);
    }
  }

  /**
   * `m.not_()` seen from an expression built earlier: the call returns `m`,
   * and the expression prints differently afterwards exactly when it refers
   * to `m`.
   */
  method NegateSeenBy(m: M, e: Expr) returns (r: Result<Expr, Fault>, before: string, after: string)
    modifies m
    ensures r == Success(Var(m)) && m.neg == !old(m.neg)
    ensures before == old(Render(e)) && after == Render(e)
    ensures m in Vars(e) <==> after != before
  {
    VarsAlloc(e);
    ghost var flags := Flags(e);
    before := Render(e);
    r := Negate(Var(m));
    ghost var now := Flags(e);
    after := Render(e);
    if m in Vars(e) {
      FlipOneFlag(e, flags, now, m);
    } else {
      SameFlags(flags, now);
    }
  }

  /** `M(1).AND(M(2)).OR(M(3)).NOR(M(4))` once built: the receiver `M(1)` survives only as its id. */
  function ExampleChain(m2: M, m3: M, m4: M): (e: Expr)
    ensures Vars(e) == {m2, m3, m4}
  {
    Gate(Nor, ExampleInner(m2, m3), Var(m4))
  }

  /** `M(1).AND(M(2)).OR(M(3))`, the receiver of the last call. */
  function ExampleInner(m2: M, m3: M): (e: Expr)
    ensures Vars(e) == {m2, m3}
  {
    assert Vars(Gate(And, RawId(1), Var(m2))) == {m2};
    Gate(Or, Gate(And, RawId(1), Var(m2)), Var(m3))
  }

  lemma SmallIds()
    ensures IntToString(1) == "1" && IntToString(2) == "2" && IntToString(3) == "3" && IntToString(4) == "4"
  {
  }

  lemma ExampleInnerText(m2: M, m3: M, flags: map<M, bool>)
    requires m2.id == 2 && m3.id == 3
    requires m2 in flags && m3 in flags && !flags[m2] && !flags[m3]
    ensures RenderWith(ExampleInner(m2, m3), flags) == "((1 * 2) + 3)"
  {
    SmallIds();
    assert VarText(false, 2) == "2" && VarText(false, 3) == "3";
    assert RenderWith(Var(m2), flags) == "2";
    assert RenderWith(Var(m3), flags) == "3";
    assert RenderWith(Gate(And, RawId(1), Var(m2)), flags) == "(1 * 2)";
  }

  lemma ExampleChainText(m2: M, m3: M, m4: M, flags: map<M, bool>)
    requires m2.id == 2 && m3.id == 3 && m4.id == 4
    requires m2 in flags && m3 in flags && m4 in flags
    requires !flags[m2] && !flags[m3]
    ensures RenderWith(ExampleChain(m2, m3, m4), flags)
         == "[(((1 * 2) + 3)) + (" + (if flags[m4] then "not 4" else "4") + ")]"
  {
    ExampleInnerText(m2, m3, flags);
    LastOperandText(m4, flags);
    NorText(ExampleInner(m2, m3), Var(m4), flags);
    ExampleOpening();
  }

  lemma ExampleOpening()
    ensures "[(" + "((1 * 2) + 3)" + ") + (" == "[(((1 * 2) + 3)) + ("
  {
  }

  lemma NorText(a: Expr, b: Expr, flags: map<M, bool>)
    requires Vars(a) <= flags.Keys && Vars(b) <= flags.Keys
    ensures RenderWith(Gate(Nor, a, b), flags) == "[(" + RenderWith(a, flags) + ") + (" + RenderWith(b, flags) + ")]"
  {
  }

  lemma LastOperandText(m4: M, flags: map<M, bool>)
    requires m4.id == 4 && m4 in flags
    ensures RenderWith(Var(m4), flags) == if flags[m4] then "not 4" else "4"
  {
    SmallIds();
  }

  lemma ExampleRender(m2: M, m3: M, m4: M)
    requires m2.id == 2 && m3.id == 3 && m4.id == 4
    requires !m2.neg && !m3.neg
    ensures !m4.neg ==> Render(ExampleChain(m2, m3, m4)) == "[(((1 * 2) + 3)) + (4)]"
    ensures m4.neg ==> Render(ExampleChain(m2, m3, m4)) == "[(((1 * 2) + 3)) + (not 4)]"
  {
    var f := Flags(ExampleChain(m2, m3, m4));
    assert f[m2] == m2.neg && f[m3] == m3.neg && f[m4] == m4.neg;
    ExampleChainText(m2, m3, m4, f);
  }

  /**
   * The chain printed by the module's own demonstration: the receiver `M(1)`
   * leaves only its id behind, so negating it changes nothing, while the
   * right operand `M(4)` stays referenced and its negation shows; negating it
   * twice restores the original text.
   */
  method PrintedExample() returns (printed: string, afterReceiver: string, afterOperand: string, afterTwice: string)
    ensures printed == "[(((1 * 2) + 3)) + (4)]"
    ensures afterReceiver == printed
    ensures afterOperand == "[(((1 * 2) + 3)) + (not 4)]"
    ensures afterTwice == printed
  {
    var m1 := new M(1);
    var m2 := new M(2);
    var m3 := new M(3);
    var m4 := new M(4);
    var e := Chain(Var(m1), And, Var(m2)).value;
    e := Chain(e, Or, Var(m3)).value;
    e := Chain(e, Nor, Var(m4)).value;
    assert e == ExampleChain(m2, m3, m4);
    printed := Render(e);
    ExampleRender(m2, m3, m4);
    var _ := m1.Not();
    afterReceiver := Render(e);
    ExampleRender(m2, m3, m4);
    var _ := m4.Not();
    afterOperand := Render(e);
    ExampleRender(m2, m3, m4);
    var _ := m4.Not();
    afterTwice := Render(e);
    ExampleRender(m2, m3, m4);
  }
}
