# Boolean-expression builder of protestGP, in Dafny

This project models `boolean_solver.py`, the small boolean-expression builder and printer of the protestGP repository.

- **Operators.** `AND`, `OR`, `NAND` and `NOR` are nodes that hold two operands. The constants are `One` and `Zero`.
- **Variables.** `M` is a variable object with an id and a negation flag. `not_` flips the flag in place.
- **Chaining.** `x.OP(y)`, implemented through `__getattr__`, builds a new `OP` node with `x` on the left and `y` on the right. When `x` is an `M`, only its bare id goes on the left.
- **Printing.** `str()` prints an expression infix: `(a * b)`, `(a + b)`, `[(a) * (b)]`, `[(a) + (b)]`, `1`, `0`, and `not 5` or `5` for a variable.

Modules:

- `BooleanSolver` (boolean_solver.dfy) holds the datatypes `Op` and `Expr` and the class `M`, whose flag is a mutable field. It also holds printing (`Render`, which reads the flags of the variables an expression refers to), chaining (`Chain`, `ChainAll`), negation (`FlipConst`, `Negate`, `M.Not`) and the aliasing lemmas.
- `Reading` (reading.dfy) holds a reader for the printed text and the proof that reading a printout back gives the expression's printed shape. The printout is therefore unambiguous, except that the kind of a leaf is not visible: the text `1` can be the constant One, a bare id 1 or a variable with id 1.
- `Decimal` (decimal.dfy) models Python's `str()` of an integer id and its reader.
- `Outcomes` (outcomes.dfy) defines `Option` and `Result`.

## Model

| member | source | states |
|---|---|---|
| `BooleanSolver.M.constructor` | boolean_solver.py:101-103 | A new variable has the given id and its flag is not set. |
| `BooleanSolver.M.Not` | boolean_solver.py:105-107 | `not_` flips the flag of the same object in place and returns that object. The id is a constant and cannot change. |
| `BooleanSolver.VarText` | boolean_solver.py:112-113 | `M.__repr__` for a flag and an id: the text starts with "not " when the flag is set, and its first character is 'n' only then; otherwise it starts with a digit or '-'. After the optional "not " it is exactly `str(id)`, which `Decimal.ParseIntRoundTrip` reads back as the id. |
| `BooleanSolver.ReprMarksNegation` | boolean_solver.py:112-113 | A variable's text starts with "not " if and only if its flag is set. |
| `Decimal.IntToString` | boolean_solver.py:113 | `str(id)` is never empty. It starts with '-' exactly when the id is negative, and with a digit otherwise. It has no leading zero: the first digit is not '0' unless the id is 0, and 0 prints as exactly "0". With `Decimal.ParseIntRoundTrip` and `Decimal.IntToStringInjective`, this fixes the text as canonical decimal. |
| `Decimal.ParseIntRoundTrip` | boolean_solver.py:113 | `str()` of an integer id is read back as the same id, whatever non-digit text follows. |
| `Decimal.IntToStringInjective` | boolean_solver.py:113 | Distinct ids print as distinct texts. |
| `BooleanSolver.Chain` | boolean_solver.py:14-119 | `x.OP(y)`, through the `__getattr__` of each class, fails with AttributeError exactly when `x` is a bare id. Otherwise it is an `OP` node with `y` on the right. An operator node, `One` or `Zero` receiver is itself the left operand. An `M` receiver contributes only `RawId(m.id)`. The result refers to the variables of `y`, plus those of `x` unless `x` is an `M`. |
| `BooleanSolver.ChainAll` | boolean_solver.py:14-119 | A chain of calls `x.OP1(y1)...OPn(yn)` fails, with AttributeError, exactly when it has at least one call and starts at a bare id. Otherwise the outermost node is the last call's operator with its operand on the right. `BooleanSolver.ChainAllSpine` fixes the rest of the result. |
| `Reading.ChainShape` | boolean_solver.py:14-119 | The printed shape of `x.OP(y)` is an `OP` node with the shape of `x` on the left and the shape of `y` on the right. An `M` receiver prints as its bare id without "not ", whatever its flag. |
| `BooleanSolver.ChainAllSpine` | boolean_solver.py:14-119 | Chains nest to the left. The left edge of `x.OP1(y1)...OPn(yn)` lists the receiver's own left edge and then every `(OPi, yi)` in call order. Its leftmost operand is the receiver's own, or the bare id of an `M` receiver. |
| `BooleanSolver.FlipConst` | boolean_solver.py:81-98 | `One.not_()` gives `Zero` and `Zero.not_()` gives `One`. The result is a constant that prints differently from the original. |
| `BooleanSolver.FlipConstTwice` | boolean_solver.py:97-98 | Applying `not_` twice to a constant gives back the same constant, with the same text. |
| `BooleanSolver.Negate` | boolean_solver.py:81-107 | `x.not_()` for every kind of `x`. Constants swap. A variable flips its own flag and is returned. An operator node raises TypeError, because its chaining wrapper is called without an operand. A bare id raises AttributeError. |
| `BooleanSolver.RenderWith` | boolean_solver.py:8-57 | The `__repr__` of each operator class, given the variables' flags. The text is never empty. AND and OR start with '(' and NAND and NOR with '['. A leaf starts with 'n', '-' or a digit. `Reading.ParseRenderWith` reads every such text back as the expression's shape. |
| `BooleanSolver.Render` | boolean_solver.py:109-113 | `str(e)` with the flags as they are now. A variable prints as its `__repr__`. The number of 'n' characters in the text equals the number of references to variables whose flag is set, so every negation shows as one "not ". |
| `BooleanSolver.FlipChangesRendering` | boolean_solver.py:112-113 | Flipping the flag of a variable that an expression refers to changes the expression's printed text. |
| `BooleanSolver.NegationIsVisible` | boolean_solver.py:5-6 | Operator nodes hold references to their operands. After one variable's flag flips, every expression that refers to it prints differently, and every expression that does not prints as before. |
| `BooleanSolver.NegateSeenBy` | boolean_solver.py:105-107 | `m.not_()` returns `m` and flips its flag. An expression built earlier prints differently afterwards exactly when it refers to `m`. |
| `BooleanSolver.PrintedExample` | boolean_solver.py:122 | `M(1).AND(M(2)).OR(M(3)).NOR(M(4))` prints `[(((1 * 2) + 3)) + (4)]`. Negating `M(1)` afterwards changes nothing. Negating `M(4)` gives `[(((1 * 2) + 3)) + (not 4)]`, and negating it again restores the first text. |
| `Reading.LeafText` | boolean_solver.py:68-113 | `One` prints as `1`, `Zero` as `0`, a bare id as `str(id)` and a variable as its `__repr__`. Each prints as a number with or without "not ". |
| `Reading.ParseNegatedLeaf` | boolean_solver.py:109-113 | The text `not <id>` of a negated variable is read back as a negated leaf with that id, whatever non-digit text follows. |
| `Reading.ParsePlainLeaf` | boolean_solver.py:109-113 | The bare text `<id>` of a leaf without "not " is read back as a plain leaf with that id, whatever non-digit text follows. |
| `Reading.ParseRenderWith` | boolean_solver.py:8-57 | Reading back the text of any expression gives its shape, and the text that follows is left untouched. The shape is `(a * b)` for AND, `(a + b)` for OR, `[(a) * (b)]` for NAND and `[(a) + (b)]` for NOR. |
| `Reading.ParseRender` | boolean_solver.py:8-113 | `str(e)`, printed with the flags as they are now, reads back as exactly the shape of `e`, with nothing left over. |
| `Reading.TextIsShape` | boolean_solver.py:8-113 | Two expressions print the same text if and only if they have the same shape. |

## Left out

- actor_genotype.py is left out: it contains only stub `Input`, `Constant` and `NAND` classes with no behaviour, and it uses `typing` without importing it.
- actor_evolution_details.py, graph_results.py and volatility_graphs.py are left out: they load JSON files, average floats and plot with matplotlib.
- protest_actors.py is left out: it draws random numbers against float probabilities.
- protest_coev.py is left out: it calls `pa.Environment()` and `pa.CounterProtestor()`, which protest_actors.py does not define (it defines `CounterProtestors`).
- Python's `__getattr__` accepts any attribute name. Only the four operator names are modelled, as the closed type `Op`. Other names, such as `x.One(y)`, would raise at run time and are not modelled.
- Ids are modelled as integers, printed in decimal. Ids of other types are not modelled.
- IntToString: it is total. CPython's limit on int-to-string conversion (ValueError above 4300 digits, `sys.get_int_max_str_digits`) is not modelled.
- FlipConst: requires a `One` or `Zero` receiver. `not_` on the other kinds is modelled by `Negate`.
- The `__main__` block prints its expression to standard output. `PrintedExample` returns the printed strings instead of writing them.
- The unused `collections` import has no counterpart.
