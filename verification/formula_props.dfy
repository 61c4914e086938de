/** Properties of the formula parser: how numbers with units, operator
  * precedence, unary minus and the argument markers come out of a parse. */
module FormulaProperties {
  import opened Wrappers
  import opened Strs
  import opened Formulas

  /** No function name the factory knows starts with a digit. */
  lemma DigitNotFunction(name: string)
    requires |name| > 0 && IsDigit(name[0])
    ensures RuleFor(name).None? && Factory(name).None?
  {
    assert BinaryKindOf(name).None?;
  }

  /** `filterFloat` reads the decimal rendering of a natural number back. */
  lemma NumeralOfNat(x: nat)
    ensures FilterFloat(NatToString(x)) == Some(x)
  {
    var s := NatToString(x);
    assert forall i :: 0 <= i < |s| ==> s[i] != 'e' by {
      forall i | 0 <= i < |s| ensures s[i] != 'e' { assert IsDigit(s[i]); }
    }
    SplitNoSep(s, 'e');
    NatToStringRoundTrip(x);
    assert !(s[0] == '-' || s[0] == '+') by { assert IsDigit(s[0]); }
  }

  /** `filterFloat` reads the rendering of any integer back. */
  lemma NumeralOfInt(n: int)
    ensures FilterFloat(IntToString(n)) == Some(n)
  {
    if n >= 0 {
      NumeralOfNat(n);
    } else {
      var d := NatToString(-n);
      var s := IntToString(n);
      assert s == "-" + d;
      assert forall i :: 0 <= i < |s| ==> s[i] != 'e';
      SplitNoSep(s, 'e');
      NatToStringRoundTrip(-n);
      assert s[1..] == d;
    }
  }

  /** What the token loop needs to know about the rendering of a natural
    * number: it is no function, no reference, already lower case, has no
    * trailing exponent mark, and reads back as the number. */
  lemma NumeralToken(x: nat)
    ensures var t := NatToString(x);
            && |t| > 0 && IsDigit(t[0]) && t[|t| - 1] != 'e'
            && Lower(t) == t && Factory(t).None? && !IsReference(t)
            && FilterFloat(t) == Some(x)
  {
    var t := NatToString(x);
    assert IsDigit(t[0]) && IsDigit(t[|t| - 1]);
    DigitNotFunction(t);
    assert Lower(t) == t;
    NumeralOfNat(x);
  }

  /** Text of the `number unit` shape splits into the number and the unit. */
  lemma NumberAndUnitOf(n: int, unit: string)
    requires unit != []
    requires forall i :: 0 <= i < |unit| ==> !IsSpace(unit[i])
    ensures NumberAndUnit(IntToString(n) + " " + unit) == Some((n, unit))
  {
    var num := IntToString(n);
    assert forall i :: 0 <= i < |num| ==> !IsSpace(num[i]) by {
      forall i | 0 <= i < |num| ensures !IsSpace(num[i]) { assert IsDigit(num[i]) || num[i] == '-'; }
    }
    SplitSpaceNone(unit);
    SplitSpacePrefix(num, unit);
    NumeralOfInt(n);
  }

  /** Text that is exactly a number, one space and a unit the unit system
    * resolves parses to that number carrying that unit, whatever the
    * tokeniser would have produced. */
  lemma NumberWithUnit(n: int, unit: string, units: set<string>, tokens: seq<string>)
    requires unit in units && unit != "" && unit[0] != '"'
    requires forall i :: 0 <= i < |unit| ==> !IsSpace(unit[i])
    ensures ParsedText(IntToString(n) + " " + unit, tokens, units) == Parse(Some(ScalarWithUnit(n, unit)), [])
  {
    var num := IntToString(n);
    var text := num + " " + unit;
    assert text[0] == num[0] && text[|text| - 1] == unit[|unit| - 1];
    assert IsDigit(num[0]) || num[0] == '-';
    TrimKeepsInner(text);
    NumberAndUnitOf(n, unit);
    assert QuotedUnit(unit) == unit;
    assert QuickUnit(text, units) == Some(ScalarWithUnit(n, unit));
  }

  /** The `number unit` shortcut as written drops the last letter of a quoted
    * unit: with units m and mm, `3 "mm"` becomes 3 m; the corrected
    * stripping gives 3 mm. */
  lemma QuotedUnitCounterexample()
    ensures QuickUnitAsWritten("3 \"mm\"", {"m", "mm"}) == Some(ScalarWithUnit(3, "m"))
    ensures QuickUnit("3 \"mm\"", {"m", "mm"}) == Some(ScalarWithUnit(3, "mm"))
  {
    var quoted := "\"mm\"";
    assert NatToString(3) == "3";
    assert IntToString(3) + " " + quoted == "3 \"mm\"";
    NumberAndUnitOf(3, quoted);
    assert QuotedUnitAsWritten(quoted) == "m";
    assert QuotedUnit(quoted) == "mm";
  }

  /** One step of the token loop, seen from the loop. */
  lemma RunContinues(st: State, tokens: seq<string>, i: nat, units: set<string>, t: State, next: nat)
    requires i < |tokens| && Step(st, tokens, i, units) == Continue(t, next)
    ensures Run(st, tokens, i, units) == Run(t, tokens, next, units)
  {
  }

  /** A digit or an operator sign is no bracket, comma or quote. */
  lemma OperandLead(c: char)
    requires IsDigit(c) || c in "+-*/%^:"
    ensures c !in "()\"',[]{}"
  {
  }

  /** A token that is no bracket, comma or quote goes to the operand and
    * operator part of the loop. */
  lemma StepOfOperand(st: State, tokens: seq<string>, i: nat, units: set<string>)
    requires i < |tokens| && |tokens[i]| > 0 && tokens[i][0] !in "()\"',[]{}"
    ensures Step(st, tokens, i, units) == OperandStep(st, tokens, i, units)
  {
  }

  /** A lower-case number token with no unit after it, and no unary minus
    * pending, becomes a constant operand. */
  lemma NumberStepOf(st: State, tokens: seq<string>, i: nat, x: int, units: set<string>)
    requires i < |tokens| && |tokens[i]| > 0 && tokens[i][|tokens[i]| - 1] != 'e'
    requires Lower(tokens[i]) == tokens[i] && FilterFloat(tokens[i]) == Some(x)
    requires i + 1 == |tokens| || UnitToken(tokens[i + 1]) == ""
    requires st.operators == [] || Last(st.operators) != Minus
    ensures NumberStep(st, tokens, i, units)
         == Continue(st.(operands := st.operands + [Constant(Number(x))], unaryMinus := false), i + 1)
  {
  }

  /** A number token with no unit after it, met when no unary minus is
    * pending, is pushed as a constant operand (the operand part of the
    * loop). */
  lemma NumeralOperand(st: State, tokens: seq<string>, i: nat, x: nat, units: set<string>)
    requires i < |tokens| && tokens[i] == NatToString(x)
    requires i + 1 == |tokens| || UnitToken(tokens[i + 1]) == ""
    requires st.operators == [] || Last(st.operators) != Minus
    ensures OperandStep(st, tokens, i, units)
         == Continue(st.(operands := st.operands + [Constant(Number(x))], unaryMinus := false), i + 1)
  {
    NumeralToken(x);
    assert tokens[i][0] != '-';
    NumberStepOf(st, tokens, i, x, units);
  }

  /** A number token with no unit after it (an operator, a closing bracket,
    * or nothing) is pushed as a constant operand and makes a following `-`
    * dyadic. */
  lemma NumeralStep(st: State, tokens: seq<string>, i: nat, x: nat, units: set<string>)
    requires i < |tokens| && tokens[i] == NatToString(x)
    requires i + 1 == |tokens| || UnitToken(tokens[i + 1]) == ""
    requires st.operators == [] || Last(st.operators) != Minus
    ensures Step(st, tokens, i, units)
         == Continue(st.(operands := st.operands + [Constant(Number(x))], unaryMinus := false), i + 1)
  {
    NumeralToken(x);
    OperandLead(tokens[i][0]);
    StepOfOperand(st, tokens, i, units);
    NumeralOperand(st, tokens, i, x, units);
  }

  /** A number token after a pending unary minus is pushed negated, the
    * minus being consumed. */
  lemma NegatedNumeralStep(st: State, tokens: seq<string>, i: nat, x: nat, units: set<string>)
    requires i < |tokens| && tokens[i] == NatToString(x)
    requires i + 1 == |tokens| || UnitToken(tokens[i + 1]) == ""
    requires st.operators != [] && Last(st.operators) == Minus
    requires Pop(st.operators) == [] || Last(Pop(st.operators)) != Minus
    ensures Step(st, tokens, i, units)
         == Continue(State(Pop(st.operators), st.operands + [Constant(Number(-(x as int)))], st.parenCount, false), i + 1)
  {
    NumeralToken(x);
    OperandLead(tokens[i][0]);
    StepOfOperand(st, tokens, i, units);
    NegatedNumeralOperand(st, tokens, i, x, units);
  }

  /** The operand part of the loop for a number token after a pending unary
    * minus. */
  lemma NegatedNumeralOperand(st: State, tokens: seq<string>, i: nat, x: nat, units: set<string>)
    requires i < |tokens| && tokens[i] == NatToString(x)
    requires i + 1 == |tokens| || UnitToken(tokens[i + 1]) == ""
    requires st.operators != [] && Last(st.operators) == Minus
    requires Pop(st.operators) == [] || Last(Pop(st.operators)) != Minus
    ensures OperandStep(st, tokens, i, units)
         == Continue(State(Pop(st.operators), st.operands + [Constant(Number(-(x as int)))], st.parenCount, false), i + 1)
  {
    NumeralToken(x);
    assert tokens[i][0] != '-';
    NegatedNumberStepOf(st, tokens, i, x, units);
  }

  /** A lower-case number token with no unit after it, after a pending unary
    * minus, becomes a negated constant operand. */
  lemma NegatedNumberStepOf(st: State, tokens: seq<string>, i: nat, x: int, units: set<string>)
    requires i < |tokens| && |tokens[i]| > 0 && tokens[i][|tokens[i]| - 1] != 'e'
    requires Lower(tokens[i]) == tokens[i] && FilterFloat(tokens[i]) == Some(x)
    requires i + 1 == |tokens| || UnitToken(tokens[i + 1]) == ""
    requires st.operators != [] && Last(st.operators) == Minus
    requires Pop(st.operators) == [] || Last(Pop(st.operators)) != Minus
    ensures NumberStep(st, tokens, i, units)
         == Continue(State(Pop(st.operators), st.operands + [Constant(Number(-x))], st.parenCount, false), i + 1)
  {
  }

  /** An operator token is no reference and the factory makes its operator. */
  lemma OperatorToken(token: string, k: BinaryKind)
    requires BinaryKindOf(token) == Some(k)
    ensures |token| == 1 && token[0] in "+-*/%^:" && UnitToken(token) == ""
    ensures !IsReference(token) && Factory(token) == Some(Dyadic(k))
  {
  }

  /** A token the factory knows, met when no unary minus applies, reduces the
    * stack by its precedence and is pushed. */
  lemma FactoryOperand(st: State, tokens: seq<string>, i: nat, op: Operator, units: set<string>)
    requires i < |tokens| && !IsReference(tokens[i]) && !(st.unaryMinus && tokens[i] == "-")
    requires Factory(tokens[i]) == Some(op) && Reduced(st, Precedence(op)).Ok?
    ensures var t := Reduced(st, Precedence(op)).value;
            OperandStep(st, tokens, i, units) == Continue(t.(operators := t.operators + [op], unaryMinus := true), i + 1)
  {
  }

  /** An operator token after an operand first reduces the stacked operators
    * of equal or higher precedence, then is pushed. */
  lemma OperatorStep(st: State, tokens: seq<string>, i: nat, k: BinaryKind, units: set<string>)
    requires i < |tokens| && BinaryKindOf(tokens[i]) == Some(k) && !st.unaryMinus
    requires Reduced(st, KindPrecedence(k)).Ok?
    ensures var t := Reduced(st, KindPrecedence(k)).value;
            Step(st, tokens, i, units) == Continue(t.(operators := t.operators + [Dyadic(k)], unaryMinus := true), i + 1)
  {
    OperatorToken(tokens[i], k);
    OperandLead(tokens[i][0]);
    StepOfOperand(st, tokens, i, units);
    assert Precedence(Dyadic(k)) == KindPrecedence(k);
    FactoryOperand(st, tokens, i, Dyadic(k), units);
  }

  /** The reducing loop stops at a parenthesis. */
  lemma ReducedAtParen(st: State, p: int)
    requires st.operators != [] && Last(st.operators) == Paren
    ensures Reduced(st, p) == Ok(st)
  {
  }

  /** Closing a parenthesis on top of the stack only removes it. */
  lemma ClosedAtParen(st: State)
    requires st.operators != [] && Last(st.operators) == Paren
    ensures ClosedParenthesis(st) == Ok(st.(operators := Pop(st.operators), parenCount := st.parenCount - 1))
  {
  }

  /** Closing a parenthesis first reduces the operator above it. */
  lemma ClosedAfterTop(st: State, t: State)
    requires st.operators != [] && Last(st.operators) != Paren && ProcessTopOperator(st) == Ok(t)
    ensures ClosedParenthesis(st) == ClosedParenthesis(t)
  {
  }

  /** Closing the outer parenthesis over one pending operator applies it. */
  lemma ClosedOverOne(x: Operator, y: Operator, k: BinaryKind)
    ensures ClosedParenthesis(State([Paren, Dyadic(k)], [x, y], 1, false)) == Ok(State([], [Apply(k, x, y)], 0, false))
  {
    var st := State([Paren, Dyadic(k)], [x, y], 1, false);
    ApplyTop([Paren], [], x, y, k, 1, false);
    OneThenOne(Paren, Dyadic(k));
    NoneThen([x, y]);
    var t := State([Paren], [Apply(k, x, y)], 1, false);
    NoneThen([Apply(k, x, y)]);
    ClosedAfterTop(st, t);
    ClosedAtParen(t);
  }

  /** Closing the outer parenthesis over two pending operators applies the
    * upper one first. */
  lemma ClosedOverTwo(x: Operator, y: Operator, z: Operator, k1: BinaryKind, k2: BinaryKind)
    ensures ClosedParenthesis(State([Paren, Dyadic(k1), Dyadic(k2)], [x, y, z], 1, false))
         == Ok(State([], [Apply(k1, x, Apply(k2, y, z))], 0, false))
  {
    var st := State([Paren, Dyadic(k1), Dyadic(k2)], [x, y, z], 1, false);
    ApplyTop([Paren, Dyadic(k1)], [x], y, z, k2, 1, false);
    PairThenOne(Paren, Dyadic(k1), Dyadic(k2));
    OneThenPair(x, y, z);
    var t := State([Paren, Dyadic(k1)], [x, Apply(k2, y, z)], 1, false);
    OneThenOne(x, Apply(k2, y, z));
    ClosedAfterTop(st, t);
    ClosedOverOne(x, Apply(k2, y, z), k1);
  }

  /** Reducing a dyadic operator applies it to the top two operands, the
    * lower one first. */
  lemma ApplyTop(ops: seq<Operator>, operands: seq<Operator>, x: Operator, y: Operator, k: BinaryKind,
                 parenCount: int, unary: bool)
    ensures ProcessTopOperator(State(ops + [Dyadic(k)], operands + [x, y], parenCount, unary))
         == Ok(State(ops, operands + [Apply(k, x, y)], parenCount, unary))
  {
    var st := State(ops + [Dyadic(k)], operands + [x, y], parenCount, unary);
    var n := |st.operands|;
    assert st.operands[..n - 2] == operands && st.operands[n - 2] == x && st.operands[n - 1] == y;
    assert Pop(st.operators) == ops;
  }

  /** Before an operator is pushed, a stacked dyadic operator binding at
    * least as tightly is applied to the top two operands: `x o1 y o2`
    * groups as `(x o1 y) o2`. */
  lemma TighterOperatorApplied(ops: seq<Operator>, operands: seq<Operator>, x: Operator, y: Operator,
                               k1: BinaryKind, k2: BinaryKind, parenCount: int, unary: bool)
    requires ops != [] && StopsReduction(Last(ops), KindPrecedence(k2))
    requires KindPrecedence(k1) >= KindPrecedence(k2)
    ensures Reduced(State(ops + [Dyadic(k1)], operands + [x, y], parenCount, unary), KindPrecedence(k2))
         == Ok(State(ops, operands + [Apply(k1, x, y)], parenCount, unary))
  {
    ApplyTop(ops, operands, x, y, k1, parenCount, unary);
  }

  /** A stacked operator binding less tightly than the incoming one stays on
    * the stack: `x o1 y o2` with a tighter `o2` groups as `x o1 (y o2 ...)`. */
  lemma LooserOperatorWaits(ops: seq<Operator>, operands: seq<Operator>, k1: BinaryKind, k2: BinaryKind,
                            parenCount: int, unary: bool)
    requires KindPrecedence(k1) < KindPrecedence(k2)
    ensures var st := State(ops + [Dyadic(k1)], operands, parenCount, unary);
            Reduced(st, KindPrecedence(k2)) == Ok(st)
  {
    var st := State(ops + [Dyadic(k1)], operands, parenCount, unary);
    assert Last(st.operators) == Dyadic(k1);
  }

  /** An operator and a number after it, from the loop's point of view. */
  lemma OperatorThenNumber(st: State, tokens: seq<string>, i: nat, k: BinaryKind, y: nat, units: set<string>)
    requires i + 1 < |tokens| && BinaryKindOf(tokens[i]) == Some(k) && tokens[i + 1] == NatToString(y)
    requires i + 2 == |tokens| || BinaryKindOf(tokens[i + 2]).Some?
    requires !st.unaryMinus && Reduced(st, KindPrecedence(k)).Ok?
    ensures var t := Reduced(st, KindPrecedence(k)).value;
            (Run(st, tokens, i, units)
             == Run(State(t.operators + [Dyadic(k)], t.operands + [Constant(Number(y))], t.parenCount, false), tokens, i + 2, units))
  {
    var t := Reduced(st, KindPrecedence(k)).value;
    var mid := t.(operators := t.operators + [Dyadic(k)], unaryMinus := true);
    OperatorStep(st, tokens, i, k, units);
    RunContinues(st, tokens, i, units, mid, i + 1);
    if i + 2 < |tokens| {
      OperatorToken(tokens[i + 2], BinaryKindOf(tokens[i + 2]).value);
    }
    NumeralStep(mid, tokens, i + 1, y, units);
    RunContinues(mid, tokens, i + 1, units, mid.(operands := mid.operands + [Constant(Number(y))], unaryMinus := false), i + 2);
  }

  /** The first number of a formula, and the operator after it. */
  lemma FirstNumber(tokens: seq<string>, x: nat, units: set<string>)
    requires 1 < |tokens| && tokens[0] == NatToString(x) && BinaryKindOf(tokens[1]).Some?
    ensures ParsedTokens(tokens, units) == Run(State([Paren], [Constant(Number(x))], 1, false), tokens, 1, units)
  {
    assert Last(Start.operators) == Paren;
    OperatorToken(tokens[1], BinaryKindOf(tokens[1]).value);
    NumeralStep(Start, tokens, 0, x, units);
    RunContinues(Start, tokens, 0, units, State([Paren], [Constant(Number(x))], 1, false), 1);
  }

  /** After the last token, the outer parenthesis closes over the one
    * operand left once the stacked operators are applied. */
  lemma LastOperand(ops: seq<Operator>, operands: seq<Operator>, tokens: seq<string>, root: Operator, units: set<string>)
    requires ClosedParenthesis(State(ops, operands, 1, false)) == Ok(State([], [root], 0, false))
    ensures Run(State(ops, operands, 1, false), tokens, |tokens|, units) == Parse(Some(root), [])
  {
  }

  /** `... x o1 y o2 z` from the second operator on, when `o1` binds at
    * least as tightly as `o2`. */
  lemma LeftGroupedTail(tokens: seq<string>, x: Operator, y: Operator, k1: BinaryKind, k2: BinaryKind, z: nat,
                        units: set<string>)
    requires |tokens| == 5 && BinaryKindOf(tokens[3]) == Some(k2) && tokens[4] == NatToString(z)
    requires KindPrecedence(k1) >= KindPrecedence(k2)
    ensures Run(State([Paren, Dyadic(k1)], [x, y], 1, false), tokens, 3, units)
         == Parse(Some(Apply(k2, Apply(k1, x, y), Constant(Number(z)))), [])
  {
    var a := Apply(k1, x, y);
    TighterOperatorApplied([Paren], [], x, y, k1, k2, 1, false);
    OneThenOne(Paren, Dyadic(k1));
    NoneThen([x, y]);
    NoneThen([a]);
    OperatorThenNumber(State([Paren, Dyadic(k1)], [x, y], 1, false), tokens, 3, k2, z, units);
    var s5 := State([Paren, Dyadic(k2)], [a, Constant(Number(z))], 1, false);
    OneThenOne(Paren, Dyadic(k2));
    OneThenOne(a, Constant(Number(z)));
    ClosedOverOne(a, Constant(Number(z)), k2);
    LastOperand(s5.operators, s5.operands, tokens, Apply(k2, a, Constant(Number(z))), units);
  }

  /** `x o1 y o2 z` from the first operator on, when `o1` binds at least as
    * tightly as `o2`. */
  lemma LeftGrouped(tokens: seq<string>, x: Operator, k1: BinaryKind, k2: BinaryKind, y: nat, z: nat,
                    units: set<string>)
    requires |tokens| == 5 && BinaryKindOf(tokens[1]) == Some(k1) && tokens[2] == NatToString(y)
    requires BinaryKindOf(tokens[3]) == Some(k2) && tokens[4] == NatToString(z)
    requires KindPrecedence(k1) >= KindPrecedence(k2)
    ensures Run(State([Paren], [x], 1, false), tokens, 1, units)
         == Parse(Some(Apply(k2, Apply(k1, x, Constant(Number(y))), Constant(Number(z)))), [])
  {
    var s1 := State([Paren], [x], 1, false);
    ReducedAtParen(s1, KindPrecedence(k1));
    OperatorThenNumber(s1, tokens, 1, k1, y, units);
    OneThenOne(Paren, Dyadic(k1));
    OneThenOne(x, Constant(Number(y)));
    LeftGroupedTail(tokens, x, Constant(Number(y)), k1, k2, z, units);
  }

  /** With a first operator binding at least as tightly as the second,
    * `x o1 y o2 z` groups to the left: `(x o1 y) o2 z`. */
  lemma LeftAssociative(x: nat, y: nat, z: nat, o1: string, o2: string, units: set<string>)
    requires BinaryKindOf(o1).Some? && BinaryKindOf(o2).Some?
    requires KindPrecedence(BinaryKindOf(o1).value) >= KindPrecedence(BinaryKindOf(o2).value)
    ensures var k1, k2 := BinaryKindOf(o1).value, BinaryKindOf(o2).value;
            (ParsedTokens([NatToString(x), o1, NatToString(y), o2, NatToString(z)], units)
         == Parse(Some(Apply(k2, Apply(k1, Constant(Number(x)), Constant(Number(y))), Constant(Number(z)))), []))
  {
    var tokens := [NatToString(x), o1, NatToString(y), o2, NatToString(z)];
    FirstNumber(tokens, x, units);
    LeftGrouped(tokens, Constant(Number(x)), BinaryKindOf(o1).value, BinaryKindOf(o2).value, y, z, units);
  }

  lemma NoneThen<T>(s: seq<T>)
    ensures [] + s == s
  {
  }

  lemma OneThenOne<T>(a: T, b: T)
    ensures [a] + [b] == [a, b]
  {
  }

  lemma OneThenPair<T>(a: T, b: T, c: T)
    ensures [a] + [b, c] == [a, b, c]
  {
  }

  lemma PairThenOne<T>(a: T, b: T, c: T)
    ensures [a, b] + [c] == [a, b, c]
  {
  }

  /** `... x o1 y o2 z` from the second operator on, when `o2` binds more
    * tightly than `o1`. */
  lemma RightGroupedTail(tokens: seq<string>, x: Operator, y: Operator, k1: BinaryKind, k2: BinaryKind, z: nat,
                         units: set<string>)
    requires |tokens| == 5 && BinaryKindOf(tokens[3]) == Some(k2) && tokens[4] == NatToString(z)
    requires KindPrecedence(k1) < KindPrecedence(k2)
    ensures Run(State([Paren, Dyadic(k1)], [x, y], 1, false), tokens, 3, units)
         == Parse(Some(Apply(k1, x, Apply(k2, y, Constant(Number(z))))), [])
  {
    var st := State([Paren, Dyadic(k1)], [x, y], 1, false);
    assert Reduced(st, KindPrecedence(k2)) == Ok(st) by {
      OneThenOne(Paren, Dyadic(k1));
      LooserOperatorWaits([Paren], [x, y], k1, k2, 1, false);
    }
    var Z := Constant(Number(z));
    var s5 := State([Paren, Dyadic(k1), Dyadic(k2)], [x, y, Z], 1, false);
    assert Run(st, tokens, 3, units) == Run(s5, tokens, 5, units) by {
      OperatorThenNumber(st, tokens, 3, k2, z, units);
      PairThenOne(Paren, Dyadic(k1), Dyadic(k2));
      PairThenOne(x, y, Z);
    }
    ClosedOverTwo(x, y, Z, k1, k2);
    LastOperand(s5.operators, s5.operands, tokens, Apply(k1, x, Apply(k2, y, Z)), units);
  }

  /** `x o1 y o2 z` from the first operator on, when `o2` binds more tightly
    * than `o1`. */
  lemma RightGrouped(tokens: seq<string>, x: Operator, k1: BinaryKind, k2: BinaryKind, y: nat, z: nat,
                     units: set<string>)
    requires |tokens| == 5 && BinaryKindOf(tokens[1]) == Some(k1) && tokens[2] == NatToString(y)
    requires BinaryKindOf(tokens[3]) == Some(k2) && tokens[4] == NatToString(z)
    requires KindPrecedence(k1) < KindPrecedence(k2)
    ensures Run(State([Paren], [x], 1, false), tokens, 1, units)
         == Parse(Some(Apply(k1, x, Apply(k2, Constant(Number(y)), Constant(Number(z))))), [])
  {
    var s1 := State([Paren], [x], 1, false);
    ReducedAtParen(s1, KindPrecedence(k1));
    OperatorThenNumber(s1, tokens, 1, k1, y, units);
    OneThenOne(Paren, Dyadic(k1));
    OneThenOne(x, Constant(Number(y)));
    RightGroupedTail(tokens, x, Constant(Number(y)), k1, k2, z, units);
  }

  /** With a second operator binding more tightly, `x o1 y o2 z` groups to
    * the right: `x o1 (y o2 z)`. */
  lemma TighterOperatorFirst(x: nat, y: nat, z: nat, o1: string, o2: string, units: set<string>)
    requires BinaryKindOf(o1).Some? && BinaryKindOf(o2).Some?
    requires KindPrecedence(BinaryKindOf(o1).value) < KindPrecedence(BinaryKindOf(o2).value)
    ensures var k1, k2 := BinaryKindOf(o1).value, BinaryKindOf(o2).value;
            (ParsedTokens([NatToString(x), o1, NatToString(y), o2, NatToString(z)], units)
         == Parse(Some(Apply(k1, Constant(Number(x)), Apply(k2, Constant(Number(y)), Constant(Number(z))))), []))
  {
    var tokens := [NatToString(x), o1, NatToString(y), o2, NatToString(z)];
    FirstNumber(tokens, x, units);
    RightGrouped(tokens, Constant(Number(x)), BinaryKindOf(o1).value, BinaryKindOf(o2).value, y, z, units);
  }

  /** A leading `-` is unary, and a number after it folds into a negative
    * constant. */
  lemma UnaryMinusFolds(x: nat, units: set<string>)
    ensures ParsedTokens(["-", NatToString(x)], units) == Parse(Some(Constant(Number(-(x as int)))), [])
  {
    var tokens := ["-", NatToString(x)];
    var s1 := State([Paren, Minus], [], 1, true);
    StepOfOperand(Start, tokens, 0, units);
    RunContinues(Start, tokens, 0, units, s1, 1);
    NegativeNumber(x, units);
  }

  /** A number after a pending unary minus is read as its negation. */
  lemma NegativeNumber(x: nat, units: set<string>)
    ensures var tokens := ["-", NatToString(x)];
            Run(State([Paren, Minus], [], 1, true), tokens, 1, units) == Parse(Some(Constant(Number(-(x as int)))), [])
  {
    var tokens := ["-", NatToString(x)];
    var s1 := State([Paren, Minus], [], 1, true);
    var s2 := State([Paren], [Constant(Number(-(x as int)))], 1, false);
    assert Pop(s1.operators) == [Paren];
    NegatedNumeralStep(s1, tokens, 1, x, units);
    RunContinues(s1, tokens, 1, units, s2, 2);
    LastOperand(s2.operators, s2.operands, tokens, Constant(Number(-(x as int))), units);
  }

  /** An opening brace before a name the factory does not know stops the
    * parse with the unknown-function error. */
  lemma UnknownFunctionFails(name: string, rest: seq<string>, units: set<string>)
    requires Factory(name).None?
    ensures ParsedTokens(["{", name] + rest, units) == Parse(None, [UnknownFunction])
  {
    var tokens := ["{", name] + rest;
    assert tokens[0] == "{" && tokens[1] == name;
    assert Step(Start, tokens, 0, units) == Fail(UnknownFunction);
  }

  /** Collecting arguments undoes pushing them: above a marker, the operands
    * come back last first, and the stack below the marker is left. */
  lemma {:induction false} CollectedPushed(rest: seq<Operator>, args: seq<Operator>)
    requires OperandMarker !in args
    ensures Collected(rest + [OperandMarker] + Reversed(args)) == Some((args, rest))
  {
    var s := rest + [OperandMarker] + Reversed(args);
    if args == [] {
      assert s == rest + [OperandMarker];
      assert Pop(s) == rest;
    } else {
      CollectedPushed(rest, args[1..]);
      assert Reversed(args) == Reversed(args[1..]) + [args[0]];
      assert Pop(s) == rest + [OperandMarker] + Reversed(args[1..]);
      assert Last(s) == args[0];
      assert [args[0]] + args[1..] == args;
    }
  }

  /** A multiple-argument function accepts the operands above its marker
    * exactly when there are at least `min` of them. */
  lemma MultipleArguments(min: nat, rest: seq<Operator>, args: seq<Operator>)
    requires OperandMarker !in args
    ensures Arguments(Multiple(min), rest + [OperandMarker] + Reversed(args))
         == (if |args| < min then None else Some((args, rest)))
  {
    var operands := rest + [OperandMarker] + Reversed(args);
    CollectedPushed(rest, args);
    MultipleCollects(min, operands);
  }

  /** A multiple-argument rule takes what `Collected` finds, given enough. */
  lemma MultipleCollects(min: nat, operands: seq<Operator>)
    requires Collected(operands).Some?
    ensures var (args, rest) := Collected(operands).value;
            Arguments(Multiple(min), operands) == (if |args| < min then None else Some((args, rest)))
  {
  }

  /** `{eigvect}` with no argument: the comma operator as written lets it
    * through, the intended minimum of one argument rejects it. */
  lemma EigenVectorCounterexample()
    ensures EigenVectorArgumentsAsWritten([OperandMarker]) == Some(([], []))
    ensures RuleFor("eigvect") == Some(Multiple(1))
    ensures Arguments(Multiple(1), [OperandMarker]) == None
  {
    CollectedPushed([], []);
    assert [] + [OperandMarker] + Reversed<Operator>([]) == [OperandMarker];
  }

  /** `1)` leaves an empty operator stack and the one operand. */
  lemma EmptyStackPrefix(tokens: seq<string>, units: set<string>)
    requires |tokens| == 4 && tokens[0] == NatToString(1) && tokens[1] == ")"
    ensures ParsedTokens(tokens, units) == Run(State([], [Constant(Number(1))], 0, false), tokens, 2, units)
  {
    var X := Constant(Number(1));
    var s1 := State([Paren], [X], 1, false);
    assert Last(Start.operators) == Paren;
    assert UnitToken(tokens[1]) == "";
    NumeralStep(Start, tokens, 0, 1, units);
    RunContinues(Start, tokens, 0, units, s1, 1);
    ClosedAtParen(s1);
    assert Pop(s1.operators) == [];
    assert Step(s1, tokens, 1, units) == Continue(State([], [X], 0, false), 2);
    RunContinues(s1, tokens, 1, units, State([], [X], 0, false), 2);
  }

  /** With the loop stopping at an empty stack, `+2` is read and the final
    * closing finds no parenthesis. */
  lemma EmptyStackSuffix(tokens: seq<string>, units: set<string>)
    requires |tokens| == 4 && tokens[2] == "+" && tokens[3] == NatToString(2)
    ensures Run(State([], [Constant(Number(1))], 0, false), tokens, 2, units) == Parse(None, [ParenMismatch, SyntaxError])
  {
    var X, Y := Constant(Number(1)), Constant(Number(2));
    var s2 := State([], [X], 0, false);
    assert Reduced(s2, KindPrecedence(Add)) == Ok(s2);
    OperatorThenNumber(s2, tokens, 2, Add, 2, units);
    var s4 := State([Dyadic(Add)], [X, Y], 0, false);
    NoneThen([Dyadic(Add)]);
    OneThenOne(X, Y);
    ApplyTop([], [], X, Y, Add, 0, false);
    NoneThen([X, Y]);
    var s5 := State([], [Apply(Add, X, Y)], 0, false);
    NoneThen([Apply(Add, X, Y)]);
    ClosedAfterTop(s4, s5);
    assert ClosedParenthesis(s4) == Err(ParenMismatch);
  }

  /** In `1)+2` the closing parenthesis empties the operator stack; the
    * reducing loop as written then throws a TypeError, where an empty stack
    * ending the loop lets the parse report the parenthesis mismatch. */
  lemma EmptyOperatorStackCounterexample(units: set<string>)
    ensures var tokens := [NatToString(1), ")", "+", NatToString(2)];
            var s2 := State([], [Constant(Number(1))], 0, false);
            && ParsedTokens(tokens, units) == Run(s2, tokens, 2, units)
            && ReducedAsWritten(s2, KindPrecedence(Add)) == Err(TypeErrorThrown)
            && Reduced(s2, KindPrecedence(Add)) == Ok(s2)
            && ParsedTokens(tokens, units) == Parse(None, [ParenMismatch, SyntaxError])
  {
    var tokens := [NatToString(1), ")", "+", NatToString(2)];
    EmptyStackPrefix(tokens, units);
    EmptyStackSuffix(tokens, units);
  }
}
