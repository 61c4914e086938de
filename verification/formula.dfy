/** MMFormula: the operator-precedence parser that turns the token list of a
  * formula into a tree of operators. Two stacks drive the parse: pending
  * operators (with parenthesis markers) and operands (with operand markers
  * that delimit the arguments of a function or an index). Element values are
  * integers, as everywhere in this model. */
module Formulas {
  import opened Wrappers
  import opened Strs
  import opened Matrices
  import opened UnitDims
  import opened NumberValues

  const SyntaxError := "mmcmd:formulaSyntaxError"
  const ParenMismatch := "mmcmd:formulaParenMismatch"
  const ArgCountError := "mmcmd:formulaArgCountError"
  const IndexMismatch := "mmcmd:formulaIndexMismatch"
  const BraceMismatch := "mmcmd:formulaBraceMismatch"
  const UnknownFunction := "mmcmd:formulaUnknownFunction"
  const InvalidNumber := "mmcmd:formulaInvalidNumber"
  const BadUnit := "mmcmd:formulaBadUnit"
  const RangeUnits := "mmcmd:formulaRangeUnits"

  /** The dyadic operator classes. */
  datatype BinaryKind = Add | Subtract | Multiply | Divide | Mod | Power | Range

  /** How a function operator collects its arguments (its `processArguments`). */
  datatype ArgumentRule =
    | SingleValue        // MMSingleValueFunction: one argument, then the marker
    | NoArgument         // pi, col, row: the marker straight away
    | Conditional        // if: three arguments, then the marker
    | Multiple(min: nat) // MMMultipleArgumentFunction: back to the marker, at least `min`

  datatype Value = Number(n: int) | Text(s: string)

  /** The operator objects. `Minus` and `Dyadic` are pending operators on the
    * operator stack; `Negative` and `Apply` are the same operators once
    * connected to their inputs. Function arguments are kept in the order they
    * are popped, the last argument first. */
  datatype Operator =
    | Paren
    | OperandMarker
    | Constant(value: Value)
    | ScalarWithUnit(number: int, unit: string)
    | ToolReference(path: string)
    | Minus
    | Negative(input: Operator)
    | Dyadic(kind: BinaryKind)
    | Apply(kind: BinaryKind, first: Operator, second: Operator)
    | Function(name: string, rule: ArgumentRule, arguments: seq<Operator>)
    | Index(source: Option<Operator>, row: Option<Operator>, column: Option<Operator>)

  const PendingIndex := Index(None, None, None)

  function KindPrecedence(k: BinaryKind): int
  {
    match k
    case Add => 20
    case Subtract => 20
    case Multiply => 30
    case Divide => 30
    case Mod => 30
    case Power => 40
    case Range => 50
  }

  /** `precedence()` of each operator class. */
  function Precedence(op: Operator): (r: int)
    ensures op.Dyadic? ==> 20 <= r <= 50
    ensures op.Minus? ==> r == 150
    ensures op.Function? ==> r == 100
  {
    match op
    case Paren => 0
    case OperandMarker => 0
    case Index(_, _, _) => 0
    case Constant(_) => 10
    case ScalarWithUnit(_, _) => 10
    case ToolReference(_) => 10
    case Minus => 150
    case Negative(_) => 150
    case Dyadic(k) => KindPrecedence(k)
    case Apply(k, _, _) => KindPrecedence(k)
    case Function(_, _, _) => 100
  }

  /** The argument rule of each function name the factory knows. */
  function RuleFor(name: string): Option<ArgumentRule>
  {
    match name
    case "exp" | "ln" | "log" | "sin" | "cos" | "tan" | "asin" | "acos" | "atan"
       | "sinh" | "cosh" | "tanh" | "asinh" | "acosh" | "atanh"
       | "cabs" | "cexp" | "cln" | "csin" | "ccos" | "ctan" | "casin" | "cacos" | "catan"
       | "csinh" | "ccosh" | "ctanh" | "casinh" | "cacosh" | "catanh"
       | "minrows" | "mincols" | "maxrows" | "maxcols" | "sum" | "sumrows" | "sumcols" | "not"
       | "eigval" | "invert" | "ncols" | "nrows" | "tr" | "transpose" | "factorial" | "lngamma"
       | "abs" | "numeric" | "int" => Some(SingleValue)
    case "pi" | "col" | "row" => Some(NoArgument)
    case "if" => Some(Conditional)
    case "polar" | "cart" | "min" | "max" | "append" | "cc" | "concat" | "cell" | "eigvect"
       | "average" | "median" | "geomean" | "harmmean" | "var" | "table" => Some(Multiple(1))
    case "complex" | "cmult" | "cdiv" | "cpow" | "eq" | "ne" | "lt" | "le" | "gt" | "ge" | "and"
       | "array" | "cross" | "dot" | "redim" | "permut" | "combin" | "chidist" | "chitest" => Some(Multiple(2))
    case "normdist" | "norminv" | "binomdist" | "betadist" => Some(Multiple(3))
    case "rand" => Some(Multiple(0))
    case _ => None
  }

  function BinaryKindOf(token: string): Option<BinaryKind>
  {
    if token == "+" then Some(Add)
    else if token == "-" then Some(Subtract)
    else if token == "*" then Some(Multiply)
    else if token == "/" then Some(Divide)
    else if token == "%" then Some(Mod)
    else if token == "^" then Some(Power)
    else if token == ":" then Some(Range)
    else None
  }

  /** MMFormulaFactory: a fresh operator or function for a token, if any. */
  function Factory(token: string): (r: Option<Operator>)
    ensures r.Some? ==> r.value.Dyadic? || r.value.Function?
    ensures r.Some? && r.value.Function? ==> r.value.name == token && r.value.arguments == []
    ensures BinaryKindOf(token).Some? ==> r == Some(Dyadic(BinaryKindOf(token).value))
  {
    match BinaryKindOf(token)
    case Some(k) => Some(Dyadic(k))
    case None =>
      match RuleFor(token)
      case Some(rule) => Some(Function(token, rule, []))
      case None => None
  }

  function Last<T>(s: seq<T>): T
    requires |s| > 0
  {
    s[|s| - 1]
  }

  function Pop<T>(s: seq<T>): seq<T>
    requires |s| > 0
  {
    s[..|s| - 1]
  }

  function Reversed<T>(s: seq<T>): (r: seq<T>)
    ensures |r| == |s|
    ensures forall k :: 0 <= k < |s| ==> r[k] == s[|s| - 1 - k]
  {
    if s == [] then [] else Reversed(s[1..]) + [s[0]]
  }

  /** The popping loop of MMMultipleArgumentFunction.processArguments: the
    * operands above the topmost operand marker, popped in order, and what is
    * left below the marker; `None` when the stack runs out first. */
  function Collected(operands: seq<Operator>): (r: Option<(seq<Operator>, seq<Operator>)>)
    decreases |operands|
    ensures r.None? <==> OperandMarker !in operands
    ensures r.Some? ==> operands == r.value.1 + [OperandMarker] + Reversed(r.value.0)
    ensures r.Some? ==> OperandMarker !in r.value.0
  {
    if operands == [] then None
    else if Last(operands) == OperandMarker then
      assert operands == Pop(operands) + [OperandMarker] + Reversed([]);
      Some(([], Pop(operands)))
    else
      match Collected(Pop(operands))
      case None => None
      case Some((args, rest)) =>
        assert Reversed([Last(operands)] + args) == Reversed(args) + [Last(operands)] by {
          assert ([Last(operands)] + args)[1..] == args;
        }
        assert operands == Pop(operands) + [Last(operands)];
        Some(([Last(operands)] + args, rest))
  }

  /** processArguments of each rule: the arguments (last first) and the
    * operand stack left behind, or `None` when the function reports an
    * argument-count error. */
  function Arguments(rule: ArgumentRule, operands: seq<Operator>): (r: Option<(seq<Operator>, seq<Operator>)>)
    ensures r.Some? ==> |r.value.1| < |operands|
  {
    var n := |operands|;
    match rule
    case SingleValue =>
      if n >= 2 && operands[n - 2] == OperandMarker then Some(([operands[n - 1]], operands[..n - 2]))
      else None
    case NoArgument =>
      if n >= 1 && operands[n - 1] == OperandMarker then Some(([], operands[..n - 1])) else None
    case Conditional =>
      if n >= 4 && operands[n - 4] == OperandMarker
      then Some(([operands[n - 1], operands[n - 2], operands[n - 3]], operands[..n - 4]))
      else None
    case Multiple(min) =>
      match Collected(operands)
      case None => None
      case Some((args, rest)) => if |args| < min then None else Some((args, rest))
  }

  /** MMIndexOperator.processArguments: `[row]` or `[row, column]` above the
    * marker, the indexed value below it. A missing value below the marker is
    * kept as `None` (JavaScript pops `undefined`). */
  function IndexArguments(operands: seq<Operator>): (r: Option<(Operator, seq<Operator>)>)
    ensures r.Some? ==> r.value.0.Index? && r.value.0.row.Some? && |r.value.1| < |operands|
  {
    var n := |operands|;
    if n < 3 then None
    else if operands[n - 2] == OperandMarker then
      Some((Index(Some(operands[n - 3]), Some(operands[n - 1]), None), operands[..n - 3]))
    else if operands[n - 3] != OperandMarker then None
    else if n >= 4 then
      Some((Index(Some(operands[n - 4]), Some(operands[n - 2]), Some(operands[n - 1])), operands[..n - 4]))
    else Some((Index(None, Some(operands[n - 2]), Some(operands[n - 1])), []))
  }

  /** The parser's working state: the two stacks (tops last), the count of
    * open parenthesis markers and whether a `-` would be unary. */
  datatype State = State(operators: seq<Operator>, operands: seq<Operator>, parenCount: int, unaryMinus: bool)

  /** The state before the first token: the implicit outer parenthesis. */
  const Start := State([Paren], [], 1, true)

  function AddParen(st: State): (r: State)
    ensures r.operators == st.operators + [Paren] && r.parenCount == st.parenCount + 1
  {
    st.(operators := st.operators + [Paren], parenCount := st.parenCount + 1)
  }

  /** processTopOperator: the top operator is connected to its inputs and
    * moved to the operand stack; the first input of a dyadic operator is the
    * operand below the second. */
  function ProcessTopOperator(st: State): (r: Result<State>)
    ensures r.Err? <==> (st.operators == []
                         || (Last(st.operators).Minus? && |st.operands| < 1)
                         || (Last(st.operators).Dyadic? && |st.operands| < 2))
    ensures r.Err? ==> r.error == SyntaxError
    ensures r.Ok? ==> r.value.operators == Pop(st.operators)
    ensures r.Ok? ==> r.value.parenCount == st.parenCount && r.value.unaryMinus == st.unaryMinus
    ensures r.Ok? && Last(st.operators).Dyadic? ==>
      var n := |st.operands|;
      r.value.operands == st.operands[..n - 2] + [Apply(Last(st.operators).kind, st.operands[n - 2], st.operands[n - 1])]
    ensures r.Ok? && Last(st.operators).Minus? ==>
      r.value.operands == Pop(st.operands) + [Negative(Last(st.operands))]
    ensures r.Ok? && !Last(st.operators).Minus? && !Last(st.operators).Dyadic? ==>
      r.value.operands == st.operands + [Last(st.operators)]
  {
    if st.operators == [] then Err(SyntaxError)
    else
      var op := Last(st.operators);
      var ops := Pop(st.operators);
      var n := |st.operands|;
      if op.Minus? then
        if n < 1 then Err(SyntaxError)
        else Ok(st.(operators := ops, operands := Pop(st.operands) + [Negative(Last(st.operands))]))
      else if op.Dyadic? then
        if n < 2 then Err(SyntaxError)
        else Ok(st.(operators := ops, operands := st.operands[..n - 2] + [Apply(op.kind, st.operands[n - 2], st.operands[n - 1])]))
      else Ok(st.(operators := ops, operands := st.operands + [op]))
  }

  /** The index of the topmost parenthesis marker, if any. */
  function TopParen(ops: seq<Operator>): (r: Option<nat>)
    ensures r.None? <==> Paren !in ops
    ensures r.Some? ==> r.value < |ops| && ops[r.value] == Paren && Paren !in ops[r.value + 1..]
  {
    if ops == [] then None
    else if Last(ops) == Paren then Some(|ops| - 1)
    else
      var r := TopParen(Pop(ops));
      assert r.Some? ==> ops[r.value + 1..] == Pop(ops)[r.value + 1..] + [Last(ops)];
      r
  }

  /** processParenthesis: operators are reduced down to the topmost
    * parenthesis marker, which is removed; nothing below it is touched. */
  function ClosedParenthesis(st: State): (r: Result<State>)
    decreases |st.operators|
    ensures r.Err? ==> r.error in {ParenMismatch, SyntaxError}
    ensures TopParen(st.operators).None? ==> r.Err?
    ensures r.Ok? ==> (TopParen(st.operators).Some?
                       && r.value.operators == st.operators[..TopParen(st.operators).value])
    ensures r.Ok? ==> r.value.parenCount == st.parenCount - 1 && r.value.unaryMinus == st.unaryMinus
  {
    if st.operators == [] then Err(ParenMismatch)
    else if Last(st.operators) == Paren then
      Ok(st.(operators := Pop(st.operators), parenCount := st.parenCount - 1))
    else
      match ProcessTopOperator(st)
      case Err(e) => Err(e)
      case Ok(t) =>
        var r := ClosedParenthesis(t);
        assert TopParen(st.operators) == TopParen(t.operators);
        r
  }

  /** processFunction: operators are reduced down to the topmost function,
    * which collects its arguments and becomes an operand. */
  function ClosedFunction(st: State): (r: Result<State>)
    decreases |st.operators|
    ensures r.Err? ==> r.error in {BraceMismatch, ArgCountError, SyntaxError}
    ensures r.Ok? ==> r.value.parenCount == st.parenCount && r.value.unaryMinus == st.unaryMinus
    ensures r.Ok? ==> |r.value.operators| < |st.operators|
    ensures r.Ok? ==> |r.value.operands| > 0 && Last(r.value.operands).Function?
  {
    if st.operators == [] then Err(BraceMismatch)
    else
      var op := Last(st.operators);
      if op.Function? then
        match Arguments(op.rule, st.operands)
        case None => Err(ArgCountError)
        case Some((args, rest)) =>
          Ok(st.(operators := Pop(st.operators), operands := rest + [op.(arguments := args)]))
      else
        match ProcessTopOperator(st)
        case Err(e) => Err(e)
        case Ok(t) => ClosedFunction(t)
  }

  /** processIndex: operators are reduced down to the topmost index operator,
    * which collects its source, row and column and becomes an operand. */
  function ClosedIndex(st: State): (r: Result<State>)
    decreases |st.operators|
    ensures r.Err? ==> r.error in {IndexMismatch, ArgCountError, SyntaxError}
    ensures r.Ok? ==> r.value.parenCount == st.parenCount && r.value.unaryMinus == st.unaryMinus
    ensures r.Ok? ==> |r.value.operators| < |st.operators|
    ensures r.Ok? ==> |r.value.operands| > 0 && Last(r.value.operands).Index?
  {
    if st.operators == [] then Err(IndexMismatch)
    else
      var op := Last(st.operators);
      if op.Index? then
        match IndexArguments(st.operands)
        case None => Err(ArgCountError)
        case Some((ix, rest)) => Ok(st.(operators := Pop(st.operators), operands := rest + [ix]))
      else
        match ProcessTopOperator(st)
        case Err(e) => Err(e)
        case Ok(t) => ClosedIndex(t)
  }

  /** Whether the operator-pushing loop stops at `op` for an incoming
    * operator of precedence `p`. */
  predicate StopsReduction(op: Operator, p: int)
  {
    op == Paren || op.Function? || Precedence(op) < p
  }

  /** The loop run before an operator of precedence `p` is pushed: stacked
    * operators of precedence `p` or more are reduced, never crossing a
    * parenthesis or a function. An empty operator stack ends the loop. */
  function Reduced(st: State, p: int): (r: Result<State>)
    decreases |st.operators|
    ensures r.Err? ==> r.error == SyntaxError
    ensures r.Ok? ==> |r.value.operators| <= |st.operators| && r.value.operators == st.operators[..|r.value.operators|]
    ensures r.Ok? ==> r.value.operators == [] || StopsReduction(Last(r.value.operators), p)
    ensures r.Ok? ==> forall k :: |r.value.operators| <= k < |st.operators| ==> !StopsReduction(st.operators[k], p)
    ensures r.Ok? ==> r.value.parenCount == st.parenCount && r.value.unaryMinus == st.unaryMinus
  {
    if st.operators == [] || StopsReduction(Last(st.operators), p) then Ok(st)
    else
      match ProcessTopOperator(st)
      case Err(e) => Err(e)
      case Ok(t) =>
        assert t.operators == Pop(st.operators);
        Reduced(t, p)
  }

  const TypeErrorThrown := "TypeError"

  /** The reducing loop as written: its guard reads the top of the operator
    * stack without checking that there is one, so an empty stack makes
    * `undefined.precedence()` throw. */
  function ReducedAsWritten(st: State, p: int): (r: Result<State>)
    decreases |st.operators|
    ensures st.operators == [] ==> r == Err(TypeErrorThrown)
    ensures r.Ok? ==> r == Reduced(st, p)
  {
    if st.operators == [] then Err(TypeErrorThrown)
    else if StopsReduction(Last(st.operators), p) then Ok(st)
    else
      match ProcessTopOperator(st)
      case Err(e) => Err(e)
      case Ok(t) => ReducedAsWritten(t, p)
  }

  /** processArguments of `eigvect` as written: the comma operator discards
    * the result of the multiple-argument collection, so it always succeeds;
    * when no marker is found the whole stack has been popped. */
  function EigenVectorArgumentsAsWritten(operands: seq<Operator>): (r: Option<(seq<Operator>, seq<Operator>)>)
    ensures r.Some?
    ensures Collected(operands).Some? ==> r == Collected(operands)
  {
    match Collected(operands)
    case Some(c) => Some(c)
    case None => Some(([], []))
  }

  /** The strict integer part of `filterFloat`: an optional sign and decimal digits. */
  function Numeral(s: string): (r: Option<int>)
  {
    var signed := |s| > 0 && (s[0] == '-' || s[0] == '+');
    var d := if signed then s[1..] else s;
    if d != [] && forall i :: 0 <= i < |d| ==> IsDigit(d[i]) then
      var v := DigitsValue(d) as int;
      Some(if signed && s[0] == '-' then -v else v)
    else None
  }

  function Pow10(e: nat): (r: nat)
    ensures r >= 1
  {
    if e == 0 then 1 else 10 * Pow10(e - 1)
  }

  /** `filterFloat` on integers: a numeral, optionally followed by `e` and a
    * non-negative exponent; `None` stands for NaN. */
  function FilterFloat(s: string): (r: Option<int>)
  {
    var parts := Split(s, 'e');
    if |parts| == 1 then Numeral(parts[0])
    else if |parts| == 2 then
      var m := Numeral(parts[0]);
      var d := if |parts[1]| > 0 && parts[1][0] == '+' then parts[1][1..] else parts[1];
      if m.Some? && d != [] && forall i :: 0 <= i < |d| ==> IsDigit(d[i])
      then Some(m.value * Pow10(DigitsValue(d)))
      else None
    else None
  }

  /** The unit text that may follow a number: a quoted name loses its quotes,
    * a token not starting with a letter is no unit (""). */
  function UnitToken(t: string): (r: string)
  {
    if |t| > 1 && t[0] == '"' then t[1..|t| - 1]
    else if |t| > 0 && !IsLetter(t[0]) then ""
    else t
  }

  /** A token naming a tool or a value (`/^[$[a-zA-Z]/`). */
  predicate IsReference(t: string)
  {
    |t| > 0 && (t[0] == '$' || t[0] == '[' || IsLetter(t[0]))
  }

  /** What one token does to the parse. */
  datatype Next = Continue(state: State, next: nat) | Stop | Fail(error: string)

  /** A number token, possibly with a split exponent, a preceding unary minus
    * and a following unit. */
  function NumberStep(st: State, tokens: seq<string>, i: nat, units: set<string>): (r: Next)
    requires i < |tokens|
    ensures r.Continue? ==> r.next > i && !r.state.unaryMinus && r.state.parenCount == st.parenCount
    ensures r.Fail? ==> r.error in {InvalidNumber, BadUnit, SyntaxError}
  {
    var t := Lower(tokens[i]);
    var joined := i < |tokens| - 2 && |t| > 0 && t[|t| - 1] == 'e';
    var text := if joined then t + tokens[i + 1] + tokens[i + 2] else t;
    var j := if joined then i + 2 else i;
    match FilterFloat(text)
    case None => Fail(InvalidNumber)
    case Some(v) =>
      var negated := st.operators != [] && Last(st.operators) == Minus;
      var ops := if negated then Pop(st.operators) else st.operators;
      var value := if negated then -v else v;
      var unit := if j + 1 < |tokens| then UnitToken(tokens[j + 1]) else "";
      if unit != "" && unit !in units then Fail(BadUnit)
      else
        var operand := if unit != "" then ScalarWithUnit(value, unit) else Constant(Number(value));
        var next := if unit != "" then j + 2 else j + 1;
        var pushed := State(ops, st.operands + [operand], st.parenCount, false);
        if ops != [] && Last(ops) == Minus then
          match ProcessTopOperator(pushed)
          case Err(e) => Fail(e)
          case Ok(u) => Continue(u, next)
        else Continue(pushed, next)
  }

  /** One pass of the token loop of parseFormula. */
  function Step(st: State, tokens: seq<string>, i: nat, units: set<string>): (r: Next)
    requires i < |tokens|
    ensures r.Continue? ==> r.next > i
    ensures r.Stop? <==> tokens[i] == "'"
    ensures r.Continue? && r.next <= |tokens| && tokens[i] in {"(", ",", "[", "{"} ==> r.state.unaryMinus
    ensures r.Continue? && tokens[i] in {")", "]", "}"} ==> !r.state.unaryMinus
  {
    var token := tokens[i];
    if token == "(" then Continue(AddParen(st.(unaryMinus := true)), i + 1)
    else if token == ")" then
      match ClosedParenthesis(st)
      case Err(e) => Fail(e)
      case Ok(t) => Continue(t.(unaryMinus := false), i + 1)
    else if |token| > 0 && token[0] == '"' then
      Continue(st.(operands := st.operands + [Constant(Text(Without(token, '"')))], unaryMinus := false), i + 1)
    else if token == "'" then Stop
    else if token == "," then
      match ClosedParenthesis(st)
      case Err(e) => Fail(e)
      case Ok(t) => Continue(AddParen(t.(unaryMinus := true)), i + 1)
    else if token == "[" then
      Continue(AddParen(State(st.operators + [PendingIndex], st.operands + [OperandMarker], st.parenCount, true)), i + 1)
    else if token == "]" then
      match ClosedParenthesis(st)
      case Err(e) => Fail(e)
      case Ok(t) =>
        match ClosedIndex(t)
        case Err(e) => Fail(e)
        case Ok(u) => Continue(u.(unaryMinus := false), i + 1)
    else if token == "{" then
      if i + 1 < |tokens| then
        match Factory(tokens[i + 1])
        case None => Fail(UnknownFunction)
        case Some(op) =>
          Continue(AddParen(State(st.operators + [op], st.operands + [OperandMarker], st.parenCount, true)), i + 2)
      else Continue(st, i + 2)
    else if token == "}" then
      match ClosedParenthesis(st)
      case Err(e) => Fail(e)
      case Ok(t) =>
        match ClosedFunction(t)
        case Err(e) => Fail(e)
        case Ok(u) => Continue(u.(unaryMinus := false), i + 1)
    else OperandStep(st, tokens, i, units)
  }

  /** The tail of the token loop, for a token that is no bracket, comma or
    * quote: a reference, a unary minus, an operator or a number. */
  function OperandStep(st: State, tokens: seq<string>, i: nat, units: set<string>): (r: Next)
    requires i < |tokens|
    ensures r.Continue? ==> r.next > i
    ensures !r.Stop?
  {
    var token := tokens[i];
    if IsReference(token) then
      Continue(st.(operands := st.operands + [ToolReference(token)], unaryMinus := false), i + 1)
    else if st.unaryMinus && token == "-" then
      Continue(st.(operators := st.operators + [Minus], unaryMinus := true), i + 1)
    else
      match Factory(token)
      case Some(op) =>
        (match Reduced(st, Precedence(op))
         case Err(e) => Fail(e)
         case Ok(t) => Continue(t.(operators := t.operators + [op], unaryMinus := true), i + 1))
      case None => NumberStep(st, tokens, i, units)
  }

  /** The outcome of a parse: the root operator, or none, and the error
    * messages reported on the way, in order. */
  datatype Parse = Parse(root: Option<Operator>, errors: seq<string>)

  /** Closing the implicit outer parenthesis after the last token: the parse
    * succeeds exactly when that leaves one operand and no open parenthesis. */
  function Finish(st: State): (r: Parse)
    ensures r.root.Some? <==> (ClosedParenthesis(st).Ok?
                               && |ClosedParenthesis(st).value.operands| == 1
                               && ClosedParenthesis(st).value.parenCount == 0)
    ensures r.root.Some? ==> r.root == Some(ClosedParenthesis(st).value.operands[0]) && r.errors == []
    ensures r.root.None? ==> r.errors != []
  {
    match ClosedParenthesis(st)
    case Ok(t) =>
      if |t.operands| == 1 then
        if t.parenCount == 0 then Parse(Some(t.operands[0]), []) else Parse(None, [ParenMismatch])
      else Parse(None, [SyntaxError] + (if t.parenCount != 0 then [ParenMismatch] else []))
    case Err(e) => Parse(None, [e, SyntaxError] + (if st.parenCount != 0 then [ParenMismatch] else []))
  }

  /** The token loop from token `i` on, then the final check. */
  function Run(st: State, tokens: seq<string>, i: nat, units: set<string>): (r: Parse)
    decreases |tokens| - i
    ensures r.root.None? <==> r.errors != []
  {
    if i >= |tokens| then Finish(st)
    else
      match Step(st, tokens, i, units)
      case Stop => Finish(st)
      case Fail(e) => Parse(None, [e])
      case Continue(t, next) => Run(t, tokens, next, units)
  }

  /** The operator-precedence parse of a whole token list. */
  function ParsedTokens(tokens: seq<string>, units: set<string>): (r: Parse)
    ensures r.root.None? <==> r.errors != []
  {
    Run(Start, tokens, 0, units)
  }

  /** A quoted unit name loses its first and last characters. */
  function QuotedUnit(t: string): (r: string)
    ensures |t| > 1 && t[0] == '"' ==> r == t[1..|t| - 1]
    ensures !(|t| > 1 && t[0] == '"') ==> r == t
  {
    if |t| > 1 && t[0] == '"' then t[1..|t| - 1] else t
  }

  /** The quote stripping of the `number unit` shortcut as written: the end
    * index is one short, so the last character of the name is lost too. */
  function QuotedUnitAsWritten(t: string): (r: string)
    ensures |t| > 2 && t[0] == '"' ==> r == t[1..|t| - 2]
    ensures !(|t| > 1 && t[0] == '"') ==> r == t
  {
    if |t| > 1 && t[0] == '"' then Substring(t, 1, |t| - 2) else t
  }

  /** The number and unit texts of a formula of the `number unit` shape:
    * exactly two white-space separated parts, or a comment after them. */
  function NumberAndUnit(w: string): (r: Option<(int, string)>)
  {
    var parts := SplitSpace(w);
    if |parts| == 2 || (|parts| > 2 && parts[2] == "'") then
      match FilterFloat(parts[0])
      case None => None
      case Some(v) => Some((v, parts[1]))
    else None
  }

  /** The `number unit` shortcut tried before tokenising: a number and a unit
    * the unit system resolves. */
  function QuickUnit(w: string, units: set<string>): (r: Option<Operator>)
    ensures r.Some? ==> r.value.ScalarWithUnit? && r.value.unit in units
    ensures r.Some? ==> NumberAndUnit(w).Some? && r.value.number == NumberAndUnit(w).value.0
  {
    match NumberAndUnit(w)
    case None => None
    case Some((v, text)) =>
      var name := QuotedUnit(text);
      if name != "" && name in units then Some(ScalarWithUnit(v, name)) else None
  }

  /** The shortcut as written, with the short quote stripping. */
  function QuickUnitAsWritten(w: string, units: set<string>): (r: Option<Operator>)
    ensures r.Some? ==> r.value.ScalarWithUnit? && r.value.unit in units
  {
    match NumberAndUnit(w)
    case None => None
    case Some((v, text)) =>
      var name := QuotedUnitAsWritten(text);
      if name != "" && name in units then Some(ScalarWithUnit(v, name)) else None
  }

  /** parseFormula on the formula text. `tokens` is what the tokenising
    * regular expression yields for the trimmed text. */
  function ParsedText(text: string, tokens: seq<string>, units: set<string>): (r: Parse)
    ensures text == "" ==> r == Parse(None, [])
    ensures text != "" ==> (r.root.None? <==> r.errors != [])
  {
    if text == "" then Parse(None, [])
    else if text[0] == '\'' then Parse(Some(Constant(Text(text[1..]))), [])
    else
      match QuickUnit(Trim(text), units)
      case Some(op) => Parse(Some(op), [])
      case None => ParsedTokens(tokens, units)
  }

  /** truncatedFormula: at most the first 249 characters. */
  function TruncatedFormula(s: string): (r: string)
    ensures |r| <= 249 && |r| <= |s| && r == s[..|r|]
    ensures |s| <= 249 ==> r == s
    ensures |s| > 249 ==> |r| == 249
  {
    if |s| <= 249 then s else s[..249]
  }

  // ---------------------------------------------------------------------
  // The loops of parseFormula and of the argument collection, as methods.

  /** Arguments already popped, put in front of a later collection. */
  function Prepended(args: seq<Operator>, c: Option<(seq<Operator>, seq<Operator>)>): Option<(seq<Operator>, seq<Operator>)>
  {
    match c
    case None => None
    case Some((a, rest)) => Some((args + a, rest))
  }

  /** One pop of the collecting loop. */
  lemma CollectedStep(args: seq<Operator>, stack: seq<Operator>, arg: Operator)
    requires arg != OperandMarker
    ensures Prepended(args, Collected(stack + [arg])) == Prepended(args + [arg], Collected(stack))
  {
    assert Pop(stack + [arg]) == stack && Last(stack + [arg]) == arg;
    match Collected(stack)
    case None =>
    case Some((a, rest)) =>
      assert args + ([arg] + a) == (args + [arg]) + a;
  }

  /** The while loop of MMMultipleArgumentFunction.processArguments. */
  method CollectArguments(operands: seq<Operator>) returns (r: Option<(seq<Operator>, seq<Operator>)>)
    ensures r == Collected(operands)
  {
    if |operands| < 1 {
      return None;
    }
    var stack := Pop(operands);
    var arg := Last(operands);
    var args: seq<Operator> := [];
    assert stack + [arg] == operands;
    assert Prepended([], Collected(operands)) == Collected(operands) by {
      match Collected(operands)
      case None =>
      case Some((a, rest)) => assert [] + a == a;
    }
    while arg != OperandMarker
      invariant |stack| < |operands|
      invariant Collected(operands) == Prepended(args, Collected(stack + [arg]))
      decreases |stack|
    {
      CollectedStep(args, stack, arg);
      args := args + [arg];
      if |stack| == 0 {
        return None;
      }
      assert Pop(stack) + [Last(stack)] == stack;
      arg := Last(stack);
      stack := Pop(stack);
    }
    assert Collected(stack + [arg]) == Some(([], stack)) by {
      assert Pop(stack + [arg]) == stack;
    }
    assert args + [] == args;
    r := Some((args, stack));
  }

  /** processArguments of a function operator; the multiple-argument rule runs
    * its popping loop. */
  method ProcessArguments(rule: ArgumentRule, operands: seq<Operator>) returns (r: Option<(seq<Operator>, seq<Operator>)>)
    ensures r == Arguments(rule, operands)
  {
    if rule.Multiple? {
      var c := CollectArguments(operands);
      if c.None? || |c.value.0| < rule.min {
        return None;
      }
      return c;
    }
    return Arguments(rule, operands);
  }

  /** processParenthesis: work back up the operator stack to the topmost
    * parenthesis marker. */
  method ProcessParenthesis(st: State) returns (r: Result<State>)
    ensures r == ClosedParenthesis(st)
  {
    var s := st;
    while true
      invariant ClosedParenthesis(s) == ClosedParenthesis(st)
      decreases |s.operators|
    {
      if |s.operators| == 0 {
        return Err(ParenMismatch);
      }
      if Last(s.operators) == Paren {
        return Ok(s.(operators := Pop(s.operators), parenCount := s.parenCount - 1));
      }
      var t := ProcessTopOperator(s);
      if t.Err? {
        return Err(t.error);
      }
      s := t.value;
    }
  }

  /** processFunction: work back up the operator stack to the topmost function. */
  method ProcessFunction(st: State) returns (r: Result<State>)
    ensures r == ClosedFunction(st)
  {
    var s := st;
    while true
      invariant ClosedFunction(s) == ClosedFunction(st)
      decreases |s.operators|
    {
      if |s.operators| == 0 {
        return Err(BraceMismatch);
      }
      var op := Last(s.operators);
      if op.Function? {
        var a := ProcessArguments(op.rule, s.operands);
        if a.None? {
          return Err(ArgCountError);
        }
        return Ok(s.(operators := Pop(s.operators), operands := a.value.1 + [op.(arguments := a.value.0)]));
      }
      var t := ProcessTopOperator(s);
      if t.Err? {
        return Err(t.error);
      }
      s := t.value;
    }
  }

  /** processIndex: work back up the operator stack to the topmost index operator. */
  method ProcessIndex(st: State) returns (r: Result<State>)
    ensures r == ClosedIndex(st)
  {
    var s := st;
    while true
      invariant ClosedIndex(s) == ClosedIndex(st)
      decreases |s.operators|
    {
      if |s.operators| == 0 {
        return Err(IndexMismatch);
      }
      if Last(s.operators).Index? {
        var a := IndexArguments(s.operands);
        if a.None? {
          return Err(ArgCountError);
        }
        return Ok(s.(operators := Pop(s.operators), operands := a.value.1 + [a.value.0]));
      }
      var t := ProcessTopOperator(s);
      if t.Err? {
        return Err(t.error);
      }
      s := t.value;
    }
  }

  /** The loop that reduces stacked operators before an operator of
    * precedence `p` is pushed. */
  method ReduceBefore(st: State, p: int) returns (r: Result<State>)
    ensures r == Reduced(st, p)
  {
    var s := st;
    while s.operators != [] && !StopsReduction(Last(s.operators), p)
      invariant Reduced(s, p) == Reduced(st, p)
      decreases |s.operators|
    {
      var t := ProcessTopOperator(s);
      if t.Err? {
        return Err(t.error);
      }
      s := t.value;
    }
    return Ok(s);
  }

  /** The body of the token loop for token `i`. */
  method ParseToken(st: State, tokens: seq<string>, i: nat, units: set<string>) returns (r: Next)
    requires i < |tokens|
    ensures r == Step(st, tokens, i, units)
  {
    var token := tokens[i];
    if token == "(" {
      r := Continue(AddParen(st.(unaryMinus := true)), i + 1);
    } else if token == ")" {
      var t := ProcessParenthesis(st);
      r := if t.Err? then Fail(t.error) else Continue(t.value.(unaryMinus := false), i + 1);
    } else if |token| > 0 && token[0] == '"' {
      r := Continue(st.(operands := st.operands + [Constant(Text(Without(token, '"')))], unaryMinus := false), i + 1);
    } else if token == "'" {
      r := Stop;
    } else if token == "," {
      var t := ProcessParenthesis(st);
      r := if t.Err? then Fail(t.error) else Continue(AddParen(t.value.(unaryMinus := true)), i + 1);
    } else if token == "[" {
      r := Continue(AddParen(State(st.operators + [PendingIndex], st.operands + [OperandMarker], st.parenCount, true)), i + 1);
    } else if token == "]" {
      var t := ProcessParenthesis(st);
      if t.Err? {
        return Fail(t.error);
      }
      var u := ProcessIndex(t.value);
      r := if u.Err? then Fail(u.error) else Continue(u.value.(unaryMinus := false), i + 1);
    } else if token == "{" {
      if i + 1 < |tokens| {
        var op := Factory(tokens[i + 1]);
        if op.None? {
          return Fail(UnknownFunction);
        }
        r := Continue(AddParen(State(st.operators + [op.value], st.operands + [OperandMarker], st.parenCount, true)), i + 2);
      } else {
        r := Continue(st, i + 2);
      }
    } else if token == "}" {
      var t := ProcessParenthesis(st);
      if t.Err? {
        return Fail(t.error);
      }
      var u := ProcessFunction(t.value);
      r := if u.Err? then Fail(u.error) else Continue(u.value.(unaryMinus := false), i + 1);
    } else if IsReference(token) {
      r := Continue(st.(operands := st.operands + [ToolReference(token)], unaryMinus := false), i + 1);
    } else if st.unaryMinus && token == "-" {
      r := Continue(st.(operators := st.operators + [Minus], unaryMinus := true), i + 1);
    } else {
      var op := Factory(token);
      if op.Some? {
        var t := ReduceBefore(st, Precedence(op.value));
        r := if t.Err? then Fail(t.error) else Continue(t.value.(operators := t.value.operators + [op.value], unaryMinus := true), i + 1);
      } else {
        r := NumberStep(st, tokens, i, units);
      }
    }
  }

  /** Closing the implicit outer parenthesis and checking what is left. */
  method FinishParse(st: State) returns (p: Parse)
    ensures p == Finish(st)
  {
    var t := ProcessParenthesis(st);
    if t.Ok? && |t.value.operands| == 1 {
      p := if t.value.parenCount == 0 then Parse(Some(t.value.operands[0]), []) else Parse(None, [ParenMismatch]);
    } else {
      var count := if t.Ok? then t.value.parenCount else st.parenCount;
      var errors := if t.Ok? then [SyntaxError] else [t.error, SyntaxError];
      p := Parse(None, errors + (if count != 0 then [ParenMismatch] else []));
    }
  }

  /** The token loop of parseFormula, started inside the implicit outer
    * parenthesis with a leading `-` read as unary. */
  method ParseTokens(tokens: seq<string>, units: set<string>) returns (p: Parse)
    ensures p == ParsedTokens(tokens, units)
  {
    var st := Start;
    var i: nat := 0;
    while i < |tokens|
      invariant Run(st, tokens, i, units) == ParsedTokens(tokens, units)
      decreases |tokens| - i
    {
      var n := ParseToken(st, tokens, i, units);
      if n.Stop? {
        p := FinishParse(st);
        return;
      }
      if n.Fail? {
        return Parse(None, [n.error]);
      }
      st, i := n.state, n.next;
    }
    p := FinishParse(st);
  }

  /** The formula object: its text, the parsed operator tree, whether a
    * parse error has been reported, and the messages reported so far. */
  class Formula {
    var text: string
    var resultOperator: Option<Operator>
    var isInError: bool
    var messages: seq<string>

    constructor()
      ensures text == "" && resultOperator == None && !isInError && messages == []
    {
      text := "";
      resultOperator := None;
      isInError := false;
      messages := [];
    }

    /** parseFormula: a formula already in error is not parsed again; a parse
      * records its root (or none) and reports its messages. */
    method ParseFormula(tokens: seq<string>, units: set<string>) returns (r: Option<Operator>)
      modifies this
      ensures text == old(text)
      ensures old(isInError) ==> r == None && resultOperator == old(resultOperator)
                                 && isInError && messages == old(messages)
      ensures !old(isInError) ==> r == ParsedText(text, tokens, units).root && resultOperator == r
                                  && messages == old(messages) + ParsedText(text, tokens, units).errors
                                  && isInError == (ParsedText(text, tokens, units).errors != [])
    {
      if isInError {
        return None;
      }
      resultOperator := None;
      var p: Parse;
      if |text| == 0 {
        p := Parse(None, []);
      } else if text[0] == '\'' {
        p := Parse(Some(Constant(Text(text[1..]))), []);
      } else {
        var quick := QuickUnit(Trim(text), units);
        if quick.Some? {
          p := Parse(quick, []);
        } else {
          p := ParseTokens(tokens, units);
        }
      }
      resultOperator := p.root;
      messages := messages + p.errors;
      isInError := p.errors != [];
      r := p.root;
    }
  }

  // ---------------------------------------------------------------------
  // MMRangeOperator.value

  /** The value of `a:b` for the first values of two unitless operands: a
    * column counting from `start` to `end`, one step at a time, upwards when
    * `start < end` and downwards otherwise. */
  method RangeColumn(start: int, end: int) returns (cells: seq<int>)
    ensures |cells| == (if start < end then end - start else start - end) + 1
    ensures start < end ==> forall k :: 0 <= k < |cells| ==> cells[k] == start + k
    ensures start >= end ==> forall k :: 0 <= k < |cells| ==> cells[k] == start - k
  {
    if start < end {
      var a := new int[end - start + 1];
      var i := start;
      while i <= end
        invariant start <= i <= end + 1
        invariant forall k :: 0 <= k < i - start ==> a[k] == start + k
      {
        a[i - start] := i;
        i := i + 1;
      }
      cells := a[..];
    } else {
      var a := new int[start - end + 1];
      var i := start;
      while i >= end
        invariant end - 1 <= i <= start
        invariant forall k :: 0 <= k < start - i ==> a[k] == start - k
      {
        a[start - i] := i;
        i := i - 1;
      }
      cells := a[..];
    }
  }

  /** MMRangeOperator.value: `None` unless both operands are number values;
    * an error when either carries unit dimensions; otherwise the range
    * between their first values as a unitless column. */
  method RangeValue(first: Option<NumberValue>, second: Option<NumberValue>) returns (r: Result<Option<NumberValue>>)
    requires first.Some? ==> first.value.Valid()
    requires second.Some? ==> second.value.Valid()
    ensures (first.None? || second.None?) ==> r == Ok(None)
    ensures (first.Some? && second.Some?
             && (HasUnitDimensions(first.value.dims) || HasUnitDimensions(second.value.dims))) ==> r == Err(RangeUnits)
    ensures r.Ok? && r.value.Some? ==> (first.Some? && second.Some?
                                        && ValueAtRowColumn(first.value.m, 1, 1, 0).Ok?
                                        && ValueAtRowColumn(second.value.m, 1, 1, 0).Ok?)
    ensures r.Ok? && r.value.Some? && first.Some? && second.Some?
            && ValueAtRowColumn(first.value.m, 1, 1, 0).Ok? && ValueAtRowColumn(second.value.m, 1, 1, 0).Ok? ==>
      var a := ValueAtRowColumn(first.value.m, 1, 1, 0).value;
      var b := ValueAtRowColumn(second.value.m, 1, 1, 0).value;
      var v := r.value.value;
      && v.Valid() && v.dims == Zero() && v.m.columnCount == 1
      && v.m.rowCount == (if a < b then b - a else a - b) + 1
      && forall k :: 0 <= k < |v.m.cells| ==> v.m.cells[k] == (if a < b then a + k else a - k)
  {
    if first.None? || second.None? {
      return Ok(None);
    }
    var v1 := first.value;
    var v2 := second.value;
    if HasUnitDimensions(v1.dims) || HasUnitDimensions(v2.dims) {
      return Err(RangeUnits);
    }
    var a := ValueAtRowColumn(v1.m, 1, 1, 0);
    if a.Err? {
      return Err(a.error);
    }
    var b := ValueAtRowColumn(v2.m, 1, 1, 0);
    if b.Err? {
      return Err(b.error);
    }
    var cells := RangeColumn(a.value, b.value);
    assert |cells| == |cells| * 1;
    r := Ok(Some(NumberValue(Matrix(|cells|, 1, cells), Zero())));
  }
}
