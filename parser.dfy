/**
 * The recursive-descent parser (src/Parser.java). A cursor walks the token
 * stream. Each grammar rule consumes tokens and builds a syntax tree node. A
 * syntax error is reported when it is raised and unwinds to the nearest
 * declaration. There the parser skips ahead to a likely statement start and
 * leaves a null statement (`Missing`) in the list.
 *
 * The cursor reads "the token before it" and "the token at it". The token at
 * it is out of bounds once the end-of-file token itself has been consumed,
 * which the second-chance recovery in `PanicError` and `Synchronize` can do.
 * The model makes that host exception an explicit `Crashed` outcome that no
 * handler catches.
 */
module Parsers {
  import opened Wrappers
  import opened Tokens
  import opened Ast
  import opened Diagnostics
  import opened Shapes

  /**
   * How a grammar rule ends: a value, a thrown syntax error (already
   * reported when it was raised), or a host exception.
   */
  datatype Parse<+T> =
    | Parsed(value: T)
    | Failed(at: Token, message: string)
    | Crashed(exception: string)

  /** A failure or crash of one rule, passed on by a rule of another result type. */
  function Pass<T, U>(p: Parse<T>): (r: Parse<U>)
    requires !p.Parsed?
    ensures !r.Parsed? && (r.Failed? <==> p.Failed?)
    ensures p.Failed? ==> r.at == p.at && r.message == p.message
  {
    match p
    case Failed(at, message) => Failed(at, message)
    case Crashed(exception) => Crashed(exception)
  }

  const OutOfBounds := "IndexOutOfBoundsException"

  /** The tokens recovery stops in front of: a statement boundary or a statement keyword. */
  const SyncKinds: set<TokenType> :=
    {SemiColon, TokenType.Class, TokenType.Function, TokenType.Var, TokenType.For,
     TokenType.If, TokenType.While, TokenType.Print, TokenType.Return}

  /* The syntax error messages, as the parser words them. */
  const UnaryPlusMessage := "Unary '+'expressions are not supported"
  const InvalidTargetMessage := "Invalid assignment identiifier"
  const ExpectExpressionMessage := "Expect expression"
  /** The kinds of token a primary expression can start with. */
  const PrimaryKinds: set<TokenType> := {False, True, NilKind, NumberKind, StringKind, LeftParen, Identifier, TokenType.This}
  const TooManyArgumentsMessage := "can't have more than 255 arguments"
  const TooManyParametersMessage := "can't have more than 255 parameters"
  const ColonMessage := "expect ':' "
  const PropertyNameMessage := "Expect property name after '.'"
  const CloseArgumentsMessage := "expect ')' closing arguments of function call"
  const CloseGroupingMessage := "expect ')' after expression"
  const IfOpenMessage := "if statement missing '(' for condition"
  const IfCloseMessage := "if statement missing ')' for condition"
  const StatementEndMessage := "expect ';' at the end of statement"
  const WhileOpenMessage := "while loop missing '(' at condition"
  const WhileCloseMessage := "while loop missing ')' at condition"
  const ForOpenMessage := "for loop missing '(' at the beginning of initializer"
  const ForConditionMessage := "for loop missing ';' at condition"
  const ForIncrementMessage := "for loop missing ')' at the end of iterate"
  const ForInitializerMessage := "for loop missing ';' at initializer"
  const ReturnEndMessage := "return missing ';' at the end"
  const VariableNameMessage := "expect variable name"
  const ParameterNameMessage := "expect parameter name"
  const ClassNameMessage := "expect class name"
  const SuperclassNameMessage := "expect superclass name"
  const ClassOpenMessage := "expect '{' before class body"
  const ClassCloseMessage := "expect '}' after class body"

  /** The lexeme of the synthetic `?:` operator token. */
  const TernaryLexeme := "?:"

  /** The two kinds of function the messages name. */
  const FunctionKind := "function"
  const MethodKind := "method"

  function NameMessage(kind: string): string { "expect " + kind + " name" }
  function ParametersMessage(kind: string): string { "expect " + kind + " parameters" }
  function CloseParametersMessage(kind: string): string { "expect ')' after define " + kind + " parameters" }
  function BodyEndMessage(kind: string): string { "expect ';' at the end of " + kind + " body" }

  /* ---------------- precedence ---------------- */

  /** A binary or logical node, whichever the operator builds. */
  function Combine(lhs: Expression, op: Token, rhs: Expression): Expression
  {
    if op.kind in {LogicOr, LogicAnd} then Logical(lhs, op, rhs) else Binary(lhs, op, rhs)
  }

  /** Whether `e` is a binary or logical node of precedence `level` (2 to 7). */
  predicate AtLevel(e: Expression, level: nat)
  {
    (e.Binary? || e.Logical?) && Level(e) == level
  }

  /** The operands of a chain of one level, leftmost first, and the operators between them. */
  function Chain(e: Expression, level: nat): (r: (Expression, seq<(Token, Expression)>))
    ensures !AtLevel(r.0, level)
    decreases e
  {
    if AtLevel(e, level) then
      var (first, links) := Chain(e.lhs, level);
      (first, links + [(e.operator, e.rhs)])
    else (e, [])
  }

  /** Folds operator links onto a first operand from the left. */
  function FoldLeft(first: Expression, links: seq<(Token, Expression)>): Expression
    decreases |links|
  {
    if |links| == 0 then first
    else Combine(FoldLeft(first, links[..|links| - 1]), links[|links| - 1].0, links[|links| - 1].1)
  }

  /** The operands of a shaped binary or logical node. */
  lemma OperandsShaped(e: Expression)
    requires Shaped(e) && (e.Binary? || e.Logical?)
    ensures Shaped(e.lhs) && Level(e.lhs) >= Level(e)
    ensures Shaped(e.rhs) && Level(e.rhs) > Level(e)
    ensures Level(e) == OpLevel(e.operator.kind)
    ensures Combine(e.lhs, e.operator, e.rhs) == e
  {
    if e.Binary? {
      var k := e.operator.kind;
      assert k in EqualityKinds || k in ComparisonKinds || k in TermKinds || k in FactorKinds;
      assert k != LogicOr && k != LogicAnd;
    }
  }

  /**
   * Left associativity: a shaped chain of one level is the left fold of its
   * operands.
   */
  lemma {:induction false} ChainIsLeftFold(e: Expression, level: nat)
    requires Shaped(e) && 2 <= level <= 7
    ensures FoldLeft(Chain(e, level).0, Chain(e, level).1) == e
    decreases e
  {
    if AtLevel(e, level) {
      OperandsShaped(e);
      ChainIsLeftFold(e.lhs, level);
      var c := Chain(e.lhs, level);
      var all := c.1 + [(e.operator, e.rhs)];
      assert Chain(e, level) == (c.0, all);
      assert all[..|all| - 1] == c.1;
    }
  }

  /**
   * Every operand of a shaped chain after the first binds tighter than the
   * chain's level, and every operator between them is of that level.
   */
  lemma {:induction false} ChainLinksBindTighter(e: Expression, level: nat)
    requires Shaped(e) && 2 <= level <= 7
    ensures forall i :: 0 <= i < |Chain(e, level).1| ==>
      Level(Chain(e, level).1[i].1) > level && OpLevel(Chain(e, level).1[i].0.kind) == level
    decreases e
  {
    if AtLevel(e, level) {
      OperandsShaped(e);
      ChainLinksBindTighter(e.lhs, level);
      var c := Chain(e.lhs, level);
      var all := c.1 + [(e.operator, e.rhs)];
      assert Chain(e, level) == (c.0, all);
      forall i | 0 <= i < |all|
        ensures Level(all[i].1) > level && OpLevel(all[i].0.kind) == level
      {
        if i < |c.1| {
          assert all[i] == c.1[i];
        }
      }
    }
  }

  /* ---------------- assignment targets ---------------- */

  /**
   * The rewriting of `lhs = rhs`: a variable becomes an assignment node with
   * the fresh id, a property read becomes a property write, and any other
   * left side is an error at the `=` token.
   */
  function Retarget(lhs: Expression, equal: Token, rhs: Expression, id: nat): (r: Parse<Expression>)
    ensures !r.Crashed?
    ensures r.Failed? <==> !lhs.VarAccess? && !lhs.Get?
    ensures r.Failed? ==> r == Failed(equal, InvalidTargetMessage)
    ensures r.Parsed? ==> (r.value.Assign? || r.value.Set?) && r.value.value == rhs
    ensures r.Parsed? && r.value.Assign? ==> lhs.VarAccess? && lhs.name == r.value.name && r.value.id == id
    ensures r.Parsed? && r.value.Set? ==> lhs == Get(r.value.obj, r.value.property)
  {
    match lhs
    case VarAccess(_, name) => Parsed(Assign(id, name, rhs))
    case Get(obj, property) => Parsed(Set(obj, property, rhs))
    case _ => Failed(equal, InvalidTargetMessage)
  }

  /* ---------------- for loops ---------------- */

  /**
   * The `for` desugaring: the loop's condition defaults to `true`, the
   * increment runs after the body (alone when there is no body), and the
   * initializer, when there is one, runs once before the loop in a block of
   * its own. A `for` with neither body nor increment loops over the null
   * statement.
   */
  function DesugarFor(initializer: Option<Statement>, condition: Option<Expression>,
                      increment: Option<Expression>, body: Option<Statement>): Statement
  {
    var test := if condition.Some? then condition.value else Literal(LitBool(true));
    var step :=
      if increment.None? then (if body.Some? then body.value else Missing)
      else if body.None? then Expr(increment.value)
      else Block([body.value, Expr(increment.value)]);
    var loop := Statement.While(test, step);
    if initializer.Some? then Block([initializer.value, loop]) else loop
  }

  /** The loop a desugared `for` runs, inside the initializer's block if there is one. */
  function LoopOf(s: Statement): Statement
  {
    if s.Block? && |s.stmts| == 2 then s.stmts[1] else s
  }

  /**
   * What a desugared `for` does: the initializer, if any, comes first; then
   * a `while` on the condition (or `true`); and each pass runs the body and
   * then the increment. Without both, the loop runs the one that exists,
   * or the null statement.
   */
  lemma ForLoopShape(initializer: Option<Statement>, condition: Option<Expression>,
                     increment: Option<Expression>, body: Option<Statement>)
    ensures var s := DesugarFor(initializer, condition, increment, body);
      var loop := LoopOf(s);
      && (initializer.Some? <==> s.Block?)
      && (initializer.Some? ==> s.stmts[0] == initializer.value)
      && loop.While?
      && (condition.Some? ==> loop.condition == condition.value)
      && (condition.None? ==> loop.condition == Literal(LitBool(true)))
      && (increment.Some? && body.Some? ==> loop.body == Block([body.value, Expr(increment.value)]))
      && (increment.Some? && body.None? ==> loop.body == Expr(increment.value))
      && (increment.None? ==> loop.body == if body.Some? then body.value else Missing)
  {
  }

  /* ---------------- statement shapes ---------------- */

  /** Whether the null statement occurs at the top of a statement list. */
  predicate HasMissing(stmts: seq<Statement>)
  {
    exists i :: 0 <= i < |stmts| && stmts[i].Missing?
  }

  /** The operator kinds the rule for one binary level matches, in the order it tries them. */
  function KindsAt(level: nat): (r: seq<TokenType>)
    requires 2 <= level <= 7
    ensures forall k :: k in r ==> OpLevel(k) == level
    ensures forall k :: k in r ==> (k in {LogicOr, LogicAnd} <==> level <= 3)
    ensures forall k :: k in r && level > 3 ==> k in EqualityKinds + ComparisonKinds + TermKinds + FactorKinds
  {
    if level == 2 then [LogicOr]
    else if level == 3 then [LogicAnd]
    else if level == 4 then [NotEqual, EqualEqual]
    else if level == 5 then [More, MoreEqual, Less, LessEqual]
    else if level == 6 then [Plus, Subtract]
    else [Divide, Multiply]
  }

  /** Extending a chain of one level by an operator of that level keeps it shaped. */
  lemma CombineShaped(lhs: Expression, op: Token, rhs: Expression, level: nat)
    requires 2 <= level <= 7 && op.kind in KindsAt(level)
    requires Shaped(lhs) && Level(lhs) >= level
    requires Shaped(rhs) && Level(rhs) > level
    ensures Shaped(Combine(lhs, op, rhs)) && Level(Combine(lhs, op, rhs)) == level
  {
    if level <= 3 {
      assert Combine(lhs, op, rhs) == Logical(lhs, op, rhs);
    } else {
      assert Combine(lhs, op, rhs) == Binary(lhs, op, rhs);
    }
  }

  /** A desugared `for` is shaped when its parts are. */
  lemma DesugarShaped(initializer: Option<Statement>, condition: Option<Expression>,
                      increment: Option<Expression>, body: Option<Statement>)
    requires initializer.Some? ==> ShapedStmt(initializer.value)
    requires condition.Some? ==> Shaped(condition.value)
    requires increment.Some? ==> Shaped(increment.value)
    requires body.Some? ==> ShapedStmt(body.value)
    ensures ShapedStmt(DesugarFor(initializer, condition, increment, body))
  {
    var s := DesugarFor(initializer, condition, increment, body);
    var loop := LoopOf(s);
    assert ShapedStmt(loop.body);
    assert ShapedStmt(loop);
  }

  /* ---------------- the parser ---------------- */

  class Parser {
    const tokens: seq<Token>
    const err: Error
    /** One past the token most recently consumed. */
    var current: nat
    /** The next node id to hand out. */
    var nextId: nat

    predicate Valid()
      reads this
    {
      WellFormedStream(tokens) && current <= |tokens|
    }

    constructor (tokens: seq<Token>, err: Error)
      requires WellFormedStream(tokens)
      ensures Valid() && this.tokens == tokens && this.err == err
      ensures current == 0 && nextId == 0
    {
      this.tokens := tokens;
      this.err := err;
      current := 0;
      nextId := 0;
    }

    /* ----- cursor queries ----- */

    /** The token most recently consumed; before the first, the first token. */
    function PrevToken(): Token
      requires Valid()
      reads this
    {
      if current == 0 then tokens[0] else tokens[current - 1]
    }

    /** The token at the cursor, which is out of bounds once the end-of-file token is consumed. */
    function NextToken(): (r: Parse<Token>)
      requires Valid()
      reads this
      ensures r.Crashed? <==> current == |tokens|
      ensures r.Parsed? ==> r.value == tokens[current]
    {
      if current == 0 then Parsed(tokens[0])
      else if current - 1 + 1 < |tokens| then Parsed(tokens[current - 1 + 1])
      else Crashed(OutOfBounds)
    }

    /**
     * The end-of-file test looks at the token before the cursor, so it holds
     * once the end-of-file token is consumed, and at the start of a stream
     * that holds nothing else.
     */
    function EndOfFile(): (r: bool)
      requires Valid()
      reads this
      ensures r <==> current == |tokens| || (current == 0 && |tokens| == 1)
      ensures !r ==> current < |tokens|
    {
      PrevToken().kind == EOF
    }

    /** Whether the token at the cursor has kind `kind`; never at end of file. */
    function IsNextToken(kind: TokenType): (r: bool)
      requires Valid()
      reads this
      ensures r ==> current < |tokens| && tokens[current].kind == kind
    {
      if !EndOfFile() then tokens[current].kind == kind else false
    }

    /** Whether `kind` occurs at or after the cursor, the end-of-file token not counted. */
    ghost predicate Ahead(kind: TokenType)
      requires Valid()
      reads this
    {
      kind != EOF && exists j :: current <= j < |tokens| && tokens[j].kind == kind
    }

    /** Whether a `MatchAtLeast(kinds)` here would consume a token. */
    predicate NextIn(kinds: seq<TokenType>)
      requires Valid()
      reads this
    {
      !EndOfFile() && tokens[current].kind in kinds
    }

    /* ----- cursor steps ----- */

    /** Consumes the token at the cursor unless at end of file; answers the token before the cursor. */
    method Advance() returns (prev: Token)
      requires Valid()
      modifies this`current
      ensures Valid()
      ensures current == if old(EndOfFile()) then old(current) else old(current) + 1
      ensures prev == PrevToken()
    {
      if !EndOfFile() {
        current := current + 1;
      }
      prev := PrevToken();
    }

    /** Consumes the token at the cursor when its kind is one of `kinds`. */
    method MatchAtLeast(kinds: seq<TokenType>) returns (matched: bool)
      requires Valid()
      modifies this`current
      ensures Valid()
      ensures matched == old(NextIn(kinds))
      ensures current == if matched then old(current) + 1 else old(current)
      ensures matched ==> PrevToken() == tokens[old(current)]
    {
      var i := 0;
      while i < |kinds|
        invariant 0 <= i <= |kinds| && current == old(current)
        invariant forall j :: 0 <= j < i ==> !IsNextToken(kinds[j])
      {
        if IsNextToken(kinds[i]) {
          var _ := Advance();
          return true;
        }
        i := i + 1;
      }
      return false;
    }

    /** Like `MatchAtLeast`, answering the kind consumed, or `NoneKind` when none was. */
    method MatchAtLeastWithResult(kinds: seq<TokenType>) returns (kind: TokenType)
      requires Valid() && NoneKind !in kinds
      modifies this`current
      ensures Valid()
      ensures kind == NoneKind <==> !old(NextIn(kinds))
      ensures kind != NoneKind ==> kind == tokens[old(current)].kind && kind in kinds
      ensures current == if kind != NoneKind then old(current) + 1 else old(current)
      ensures kind != NoneKind ==> PrevToken() == tokens[old(current)]
    {
      var i := 0;
      while i < |kinds|
        invariant 0 <= i <= |kinds| && current == old(current)
        invariant forall j :: 0 <= j < i ==> !IsNextToken(kinds[j])
      {
        if IsNextToken(kinds[i]) {
          var _ := Advance();
          return kinds[i];
        }
        i := i + 1;
      }
      return NoneKind;
    }

    /**
     * Scans forward from the cursor for a token of kind `kind`, stopping at
     * the end-of-file token. Reading the token at the cursor is out of bounds
     * once the end-of-file token is consumed.
     */
    method MatchPeek(kind: TokenType) returns (r: Parse<bool>)
      requires Valid()
      ensures !r.Failed?
      ensures r.Crashed? <==> current == |tokens|
      ensures r.Crashed? ==> r.exception == OutOfBounds
      ensures r.Parsed? ==> (r.value <==> Ahead(kind))
    {
      if current == |tokens| {
        return Crashed(OutOfBounds);
      }
      var temp := current;
      var next := tokens[temp].kind;
      while next != EOF && next != kind
        invariant current <= temp < |tokens| && next == tokens[temp].kind
        invariant forall j :: current <= j < temp ==> tokens[j].kind != kind
        decreases |tokens| - temp
      {
        temp := temp + 1;
        next := tokens[temp].kind;
      }
      return Parsed(next != EOF);
    }

    /** Reports `message` at `token` and throws. */
    method PanicErrorCustom<T>(token: Token, message: string) returns (r: Parse<T>)
      modifies err
      ensures r == Failed(token, message)
      ensures err.output == old(err.output) + [Format(token.line, Where(token), message)]
      ensures err.errStatus
    {
      err.ReportToken(token, message);
      return Failed(token, message);
    }

    /**
     * Expects a token of kind `expected`, with two second chances: the token
     * before the cursor already has that kind, or one occurs further ahead.
     * In every accepted case exactly one token is consumed, whatever its kind.
     * Otherwise the error is reported at the token at the cursor.
     */
    method PanicError(expected: TokenType, message: string) returns (r: Parse<()>)
      requires Valid() && expected != EOF
      modifies this`current, err
      ensures Valid()
      ensures r.Parsed? <==> old(PrevToken().kind == expected || (current < |tokens| && Ahead(expected)))
      ensures r.Crashed? <==> old(current) == |tokens|
      ensures r.Parsed? ==> old(current) < |tokens| && current == old(current) + 1 && PrevToken() == tokens[old(current)]
      ensures !r.Parsed? ==> current == old(current)
      ensures r.Failed? ==> r == Failed(tokens[current], message)
      ensures ReportsExactly(r)
    {
      var accept := PrevToken().kind == expected;
      if !accept {
        var peek := MatchPeek(expected);
        if peek.Crashed? {
          return Crashed(peek.exception);
        }
        accept := peek.value;
      }
      if accept {
        var _ := Advance();
        return Parsed(());
      }
      var next := NextToken();
      r := PanicErrorCustom(next.value, message);
    }

    /**
     * Error recovery: skips the offending token, then every token up to the
     * next statement boundary or statement keyword, or to end of file.
     */
    method Synchronize()
      requires Valid()
      modifies this`current
      ensures Valid() && old(current) <= current
      ensures !old(EndOfFile()) ==> old(current) < current
      ensures !EndOfFile() ==> tokens[current].kind in SyncKinds
      ensures forall j :: old(current) < j < current ==> tokens[j].kind !in SyncKinds
    {
      var _ := Advance();
      while !EndOfFile()
        invariant Valid() && old(current) <= current
        invariant !old(EndOfFile()) ==> old(current) < current
        invariant forall j :: old(current) < j < current ==> tokens[j].kind !in SyncKinds
        decreases |tokens| - current
      {
        if tokens[current].kind in SyncKinds {
          return;
        }
        var _ := Advance();
      }
    }

    /** A fresh node id. */
    method NewId() returns (id: nat)
      modifies this`nextId
      ensures id == old(nextId) && nextId == old(nextId) + 1
    {
      id := nextId;
      nextId := nextId + 1;
    }

    /* ----- what every rule keeps ----- */

    /** The cursor and the id counter only move forward. */
    twostate predicate Moved()
      reads this
    {
      Valid() && old(current) <= current && old(nextId) <= nextId
    }

    /** One report, the thrown error's, exactly when the rule failed. */
    twostate predicate ReportsExactly<T>(new r: Parse<T>)
      reads err
    {
      if r.Failed? then
        err.output == old(err.output) + [Format(r.at.line, Where(r.at), r.message)] && err.errStatus
      else err.output == old(err.output) && err.errStatus == old(err.errStatus)
    }

    /** Reports are only appended, and the error flag is set exactly when one was. */
    twostate predicate ReportsGrow()
      reads err
    {
      && old(err.output) <= err.output
      && err.errStatus == (old(err.errStatus) || |err.output| > |old(err.output)|)
    }

    /** A failed rule reported at least one error. */
    twostate predicate FailureReported<T>(new r: Parse<T>)
      reads err
    {
      r.Failed? ==> |err.output| > |old(err.output)|
    }

    /* ----- expressions ----- */

    /** `expression -> assignment` */
    method ParseExpression() returns (r: Parse<Expression>)
      requires Valid()
      modifies this, err
      ensures Moved() && ReportsExactly(r)
      ensures r.Parsed? ==> old(current) < current && Shaped(r.value)
      ensures old(current) == |tokens| ==> r.Crashed?
      decreases |tokens| - current, 14
    {
      ghost var rewrite;
      r, rewrite := ParseAssignment();
    }

    /**
     * `assignment -> ternary ("=" ternary)?`: the left side is parsed as an
     * expression and then turned into an assignment target. `rewrite` holds
     * the two sides, the `=` and the id handed to `Retarget` once both sides
     * are parsed; without an `=` the ternary is the result.
     */
    method ParseAssignment() returns (r: Parse<Expression>, ghost rewrite: Option<(Expression, Token, Expression, nat)>)
      requires Valid()
      modifies this, err
      ensures Moved() && ReportsExactly(r)
      ensures r.Parsed? ==> old(current) < current && Shaped(r.value)
      ensures old(current) == |tokens| ==> r.Crashed?
      ensures r.Parsed? && rewrite.None? ==> Level(r.value) >= 1 && !IsNextToken(Equal)
      ensures rewrite.Some? ==> var (target, equal, value, id) := rewrite.value;
        && equal.kind == Equal
        && Shaped(target) && Level(target) >= 1 && Shaped(value) && Level(value) >= 1
        && r == Retarget(target, equal, value, id)
      decreases |tokens| - current, 13
    {
      rewrite := None;
      var lhs := ParseTernary();
      if !lhs.Parsed? {
        r := lhs;
        return;
      }
      var matched := MatchAtLeast([Equal]);
      if !matched {
        r := lhs;
        return;
      }
      var equal := PrevToken();
      var rhs := ParseTernary();
      if !rhs.Parsed? {
        r := rhs;
        return;
      }
      var id := nextId;
      if lhs.value.VarAccess? {
        id := NewId();
      }
      r := Retarget(lhs.value, equal, rhs.value, id);
      rewrite := Some((lhs.value, equal, rhs.value, id));
      if r.Failed? {
        r := PanicErrorCustom(equal, InvalidTargetMessage);
      }
    }

    /** `ternary -> logicOr (("?" | ":") logicOr ":" logicOr)*`, grouping to the left. */
    method ParseTernary() returns (r: Parse<Expression>)
      requires Valid()
      modifies this, err
      ensures Moved() && ReportsExactly(r)
      ensures r.Parsed? ==> old(current) < current && Shaped(r.value) && Level(r.value) >= 1
      ensures old(current) == |tokens| ==> r.Crashed?
      decreases |tokens| - current, 12
    {
      var lhs := ParseOperatorLevel(2);
      if !lhs.Parsed? {
        return lhs;
      }
      var e := lhs.value;
      var matched := MatchAtLeast([Question, Colon]);
      while matched
        invariant Moved() && old(current) < current
        invariant err.output == old(err.output) && err.errStatus == old(err.errStatus)
        invariant Shaped(e) && Level(e) >= 1
        decreases |tokens| - current
      {
        var branches := ParseBranches();
        if !branches.Parsed? {
          return Pass(branches);
        }
        var (first, second) := branches.value;
        e := Ternary(e, Token(TernaryOp, TernaryLexeme, LitNil, PrevToken().line), first, second);
        matched := MatchAtLeast([Question, Colon]);
      }
      return Parsed(e);
    }

    /** The two branches of a conditional expression, `logicOr ":" logicOr`, after its `?`. */
    method ParseBranches() returns (r: Parse<(Expression, Expression)>)
      requires Valid()
      modifies this, err
      ensures Moved() && ReportsExactly(r)
      ensures r.Parsed? ==> old(current) < current
      ensures r.Parsed? ==> Shaped(r.value.0) && Level(r.value.0) >= 2 && Shaped(r.value.1) && Level(r.value.1) >= 2
      decreases |tokens| - current, 11
    {
      var first := ParseOperatorLevel(2);
      if !first.Parsed? {
        return Pass(first);
      }
      var colon := PanicError(Colon, ColonMessage);
      if !colon.Parsed? {
        return Pass(colon);
      }
      var second := ParseOperatorLevel(2);
      if !second.Parsed? {
        return Pass(second);
      }
      r := Parsed((first.value, second.value));
    }

    /**
     * One binary level, from `or` (2) to `* /` (7): operands of the next
     * level joined by this level's operators, grouping to the left.
     */
    method ParseOperatorLevel(level: nat) returns (r: Parse<Expression>)
      requires Valid() && 2 <= level <= 7
      modifies this, err
      ensures Moved() && ReportsExactly(r)
      ensures r.Parsed? ==> old(current) < current && Shaped(r.value) && Level(r.value) >= level
      ensures old(current) == |tokens| ==> r.Crashed?
      decreases |tokens| - current, 12 - level
    {
      var lhs;
      if level == 7 {
        lhs := ParseUnary();
      } else {
        lhs := ParseOperatorLevel(level + 1);
      }
      if !lhs.Parsed? {
        return lhs;
      }
      var e := lhs.value;
      var kinds := KindsAt(level);
      var matched := MatchAtLeast(kinds);
      while matched
        invariant Moved() && old(current) < current
        invariant err.output == old(err.output) && err.errStatus == old(err.errStatus)
        invariant Shaped(e) && Level(e) >= level
        invariant matched ==> PrevToken().kind in kinds
        decreases |tokens| - current
      {
        var op := PrevToken();
        var rhs;
        if level == 7 {
          rhs := ParseUnary();
        } else {
          rhs := ParseOperatorLevel(level + 1);
        }
        if !rhs.Parsed? {
          return rhs;
        }
        CombineShaped(e, op, rhs.value, level);
        e := Combine(e, op, rhs.value);
        matched := MatchAtLeast(kinds);
      }
      return Parsed(e);
    }

    /** `unary -> ("!" | "-") unary | call`; a unary `+` is an error at the token after it. */
    method ParseUnary() returns (r: Parse<Expression>)
      requires Valid()
      modifies this, err
      ensures Moved() && ReportsExactly(r)
      ensures r.Parsed? ==> old(current) < current && Shaped(r.value) && Level(r.value) >= 8
      ensures old(current) == |tokens| ==> r.Crashed?
      ensures old(current) < |tokens| && tokens[old(current)].kind == Plus ==>
        old(current) + 1 < |tokens| && r == Failed(tokens[old(current) + 1], UnaryPlusMessage)
      ensures r.Parsed? && old(current) < |tokens| && tokens[old(current)].kind in {LogicNot, Subtract} ==>
        r.value.Unary? && r.value.operator == tokens[old(current)]
      decreases |tokens| - current, 4
    {
      var kind := MatchAtLeastWithResult([LogicNot, Subtract, Plus]);
      if kind != NoneKind {
        if kind == Plus {
          // The `+` is not the final end-of-file token, so a token follows it.
          var next := NextToken();
          assert next.Parsed?;
          r := PanicErrorCustom(next.value, UnaryPlusMessage);
          return;
        }
        var op := PrevToken();
        var operand := ParseUnary();
        if !operand.Parsed? {
          return operand;
        }
        return Parsed(Unary(op, operand.value));
      }
      r := ParseCall();
    }

    /** `call -> primary ("(" arguments? ")" | "." IDENTIFIER)*` */
    method ParseCall() returns (r: Parse<Expression>)
      requires Valid()
      modifies this, err
      ensures Moved() && ReportsExactly(r)
      ensures r.Parsed? ==> old(current) < current && Shaped(r.value) && Level(r.value) == 9
      ensures old(current) == |tokens| ==> r.Crashed?
      decreases |tokens| - current, 3
    {
      var callee := ParsePrimary();
      if !callee.Parsed? {
        return callee;
      }
      var e := callee.value;
      while true
        invariant Moved() && old(current) < current
        invariant err.output == old(err.output) && err.errStatus == old(err.errStatus)
        invariant Shaped(e) && Level(e) == 9
        decreases |tokens| - current
      {
        var suffix := ParseSuffix(e);
        if !suffix.Parsed? {
          return Pass(suffix);
        }
        if suffix.value.None? {
          break;
        }
        e := suffix.value.value;
      }
      return Parsed(e);
    }

    /**
     * One suffix of a call chain: an argument list or a property name. `None`
     * when the cursor is at neither `(` nor `.`, and then nothing is consumed.
     */
    method ParseSuffix(e: Expression) returns (r: Parse<Option<Expression>>)
      requires Valid() && Shaped(e) && Level(e) == 9
      modifies this, err
      ensures Moved() && ReportsExactly(r)
      ensures r.Parsed? && r.value.None? ==> current == old(current)
      ensures r.Parsed? && r.value.Some? ==> old(current) < current && Shaped(r.value.value) && Level(r.value.value) == 9
      ensures r.Parsed? && r.value.Some? ==> r.value.value.Call? || r.value.value.Get?
      decreases |tokens| - current, 2
    {
      var paren := MatchAtLeast([LeftParen]);
      if paren {
        var call := FinishCall(e);
        if !call.Parsed? {
          return Pass(call);
        }
        return Parsed(Some(call.value));
      }
      var dot := MatchAtLeast([Dot]);
      if !dot {
        return Parsed(None);
      }
      var get := ParseProperty(e);
      if !get.Parsed? {
        return Pass(get);
      }
      r := Parsed(Some(get.value));
    }

    /** The property name after a `.`, read off `e`. */
    method ParseProperty(e: Expression) returns (r: Parse<Expression>)
      requires Valid() && Shaped(e) && Level(e) == 9
      modifies this, err
      ensures Moved() && ReportsExactly(r)
      ensures r.Parsed? ==> old(current) < current && r.value.Get? && r.value.obj == e
      ensures r.Parsed? ==> r.value.property == PrevToken() && Shaped(r.value)
    {
      var name := PanicError(Identifier, PropertyNameMessage);
      if !name.Parsed? {
        return Pass(name);
      }
      r := Parsed(Get(e, PrevToken()));
    }

    /** The arguments of a call and its closing parenthesis. */
    method FinishCall(callee: Expression) returns (r: Parse<Expression>)
      requires Valid()
      modifies this, err
      ensures Moved() && ReportsExactly(r)
      ensures r.Parsed? ==> old(current) < current && r.value.Call? && r.value.callee == callee
      ensures r.Parsed? ==> |r.value.args| <= MaxArity && forall i :: 0 <= i < |r.value.args| ==> Shaped(r.value.args[i])
      decreases |tokens| - current, 16
    {
      ghost var listed;
      var args;
      args, listed := ParseArguments();
      if !args.Parsed? {
        return Pass(args);
      }
      var close := PanicError(RightParen, CloseArgumentsMessage);
      if !close.Parsed? {
        return Pass(close);
      }
      r := Parsed(Call(callee, PrevToken(), args.value));
    }

    /**
     * A comma-separated argument list, empty when the cursor is at `)`. The
     * 256th argument is an error at its first token. `listed` holds the
     * arguments parsed: the result when the list ends, i.e. when no comma
     * follows; 255 of them and a comma are the error at the token after the
     * comma.
     */
    method ParseArguments() returns (r: Parse<seq<Expression>>, ghost listed: seq<Expression>)
      requires Valid()
      modifies this, err
      ensures Moved() && ReportsExactly(r)
      ensures r.Parsed? ==> |r.value| <= MaxArity && forall i :: 0 <= i < |r.value| ==> Shaped(r.value[i])
      ensures old(current) == |tokens| ==> r.Crashed?
      ensures |listed| <= MaxArity
      ensures r.Parsed? ==> r.value == listed && !IsNextToken(Comma)
      ensures |listed| == MaxArity && !r.Parsed? ==>
        && 0 < current < |tokens| && tokens[current - 1].kind == Comma
        && r == Failed(tokens[current], TooManyArgumentsMessage)
      decreases |tokens| - current, 15
    {
      var args: seq<Expression> := [];
      listed := args;
      if IsNextToken(RightParen) {
        return Parsed(args), listed;
      }
      var more := true;
      while more
        invariant Moved()
        invariant err.output == old(err.output) && err.errStatus == old(err.errStatus)
        invariant |args| <= MaxArity && forall i :: 0 <= i < |args| ==> Shaped(args[i])
        invariant old(current) == |tokens| ==> more && args == []
        invariant listed == args
        invariant more && |args| > 0 ==> 0 < current && tokens[current - 1].kind == Comma
        invariant !more ==> !IsNextToken(Comma)
        decreases |tokens| - current, more
      {
        if |args| >= MaxArity {
          // The comma before the cursor is not the final end-of-file token.
          var next := NextToken();
          assert next.Parsed?;
          r := PanicErrorCustom(next.value, TooManyArgumentsMessage);
          return;
        }
        var arg := ParseExpression();
        if !arg.Parsed? {
          return Pass(arg), listed;
        }
        args := args + [arg.value];
        listed := args;
        more := MatchAtLeast([Comma]);
      }
      r := Parsed(args);
    }

    /**
     * `primary -> "false" | "true" | "nil" | NUMBER | STRING | "(" expression ")"
     * | IDENTIFIER | "this"`; anything else is an error at the cursor.
     */
    method ParsePrimary() returns (r: Parse<Expression>)
      requires Valid()
      modifies this, err
      ensures Moved() && ReportsExactly(r)
      ensures r.Parsed? ==> old(current) < current && Shaped(r.value) && Level(r.value) == 9
      ensures r.Parsed? ==> r.value.Literal? || r.value.Grouping? || r.value.VarAccess? || r.value.This?
      ensures old(current) == |tokens| ==> r.Crashed?
      ensures old(current) < |tokens| && tokens[old(current)].kind !in PrimaryKinds ==>
        r == Failed(tokens[old(current)], ExpectExpressionMessage)
      ensures old(current) < |tokens| && tokens[old(current)].kind in PrimaryKinds - {LeftParen} ==>
        r.Parsed? && current == old(current) + 1
      decreases |tokens| - current, 1
    {
      var matched := MatchAtLeast([False]);
      if matched {
        return Parsed(Literal(LitBool(false)));
      }
      matched := MatchAtLeast([True]);
      if matched {
        return Parsed(Literal(LitBool(true)));
      }
      matched := MatchAtLeast([NilKind]);
      if matched {
        return Parsed(Literal(LitNil));
      }
      matched := MatchAtLeast([NumberKind, StringKind]);
      if matched {
        return Parsed(Literal(PrevToken().literal));
      }
      matched := MatchAtLeast([LeftParen]);
      if matched {
        var inner := ParseExpression();
        if !inner.Parsed? {
          return inner;
        }
        var close := PanicError(RightParen, CloseGroupingMessage);
        if !close.Parsed? {
          return Pass(close);
        }
        return Parsed(Grouping(inner.value));
      }
      matched := MatchAtLeast([Identifier]);
      if matched {
        var id := NewId();
        return Parsed(VarAccess(id, PrevToken()));
      }
      matched := MatchAtLeast([TokenType.This]);
      if matched {
        var id := NewId();
        return Parsed(Expression.This(id, PrevToken()));
      }
      var next := NextToken();
      if next.Crashed? {
        return Crashed(next.exception);
      }
      r := PanicErrorCustom(next.value, ExpectExpressionMessage);
    }

    /* ----- statements ----- */

    /**
     * `statement -> block | if | while | for | print | return | expression`;
     * each keyword is consumed before its rule runs.
     */
    method ParseStatement() returns (r: Parse<Statement>)
      requires Valid()
      modifies this, err
      ensures Moved() && ReportsGrow() && FailureReported(r)
      ensures r.Parsed? ==> old(current) < current && ShapedStmt(r.value) && !r.value.Missing?
      ensures old(current) == |tokens| ==> r.Crashed?
      decreases |tokens| - current, 18
    {
      var matched := MatchAtLeast([LeftBrace]);
      if matched {
        r := ParseBlockStatement();
        return;
      }
      matched := MatchAtLeast([TokenType.If]);
      if matched {
        r := ParseIf();
        return;
      }
      matched := MatchAtLeast([TokenType.While]);
      if matched {
        r := ParseWhile();
        return;
      }
      matched := MatchAtLeast([TokenType.For]);
      if matched {
        ghost var clauses, body;
        r, clauses, body := ParseFor();
        return;
      }
      matched := MatchAtLeast([TokenType.Print]);
      if matched {
        r := ParsePrint();
        return;
      }
      matched := MatchAtLeast([TokenType.Return]);
      if matched {
        r := ParseReturn();
        return;
      }
      r := ParseExpressionStatement();
    }

    /** A block statement after its `{`. */
    method ParseBlockStatement() returns (r: Parse<Statement>)
      requires Valid() && current > 0
      modifies this, err
      ensures Moved() && ReportsGrow() && FailureReported(r)
      ensures r.Parsed? ==> ShapedStmt(r.value) && r.value.Block?
      ensures old(current) == |tokens| ==> r.Crashed?
      decreases |tokens| - current, 22
    {
      var block := ParseBlock();
      if !block.Parsed? {
        return Pass(block);
      }
      r := Parsed(Block(block.value));
    }

    /** `print expression` after its keyword. */
    method ParsePrint() returns (r: Parse<Statement>)
      requires Valid()
      modifies this, err
      ensures Moved() && ReportsExactly(r)
      ensures r.Parsed? ==> old(current) < current && ShapedStmt(r.value) && r.value.Print?
      ensures old(current) == |tokens| ==> r.Crashed?
      decreases |tokens| - current, 16
    {
      var e := ParseExpression();
      if !e.Parsed? {
        return Pass(e);
      }
      r := Parsed(Statement.Print(e.value));
    }

    /** An expression used as a statement. */
    method ParseExpressionStatement() returns (r: Parse<Statement>)
      requires Valid()
      modifies this, err
      ensures Moved() && ReportsExactly(r)
      ensures r.Parsed? ==> old(current) < current && ShapedStmt(r.value) && r.value.Expr?
      ensures old(current) == |tokens| ==> r.Crashed?
      decreases |tokens| - current, 16
    {
      var e := ParseExpression();
      if !e.Parsed? {
        return Pass(e);
      }
      r := Parsed(Expr(e.value));
    }

    /** A parenthesized condition, `"(" expression ")"`, with the messages of the rule using it. */
    method ParseCondition(openMessage: string, closeMessage: string) returns (r: Parse<Expression>)
      requires Valid()
      modifies this, err
      ensures Moved() && ReportsExactly(r)
      ensures r.Parsed? ==> old(current) < current && Shaped(r.value)
      decreases |tokens| - current, 15
    {
      var open := PanicError(LeftParen, openMessage);
      if !open.Parsed? {
        return Pass(open);
      }
      var condition := ParseExpression();
      if !condition.Parsed? {
        return condition;
      }
      var close := PanicError(RightParen, closeMessage);
      if !close.Parsed? {
        return Pass(close);
      }
      r := condition;
    }

    /**
     * The `;` after a body or a branch, expected unless the cursor is at a
     * `}` (the block it closes has just been parsed).
     */
    method ParseTerminator(message: string) returns (r: Parse<()>)
      requires Valid()
      modifies this`current, err
      ensures Valid() && old(current) <= current && ReportsExactly(r)
      ensures old(current) == |tokens| ==> r.Crashed?
      ensures r.Parsed? && tokens[old(current)].kind == RightBrace ==> current == old(current)
      ensures old(current) < |tokens| && tokens[old(current)].kind == RightBrace ==> r == Parsed(())
      ensures old(current) < |tokens| && tokens[old(current)].kind != RightBrace ==>
        && !r.Crashed?
        && (r.Parsed? <==> old(PrevToken().kind == SemiColon || Ahead(SemiColon)))
        && (r.Parsed? ==> current == old(current) + 1 && PrevToken() == tokens[old(current)])
        && (r.Failed? ==> r == Failed(tokens[old(current)], message))
    {
      var next := NextToken();
      if next.Crashed? {
        return Crashed(next.exception);
      }
      if next.value.kind != RightBrace {
        r := PanicError(SemiColon, message);
        return;
      }
      r := Parsed(());
    }

    /** `if (condition) statement (";")? (else statement)?`, after the `if`. */
    method ParseIf() returns (r: Parse<Statement>)
      requires Valid()
      modifies this, err
      ensures Moved() && ReportsGrow() && FailureReported(r)
      ensures r.Parsed? ==> ShapedStmt(r.value) && r.value.If?
      decreases |tokens| - current, 17
    {
      var condition := ParseCondition(IfOpenMessage, IfCloseMessage);
      if !condition.Parsed? {
        return Pass(condition);
      }
      var thenBranch := ParseStatement();
      if !thenBranch.Parsed? {
        return Pass(thenBranch);
      }
      var end := ParseTerminator(StatementEndMessage);
      if !end.Parsed? {
        return Pass(end);
      }
      var elseBranch := ParseElse();
      if !elseBranch.Parsed? {
        return Pass(elseBranch);
      }
      r := Parsed(Statement.If(condition.value, thenBranch.value, elseBranch.value));
    }

    /** The optional `else statement` of an `if`; `None`, consuming nothing, without an `else`. */
    method ParseElse() returns (r: Parse<Option<Statement>>)
      requires Valid()
      modifies this, err
      ensures Moved() && ReportsGrow() && FailureReported(r)
      ensures r.Parsed? && r.value.None? ==> current == old(current) && err.output == old(err.output)
      ensures r.Parsed? && r.value.Some? ==> ShapedStmt(r.value.value)
      decreases |tokens| - current, 16
    {
      var hasElse := MatchAtLeast([Else]);
      if !hasElse {
        return Parsed(None);
      }
      var s := ParseStatement();
      if !s.Parsed? {
        return Pass(s);
      }
      r := Parsed(Some(s.value));
    }

    /** `while (condition) statement`, after the `while`. */
    method ParseWhile() returns (r: Parse<Statement>)
      requires Valid()
      modifies this, err
      ensures Moved() && ReportsGrow() && FailureReported(r)
      ensures r.Parsed? ==> ShapedStmt(r.value) && r.value.While?
      decreases |tokens| - current, 17
    {
      var condition := ParseCondition(WhileOpenMessage, WhileCloseMessage);
      if !condition.Parsed? {
        return Pass(condition);
      }
      var body := ParseStatement();
      if !body.Parsed? {
        return Pass(body);
      }
      r := Parsed(Statement.While(condition.value, body.value));
    }

    /**
     * `for (initializer? ; condition? ; increment? ) statement`, after the
     * `for`, desugared into a `while`. A `;` in place of the body leaves the
     * body out.
     */
    method ParseFor() returns (r: Parse<Statement>, ghost clauses: (Option<Statement>, Option<Expression>, Option<Expression>), ghost body: Option<Statement>)
      requires Valid()
      modifies this, err
      ensures Moved() && ReportsGrow() && FailureReported(r)
      ensures r.Parsed? ==> ShapedStmt(r.value) && r.value == DesugarFor(clauses.0, clauses.1, clauses.2, body)
      ensures r.Parsed? && body.None? ==> PrevToken().kind == SemiColon
      ensures r.Parsed? ==> var (initializer, condition, increment) := clauses; var loop := LoopOf(r.value);
        && (initializer.Some? <==> r.value.Block?)
        && (initializer.Some? ==> r.value.stmts[0] == initializer.value)
        && loop.While?
        && loop.condition == (if condition.Some? then condition.value else Literal(LitBool(true)))
        && (increment.Some? && body.Some? ==> loop.body == Block([body.value, Expr(increment.value)]))
        && (increment.Some? && body.None? ==> loop.body == Expr(increment.value))
        && (increment.None? ==> loop.body == if body.Some? then body.value else Missing)
      decreases |tokens| - current, 23
    {
      clauses, body := (None, None, None), None;
      var parsed := ParseForClauses();
      if !parsed.Parsed? {
        return Pass(parsed), clauses, body;
      }
      clauses := parsed.value;
      var (initializer, condition, increment) := parsed.value;
      var loopBody: Option<Statement> := None;
      var empty := MatchAtLeast([SemiColon]);
      if !empty {
        var s := ParseStatement();
        if !s.Parsed? {
          return Pass(s), clauses, body;
        }
        loopBody := Some(s.value);
      }
      body := loopBody;
      DesugarShaped(initializer, condition, increment, loopBody);
      ForLoopShape(initializer, condition, increment, loopBody);
      r := Parsed(DesugarFor(initializer, condition, increment, loopBody));
    }

    /**
     * The parenthesized clauses of a `for`. An initializer that failed to
     * parse (and was recovered from) is dropped.
     */
    method ParseForClauses() returns (r: Parse<(Option<Statement>, Option<Expression>, Option<Expression>)>)
      requires Valid()
      modifies this, err
      ensures Moved() && ReportsGrow() && FailureReported(r)
      ensures r.Parsed? ==> old(current) < current
      ensures r.Parsed? ==> var (initializer, condition, increment) := r.value;
        && (initializer.Some? ==> ShapedStmt(initializer.value) && !initializer.value.Missing?)
        && (condition.Some? ==> Shaped(condition.value))
        && (increment.Some? ==> Shaped(increment.value))
      decreases |tokens| - current, 22
    {
      var open := PanicError(LeftParen, ForOpenMessage);
      if !open.Parsed? {
        return Pass(open);
      }
      var initializer := ParseForInitializer();
      if !initializer.Parsed? {
        return Pass(initializer);
      }
      var steps := ParseForSteps();
      if !steps.Parsed? {
        return Pass(steps);
      }
      r := Parsed((initializer.value, steps.value.0, steps.value.1));
    }

    /** The condition clause and the increment clause of a `for`, with the `;` and `)` ending them. */
    method ParseForSteps() returns (r: Parse<(Option<Expression>, Option<Expression>)>)
      requires Valid()
      modifies this, err
      ensures Moved() && ReportsGrow() && FailureReported(r)
      ensures r.Parsed? ==> (r.value.0.Some? ==> Shaped(r.value.0.value)) && (r.value.1.Some? ==> Shaped(r.value.1.value))
      decreases |tokens| - current, 20
    {
      var condition := ParseForClause(SemiColon, ForConditionMessage);
      if !condition.Parsed? {
        return Pass(condition);
      }
      var increment := ParseForClause(RightParen, ForIncrementMessage);
      if !increment.Parsed? {
        return Pass(increment);
      }
      r := Parsed((condition.value, increment.value));
    }

    /** The initializer clause of a `for` with its `;`; `None` when it is empty or failed to parse. */
    method ParseForInitializer() returns (r: Parse<Option<Statement>>)
      requires Valid() && current > 0
      modifies this, err
      ensures Moved() && ReportsGrow() && FailureReported(r)
      ensures r.Parsed? ==> old(current) < current
      ensures r.Parsed? && r.value.Some? ==> ShapedStmt(r.value.value) && !r.value.value.Missing?
      decreases |tokens| - current, 21
    {
      var empty := MatchAtLeast([SemiColon]);
      if empty {
        return Parsed(None);
      }
      var d := ParseDeclaration();
      if d.Crashed? {
        return Pass(d);
      }
      var semi := PanicError(SemiColon, ForInitializerMessage);
      if !semi.Parsed? {
        return Pass(semi);
      }
      r := Parsed(if d.value.Missing? then None else Some(d.value));
    }

    /** An optional expression clause of a `for` and the token that ends it. */
    method ParseForClause(closer: TokenType, message: string) returns (r: Parse<Option<Expression>>)
      requires Valid() && closer != EOF
      modifies this, err
      ensures Moved() && ReportsExactly(r)
      ensures r.Parsed? && r.value.Some? ==> Shaped(r.value.value)
      decreases |tokens| - current, 17
    {
      var empty := MatchAtLeast([SemiColon]);
      if empty {
        return Parsed(None);
      }
      var e := ParseExpression();
      if !e.Parsed? {
        return Pass(e);
      }
      var close := PanicError(closer, message);
      if !close.Parsed? {
        return Pass(close);
      }
      r := Parsed(Some(e.value));
    }

    /**
     * `return expression? ";"`, after the `return`. The `;` is checked and
     * then left unconsumed, for the statement list to pass over.
     */
    method ParseReturn() returns (r: Parse<Statement>)
      requires Valid()
      modifies this, err
      ensures Moved() && ReportsExactly(r)
      ensures r.Parsed? ==> ShapedStmt(r.value) && r.value.Return? && r.value.keyword == old(PrevToken())
      ensures r.Parsed? && old(IsNextToken(SemiColon)) ==> r.value.returnVal.None? && current == old(current)
      decreases |tokens| - current, 17
    {
      var keyword := PrevToken();
      var value := ParseReturnValue();
      if !value.Parsed? {
        return Pass(value);
      }
      var semi := PanicError(SemiColon, ReturnEndMessage);
      if !semi.Parsed? {
        return Pass(semi);
      }
      current := current - 1;
      r := Parsed(Statement.Return(keyword, value.value));
    }

    /** The value a `return` gives back: none when a `;` follows at once. */
    method ParseReturnValue() returns (r: Parse<Option<Expression>>)
      requires Valid()
      modifies this, err
      ensures Moved() && ReportsExactly(r)
      ensures r.Parsed? ==> (r.value.None? <==> old(IsNextToken(SemiColon)))
      ensures r.Parsed? && r.value.None? ==> current == old(current)
      ensures r.Parsed? && r.value.Some? ==> old(current) < current && Shaped(r.value.value)
      decreases |tokens| - current, 16
    {
      if IsNextToken(SemiColon) {
        return Parsed(None);
      }
      var e := ParseExpression();
      if !e.Parsed? {
        return Pass(e);
      }
      r := Parsed(Some(e.value));
    }

    /* ----- declarations ----- */

    /**
     * `declaration -> varDecl | funDecl | classDecl | statement`. A syntax
     * error inside is caught here: the parser resynchronizes and the
     * declaration becomes the null statement.
     */
    method ParseDeclaration() returns (r: Parse<Statement>)
      requires Valid()
      modifies this, err
      ensures Moved() && ReportsGrow() && !r.Failed?
      ensures r.Parsed? ==> ShapedStmt(r.value)
      ensures r.Parsed? && r.value.Missing? ==> |err.output| > |old(err.output)|
      ensures !old(EndOfFile()) ==> r.Crashed? || old(current) < current
      ensures old(current) == |tokens| ==> r.Crashed?
      decreases |tokens| - current, 20
    {
      r := ParseDeclarationRule();
      if r.Failed? {
        Synchronize();
        r := Parsed(Missing);
      }
    }

    /** The declaration rule itself, before a syntax error in it is caught. */
    method ParseDeclarationRule() returns (r: Parse<Statement>)
      requires Valid()
      modifies this, err
      ensures Moved() && ReportsGrow() && FailureReported(r)
      ensures r.Parsed? ==> old(current) < current && ShapedStmt(r.value) && !r.value.Missing?
      ensures old(current) == |tokens| ==> r.Crashed?
      decreases |tokens| - current, 19
    {
      var matched := MatchAtLeast([TokenType.Var]);
      if matched {
        r := ParseVar();
        return;
      }
      matched := MatchAtLeast([TokenType.Function]);
      if matched {
        var f := ParseFunction(FunctionKind);
        r := if f.Parsed? then Parsed(FuncPrototype(f.value)) else Pass(f);
        return;
      }
      matched := MatchAtLeast([TokenType.Class]);
      if matched {
        r := ParseClass();
        return;
      }
      r := ParseStatement();
    }

    /** `var IDENTIFIER ("=" expression)?`, after the `var`; the `;` is left to the statement list. */
    method ParseVar() returns (r: Parse<Statement>)
      requires Valid()
      modifies this, err
      ensures Moved() && ReportsExactly(r)
      ensures r.Parsed? ==> old(current) < current && ShapedStmt(r.value) && r.value.VarDeclare?
      decreases |tokens| - current, 17
    {
      var name := PanicError(Identifier, VariableNameMessage);
      if !name.Parsed? {
        return Pass(name);
      }
      var identifier := PrevToken();
      var initializer: Option<Expression> := None;
      var hasValue := MatchAtLeast([Equal]);
      if hasValue {
        var e := ParseExpression();
        if !e.Parsed? {
          return Pass(e);
        }
        initializer := Some(e.value);
      }
      r := Parsed(VarDeclare(identifier, initializer));
    }

    /**
     * A function or method after its introducing token: name, parameters and
     * body. `kind` ("function" or "method") only enters the messages.
     */
    method ParseFunction(kind: string) returns (r: Parse<FuncDecl>)
      requires Valid()
      modifies this, err
      ensures Moved() && ReportsGrow() && FailureReported(r)
      ensures r.Parsed? ==> old(current) < current && ShapedFunc(r.value)
      decreases |tokens| - current, 17
    {
      var name := PanicError(Identifier, NameMessage(kind));
      if !name.Parsed? {
        return Pass(name);
      }
      var identifier := PrevToken();
      var open := PanicError(LeftParen, ParametersMessage(kind));
      if !open.Parsed? {
        return Pass(open);
      }
      ghost var listed;
      var params;
      params, listed := ParseParameters();
      if !params.Parsed? {
        return Pass(params);
      }
      var close := PanicError(RightParen, CloseParametersMessage(kind));
      if !close.Parsed? {
        return Pass(close);
      }
      var body := ParseFunctionBody(kind);
      if !body.Parsed? {
        return Pass(body);
      }
      r := Parsed(FuncDecl(identifier, params.value, body.value));
    }

    /**
     * A comma-separated parameter list, empty when the cursor is at `)`. The
     * 256th parameter is an error at its first token. `listed` holds the
     * names taken: the result when the list ends, i.e. when no comma
     * follows; 255 of them and a comma are the error at the token after the
     * comma.
     */
    method ParseParameters() returns (r: Parse<seq<Token>>, ghost listed: seq<Token>)
      requires Valid()
      modifies this`current, err
      ensures Valid() && old(current) <= current && ReportsExactly(r)
      ensures r.Parsed? ==> |r.value| <= MaxArity
      ensures |listed| <= MaxArity
      ensures r.Parsed? ==> r.value == listed && !IsNextToken(Comma)
      ensures |listed| == MaxArity && !r.Parsed? ==>
        && 0 < current < |tokens| && tokens[current - 1].kind == Comma
        && r == Failed(tokens[current], TooManyParametersMessage)
    {
      var params: seq<Token> := [];
      listed := params;
      if IsNextToken(RightParen) {
        return Parsed(params), listed;
      }
      var more := true;
      while more
        invariant Valid() && old(current) <= current
        invariant err.output == old(err.output) && err.errStatus == old(err.errStatus)
        invariant |params| <= MaxArity
        invariant listed == params
        invariant more && |params| > 0 ==> 0 < current && tokens[current - 1].kind == Comma
        invariant !more ==> !IsNextToken(Comma)
        decreases |tokens| - current, more
      {
        if |params| >= MaxArity {
          // The comma before the cursor is not the final end-of-file token.
          var next := NextToken();
          assert next.Parsed?;
          r := PanicErrorCustom(next.value, TooManyParametersMessage);
          return;
        }
        var param := PanicError(Identifier, ParameterNameMessage);
        if !param.Parsed? {
          return Pass(param), listed;
        }
        params := params + [PrevToken()];
        listed := params;
        more := MatchAtLeast([Comma]);
      }
      r := Parsed(params);
    }

    /** A function body: a block, or a single statement, then its terminator. */
    method ParseFunctionBody(kind: string) returns (r: Parse<seq<Statement>>)
      requires Valid()
      modifies this, err
      ensures Moved() && ReportsGrow() && FailureReported(r)
      ensures r.Parsed? ==> old(current) < current && forall i :: 0 <= i < |r.value| ==> ShapedStmt(r.value[i])
      decreases |tokens| - current, 19
    {
      var body: seq<Statement>;
      var brace := MatchAtLeast([LeftBrace]);
      if brace {
        var block := ParseBlock();
        if !block.Parsed? {
          return Pass(block);
        }
        body := block.value;
      } else {
        var s := ParseStatement();
        if !s.Parsed? {
          return Pass(s);
        }
        body := [s.value];
      }
      var end := ParseTerminator(BodyEndMessage(kind));
      if !end.Parsed? {
        return Pass(end);
      }
      r := Parsed(body);
    }

    /**
     * `class IDENTIFIER ("<" IDENTIFIER)? "{" method* "}"`, after the
     * `class`.
     */
    method ParseClass() returns (r: Parse<Statement>)
      requires Valid()
      modifies this, err
      ensures Moved() && ReportsGrow() && FailureReported(r)
      ensures r.Parsed? ==> old(current) < current && ShapedStmt(r.value) && r.value.ClassDeclare?
      ensures r.Parsed? && r.value.superClass.Some? ==> r.value.superClass.value.VarAccess? && r.value.superClass.value.name.kind == Less
      decreases |tokens| - current, 20
    {
      var head := ParseClassHead();
      if !head.Parsed? {
        return Pass(head);
      }
      var methods := ParseClassBody();
      if !methods.Parsed? {
        return Pass(methods);
      }
      r := Parsed(ClassDeclare(head.value.0, head.value.1, methods.value));
    }

    /**
     * The class name and the superclass clause. The clause records the token
     * taken after the class name, which is the `<` itself: the name before
     * the cursor already satisfies the expected identifier.
     */
    method ParseClassHead() returns (r: Parse<(Token, Option<Expression>)>)
      requires Valid()
      modifies this, err
      ensures Moved() && ReportsExactly(r)
      ensures r.Parsed? ==> old(current) < current
      ensures r.Parsed? && r.value.1.Some? ==> r.value.1.value.VarAccess? && r.value.1.value.name.kind == Less
      ensures r.Parsed? ==> r.value.0 == tokens[old(current)]
      ensures r.Parsed? && r.value.1.None? ==> current == old(current) + 1 && !IsNextToken(Less)
      ensures r.Parsed? && r.value.1.Some? ==> current == old(current) + 2 && r.value.1.value.name == tokens[old(current) + 1]
    {
      var name := PanicError(Identifier, ClassNameMessage);
      if !name.Parsed? {
        return Pass(name);
      }
      var className := PrevToken();
      if !IsNextToken(Less) {
        return Parsed((className, None));
      }
      var sup := PanicError(Identifier, SuperclassNameMessage);
      if !sup.Parsed? {
        return Pass(sup);
      }
      var id := NewId();
      r := Parsed((className, Some(VarAccess(id, PrevToken()))));
    }

    /** `"{" method* "}"` of a class. */
    method ParseClassBody() returns (r: Parse<seq<FuncDecl>>)
      requires Valid()
      modifies this, err
      ensures Moved() && ReportsGrow() && FailureReported(r)
      ensures r.Parsed? ==> old(current) < current && forall i :: 0 <= i < |r.value| ==> ShapedFunc(r.value[i])
      decreases |tokens| - current, 19
    {
      var open := PanicError(LeftBrace, ClassOpenMessage);
      if !open.Parsed? {
        return Pass(open);
      }
      var methods := ParseMethods();
      if !methods.Parsed? {
        return Pass(methods);
      }
      var close := PanicError(RightBrace, ClassCloseMessage);
      if !close.Parsed? {
        return Pass(close);
      }
      r := methods;
    }

    /** Methods up to a `}` or the end of file. */
    method ParseMethods() returns (r: Parse<seq<FuncDecl>>)
      requires Valid()
      modifies this, err
      ensures Moved() && ReportsGrow() && FailureReported(r)
      ensures r.Parsed? ==> forall i :: 0 <= i < |r.value| ==> ShapedFunc(r.value[i])
      decreases |tokens| - current, 18
    {
      var methods: seq<FuncDecl> := [];
      while !IsNextToken(RightBrace) && !EndOfFile()
        invariant Moved() && ReportsGrow()
        invariant forall i :: 0 <= i < |methods| ==> ShapedFunc(methods[i])
        decreases |tokens| - current
      {
        var m := ParseFunction(MethodKind);
        if !m.Parsed? {
          return Pass(m);
        }
        methods := methods + [m.value];
      }
      r := Parsed(methods);
    }

    /* ----- blocks and programs ----- */

    /**
     * Declarations up to a `}`, which is left unconsumed. The loop ends only
     * at a `}`, so the missing-brace error after it never happens; at end of
     * file the next declaration runs out of bounds first.
     */
    method ParseBlock() returns (r: Parse<seq<Statement>>)
      requires Valid() && current > 0
      modifies this, err
      ensures Moved() && ReportsGrow() && !r.Failed?
      ensures r.Parsed? ==> IsNextToken(RightBrace)
      ensures r.Parsed? ==> forall i :: 0 <= i < |r.value| ==> ShapedStmt(r.value[i])
      ensures r.Parsed? && HasMissing(r.value) ==> |err.output| > |old(err.output)|
      decreases |tokens| - current, 21
    {
      var stmts: seq<Statement> := [];
      while !IsNextToken(RightBrace)
        invariant Moved() && current > 0 && ReportsGrow()
        invariant forall i :: 0 <= i < |stmts| ==> ShapedStmt(stmts[i])
        invariant HasMissing(stmts) ==> |err.output| > |old(err.output)|
        decreases |tokens| - current
      {
        var d := ParseDeclaration();
        if d.Crashed? {
          return Pass(d);
        }
        stmts := stmts + [d.value];
        var _ := MatchAtLeast([SemiColon, RightBrace]);
      }
      if EndOfFile() {
        assert false;
      }
      r := Parsed(stmts);
    }

    /**
     * The whole program: declarations while a `;` lies ahead, each followed
     * by an optional `;` or `}`. Tokens after the last `;` are not parsed.
     */
    method ParseProgram() returns (r: Parse<seq<Statement>>)
      requires Valid()
      modifies this, err
      ensures Moved() && ReportsGrow() && !r.Failed?
      ensures r.Parsed? ==> !Ahead(SemiColon)
      ensures r.Parsed? ==> forall i :: 0 <= i < |r.value| ==> ShapedStmt(r.value[i])
      ensures r.Parsed? && HasMissing(r.value) ==> err.errStatus
    {
      var stmts: seq<Statement> := [];
      var more := MatchPeek(SemiColon);
      while more == Parsed(true)
        invariant Moved() && ReportsGrow()
        invariant !more.Failed? && (more.Parsed? ==> (more.value <==> Ahead(SemiColon)))
        invariant forall i :: 0 <= i < |stmts| ==> ShapedStmt(stmts[i])
        invariant HasMissing(stmts) ==> |err.output| > |old(err.output)|
        decreases |tokens| - current
      {
        var d := ParseItem();
        if d.Crashed? {
          return Pass(d);
        }
        stmts := stmts + [d.value];
        more := MatchPeek(SemiColon);
      }
      if more.Crashed? {
        return Pass(more);
      }
      r := Parsed(stmts);
    }

    /** One declaration of the program and the `;` or `}` that may follow it. */
    method ParseItem() returns (r: Parse<Statement>)
      requires Valid()
      modifies this, err
      ensures Moved() && ReportsGrow() && !r.Failed?
      ensures r.Parsed? ==> ShapedStmt(r.value)
      ensures r.Parsed? && r.value.Missing? ==> |err.output| > |old(err.output)|
      ensures !old(EndOfFile()) ==> r.Crashed? || old(current) < current
    {
      r := ParseDeclaration();
      if r.Parsed? {
        var _ := MatchAtLeast([SemiColon, RightBrace]);
      }
    }
  }
}
