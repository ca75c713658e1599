/** The reference renderer: what each visit method of RustDumpVisitor does to
    the emitter, as a function from the emitter state before the visit to the
    state after it (or to the exception that aborts the render). List loops are
    written as functions that carry the state from index `i` to the end, the
    way the source's iterator loops do.

    The contracts state the balance the traversal relies on: every rendering
    step leaves the indentation level and the mark stack as it found them and
    only appends text (Continues), and every expression and statement starts
    its output with the indentation its line calls for (Opens). */
module Render {
  import opened Wrappers
  import opened Text
  import opened Syntax
  import opened Names
  import opened Literals
  import opened Tables
  import opened EmitterSpec

  /** The indentation unit RustDumpVisitor creates its printer with. */
  const IndentUnit: string := "    "

  /** The separators FieldAccessExpr looks for in the rendered scope. */
  const PathSeparators: set<char> := {'\n', '\t', ' ', '.'}

  // ----- leaves -------------------------------------------------------------

  /** A name through toSnakeIfNecessary, which throws on an empty name. */
  function PrintName(e: EmitterState, name: string): (r: Result<EmitterState>)
    ensures r.Success? ==> Continues(e, r.value) && Opens(e, r.value)
    ensures r.Success? <==> |name| > 0
  {
    if |name| == 0 then Failure(StringIndexOutOfBounds)
    else Success(Print(e, ToSnakeIfNecessary(name)))
  }

  /** One guarded print, as in `if (flag) printer.print(s)`. */
  function PrintIf(e: EmitterState, flag: bool, s: string): (r: EmitterState)
    ensures Continues(e, r)
  {
    if flag then Print(e, s) else e
  }

  /** Guarded prints of the words from index i on, in order: each word is
      printed when its flag is set. */
  function PrintEachIf(e: EmitterState, fs: seq<bool>, ws: seq<string>, i: nat): (r: EmitterState)
    requires |fs| == |ws| && i <= |ws|
    ensures Continues(e, r)
    decreases |ws| - i
  {
    if i == |ws| then e else PrintEachIf(PrintIf(e, fs[i], ws[i]), fs, ws, i + 1)
  }

  /** The first guarded print, then the rest. */
  lemma PrintEachIfStep(e: EmitterState, fs: seq<bool>, ws: seq<string>, i: nat)
    requires |fs| == |ws| && i < |ws|
    ensures PrintEachIf(e, fs, ws, i) == PrintEachIf(PrintIf(e, fs[i], ws[i]), fs, ws, i + 1)
  {
  }

  /** printModifiers: one guarded print per modifier, in the fixed order. */
  function RenderModifiers(e: EmitterState, m: Modifiers): EmitterState {
    PrintEachIf(e, ModifierFlags(m), ModifierWords, 0)
  }

  /** A guarded print after a write extends the write. */
  lemma PrintIfAfterWrite(e: EmitterState, t: string, flag: bool, w: string)
    requires w != ""
    ensures PrintIf(Write(e, t), flag, w) == Write(e, t + WordIf(flag, w))
  {
    if flag {
      WriteThenPrint(e, t, w);
    } else {
      assert t + "" == t;
    }
  }

  /** Guarded prints of non-empty words after a write are one write of the
      words whose flags are set. */
  lemma {:induction false} PrintEachIfWrites(e: EmitterState, t: string, fs: seq<bool>, ws: seq<string>, i: nat)
    requires |fs| == |ws| && i <= |ws|
    requires forall k :: 0 <= k < |ws| ==> ws[k] != ""
    ensures PrintEachIf(Write(e, t), fs, ws, i) == Write(e, t + WordsFrom(fs, ws, i))
    decreases |ws| - i
  {
    if i == |ws| {
      assert t + "" == t;
    } else {
      PrintIfAfterWrite(e, t, fs[i], ws[i]);
      var w, rest := WordIf(fs[i], ws[i]), WordsFrom(fs, ws, i + 1);
      PrintEachIfWrites(e, t + w, fs, ws, i + 1);
      assert WordsFrom(fs, ws, i) == w + rest;
      ConcatAssociative(t, w, rest);
    }
  }

  /** The eleven guarded prints of printModifiers write the modifier text as
      one piece: the indentation at most once, before the first word, and
      nothing at all when no modifier is set. */
  lemma ModifiersWrittenAtOnce(e: EmitterState, m: Modifiers)
    ensures RenderModifiers(e, m) == Write(e, ModifiersText(m))
  {
    PrintEachIfWrites(e, "", ModifierFlags(m), ModifierWords, 0);
    assert "" + ModifiersText(m) == ModifiersText(m);
  }

  /** Modifiers print nothing, or open with the indentation of their line. */
  lemma ModifiersOpen(e: EmitterState, m: Modifiers)
    ensures RenderModifiers(e, m) == e || Opens(e, RenderModifiers(e, m))
  {
    ModifiersWrittenAtOnce(e, m);
  }

  /** A loop printing `s` `n` times (the `[]` of array types). */
  function PrintTimes(e: EmitterState, s: string, n: nat): (r: EmitterState)
    ensures Continues(e, r)
    decreases n
  {
    if n == 0 then e else PrintTimes(Print(e, s), s, n - 1)
  }

  /** The comment visitors; line and block comments are suppressed when the
      visitor was created with printComments false, javadoc is not. */
  function RenderComment(e: EmitterState, c: Comment, printComments: bool): (r: EmitterState)
    ensures r.level == e.level && r.marks == e.marks && e.buf <= r.buf
  {
    match c
    case LineComment(content) =>
      if !printComments then e
      else PrintLn(Print(e, "//"), ReplaceChar(ReplaceChar(content, '\r', ' '), '\n', ' '))
    case BlockComment(content) =>
      if !printComments then e
      else PrintLn(Print(Print(e, "/*"), content), "*/")
    case JavadocComment(content) =>
      PrintLn(Print(Print(e, "/**"), content), "*/")
  }

  // ----- types --------------------------------------------------------------

  /** The type visitors. A type either prints nothing (UnknownType, an empty
      intersection) or opens with the indentation of its line. */
  function RenderType(e: EmitterState, t: Type): (r: EmitterState)
    ensures Continues(e, r)
    ensures r == e || Opens(e, r)
    decreases t
  {
    match t
    case PrimitiveType(k) => Print(e, PrimitiveTypeName(k))
    case ClassOrInterfaceType(scope, name, typeArgs, diamond) =>
      var e1 := Print(RenderTypeScope(e, scope), name);
      if diamond then Print(e1, "<>") else RenderTypeArgs(e1, typeArgs)
    case ReferenceType(elementType, arrayCount) =>
      PrintTimes(RenderType(e, elementType), "[]", arrayCount)
    case VoidType => Print(e, "void")
    case IntersectionType(elements) => RenderTypesSeparatedAfterFirst(e, elements, " & ", 0)
    case UnionType(elements) => RenderTypesSeparatedAfterFirst(e, elements, " | ", 0)
    case WildcardType(extendsBound, superBound) =>
      RenderBound(RenderBound(Print(e, "?"), " extends ", extendsBound), " super ", superBound)
    case UnknownType => e
  }

  /** The scope of a class or interface type, followed by `.`. */
  function RenderTypeScope(e: EmitterState, scope: Option<Type>): (r: EmitterState)
    ensures Continues(e, r)
    ensures r == e || Opens(e, r)
    decreases scope, 0
  {
    match scope
    case None => e
    case Some(s) => Print(RenderType(e, s), ".")
  }

  /** A wildcard bound: the keyword, then the bound type. */
  function RenderBound(e: EmitterState, keyword: string, bound: Option<Type>): (r: EmitterState)
    ensures Continues(e, r)
    decreases bound, 0
  {
    match bound
    case None => e
    case Some(b) => RenderType(Print(e, keyword), b)
  }

  /** printTypeArgs: nothing for an empty list, else `<`, the types separated
      by `, `, `>`. */
  function RenderTypeArgs(e: EmitterState, args: seq<Type>): (r: EmitterState)
    ensures Continues(e, r)
    ensures r == e || Opens(e, r)
    decreases args, 1
  {
    if |args| == 0 then e else Print(RenderTypesJoined(Print(e, "<"), args, ", ", 0), ">")
  }

  /** An iterator loop over types that prints `sep` after every element that
      has a successor. */
  function RenderTypesJoined(e: EmitterState, ts: seq<Type>, sep: string, i: nat): (r: EmitterState)
    requires i <= |ts|
    ensures Continues(e, r)
    decreases ts, 0, |ts| - i
  {
    if i == |ts| then e
    else
      var e1 := RenderType(e, ts[i]);
      RenderTypesJoined(if i + 1 < |ts| then Print(e1, sep) else e1, ts, sep, i + 1)
  }

  /** The IntersectionType and UnionType loop: the separator is printed after
      every element except the first one. */
  function RenderTypesSeparatedAfterFirst(e: EmitterState, ts: seq<Type>, sep: string, i: nat): (r: EmitterState)
    requires i <= |ts|
    ensures Continues(e, r)
    ensures i > 0 || r == e || Opens(e, r)
    decreases ts, |ts| - i
  {
    if i == |ts| then e
    else
      var e1 := RenderType(e, ts[i]);
      RenderTypesSeparatedAfterFirst(if i == 0 then e1 else Print(e1, sep), ts, sep, i + 1)
  }

  function RenderTypeParameter(e: EmitterState, p: TypeParameter): (r: EmitterState)
    ensures Continues(e, r)
  {
    var e1 := Print(e, p.name);
    if |p.typeBound| > 0 then RenderTypesJoined(Print(e1, " extends "), p.typeBound, " & ", 0) else e1
  }

  function RenderTypeParametersFrom(e: EmitterState, ps: seq<TypeParameter>, i: nat): (r: EmitterState)
    requires i <= |ps|
    ensures Continues(e, r)
    decreases |ps| - i
  {
    if i == |ps| then e
    else
      var e1 := RenderTypeParameter(e, ps[i]);
      RenderTypeParametersFrom(if i + 1 < |ps| then Print(e1, ", ") else e1, ps, i + 1)
  }

  /** printTypeParameters. */
  function RenderTypeParameters(e: EmitterState, ps: seq<TypeParameter>): (r: EmitterState)
    ensures Continues(e, r)
  {
    if |ps| == 0 then e else Print(RenderTypeParametersFrom(Print(e, "<"), ps, 0), ">")
  }

  // ----- expressions --------------------------------------------------------

  /** The segment of a rendered scope FieldAccessExpr inspects: the text after
      the last separator, or the whole scope when that separator is missing or
      at index 0. */
  function AccessedSegment(scope: string): string {
    var i := LastIndexOfAny(scope, PathSeparators);
    if i <= 0 then scope else scope[i + 1..]
  }

  /** The expression visitors. */
  function RenderExpr(e: EmitterState, x: Expr): (r: Result<EmitterState>)
    ensures r.Success? ==> Continues(e, r.value) && Opens(e, r.value)
    decreases x, 2
  {
    match x
    case NameExpr(name) => PrintName(e, name)
    case FieldAccessExpr(_, _) => RenderFieldAccess(e, x)
    case MethodCallExpr(_, _, _, _) => RenderMethodCall(e, x)
    case ObjectCreationExpr(_, _, _, _) => RenderObjectCreation(e, x)
    case AssignExpr(_, _, _) => RenderInfix(e, x)
    case BinaryExpr(_, _, _) => RenderInfix(e, x)
    case UnaryExpr(_, _) => RenderUnary(e, x)
    case CastExpr(_, _) => RenderOperation(e, x)
    case InstanceOfExpr(_, _) => RenderOperation(e, x)
    case ConditionalExpr(_, _, _) => RenderOperation(e, x)
    case ClassExpr(classType) =>
      var e1 := RenderType(e, classType);
      var r := Print(e1, ".class");
      assert Opens(e, r) by {
        if e1 != e { OpensOnward(e, e1, r); }
      }
      Success(r)
    case EnclosedExpr(_) => RenderEnclosed(e, x)
    case ArrayAccessExpr(_, _) => RenderArrayAccess(e, x)
    case ArrayInitializerExpr(_) => RenderArrayInitializer(e, x)
    case ThisExpr(_) => RenderSelfReference(e, x)
    case SuperExpr(_) => RenderSelfReference(e, x)
    case VariableDeclarationExpr(d) => RenderLocalDeclaration(e, d)
    case _ => Success(Print(e, LiteralText(x)))
  }

  /** RenderExpr hands each expression kind to its helper: the kinds the
      expression visitor dispatches itself. */
  lemma ExprKinds(e: EmitterState, x: Expr)
    ensures x.NameExpr? ==> RenderExpr(e, x) == PrintName(e, x.name)
    ensures x.ClassExpr? ==> RenderExpr(e, x) == Success(Print(RenderType(e, x.classType), ".class"))
    ensures x.EnclosedExpr? ==> RenderExpr(e, x) == RenderEnclosed(e, x)
    ensures x.ArrayInitializerExpr? ==> RenderExpr(e, x) == RenderArrayInitializer(e, x)
    ensures x.VariableDeclarationExpr? ==> RenderExpr(e, x) == RenderLocalDeclaration(e, x.declaration)
  {
  }

  /** A literal is printed in one line. */
  lemma LiteralExprKind(e: EmitterState, x: Expr)
    requires IsLiteral(x)
    ensures RenderExpr(e, x) == Success(Print(e, LiteralText(x)))
  {
  }

  /** The expressions built around an operator. */
  lemma OperatorExprKinds(e: EmitterState, x: Expr)
    ensures x.AssignExpr? || x.BinaryExpr? ==> RenderExpr(e, x) == RenderInfix(e, x)
    ensures x.UnaryExpr? ==> RenderExpr(e, x) == RenderUnary(e, x)
    ensures x.CastExpr? || x.InstanceOfExpr? || x.ConditionalExpr? ==> RenderExpr(e, x) == RenderOperation(e, x)
  {
  }

  /** The expressions that reach into another one. */
  lemma AccessExprKinds(e: EmitterState, x: Expr)
    ensures x.FieldAccessExpr? ==> RenderExpr(e, x) == RenderFieldAccess(e, x)
    ensures x.MethodCallExpr? ==> RenderExpr(e, x) == RenderMethodCall(e, x)
    ensures x.ObjectCreationExpr? ==> RenderExpr(e, x) == RenderObjectCreation(e, x)
    ensures x.ArrayAccessExpr? ==> RenderExpr(e, x) == RenderArrayAccess(e, x)
    ensures x.ThisExpr? || x.SuperExpr? ==> RenderExpr(e, x) == RenderSelfReference(e, x)
  {
  }

  predicate IsLiteral(x: Expr) {
    || x.IntegerLiteralExpr? || x.LongLiteralExpr? || x.DoubleLiteralExpr?
    || x.IntegerLiteralMinValueExpr? || x.LongLiteralMinValueExpr?
    || x.CharLiteralExpr? || x.StringLiteralExpr? || x.BooleanLiteralExpr?
    || x.NullLiteralExpr?
  }

  /** The text of a literal: the literal visitors print it in one line. */
  function LiteralText(x: Expr): string {
    match x
    case IntegerLiteralExpr(v) => IntegerLiteralText(v)
    case LongLiteralExpr(v) => LongLiteralText(v)
    case DoubleLiteralExpr(v) => DoubleLiteralText(v)
    case IntegerLiteralMinValueExpr(v) => v
    case LongLiteralMinValueExpr(v) => v
    case CharLiteralExpr(v) => "'" + v + "'"
    case StringLiteralExpr(v) => "\"" + v + "\""
    case BooleanLiteralExpr(b) => if b then "true" else "false"
    case _ => "null"
  }

  /** MethodCallExpr: scope and `.`, type arguments, the snake-cased name,
      the arguments. */
  function RenderMethodCall(e: EmitterState, x: Expr): (r: Result<EmitterState>)
    requires x.MethodCallExpr?
    ensures r.Success? ==> Continues(e, r.value) && Opens(e, r.value)
    decreases x, 1
  {
    var e1 :- RenderScope(e, x.callScope);
    var e2 := RenderTypeArgs(e1, x.callTypeArgs);
    var e3 :- PrintName(e2, x.methodName);
    assert Opens(e, e3) by {
      if e1 != e { OpensOnward(e, e1, e3); }
      else if e2 != e { OpensOnward(e, e2, e3); }
    }
    var r :- RenderArguments(e3, x.args);
    OpensOnward(e, e3, r);
    Success(r)
  }

  /** ObjectCreationExpr: scope and `.`, `new `, type arguments and a space,
      the type, the arguments. */
  function RenderObjectCreation(e: EmitterState, x: Expr): (r: Result<EmitterState>)
    requires x.ObjectCreationExpr?
    ensures r.Success? ==> Continues(e, r.value) && Opens(e, r.value)
    decreases x, 1
  {
    var e1 :- RenderScope(e, x.creationScope);
    var e2 := Print(e1, "new ");
    assert Opens(e, e2) by {
      if e1 != e { OpensOnward(e, e1, e2); }
    }
    var e3 := RenderType(PrintIf(RenderTypeArgs(e2, x.creationTypeArgs), |x.creationTypeArgs| > 0, " "), x.createdType);
    var r :- RenderArguments(e3, x.creationArgs);
    OpensOnward(e, e2, r);
    Success(r)
  }

  /** AssignExpr and BinaryExpr: the left operand, a space, the operator's
      text, a space, the right operand. */
  function RenderInfix(e: EmitterState, x: Expr): (r: Result<EmitterState>)
    requires x.AssignExpr? || x.BinaryExpr?
    ensures r.Success? ==> Continues(e, r.value) && Opens(e, r.value)
    decreases x, 1
  {
    match x
    case AssignExpr(target, op, value) =>
      var e1 :- RenderExpr(e, target);
      var r :- RenderExpr(Print(Print(Print(e1, " "), AssignOperatorText(op)), " "), value);
      OpensOnward(e, e1, r);
      Success(r)
    case BinaryExpr(left, op, right) =>
      var e1 :- RenderExpr(e, left);
      var r :- RenderExpr(Print(Print(Print(e1, " "), BinaryOperatorText(op)), " "), right);
      OpensOnward(e, e1, r);
      Success(r)
  }

  /** The cast, instanceof and the conditional: operands in source order,
      with their fixed text between. */
  function RenderOperation(e: EmitterState, x: Expr): (r: Result<EmitterState>)
    requires x.CastExpr? || x.InstanceOfExpr? || x.ConditionalExpr?
    ensures r.Success? ==> Continues(e, r.value) && Opens(e, r.value)
    decreases x, 1
  {
    match x
    case CastExpr(castType, castExpr) =>
      var e1 := Print(e, "(");
      var r :- RenderExpr(Print(RenderType(e1, castType), ") "), castExpr);
      OpensOnward(e, e1, r);
      Success(r)
    case InstanceOfExpr(tested, testedType) =>
      var e1 :- RenderExpr(e, tested);
      var r := RenderType(Print(e1, " instanceof "), testedType);
      OpensOnward(e, e1, r);
      Success(r)
    case ConditionalExpr(c, t, f) =>
      var e1 :- RenderExpr(e, c);
      var e2 :- RenderExpr(Print(e1, " ? "), t);
      var r :- RenderExpr(Print(e2, " : "), f);
      OpensOnward(e, e1, r);
      Success(r)
  }

  /** UnaryExpr: the prefix operator text, the operand, the postfix operator
      text; each operator has text on exactly one side. */
  function RenderUnary(e: EmitterState, x: Expr): (r: Result<EmitterState>)
    requires x.UnaryExpr?
    ensures r.Success? ==> Continues(e, r.value) && Opens(e, r.value)
    decreases x, 1
  {
    var prefix := UnaryPrefixText(x.unaryOp);
    var postfix := UnaryPostfixText(x.unaryOp);
    var e1 := PrintIf(e, prefix != "", prefix);
    var e2 :- RenderExpr(e1, x.operand);
    var r := PrintIf(e2, postfix != "", postfix);
    assert Opens(e, r) by {
      if prefix != "" { OpensOnward(e, e1, r); } else { OpensOnward(e, e2, r); }
    }
    Success(r)
  }

  /** EnclosedExpr: the inner expression in parentheses. */
  function RenderEnclosed(e: EmitterState, x: Expr): (r: Result<EmitterState>)
    requires x.EnclosedExpr?
    ensures r.Success? ==> Continues(e, r.value) && Opens(e, r.value)
    decreases x, 1
  {
    var e1 := Print(e, "(");
    var e2 :- RenderScopeless(e1, x.inner);
    var r := Print(e2, ")");
    OpensOnward(e, e1, r);
    Success(r)
  }

  /** ArrayAccessExpr: the array, then the index in brackets. */
  function RenderArrayAccess(e: EmitterState, x: Expr): (r: Result<EmitterState>)
    requires x.ArrayAccessExpr?
    ensures r.Success? ==> Continues(e, r.value) && Opens(e, r.value)
    decreases x, 1
  {
    var e1 :- RenderExpr(e, x.indexed);
    var e2 :- RenderExpr(Print(e1, "["), x.index);
    var r := Print(e2, "]");
    OpensOnward(e, e1, r);
    Success(r)
  }

  /** ArrayInitializerExpr: `{}` when empty, else the values separated by
      `, ` between `{ ` and ` }`. */
  function RenderArrayInitializer(e: EmitterState, x: Expr): (r: Result<EmitterState>)
    requires x.ArrayInitializerExpr?
    ensures r.Success? ==> Continues(e, r.value) && Opens(e, r.value)
    decreases x, 1
  {
    if |x.values| == 0 then Success(Print(Print(e, "{"), "}"))
    else
      var e1 := Print(Print(e, "{"), " ");
      var e2 :- RenderExprsJoined(e1, x.values, 0);
      var r := Print(Print(e2, " "), "}");
      OpensOnward(e, e1, r);
      Success(r)
  }

  /** ThisExpr and SuperExpr: the optional class scope, then the keyword. */
  function RenderSelfReference(e: EmitterState, x: Expr): (r: Result<EmitterState>)
    requires x.ThisExpr? || x.SuperExpr?
    ensures r.Success? ==> Continues(e, r.value) && Opens(e, r.value)
    decreases x, 1
  {
    var e1 :- RenderScope(e, if x.ThisExpr? then x.thisClass else x.superClass);
    var r := Print(e1, if x.ThisExpr? then "this" else "super");
    assert Opens(e, r) by { if e1 != e { OpensOnward(e, e1, r); } }
    Success(r)
  }

  /** FieldAccessExpr: the scope is rendered after a push, read back with
      getMark and kept with drop; its last segment chooses `::` or `.`. */
  function RenderFieldAccess(e: EmitterState, x: Expr): (r: Result<EmitterState>)
    requires x.FieldAccessExpr?
    ensures r.Success? ==> Continues(e, r.value) && Opens(e, r.value)
    decreases x, 1
  {
    var e1 :- RenderExpr(Push(e), x.scope);
    AccessField(e, e1, x.field)
  }

  /** The rest of FieldAccessExpr once the scope is rendered after the push:
      read back, drop the mark, print the separator and the field. */
  function AccessField(e: EmitterState, e1: EmitterState, field: string): (r: Result<EmitterState>)
    requires Continues(Push(e), e1) && Opens(Push(e), e1)
    ensures r.Success? ==> Continues(e, r.value) && Opens(e, r.value)
  {
    Speculation(e, e1);
    assert Opens(e, e1) by {
      assert IndentText(Push(e)) == IndentText(e);
    }
    var scope := GetMark(e1, |e.marks| + 1);
    var accessed := AccessedSegment(scope);
    if |accessed| == 0 then Failure(StringIndexOutOfBounds)
    else
      var r := Print(Print(Drop(e1), if IsUpper(accessed[0]) then "::" else "."), field);
      OpensOnward(e, e1, r);
      Success(r)
  }

  /** An optional scope followed by `.`. */
  function RenderScope(e: EmitterState, scope: Option<Expr>): (r: Result<EmitterState>)
    ensures r.Success? ==> Continues(e, r.value) && (r.value == e || Opens(e, r.value))
    decreases scope, 0
  {
    match scope
    case None => Success(e)
    case Some(s) =>
      var e1 :- RenderExpr(e, s);
      Success(Print(e1, "."))
  }

  /** An optional expression with nothing around it. */
  function RenderScopeless(e: EmitterState, inner: Option<Expr>): (r: Result<EmitterState>)
    ensures r.Success? ==> Continues(e, r.value)
    decreases inner, 0
  {
    match inner
    case None => Success(e)
    case Some(s) => RenderExpr(e, s)
  }

  /** printArguments: `(`, the arguments separated by `, `, `)`. */
  function RenderArguments(e: EmitterState, args: seq<Expr>): (r: Result<EmitterState>)
    ensures r.Success? ==> Continues(e, r.value)
    decreases args, 1
  {
    var e1 :- RenderExprsJoined(Print(e, "("), args, 0);
    Success(Print(e1, ")"))
  }

  function RenderExprsJoined(e: EmitterState, xs: seq<Expr>, i: nat): (r: Result<EmitterState>)
    requires i <= |xs|
    ensures r.Success? ==> Continues(e, r.value)
    decreases xs, 0, |xs| - i
  {
    if i == |xs| then Success(e)
    else
      var e1 :- RenderExpr(e, xs[i]);
      RenderExprsJoined(if i + 1 < |xs| then Print(e1, ", ") else e1, xs, i + 1)
  }

  /** VariableDeclarationExpr: modifiers, a space, then the declarators, each
      given the declared type as the visitor argument. */
  function RenderLocalDeclaration(e: EmitterState, d: LocalDeclaration): (r: Result<EmitterState>)
    ensures r.Success? ==> Continues(e, r.value) && Opens(e, r.value)
    decreases d, 1
  {
    ModifiersOpen(e, d.modifiers);
    var e1 := Print(RenderModifiers(e, d.modifiers), " ");
    var r :- RenderDeclarators(e1, d.vars, Some(d.declType), 0);
    assert Opens(e, r) by {
      if RenderModifiers(e, d.modifiers) != e { OpensOnward(e, RenderModifiers(e, d.modifiers), r); }
      else { OpensOnward(e, e1, r); }
    }
    Success(r)
  }

  function RenderDeclarators(e: EmitterState, vs: seq<VariableDeclarator>, arg: Option<Type>, i: nat): (r: Result<EmitterState>)
    requires i <= |vs|
    ensures r.Success? ==> Continues(e, r.value)
    decreases vs, |vs| - i
  {
    if i == |vs| then Success(e)
    else
      var e1 :- RenderDeclarator(e, vs[i], arg);
      RenderDeclarators(if i + 1 < |vs| then Print(e1, ", ") else e1, vs, arg, i + 1)
  }

  /** VariableDeclarator: the name, `: T` when the visitor argument is a type
      and the initializer is not an array initializer, then ` = ` and the
      initializer. */
  function RenderDeclarator(e: EmitterState, v: VariableDeclarator, arg: Option<Type>): (r: Result<EmitterState>)
    ensures r.Success? ==> Continues(e, r.value)
    decreases v
  {
    var e1 :- PrintName(e, v.id);
    var e2 := if arg.Some? && !(v.init.Some? && v.init.value.ArrayInitializerExpr?)
      then RenderType(Print(e1, ": "), arg.value) else e1;
    match v.init
    case None => Success(e2)
    case Some(init) => RenderExpr(Print(e2, " = "), init)
  }

  /** Parameter: modifiers, type, `...` for varargs, a space, the name. */
  function RenderParameter(e: EmitterState, p: Parameter): (r: Result<EmitterState>)
    ensures r.Success? ==> Continues(e, r.value)
  {
    var e1 := RenderType(RenderModifiers(e, p.modifiers), p.paramType);
    PrintName(Print(PrintIf(e1, p.isVarArgs, "..."), " "), p.id)
  }

  function RenderParameters(e: EmitterState, ps: seq<Parameter>, i: nat): (r: Result<EmitterState>)
    requires i <= |ps|
    ensures r.Success? ==> Continues(e, r.value)
    decreases |ps| - i
  {
    if i == |ps| then Success(e)
    else
      var e1 :- RenderParameter(e, ps[i]);
      RenderParameters(if i + 1 < |ps| then Print(e1, ", ") else e1, ps, i + 1)
  }

  // ----- statements ---------------------------------------------------------

  /** The statement visitors. */
  function RenderStmt(e: EmitterState, s: Stmt): (r: Result<EmitterState>)
    ensures r.Success? ==> Continues(e, r.value) && Opens(e, r.value)
    decreases s, 2
  {
    match s
    case BlockStmt(_) => RenderBlock(e, s)
    case IfStmt(_, _, _) => RenderIf(e, s)
    case WhileStmt(_, _) => RenderLoop(e, s)
    case DoStmt(_, _) => RenderLoop(e, s)
    case SwitchStmt(_, _) => RenderSwitch(e, s)
    case TryStmt(_, _, _, _) => RenderTry(e, s)
    case ExpressionStmt(x) =>
      var e1 :- RenderExpr(e, x);
      var r := Print(e1, ";");
      OpensOnward(e, e1, r);
      Success(r)
    case ThrowStmt(x) =>
      var e1 := Print(e, "throw ");
      var e2 :- RenderExpr(e1, x);
      var r := Print(e2, ";");
      OpensOnward(e, e1, r);
      Success(r)
    case ReturnStmt(value) =>
      var e1 := Print(e, "return");
      var e2 :- RenderReturnValue(e1, value);
      var r := Print(e2, ";");
      OpensOnward(e, e1, r);
      Success(r)
    case BreakStmt(id) =>
      var e1 := Print(e, "break");
      var r := Print(PrintLabel(e1, id), ";");
      OpensOnward(e, e1, r);
      Success(r)
    case ContinueStmt(id) =>
      var e1 := Print(e, "continue");
      var r := Print(PrintLabel(e1, id), ";");
      OpensOnward(e, e1, r);
      Success(r)
    case EmptyStmt => Success(Print(e, ";"))
  }

  /** RenderStmt hands each compound statement kind to its helper. */
  lemma StmtKinds(e: EmitterState, s: Stmt)
    ensures s.BlockStmt? ==> RenderStmt(e, s) == RenderBlock(e, s)
    ensures s.IfStmt? ==> RenderStmt(e, s) == RenderIf(e, s)
    ensures s.WhileStmt? || s.DoStmt? ==> RenderStmt(e, s) == RenderLoop(e, s)
    ensures s.SwitchStmt? ==> RenderStmt(e, s) == RenderSwitch(e, s)
    ensures s.TryStmt? ==> RenderStmt(e, s) == RenderTry(e, s)
  {
  }

  /** The optional value of a return, after a space. */
  function RenderReturnValue(e: EmitterState, value: Option<Expr>): (r: Result<EmitterState>)
    ensures r.Success? ==> Continues(e, r.value)
  {
    match value
    case None => Success(e)
    case Some(x) => RenderExpr(Print(e, " "), x)
  }

  /** The optional label of a break or continue, after a space. */
  function PrintLabel(e: EmitterState, id: Option<string>): (r: EmitterState)
    ensures Continues(e, r)
  {
    match id
    case None => e
    case Some(name) => Print(Print(e, " "), name)
  }

  /** BlockStmt: `{` and a line break, each statement on its own line one
      level deeper, `}` back at the level of the block. */
  function RenderBlock(e: EmitterState, s: Stmt): (r: Result<EmitterState>)
    requires s.BlockStmt?
    ensures r.Success? ==> Continues(e, r.value) && Opens(e, r.value)
    decreases s, 1
  {
    var e1 := PrintLn(e, "{");
    var e2 :- RenderStmtLines(Indent(e1), s.stmts, 0);
    var r := Print(Unindent(e2), "}");
    OpensOnward(e, e1, r);
    Success(r)
  }

  /** A statement list: each statement followed by a line break. */
  function RenderStmtLines(e: EmitterState, ss: seq<Stmt>, i: nat): (r: Result<EmitterState>)
    requires i <= |ss|
    ensures r.Success? ==> Continues(e, r.value)
    decreases ss, |ss| - i
  {
    if i == |ss| then Success(e)
    else
      var e1 :- RenderStmt(e, ss[i]);
      RenderStmtLines(NewLine(e1), ss, i + 1)
  }

  /** IfStmt: a block then-branch stays on the condition's line, any other
      goes on its own line one level deeper; the else part follows. */
  function RenderIf(e: EmitterState, s: Stmt): (r: Result<EmitterState>)
    requires s.IfStmt?
    ensures r.Success? ==> Continues(e, r.value) && Opens(e, r.value)
    decreases s, 1
  {
    var e1 := Print(e, "if (");
    var c :- RenderExpr(e1, s.ifCondition);
    var t :- RenderThenBranch(c, s.thenStmt);
    var r :- if s.elseStmt.Some? then RenderElseBranch(t, s.elseStmt.value, s.thenStmt.BlockStmt?) else Success(t);
    OpensOnward(e, e1, r);
    Success(r)
  }

  function RenderThenBranch(e: EmitterState, t: Stmt): (r: Result<EmitterState>)
    ensures r.Success? ==> Continues(e, r.value)
    decreases t, 3
  {
    if t.BlockStmt? then RenderStmt(Print(e, ") "), t)
    else
      var b :- RenderStmt(Indent(PrintLn(e, ")")), t);
      Success(Unindent(b))
  }

  /** The else part: after a block then-branch on the same line, otherwise on
      a new line; `else ` inline before an if or a block, otherwise `else` on
      its own line and the statement one level deeper. */
  function RenderElseBranch(e: EmitterState, el: Stmt, thenBlock: bool): (r: Result<EmitterState>)
    ensures r.Success? ==> Continues(e, r.value)
    decreases el, 3
  {
    var e1 := if thenBlock then Print(e, " ") else NewLine(e);
    if el.IfStmt? || el.BlockStmt? then RenderStmt(Print(e1, "else "), el)
    else
      var b :- RenderStmt(Indent(PrintLn(e1, "else")), el);
      Success(Unindent(b))
  }

  /** WhileStmt and DoStmt. */
  function RenderLoop(e: EmitterState, s: Stmt): (r: Result<EmitterState>)
    requires s.WhileStmt? || s.DoStmt?
    ensures r.Success? ==> Continues(e, r.value) && Opens(e, r.value)
    decreases s, 1
  {
    match s
    case WhileStmt(condition, body) =>
      var e1 := Print(e, "while (");
      var c :- RenderExpr(e1, condition);
      var r :- RenderStmt(Print(c, ") "), body);
      OpensOnward(e, e1, r);
      Success(r)
    case DoStmt(body, condition) =>
      var e1 := Print(e, "do ");
      var b :- RenderStmt(e1, body);
      var c :- RenderExpr(Print(b, " while ("), condition);
      var r := Print(c, ");");
      OpensOnward(e, e1, r);
      Success(r)
  }

  /** SwitchStmt: the selector, then the entries one level deeper. */
  function RenderSwitch(e: EmitterState, s: Stmt): (r: Result<EmitterState>)
    requires s.SwitchStmt?
    ensures r.Success? ==> Continues(e, r.value) && Opens(e, r.value)
    decreases s, 1
  {
    var e1 := Print(e, "switch(");
    var c :- RenderExpr(e1, s.selector);
    var b :- RenderSwitchEntries(Indent(PrintLn(c, ") {")), s.entries, 0);
    var r := Print(Unindent(b), "}");
    OpensOnward(e, e1, r);
    Success(r)
  }

  function RenderSwitchEntries(e: EmitterState, entries: seq<SwitchEntryStmt>, i: nat): (r: Result<EmitterState>)
    requires i <= |entries|
    ensures r.Success? ==> Continues(e, r.value)
    decreases entries, |entries| - i
  {
    if i == |entries| then Success(e)
    else
      var e1 :- RenderSwitchEntry(e, entries[i]);
      RenderSwitchEntries(e1, entries, i + 1)
  }

  /** SwitchEntryStmt: `case label:` or `default:` on a line, then the
      statements one level deeper, each followed by a line break. */
  function RenderSwitchEntry(e: EmitterState, entry: SwitchEntryStmt): (r: Result<EmitterState>)
    ensures r.Success? ==> Continues(e, r.value)
    decreases entry
  {
    var e1 :- RenderCaseLabel(e, entry.caseLabel);
    var b :- RenderStmtLines(Indent(NewLine(e1)), entry.entryStmts, 0);
    Success(Unindent(b))
  }

  function RenderCaseLabel(e: EmitterState, caseLabel: Option<Expr>): (r: Result<EmitterState>)
    ensures r.Success? ==> Continues(e, r.value)
  {
    match caseLabel
    case None => Success(Print(e, "default:"))
    case Some(x) =>
      var e1 :- RenderExpr(Print(e, "case "), x);
      Success(Print(e1, ":"))
  }

  /** TryStmt: `try `, the resources in parentheses, the block, the catch
      clauses and the finally block. */
  function RenderTry(e: EmitterState, s: Stmt): (r: Result<EmitterState>)
    requires s.TryStmt?
    ensures r.Success? ==> Continues(e, r.value) && Opens(e, r.value)
    decreases s, 1
  {
    var e1 := Print(e, "try ");
    var e2 :- if |s.resources| == 0 then Success(e1) else RenderResources(e1, s.resources);
    var e3 :- RenderStmt(e2, s.tryBlock);
    var e4 :- RenderCatches(e3, s.catchs, 0);
    var r :- RenderFinally(e4, s.finallyBlock);
    OpensOnward(e, e1, r);
    Success(r)
  }

  /** The resource list: `(`, the resources, the level restored, `) `. */
  function RenderResources(e: EmitterState, rs: seq<LocalDeclaration>): (r: Result<EmitterState>)
    requires |rs| > 0
    ensures r.Success? ==> Continues(e, r.value)
  {
    var e1 :- TryResources(Print(e, "("), rs, 0);
    Success(Print(if |rs| > 1 then Unindent(e1) else e1, ") "))
  }

  /** The resource loop: after every resource but the last, `;` and a line
      break, and after the first one also one level of indentation. */
  function TryResources(e: EmitterState, rs: seq<LocalDeclaration>, i: nat): (r: Result<EmitterState>)
    requires i <= |rs|
    ensures r.Success? ==> && r.value.indentation == e.indentation && r.value.marks == e.marks
                           && e.buf <= r.value.buf
                           && r.value.level == e.level + (if i == 0 && 1 < |rs| then 1 else 0)
    decreases |rs| - i
  {
    if i == |rs| then Success(e)
    else
      var e1 :- RenderLocalDeclaration(e, rs[i]);
      TryResources(AfterResource(e1, i, |rs|), rs, i + 1)
  }

  /** What follows resource `i` of `n`: nothing after the last one, otherwise
      `;` and a line break, and after the first one a level of indentation. */
  function AfterResource(e: EmitterState, i: nat, n: nat): (r: EmitterState)
    ensures && r.indentation == e.indentation && r.marks == e.marks && e.buf <= r.buf
            && r.level == e.level + (if i == 0 && i + 1 < n then 1 else 0)
  {
    if i + 1 < n then (var b := NewLine(Print(e, ";")); if i == 0 then Indent(b) else b) else e
  }

  function RenderCatches(e: EmitterState, cs: seq<CatchClause>, i: nat): (r: Result<EmitterState>)
    requires i <= |cs|
    ensures r.Success? ==> Continues(e, r.value)
    decreases cs, |cs| - i
  {
    if i == |cs| then Success(e)
    else
      var e1 :- RenderCatch(e, cs[i]);
      RenderCatches(e1, cs, i + 1)
  }

  /** CatchClause: ` catch (`, the parameter, `) `, the block. */
  function RenderCatch(e: EmitterState, c: CatchClause): (r: Result<EmitterState>)
    ensures r.Success? ==> Continues(e, r.value)
    decreases c
  {
    var e1 :- RenderParameter(Print(e, " catch ("), c.param);
    RenderStmt(Print(e1, ") "), c.catchBlock)
  }

  function RenderFinally(e: EmitterState, f: Option<Stmt>): (r: Result<EmitterState>)
    ensures r.Success? ==> Continues(e, r.value)
    decreases f
  {
    match f
    case None => Success(e)
    case Some(b) => RenderStmt(Print(e, " finally "), b)
  }

  // ----- members ------------------------------------------------------------

  /** The member visitors. */
  function RenderMember(e: EmitterState, d: BodyDeclaration): (r: Result<EmitterState>)
    ensures r.Success? ==> Continues(e, r.value)
    decreases d, 2
  {
    match d
    case MethodDeclaration(_, _, _, _, _, _, _, _, _, _) => RenderMethod(e, d)
    case FieldDeclaration(modifiers, fieldType, variables) =>
      var e1 := Print(RenderType(RenderModifiers(e, modifiers), fieldType), " ");
      var e2 :- RenderDeclarators(e1, variables, None, 0);
      Success(Print(e2, ";"))
    case EnumDeclaration(_, _, _, _, _) => RenderEnum(e, d)
    case EmptyMemberDeclaration => Success(Print(e, ";"))
  }

  /** printMembers: each member between two line breaks. */
  function RenderMembers(e: EmitterState, ms: seq<BodyDeclaration>, i: nat): (r: Result<EmitterState>)
    requires i <= |ms|
    ensures r.Success? ==> Continues(e, r.value)
    decreases ms, |ms| - i
  {
    if i == |ms| then Success(e)
    else
      var e1 :- RenderMember(NewLine(e), ms[i]);
      RenderMembers(NewLine(e1), ms, i + 1)
  }

  /** One `#[test]` line per annotation named Test. */
  function RenderTestAttributes(e: EmitterState, annotations: seq<string>, i: nat): (r: EmitterState)
    requires i <= |annotations|
    ensures Continues(e, r)
    decreases |annotations| - i
  {
    if i == |annotations| then e
    else RenderTestAttributes(if annotations[i] == "Test" then PrintLn(e, "#[test]") else e, annotations, i + 1)
  }

  /** MethodDeclaration up to the return type: test attributes, modifiers,
      `fn `, `default `, type parameters and a space. */
  function MethodHead(e: EmitterState, m: BodyDeclaration): (r: EmitterState)
    requires m.MethodDeclaration?
    ensures Continues(e, r)
  {
    var e1 := RenderTestAttributes(e, m.annotations, 0);
    var e2 := PrintIf(Print(RenderModifiers(e1, m.methodModifiers), "fn "), m.isDefault, "default ");
    PrintIf(RenderTypeParameters(e2, m.typeParameters), |m.typeParameters| > 0, " ")
  }

  /** The return type, rendered after a push, read back and popped: it is
      printed later, after the parameters. */
  function ReturnTypeText(e: EmitterState, t: Type): string {
    var pushed := Push(e);
    var e1 := RenderType(pushed, t);
    GetMark(e1, |pushed.marks|)
  }

  /** The name, `(`, the `&self` receiver of an instance method, the
      parameters, `) -> ` and the array brackets of the return type. */
  function MethodSignature(e: EmitterState, m: BodyDeclaration): (r: Result<EmitterState>)
    requires m.MethodDeclaration?
    ensures r.Success? ==> Continues(e, r.value)
  {
    var e1 :- PrintName(e, m.methodName);
    var e2 := PrintReceiver(Print(e1, "("), m.methodModifiers.isStatic, |m.parameters| > 0);
    var e3 :- RenderParameters(e2, m.parameters, 0);
    Success(ArrayComment(Print(e3, ") -> "), m.arrayCount))
  }

  /** `&self`, and `, ` when parameters follow, unless the method is static. */
  function PrintReceiver(e: EmitterState, isStatic: bool, hasParameters: bool): (r: EmitterState)
    ensures Continues(e, r)
  {
    if isStatic then e else PrintIf(Print(e, "&self"), hasParameters, ", ")
  }

  /** The array brackets of a method's return type, in a comment. */
  function ArrayComment(e: EmitterState, arrayCount: nat): (r: EmitterState)
    ensures Continues(e, r)
  {
    if arrayCount > 0 then Print(PrintTimes(Print(e, "/* "), "[]", arrayCount), " */") else e
  }

  /** The return section: with a throws clause, the exceptions in a comment
      and the type wrapped in `Result<...>`; without, the type. */
  function ReturnSection(e: EmitterState, throws: seq<Type>, typeString: string): (r: EmitterState)
    ensures Continues(e, r)
  {
    if |throws| > 0 then
      var e1 := RenderTypesJoined(Print(Print(e, "/* "), " throws "), throws, ", ", 0);
      Print(Print(Print(Print(e1, " */"), "Result<"), typeString), "> ")
    else Print(e, typeString)
  }

  /** MethodDeclaration: the head, the return type captured and withdrawn,
      a space, the signature, the return section, a space, then `;` for a
      method without body or a space and the body. */
  function RenderMethod(e: EmitterState, m: BodyDeclaration): (r: Result<EmitterState>)
    requires m.MethodDeclaration?
    ensures r.Success? ==> Continues(e, r.value)
  {
    var h := MethodHead(e, m);
    var typed := RenderType(Push(h), m.returnType);
    Speculation(h, typed);
    var e1 :- MethodSignature(Print(Pop(typed), " "), m);
    MethodTail(e1, m, GetMark(typed, |h.marks| + 1))
  }

  function MethodTail(e: EmitterState, m: BodyDeclaration, typeString: string): (r: Result<EmitterState>)
    requires m.MethodDeclaration?
    ensures r.Success? ==> Continues(e, r.value)
  {
    var e1 := Print(ReturnSection(e, m.throws, typeString), " ");
    match m.body
    case None => Success(Print(e1, ";"))
    case Some(b) => RenderStmt(Print(e1, " "), b)
  }

  /** EnumDeclaration: modifiers, name, implemented types, then one level
      deeper the constants separated by `, `, and `;` and the members only
      when there are members. */
  function RenderEnum(e: EmitterState, d: BodyDeclaration): (r: Result<EmitterState>)
    requires d.EnumDeclaration?
    ensures r.Success? ==> Continues(e, r.value)
    decreases d, 1
  {
    var a :- RenderEnumConstants(NewLine(Indent(EnumHead(e, d))), d.enumEntries, 0);
    var b :- EnumTail(a, d);
    Success(Print(Unindent(b), "}"))
  }

  /** The enum's first line: modifiers, `enum`, the name, the implemented
      types, ` {`. */
  function EnumHead(e: EmitterState, d: BodyDeclaration): (r: EmitterState)
    requires d.EnumDeclaration?
    ensures Continues(e, r)
  {
    var e1 := Print(Print(RenderModifiers(e, d.enumModifiers), "enum "), d.enumName);
    var e2 := if |d.implements| > 0 then RenderTypesJoined(Print(e1, " implements "), d.implements, ", ", 0) else e1;
    PrintLn(e2, " {")
  }

  function EnumTail(e: EmitterState, d: BodyDeclaration): (r: Result<EmitterState>)
    requires d.EnumDeclaration?
    ensures r.Success? ==> Continues(e, r.value)
    decreases d, 0
  {
    if |d.members| > 0 then RenderMembers(PrintLn(e, ";"), d.members, 0)
    else Success(if |d.enumEntries| > 0 then NewLine(e) else e)
  }

  function RenderEnumConstants(e: EmitterState, cs: seq<EnumConstantDeclaration>, i: nat): (r: Result<EmitterState>)
    requires i <= |cs|
    ensures r.Success? ==> Continues(e, r.value)
    decreases cs, |cs| - i
  {
    if i == |cs| then Success(e)
    else
      var e1 :- RenderEnumConstant(e, cs[i]);
      RenderEnumConstants(if i + 1 < |cs| then Print(e1, ", ") else e1, cs, i + 1)
  }

  /** EnumConstantDeclaration: the name, the arguments when present, and a
      class body in braces when it has members. */
  function RenderEnumConstant(e: EmitterState, c: EnumConstantDeclaration): (r: Result<EmitterState>)
    ensures r.Success? ==> Continues(e, r.value)
    decreases c, 1
  {
    var e1 := Print(e, c.constantName);
    var e2 :- if c.hasArgs then RenderArguments(e1, c.constantArgs) else Success(e1);
    EnumConstantBody(e2, c)
  }

  /** The class body of an enum constant, in braces, when it has members. */
  function EnumConstantBody(e: EmitterState, c: EnumConstantDeclaration): (r: Result<EmitterState>)
    ensures r.Success? ==> Continues(e, r.value)
    decreases c, 0
  {
    if |c.classBody| == 0 then Success(e)
    else
      var b :- RenderMembers(Indent(PrintLn(e, " {")), c.classBody, 0);
      Success(PrintLn(Unindent(b), "}"))
  }

}
