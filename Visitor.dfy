/** RustDumpVisitor: the visitor that walks the tree and drives its
    SourcePrinter. Every visit method is proved to leave the printer in the
    state the reference renderer of module Render computes from the state
    before the visit, or to end with the exception the renderer names. */
module Visitor {
  import opened Wrappers
  import opened Text
  import opened Syntax
  import opened Names
  import opened Literals
  import opened Tables
  import opened EmitterSpec
  import opened Render
  import opened Printer
  import opened Orphans

  /** A visit agrees with the renderer: on success the printer holds the
      rendered state, on an exception the method fails with its message. */
  ghost predicate Agrees(p: SourcePrinter, r: Outcome, expected: Result<EmitterState>)
    reads p
  {
    match expected
    case Success(s) => r == Pass && p.State() == s
    case Failure(m) => r == Fail(m)
  }

  class RustDumpVisitor {
    const printer: SourcePrinter
    const printComments: bool

    constructor (printComments: bool)
      ensures this.printComments == printComments
      ensures fresh(printer) && printer.State() == Initial(IndentUnit)
    {
      this.printComments := printComments;
      printer := new SourcePrinter(IndentUnit);
    }

    /** The no-argument constructor prints comments. */
    constructor Default()
      ensures printComments
      ensures fresh(printer) && printer.State() == Initial(IndentUnit)
    {
      printComments := true;
      printer := new SourcePrinter(IndentUnit);
    }

    method GetSource() returns (source: string)
      ensures source == printer.State().buf
    {
      source := printer.GetSource();
    }

    // ----- helpers --------------------------------------------------------

    /** printModifiers: the guarded print of each modifier's word, in the
        order of the modifier table. */
    method PrintModifiers(m: Modifiers)
      modifies printer
      ensures printer.State() == RenderModifiers(old(printer.State()), m)
    {
      var flags := ModifierFlags(m);
      for k := 0 to |ModifierWords|
        invariant PrintEachIf(printer.State(), flags, ModifierWords, k)
               == PrintEachIf(old(printer.State()), flags, ModifierWords, 0)
      {
        PrintEachIfStep(printer.State(), flags, ModifierWords, k);
        if flags[k] {
          printer.Print(ModifierWords[k]);
        }
      }
    }

    /** The `for (i < count) print(s)` loops. */
    method PrintRepeated(s: string, count: nat)
      modifies printer
      ensures printer.State() == PrintTimes(old(printer.State()), s, count)
    {
      for i := 0 to count
        invariant PrintTimes(printer.State(), s, count - i) == PrintTimes(old(printer.State()), s, count)
      {
        printer.Print(s);
      }
    }

    /** toSnakeIfNecessary and a print of its result. */
    method PrintConverted(name: string) returns (r: Outcome)
      modifies printer
      ensures Agrees(printer, r, Render.PrintName(old(printer.State()), name))
    {
      var converted := SnakeName(name);
      if converted.Failure? {
        return Fail(converted.error);
      }
      printer.Print(converted.value);
      r := Pass;
    }

    // ----- types ----------------------------------------------------------

    method VisitType(t: Type)
      modifies printer
      ensures printer.State() == RenderType(old(printer.State()), t)
      decreases t, 1
    {
      match t
      case PrimitiveType(k) => printer.Print(PrimitiveTypeName(k));
      case ClassOrInterfaceType(_, _, _, _) => VisitClassOrInterfaceType(t);
      case ReferenceType(elementType, arrayCount) =>
        VisitType(elementType);
        PrintRepeated("[]", arrayCount);
      case VoidType => printer.Print("void");
      case IntersectionType(elements) => PrintTypesSeparatedAfterFirst(elements, " & ");
      case UnionType(elements) => PrintTypesSeparatedAfterFirst(elements, " | ");
      case WildcardType(extendsBound, superBound) =>
        printer.Print("?");
        if extendsBound.Some? {
          printer.Print(" extends ");
          VisitType(extendsBound.value);
        }
        if superBound.Some? {
          printer.Print(" super ");
          VisitType(superBound.value);
        }
      case UnknownType =>
    }

    method VisitClassOrInterfaceType(t: Type)
      requires t.ClassOrInterfaceType?
      modifies printer
      ensures printer.State() == RenderType(old(printer.State()), t)
      decreases t, 0
    {
      if t.scope.Some? {
        VisitType(t.scope.value);
        printer.Print(".");
      }
      printer.Print(t.name);
      if t.diamond {
        printer.Print("<>");
      } else {
        PrintTypeArgs(t.typeArgs);
      }
    }

    /** printTypeArgs. */
    method PrintTypeArgs(args: seq<Type>)
      modifies printer
      ensures printer.State() == RenderTypeArgs(old(printer.State()), args)
      decreases args, 1
    {
      if |args| > 0 {
        printer.Print("<");
        PrintTypesJoined(args, ", ");
        printer.Print(">");
      }
    }

    /** The iterator loop over types printing `sep` while another follows. */
    method PrintTypesJoined(ts: seq<Type>, sep: string)
      modifies printer
      ensures printer.State() == RenderTypesJoined(old(printer.State()), ts, sep, 0)
      decreases ts, 0
    {
      for i := 0 to |ts|
        invariant RenderTypesJoined(printer.State(), ts, sep, i) == RenderTypesJoined(old(printer.State()), ts, sep, 0)
      {
        VisitType(ts[i]);
        if i + 1 < |ts| {
          printer.Print(sep);
        }
      }
    }

    /** The IntersectionType and UnionType loop with its `isFirst` flag. */
    method PrintTypesSeparatedAfterFirst(ts: seq<Type>, sep: string)
      modifies printer
      ensures printer.State() == RenderTypesSeparatedAfterFirst(old(printer.State()), ts, sep, 0)
      decreases ts
    {
      var isFirst := true;
      for i := 0 to |ts|
        invariant isFirst == (i == 0)
        invariant RenderTypesSeparatedAfterFirst(printer.State(), ts, sep, i)
               == RenderTypesSeparatedAfterFirst(old(printer.State()), ts, sep, 0)
      {
        VisitType(ts[i]);
        if isFirst {
          isFirst := false;
        } else {
          printer.Print(sep);
        }
      }
    }

    /** TypeParameter: the name and the bounds after ` extends `. */
    method VisitTypeParameter(p: TypeParameter)
      modifies printer
      ensures printer.State() == RenderTypeParameter(old(printer.State()), p)
    {
      printer.Print(p.name);
      if |p.typeBound| > 0 {
        printer.Print(" extends ");
        PrintTypesJoined(p.typeBound, " & ");
      }
    }

    /** printTypeParameters. */
    method PrintTypeParameters(ps: seq<TypeParameter>)
      modifies printer
      ensures printer.State() == RenderTypeParameters(old(printer.State()), ps)
    {
      if |ps| > 0 {
        printer.Print("<");
        ghost var start := printer.State();
        for i := 0 to |ps|
          invariant RenderTypeParametersFrom(printer.State(), ps, i) == RenderTypeParametersFrom(start, ps, 0)
        {
          VisitTypeParameter(ps[i]);
          if i + 1 < |ps| {
            printer.Print(", ");
          }
        }
        printer.Print(">");
      }
    }

    // ----- expressions ----------------------------------------------------

    /** The expression visitors. */
    method VisitExpr(x: Expr) returns (r: Outcome)
      modifies printer
      ensures Agrees(printer, r, RenderExpr(old(printer.State()), x))
      decreases x, 3
    {
      ExprKinds(printer.State(), x);
      r := Pass;
      if IsLiteral(x) {
        LiteralExprKind(printer.State(), x);
        VisitLiteral(x);
      } else if || x.AssignExpr? || x.BinaryExpr? || x.UnaryExpr?
                || x.CastExpr? || x.InstanceOfExpr? || x.ConditionalExpr? {
        r := VisitOperatorExpr(x);
      } else if || x.FieldAccessExpr? || x.MethodCallExpr? || x.ObjectCreationExpr?
                || x.ArrayAccessExpr? || x.ThisExpr? || x.SuperExpr? {
        r := VisitAccessExpr(x);
      } else {
        match x
        case NameExpr(name) => r := PrintConverted(name);
        case ClassExpr(_) => VisitClassExpr(x);
        case EnclosedExpr(_) => r := VisitEnclosed(x);
        case ArrayInitializerExpr(_) => r := VisitArrayInitializer(x);
        case VariableDeclarationExpr(d) => r := VisitVariableDeclarationExpr(d);
      }
    }

    /** The visitors of the expressions that reach into another one: field
        access, calls, creations, indexing, qualified this and super. */
    method VisitAccessExpr(x: Expr) returns (r: Outcome)
      requires || x.FieldAccessExpr? || x.MethodCallExpr? || x.ObjectCreationExpr?
               || x.ArrayAccessExpr? || x.ThisExpr? || x.SuperExpr?
      modifies printer
      ensures Agrees(printer, r, RenderExpr(old(printer.State()), x))
      decreases x, 2
    {
      AccessExprKinds(printer.State(), x);
      match x
      case FieldAccessExpr(_, _) => r := VisitFieldAccess(x);
      case MethodCallExpr(_, _, _, _) => r := VisitMethodCall(x);
      case ObjectCreationExpr(_, _, _, _) => r := VisitObjectCreation(x);
      case ArrayAccessExpr(_, _) => r := VisitArrayAccess(x);
      case ThisExpr(_) => r := VisitThis(x);
      case SuperExpr(_) => r := VisitSuper(x);
    }

    /** The visitors of the expressions built around an operator. */
    method VisitOperatorExpr(x: Expr) returns (r: Outcome)
      requires || x.AssignExpr? || x.BinaryExpr? || x.UnaryExpr?
               || x.CastExpr? || x.InstanceOfExpr? || x.ConditionalExpr?
      modifies printer
      ensures Agrees(printer, r, RenderExpr(old(printer.State()), x))
      decreases x, 2
    {
      OperatorExprKinds(printer.State(), x);
      match x
      case AssignExpr(_, _, _) => r := VisitAssign(x);
      case BinaryExpr(_, _, _) => r := VisitBinary(x);
      case UnaryExpr(_, _) => r := VisitUnary(x);
      case CastExpr(_, _) => r := VisitCast(x);
      case InstanceOfExpr(_, _) => r := VisitInstanceOf(x);
      case ConditionalExpr(_, _, _) => r := VisitConditional(x);
    }

    /** The literal visitors: character and string literals print their quotes
        and their value in three prints, the others one converted text. */
    method VisitLiteral(x: Expr)
      requires IsLiteral(x)
      modifies printer
      ensures printer.State() == Print(old(printer.State()), LiteralText(x))
    {
      if x.CharLiteralExpr? {
        PrintQuoted("'", x.charValue);
      } else if x.StringLiteralExpr? {
        PrintQuoted("\"", x.stringValue);
      } else {
        printer.Print(LiteralText(x));
      }
    }

    /** A value between two quotes, in three prints. */
    method PrintQuoted(quote: string, v: string)
      modifies printer
      ensures printer.State() == Print(old(printer.State()), quote + v + quote)
    {
      ghost var e := printer.State();
      printer.Print(quote);
      printer.Print(v);
      printer.Print(quote);
      PrintIndentsOncePerLine(e, quote, v);
      PrintIndentsOncePerLine(e, quote + v, quote);
    }

    method VisitClassExpr(x: Expr)
      requires x.ClassExpr?
      modifies printer
      ensures printer.State() == Print(RenderType(old(printer.State()), x.classType), ".class")
    {
      VisitType(x.classType);
      printer.Print(".class");
    }

    method VisitMethodCall(x: Expr) returns (r: Outcome)
      requires x.MethodCallExpr?
      modifies printer
      ensures Agrees(printer, r, RenderMethodCall(old(printer.State()), x))
      decreases x, 1
    {
      r := VisitScope(x.callScope);
      if r.Fail? { return; }
      PrintTypeArgs(x.callTypeArgs);
      :- PrintConverted(x.methodName);
      r := PrintArguments(x.args);
    }

    method VisitObjectCreation(x: Expr) returns (r: Outcome)
      requires x.ObjectCreationExpr?
      modifies printer
      ensures Agrees(printer, r, RenderObjectCreation(old(printer.State()), x))
      decreases x, 1
    {
      r := VisitScope(x.creationScope);
      if r.Fail? { return; }
      printer.Print("new ");
      PrintTypeArgs(x.creationTypeArgs);
      if |x.creationTypeArgs| > 0 {
        printer.Print(" ");
      }
      VisitType(x.createdType);
      r := PrintArguments(x.creationArgs);
    }

    method VisitAssign(x: Expr) returns (r: Outcome)
      requires x.AssignExpr?
      modifies printer
      ensures Agrees(printer, r, RenderInfix(old(printer.State()), x))
      decreases x, 1
    {
      r := VisitExpr(x.target);
      if r.Fail? { return; }
      printer.Print(" ");
      printer.Print(AssignOperatorText(x.assignOp));
      printer.Print(" ");
      r := VisitExpr(x.value);
    }

    method VisitBinary(x: Expr) returns (r: Outcome)
      requires x.BinaryExpr?
      modifies printer
      ensures Agrees(printer, r, RenderInfix(old(printer.State()), x))
      decreases x, 1
    {
      r := VisitExpr(x.left);
      if r.Fail? { return; }
      printer.Print(" ");
      printer.Print(BinaryOperatorText(x.binaryOp));
      printer.Print(" ");
      r := VisitExpr(x.right);
    }

    method VisitCast(x: Expr) returns (r: Outcome)
      requires x.CastExpr?
      modifies printer
      ensures Agrees(printer, r, RenderOperation(old(printer.State()), x))
      decreases x, 1
    {
      printer.Print("(");
      VisitType(x.castType);
      printer.Print(") ");
      r := VisitExpr(x.castExpr);
    }

    method VisitInstanceOf(x: Expr) returns (r: Outcome)
      requires x.InstanceOfExpr?
      modifies printer
      ensures Agrees(printer, r, RenderOperation(old(printer.State()), x))
      decreases x, 1
    {
      r := VisitExpr(x.tested);
      if r.Fail? { return; }
      printer.Print(" instanceof ");
      VisitType(x.testedType);
      r := Pass;
    }

    method VisitConditional(x: Expr) returns (r: Outcome)
      requires x.ConditionalExpr?
      modifies printer
      ensures Agrees(printer, r, RenderOperation(old(printer.State()), x))
      decreases x, 1
    {
      r := VisitExpr(x.condition);
      if r.Fail? { return; }
      printer.Print(" ? ");
      :- VisitExpr(x.thenExpr);
      printer.Print(" : ");
      r := VisitExpr(x.elseExpr);
    }

    /** The operator switches become the operator tables. */
    method VisitUnary(x: Expr) returns (r: Outcome)
      requires x.UnaryExpr?
      modifies printer
      ensures Agrees(printer, r, RenderUnary(old(printer.State()), x))
      decreases x, 1
    {
      var prefix := UnaryPrefixText(x.unaryOp);
      if prefix != "" {
        printer.Print(prefix);
      }
      :- VisitExpr(x.operand);
      var postfix := UnaryPostfixText(x.unaryOp);
      if postfix != "" {
        printer.Print(postfix);
      }
      r := Pass;
    }

    method VisitEnclosed(x: Expr) returns (r: Outcome)
      requires x.EnclosedExpr?
      modifies printer
      ensures Agrees(printer, r, RenderEnclosed(old(printer.State()), x))
      decreases x, 1
    {
      printer.Print("(");
      :- VisitScopeless(x.inner);
      printer.Print(")");
      r := Pass;
    }

    method VisitArrayAccess(x: Expr) returns (r: Outcome)
      requires x.ArrayAccessExpr?
      modifies printer
      ensures Agrees(printer, r, RenderArrayAccess(old(printer.State()), x))
      decreases x, 1
    {
      r := VisitExpr(x.indexed);
      if r.Fail? { return; }
      printer.Print("[");
      :- VisitExpr(x.index);
      printer.Print("]");
      r := Pass;
    }

    method VisitArrayInitializer(x: Expr) returns (r: Outcome)
      requires x.ArrayInitializerExpr?
      modifies printer
      ensures Agrees(printer, r, RenderArrayInitializer(old(printer.State()), x))
      decreases x, 1
    {
      printer.Print("{");
      if |x.values| > 0 {
        printer.Print(" ");
        ghost var start := printer.State();
        for i := 0 to |x.values|
          invariant RenderExprsJoined(printer.State(), x.values, i) == RenderExprsJoined(start, x.values, 0)
        {
          :- VisitExpr(x.values[i]);
          if i + 1 < |x.values| {
            printer.Print(", ");
          }
        }
        printer.Print(" ");
      }
      printer.Print("}");
      r := Pass;
    }

    method VisitThis(x: Expr) returns (r: Outcome)
      requires x.ThisExpr?
      modifies printer
      ensures Agrees(printer, r, RenderSelfReference(old(printer.State()), x))
      decreases x, 1
    {
      r := VisitScope(x.thisClass);
      if r.Fail? { return; }
      printer.Print("this");
      r := Pass;
    }

    method VisitSuper(x: Expr) returns (r: Outcome)
      requires x.SuperExpr?
      modifies printer
      ensures Agrees(printer, r, RenderSelfReference(old(printer.State()), x))
      decreases x, 1
    {
      r := VisitScope(x.superClass);
      if r.Fail? { return; }
      printer.Print("super");
      r := Pass;
    }

    /** FieldAccessExpr: the scope is printed after a push, read back with
        getMark and kept with drop. */
    method VisitFieldAccess(x: Expr) returns (r: Outcome)
      requires x.FieldAccessExpr?
      modifies printer
      ensures Agrees(printer, r, RenderFieldAccess(old(printer.State()), x))
      decreases x, 1
    {
      ghost var e := printer.State();
      var mark := printer.Push();
      :- VisitExpr(x.scope);
      Speculation(e, printer.State());
      var scope := printer.GetMark(mark);
      printer.Drop();
      var accessed := AccessedSegment(scope);
      if |accessed| == 0 {
        return Fail(StringIndexOutOfBounds);
      }
      if IsUpper(accessed[0]) {
        printer.Print("::");
      } else {
        printer.Print(".");
      }
      printer.Print(x.field);
      r := Pass;
    }

    /** The `if (scope != null) { scope.accept(..); print(".") }` blocks. */
    method VisitScope(scope: Option<Expr>) returns (r: Outcome)
      modifies printer
      ensures Agrees(printer, r, RenderScope(old(printer.State()), scope))
      decreases scope, 0
    {
      r := Pass;
      if scope.Some? {
        :- VisitExpr(scope.value);
        printer.Print(".");
      }
    }

    /** The `if (inner != null) inner.accept(..)` block of EnclosedExpr. */
    method VisitScopeless(inner: Option<Expr>) returns (r: Outcome)
      modifies printer
      ensures Agrees(printer, r, RenderScopeless(old(printer.State()), inner))
      decreases inner, 0
    {
      r := Pass;
      if inner.Some? {
        r := VisitExpr(inner.value);
      }
    }

    /** printArguments. */
    method PrintArguments(args: seq<Expr>) returns (r: Outcome)
      modifies printer
      ensures Agrees(printer, r, RenderArguments(old(printer.State()), args))
      decreases args, 1
    {
      printer.Print("(");
      ghost var start := printer.State();
      for i := 0 to |args|
        invariant RenderExprsJoined(printer.State(), args, i) == RenderExprsJoined(start, args, 0)
      {
        :- VisitExpr(args[i]);
        if i + 1 < |args| {
          printer.Print(", ");
        }
      }
      printer.Print(")");
      r := Pass;
    }

    /** VariableDeclarationExpr: each declarator is visited with the declared
        type as its argument. */
    method VisitVariableDeclarationExpr(d: LocalDeclaration) returns (r: Outcome)
      modifies printer
      ensures Agrees(printer, r, RenderLocalDeclaration(old(printer.State()), d))
      decreases d, 1
    {
      PrintModifiers(d.modifiers);
      printer.Print(" ");
      r := PrintDeclarators(d.vars, Some(d.declType));
    }

    /** The declarator loops of FieldDeclaration and VariableDeclarationExpr. */
    method PrintDeclarators(vs: seq<VariableDeclarator>, arg: Option<Type>) returns (r: Outcome)
      modifies printer
      ensures Agrees(printer, r, RenderDeclarators(old(printer.State()), vs, arg, 0))
      decreases vs, 1
    {
      ghost var start := printer.State();
      for i := 0 to |vs|
        invariant RenderDeclarators(printer.State(), vs, arg, i) == RenderDeclarators(start, vs, arg, 0)
      {
        :- VisitVariableDeclarator(vs[i], arg);
        if i + 1 < |vs| {
          printer.Print(", ");
        }
      }
      r := Pass;
    }

    /** VariableDeclarator: `: T` only when the argument is a type and the
        initializer is not an array initializer. */
    method VisitVariableDeclarator(v: VariableDeclarator, arg: Option<Type>) returns (r: Outcome)
      modifies printer
      ensures Agrees(printer, r, RenderDeclarator(old(printer.State()), v, arg))
      decreases v
    {
      r := PrintConverted(v.id);
      if r.Fail? { return; }
      if arg.Some? && !(v.init.Some? && v.init.value.ArrayInitializerExpr?) {
        printer.Print(": ");
        VisitType(arg.value);
      }
      r := Pass;
      if v.init.Some? {
        printer.Print(" = ");
        r := VisitExpr(v.init.value);
      }
    }

    /** Parameter: modifiers, type, `...` for varargs, a space, the name. */
    method VisitParameter(p: Parameter) returns (r: Outcome)
      modifies printer
      ensures Agrees(printer, r, RenderParameter(old(printer.State()), p))
    {
      PrintModifiers(p.modifiers);
      VisitType(p.paramType);
      if p.isVarArgs {
        printer.Print("...");
      }
      printer.Print(" ");
      r := PrintConverted(p.id);
    }

    // ----- statements -----------------------------------------------------

    /** The statement visitors. */
    method VisitStmt(s: Stmt) returns (r: Outcome)
      modifies printer
      ensures Agrees(printer, r, RenderStmt(old(printer.State()), s))
      decreases s, 3
    {
      StmtKinds(printer.State(), s);
      match s
      case BlockStmt(_) => r := VisitBlock(s);
      case IfStmt(_, _, _) => r := VisitIf(s);
      case WhileStmt(_, _) => r := VisitWhile(s);
      case DoStmt(_, _) => r := VisitDo(s);
      case SwitchStmt(_, _) => r := VisitSwitch(s);
      case TryStmt(_, _, _, _) => r := VisitTry(s);
      case _ => r := VisitSimpleStmt(s);
    }

    /** The statements that hold no other statement. */
    method VisitSimpleStmt(s: Stmt) returns (r: Outcome)
      requires || s.ExpressionStmt? || s.ThrowStmt? || s.ReturnStmt?
               || s.BreakStmt? || s.ContinueStmt? || s.EmptyStmt?
      modifies printer
      ensures Agrees(printer, r, RenderStmt(old(printer.State()), s))
      decreases s, 2
    {
      match s
      case ExpressionStmt(_) => r := VisitExpressionStmt(s);
      case ThrowStmt(_) => r := VisitThrow(s);
      case ReturnStmt(_) => r := VisitReturn(s);
      case BreakStmt(id) =>
        printer.Print("break");
        PrintLabelOf(id);
        printer.Print(";");
        r := Pass;
      case ContinueStmt(id) =>
        printer.Print("continue");
        PrintLabelOf(id);
        printer.Print(";");
        r := Pass;
      case EmptyStmt =>
        printer.Print(";");
        r := Pass;
    }

    method VisitExpressionStmt(s: Stmt) returns (r: Outcome)
      requires s.ExpressionStmt?
      modifies printer
      ensures Agrees(printer, r, RenderStmt(old(printer.State()), s))
      decreases s, 1
    {
      r := VisitExpr(s.expression);
      if r.Fail? { return; }
      printer.Print(";");
      r := Pass;
    }

    method VisitThrow(s: Stmt) returns (r: Outcome)
      requires s.ThrowStmt?
      modifies printer
      ensures Agrees(printer, r, RenderStmt(old(printer.State()), s))
      decreases s, 1
    {
      printer.Print("throw ");
      r := VisitExpr(s.thrown);
      if r.Pass? {
        printer.Print(";");
      }
    }

    method VisitReturn(s: Stmt) returns (r: Outcome)
      requires s.ReturnStmt?
      modifies printer
      ensures Agrees(printer, r, RenderStmt(old(printer.State()), s))
      decreases s, 1
    {
      printer.Print("return");
      if s.returned.Some? {
        printer.Print(" ");
        :- VisitExpr(s.returned.value);
      }
      printer.Print(";");
      r := Pass;
    }

    /** The label of BreakStmt and ContinueStmt, after a space. */
    method PrintLabelOf(id: Option<string>)
      modifies printer
      ensures printer.State() == PrintLabel(old(printer.State()), id)
    {
      if id.Some? {
        printer.Print(" ");
        printer.Print(id.value);
      }
    }

    /** BlockStmt: each statement followed by a line break, one level deeper. */
    method VisitBlock(s: Stmt) returns (r: Outcome)
      requires s.BlockStmt?
      modifies printer
      ensures Agrees(printer, r, RenderBlock(old(printer.State()), s))
      decreases s, 1
    {
      printer.PrintLn("{");
      printer.Indent();
      r := PrintStmtLines(s.stmts);
      if r.Fail? {
        return;
      }
      printer.Unindent();
      printer.Print("}");
    }

    /** The statement loops of BlockStmt and SwitchEntryStmt. */
    method PrintStmtLines(ss: seq<Stmt>) returns (r: Outcome)
      modifies printer
      ensures Agrees(printer, r, RenderStmtLines(old(printer.State()), ss, 0))
      decreases ss, 0
    {
      ghost var start := printer.State();
      for i := 0 to |ss|
        invariant RenderStmtLines(printer.State(), ss, i) == RenderStmtLines(start, ss, 0)
      {
        :- VisitStmt(ss[i]);
        printer.NewLine();
      }
      r := Pass;
    }

    /** IfStmt: the then-branch on the condition's line when it is a block. */
    method VisitIf(s: Stmt) returns (r: Outcome)
      requires s.IfStmt?
      modifies printer
      ensures Agrees(printer, r, RenderIf(old(printer.State()), s))
      decreases s, 1
    {
      printer.Print("if (");
      :- VisitExpr(s.ifCondition);
      var thenBlock := s.thenStmt.BlockStmt?;
      :- VisitThenBranch(s.thenStmt);
      r := Pass;
      if s.elseStmt.Some? {
        r := VisitElseBranch(s.elseStmt.value, thenBlock);
      }
    }

    method VisitThenBranch(t: Stmt) returns (r: Outcome)
      modifies printer
      ensures Agrees(printer, r, RenderThenBranch(old(printer.State()), t))
      decreases t, 4
    {
      if t.BlockStmt? {
        printer.Print(") ");
        r := VisitStmt(t);
      } else {
        printer.PrintLn(")");
        printer.Indent();
        :- VisitStmt(t);
        printer.Unindent();
        r := Pass;
      }
    }

    method VisitElseBranch(el: Stmt, thenBlock: bool) returns (r: Outcome)
      modifies printer
      ensures Agrees(printer, r, RenderElseBranch(old(printer.State()), el, thenBlock))
      decreases el, 4
    {
      if thenBlock {
        printer.Print(" ");
      } else {
        printer.NewLine();
      }
      var elseIf := el.IfStmt?;
      var elseBlock := el.BlockStmt?;
      if elseIf || elseBlock {
        printer.Print("else ");
        r := VisitStmt(el);
      } else {
        printer.PrintLn("else");
        printer.Indent();
        :- VisitStmt(el);
        printer.Unindent();
        r := Pass;
      }
    }

    method VisitWhile(s: Stmt) returns (r: Outcome)
      requires s.WhileStmt?
      modifies printer
      ensures Agrees(printer, r, RenderLoop(old(printer.State()), s))
      decreases s, 1
    {
      printer.Print("while (");
      :- VisitExpr(s.whileCondition);
      printer.Print(") ");
      r := VisitStmt(s.whileBody);
    }

    method VisitDo(s: Stmt) returns (r: Outcome)
      requires s.DoStmt?
      modifies printer
      ensures Agrees(printer, r, RenderLoop(old(printer.State()), s))
      decreases s, 1
    {
      printer.Print("do ");
      :- VisitStmt(s.doBody);
      printer.Print(" while (");
      :- VisitExpr(s.doCondition);
      printer.Print(");");
      r := Pass;
    }

    method VisitSwitch(s: Stmt) returns (r: Outcome)
      requires s.SwitchStmt?
      modifies printer
      ensures Agrees(printer, r, RenderSwitch(old(printer.State()), s))
      decreases s, 1
    {
      printer.Print("switch(");
      r := VisitExpr(s.selector);
      if r.Pass? {
        printer.PrintLn(") {");
        printer.Indent();
        r := PrintSwitchEntries(s.entries);
        if r.Pass? {
          printer.Unindent();
          printer.Print("}");
        }
      }
    }

    /** The loop over the entries of a SwitchStmt. */
    method PrintSwitchEntries(entries: seq<SwitchEntryStmt>) returns (r: Outcome)
      modifies printer
      ensures Agrees(printer, r, RenderSwitchEntries(old(printer.State()), entries, 0))
      decreases entries, 0
    {
      ghost var start := printer.State();
      for i := 0 to |entries|
        invariant RenderSwitchEntries(printer.State(), entries, i) == RenderSwitchEntries(start, entries, 0)
      {
        :- VisitSwitchEntry(entries[i]);
      }
      r := Pass;
    }

    /** SwitchEntryStmt: the label line, then the statements one level deeper. */
    method VisitSwitchEntry(entry: SwitchEntryStmt) returns (r: Outcome)
      modifies printer
      ensures Agrees(printer, r, RenderSwitchEntry(old(printer.State()), entry))
      decreases entry
    {
      r := VisitCaseLabel(entry.caseLabel);
      if r.Fail? { return; }
      printer.NewLine();
      printer.Indent();
      :- PrintStmtLines(entry.entryStmts);
      printer.Unindent();
      r := Pass;
    }

    method VisitCaseLabel(caseLabel: Option<Expr>) returns (r: Outcome)
      modifies printer
      ensures Agrees(printer, r, RenderCaseLabel(old(printer.State()), caseLabel))
    {
      if caseLabel.Some? {
        printer.Print("case ");
        :- VisitExpr(caseLabel.value);
        printer.Print(":");
      } else {
        printer.Print("default:");
      }
      r := Pass;
    }

    /** TryStmt: resources, the block, the catch clauses, the finally block. */
    method VisitTry(s: Stmt) returns (r: Outcome)
      requires s.TryStmt?
      modifies printer
      ensures Agrees(printer, r, RenderTry(old(printer.State()), s))
      decreases s, 1
    {
      printer.Print("try ");
      r := Pass;
      if |s.resources| > 0 {
        r := PrintResources(s.resources);
      }
      if r.Pass? {
        r := VisitStmt(s.tryBlock);
      }
      if r.Pass? {
        r := PrintCatches(s.catchs);
      }
      if r.Pass? {
        r := VisitFinally(s.finallyBlock);
      }
    }

    method VisitFinally(f: Option<Stmt>) returns (r: Outcome)
      modifies printer
      ensures Agrees(printer, r, RenderFinally(old(printer.State()), f))
      decreases f
    {
      r := Pass;
      if f.Some? {
        printer.Print(" finally ");
        r := VisitStmt(f.value);
      }
    }

    /** The resource loop with its `first` flag. */
    method PrintResources(rs: seq<LocalDeclaration>) returns (r: Outcome)
      requires |rs| > 0
      modifies printer
      ensures Agrees(printer, r, RenderResources(old(printer.State()), rs))
    {
      printer.Print("(");
      ghost var start := printer.State();
      var first := true;
      for i := 0 to |rs|
        invariant first == (i == 0)
        invariant TryResources(printer.State(), rs, i) == TryResources(start, rs, 0)
      {
        :- VisitVariableDeclarationExpr(rs[i]);
        if i + 1 < |rs| {
          printer.Print(";");
          printer.NewLine();
          if first {
            printer.Indent();
          }
        }
        first := false;
      }
      if |rs| > 1 {
        printer.Unindent();
      }
      printer.Print(") ");
      r := Pass;
    }

    method PrintCatches(cs: seq<CatchClause>) returns (r: Outcome)
      modifies printer
      ensures Agrees(printer, r, RenderCatches(old(printer.State()), cs, 0))
      decreases cs, 0
    {
      ghost var start := printer.State();
      for i := 0 to |cs|
        invariant RenderCatches(printer.State(), cs, i) == RenderCatches(start, cs, 0)
      {
        :- VisitCatchClause(cs[i]);
      }
      r := Pass;
    }

    method VisitCatchClause(c: CatchClause) returns (r: Outcome)
      modifies printer
      ensures Agrees(printer, r, RenderCatch(old(printer.State()), c))
      decreases c
    {
      printer.Print(" catch (");
      :- VisitParameter(c.param);
      printer.Print(") ");
      r := VisitStmt(c.catchBlock);
    }

    // ----- members --------------------------------------------------------

    /** The member visitors. */
    method VisitMember(d: BodyDeclaration) returns (r: Outcome)
      modifies printer
      ensures Agrees(printer, r, RenderMember(old(printer.State()), d))
      decreases d, 2
    {
      match d
      case MethodDeclaration(_, _, _, _, _, _, _, _, _, _) => r := VisitMethod(d);
      case FieldDeclaration(_, _, _) => r := VisitField(d);
      case EnumDeclaration(_, _, _, _, _) => r := VisitEnum(d);
      case EmptyMemberDeclaration =>
        printer.Print(";");
        r := Pass;
    }

    /** printMembers. */
    method PrintMembers(ms: seq<BodyDeclaration>) returns (r: Outcome)
      modifies printer
      ensures Agrees(printer, r, RenderMembers(old(printer.State()), ms, 0))
      decreases ms, 0
    {
      ghost var start := printer.State();
      for i := 0 to |ms|
        invariant RenderMembers(printer.State(), ms, i) == RenderMembers(start, ms, 0)
      {
        printer.NewLine();
        :- VisitMember(ms[i]);
        printer.NewLine();
      }
      r := Pass;
    }

    /** FieldDeclaration: the declarators get the visitor's incoming argument,
        which the model takes to be the root call's null, so no `: T`. */
    method VisitField(d: BodyDeclaration) returns (r: Outcome)
      requires d.FieldDeclaration?
      modifies printer
      ensures Agrees(printer, r, RenderMember(old(printer.State()), d))
      decreases d, 1
    {
      PrintModifiers(d.fieldModifiers);
      VisitType(d.fieldType);
      printer.Print(" ");
      r := PrintDeclarators(d.variables, None);
      if r.Pass? {
        printer.Print(";");
      }
    }

    /** MethodDeclaration: the return type is printed after a push, read back
        with getMark and withdrawn with pop, to be printed after the
        parameters. */
    method VisitMethod(m: BodyDeclaration) returns (r: Outcome)
      requires m.MethodDeclaration?
      modifies printer
      ensures Agrees(printer, r, RenderMethod(old(printer.State()), m))
    {
      PrintMethodHead(m);
      ghost var h := printer.State();
      var mark := printer.Push();
      VisitType(m.returnType);
      Speculation(h, printer.State());
      var typeString := printer.GetMark(mark);
      printer.Pop();
      printer.Print(" ");
      r := PrintMethodSignature(m);
      if r.Pass? {
        r := PrintMethodTail(m, typeString);
      }
    }

    /** The `#[test]` line per Test annotation, the modifiers, `fn `,
        `default `, the type parameters and a space after them. */
    method PrintMethodHead(m: BodyDeclaration)
      requires m.MethodDeclaration?
      modifies printer
      ensures printer.State() == MethodHead(old(printer.State()), m)
    {
      ghost var start := printer.State();
      for i := 0 to |m.annotations|
        invariant RenderTestAttributes(printer.State(), m.annotations, i) == RenderTestAttributes(start, m.annotations, 0)
      {
        if m.annotations[i] == "Test" {
          printer.PrintLn("#[test]");
        }
      }
      PrintModifiers(m.methodModifiers);
      printer.Print("fn ");
      if m.isDefault {
        printer.Print("default ");
      }
      PrintTypeParameters(m.typeParameters);
      if |m.typeParameters| > 0 {
        printer.Print(" ");
      }
    }

    /** The name, the receiver, the parameters and the array comment. */
    method PrintMethodSignature(m: BodyDeclaration) returns (r: Outcome)
      requires m.MethodDeclaration?
      modifies printer
      ensures Agrees(printer, r, MethodSignature(old(printer.State()), m))
    {
      r := PrintConverted(m.methodName);
      if r.Fail? { return; }
      printer.Print("(");
      if !m.methodModifiers.isStatic {
        printer.Print("&self");
        if |m.parameters| > 0 {
          printer.Print(", ");
        }
      }
      :- PrintParameters(m.parameters);
      printer.Print(") -> ");
      if m.arrayCount > 0 {
        printer.Print("/* ");
        PrintRepeated("[]", m.arrayCount);
        printer.Print(" */");
      }
      r := Pass;
    }

    /** The parameter loop of MethodDeclaration. */
    method PrintParameters(ps: seq<Parameter>) returns (r: Outcome)
      modifies printer
      ensures Agrees(printer, r, RenderParameters(old(printer.State()), ps, 0))
    {
      ghost var start := printer.State();
      for i := 0 to |ps|
        invariant RenderParameters(printer.State(), ps, i) == RenderParameters(start, ps, 0)
      {
        :- VisitParameter(ps[i]);
        if i + 1 < |ps| {
          printer.Print(", ");
        }
      }
      r := Pass;
    }

    /** The return section, a space, then `;` or a space and the body. */
    method PrintMethodTail(m: BodyDeclaration, typeString: string) returns (r: Outcome)
      requires m.MethodDeclaration?
      modifies printer
      ensures Agrees(printer, r, MethodTail(old(printer.State()), m, typeString))
    {
      PrintReturnSection(m.throws, typeString);
      printer.Print(" ");
      if m.body.None? {
        printer.Print(";");
        r := Pass;
      } else {
        printer.Print(" ");
        r := VisitStmt(m.body.value);
      }
    }

    /** The throws clause in a comment and the type in `Result<...>`, or the
        type alone. */
    method PrintReturnSection(throws: seq<Type>, typeString: string)
      modifies printer
      ensures printer.State() == ReturnSection(old(printer.State()), throws, typeString)
    {
      if |throws| > 0 {
        printer.Print("/* ");
        printer.Print(" throws ");
        PrintTypesJoined(throws, ", ");
        printer.Print(" */");
        printer.Print("Result<");
        printer.Print(typeString);
        printer.Print("> ");
      } else {
        printer.Print(typeString);
      }
    }

    /** EnumDeclaration. */
    method VisitEnum(d: BodyDeclaration) returns (r: Outcome)
      requires d.EnumDeclaration?
      modifies printer
      ensures Agrees(printer, r, RenderEnum(old(printer.State()), d))
      decreases d, 1
    {
      PrintEnumHead(d);
      printer.Indent();
      printer.NewLine();
      r := PrintEnumConstants(d.enumEntries);
      if r.Pass? {
        r := PrintEnumTail(d);
        if r.Pass? {
          printer.Unindent();
          printer.Print("}");
        }
      }
    }

    /** Modifiers, `enum `, the name, the implemented types, ` {`. */
    method PrintEnumHead(d: BodyDeclaration)
      requires d.EnumDeclaration?
      modifies printer
      ensures printer.State() == EnumHead(old(printer.State()), d)
    {
      PrintModifiers(d.enumModifiers);
      printer.Print("enum ");
      printer.Print(d.enumName);
      if |d.implements| > 0 {
        printer.Print(" implements ");
        PrintTypesJoined(d.implements, ", ");
      }
      printer.PrintLn(" {");
    }

    /** The constants, separated by `, `. */
    method PrintEnumConstants(cs: seq<EnumConstantDeclaration>) returns (r: Outcome)
      modifies printer
      ensures Agrees(printer, r, RenderEnumConstants(old(printer.State()), cs, 0))
      decreases cs, 0
    {
      ghost var start := printer.State();
      for i := 0 to |cs|
        invariant RenderEnumConstants(printer.State(), cs, i) == RenderEnumConstants(start, cs, 0)
      {
        :- VisitEnumConstant(cs[i]);
        if i + 1 < |cs| {
          printer.Print(", ");
        }
      }
      r := Pass;
    }

    /** `;` and the members when there are members, else a line break when
        there are constants. */
    method PrintEnumTail(d: BodyDeclaration) returns (r: Outcome)
      requires d.EnumDeclaration?
      modifies printer
      ensures Agrees(printer, r, EnumTail(old(printer.State()), d))
      decreases d, 0
    {
      if |d.members| > 0 {
        printer.PrintLn(";");
        r := PrintMembers(d.members);
      } else {
        if |d.enumEntries| > 0 {
          printer.NewLine();
        }
        r := Pass;
      }
    }

    /** EnumConstantDeclaration: its name is printed as written. */
    method VisitEnumConstant(c: EnumConstantDeclaration) returns (r: Outcome)
      modifies printer
      ensures Agrees(printer, r, RenderEnumConstant(old(printer.State()), c))
      decreases c, 1
    {
      printer.Print(c.constantName);
      if c.hasArgs {
        :- PrintArguments(c.constantArgs);
      }
      r := PrintClassBody(c);
    }

    /** The class body of an enum constant, when it has members. */
    method PrintClassBody(c: EnumConstantDeclaration) returns (r: Outcome)
      modifies printer
      ensures Agrees(printer, r, EnumConstantBody(old(printer.State()), c))
      decreases c, 0
    {
      r := Pass;
      if |c.classBody| > 0 {
        printer.PrintLn(" {");
        printer.Indent();
        :- PrintMembers(c.classBody);
        printer.Unindent();
        printer.PrintLn("}");
      }
    }

    // ----- comments -------------------------------------------------------

    /** LineComment, BlockComment and JavadocComment: line and block comments
        print only when comments are switched on; a line comment's line
        breaks become spaces. */
    method VisitComment(c: Comment)
      modifies printer
      ensures printer.State() == RenderComment(old(printer.State()), c, printComments)
    {
      match c
      case LineComment(content) =>
        if !printComments {
          return;
        }
        printer.Print("//");
        var tmp := ReplaceChar(content, '\r', ' ');
        tmp := ReplaceChar(tmp, '\n', ' ');
        printer.PrintLn(tmp);
      case BlockComment(content) =>
        if !printComments {
          return;
        }
        printer.Print("/*");
        printer.Print(content);
        printer.PrintLn("*/");
      case JavadocComment(content) =>
        printer.Print("/**");
        printer.Print(content);
        printer.PrintLn("*/");
    }

    /** printOrphanCommentsBeforeThisChildNode: `siblings` are the children
        of the node's parent, None when it has none. */
    method PrintOrphanCommentsBefore(node: Node, siblings: Option<seq<Node>>) returns (r: Outcome)
      modifies printer
      ensures Agrees(printer, r, RenderOrphansBefore(old(printer.State()), node, siblings, printComments))
    {
      if IsComment(node) {
        return Pass;
      }
      if siblings.None? {
        return Pass;
      }
      var everything := SortByBegin(siblings.value);
      var positionOfTheChild := -1;
      for i := 0 to |everything|
        invariant positionOfTheChild == LastIndexOf(everything[..i], node.id)
      {
        assert everything[..i + 1][..i] == everything[..i];
        if everything[i].id == node.id {
          positionOfTheChild := i;
        }
      }
      assert everything[..|everything|] == everything;
      if positionOfTheChild == -1 {
        return Fail(IndexNotFound);
      }
      var positionOfPreviousChild := -1;
      var i := positionOfTheChild - 1;
      while i >= 0 && positionOfPreviousChild == -1
        invariant -1 <= i < positionOfTheChild
        invariant positionOfPreviousChild == -1 ==> PreviousNonComment(everything, positionOfTheChild) == PreviousNonComment(everything, i + 1)
        invariant positionOfPreviousChild != -1 ==> positionOfPreviousChild == PreviousNonComment(everything, positionOfTheChild)
      {
        if !IsComment(everything[i]) {
          positionOfPreviousChild := i;
        }
        i := i - 1;
      }
      OrphansBeforeAreComments(node, siblings);
      PrintCommentNodes(everything[positionOfPreviousChild + 1..positionOfTheChild]);
      r := Pass;
    }

    /** printOrphanCommentsEnding: the comments after the last non-comment
        child of a node with these children. */
    method PrintOrphanCommentsEnding(children: seq<Node>)
      modifies printer
      ensures printer.State() == RenderOrphansEnding(old(printer.State()), children, printComments)
    {
      var everything := SortByBegin(children);
      if |everything| == 0 {
        assert OrphansEnding(children) == [];
        return;
      }
      var commentsAtEnd := 0;
      var findingComments := true;
      assert everything[..|everything|] == everything;
      while findingComments && commentsAtEnd < |everything|
        invariant 0 <= commentsAtEnd <= |everything|
        invariant unchanged(printer)
        invariant TrailingComments(everything) == commentsAtEnd + TrailingComments(everything[..|everything| - commentsAtEnd])
        invariant !findingComments ==> TrailingComments(everything[..|everything| - commentsAtEnd]) == 0
        decreases |everything| - commentsAtEnd, findingComments
      {
        var last := everything[|everything| - 1 - commentsAtEnd];
        TrailingCommentsStep(everything, commentsAtEnd);
        findingComments := IsComment(last);
        if findingComments {
          commentsAtEnd := commentsAtEnd + 1;
        }
      }
      assert commentsAtEnd == |everything| ==> everything[..|everything| - commentsAtEnd] == [];
      OrphansEndingAreComments(children);
      PrintCommentNodes(everything[|everything| - commentsAtEnd..]);
    }

    /** The loops that accept each comment node of a run in turn. */
    method PrintCommentNodes(ns: seq<Node>)
      requires AllComments(ns)
      modifies printer
      ensures printer.State() == PrintComments(old(printer.State()), ns, printComments, 0)
    {
      ghost var start := printer.State();
      for i := 0 to |ns|
        invariant PrintComments(printer.State(), ns, printComments, i) == PrintComments(start, ns, printComments, 0)
      {
        match ns[i].comment
        case None =>
          assert false;
        case Some(c) =>
          VisitComment(c);
      }
    }
  }
}
