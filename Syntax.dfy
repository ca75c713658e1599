/** The syntax tree the printer walks: the node kinds it renders, in place of
    the JavaParser classes. Lists the parser may leave null are empty lists. */
module Syntax {
  import opened Wrappers

  datatype PrimitiveKind = Boolean | Byte | Char | Double | Float | Int | Long | Short

  /** The modifier bit set, as one flag per modifier. */
  datatype Modifiers = Modifiers(
    isPrivate: bool, isProtected: bool, isPublic: bool, isAbstract: bool,
    isStatic: bool, isFinal: bool, isNative: bool, isStrictfp: bool,
    isSynchronized: bool, isTransient: bool, isVolatile: bool)

  datatype BinaryOperator =
    | Or | And | BinOr | BinAnd | Xor | Equals | NotEquals | Less | Greater
    | LessEquals | GreaterEquals | LShift | RSignedShift | RUnsignedShift
    | Plus | Minus | Times | Divide | Remainder

  datatype AssignOperator =
    | Assign | AndAssign | OrAssign | XorAssign | PlusAssign | MinusAssign
    | RemAssign | SlashAssign | StarAssign | LShiftAssign
    | RSignedShiftAssign | RUnsignedShiftAssign

  datatype UnaryOperator =
    | Positive | Negative | Inverse | Not
    | PreIncrement | PreDecrement | PosIncrement | PosDecrement

  datatype Type =
    | PrimitiveType(kind: PrimitiveKind)
    | ClassOrInterfaceType(scope: Option<Type>, name: string, typeArgs: seq<Type>, diamond: bool)
    | ReferenceType(elementType: Type, arrayCount: nat)
    | VoidType
    | IntersectionType(elements: seq<Type>)
    | UnionType(elements: seq<Type>)
    | WildcardType(extendsBound: Option<Type>, superBound: Option<Type>)
    | UnknownType

  datatype Expr =
    | NameExpr(name: string)
    | FieldAccessExpr(scope: Expr, field: string)
    | MethodCallExpr(callScope: Option<Expr>, callTypeArgs: seq<Type>, methodName: string, args: seq<Expr>)
    | ObjectCreationExpr(creationScope: Option<Expr>, creationTypeArgs: seq<Type>, createdType: Type, creationArgs: seq<Expr>)
    | AssignExpr(target: Expr, assignOp: AssignOperator, value: Expr)
    | BinaryExpr(left: Expr, binaryOp: BinaryOperator, right: Expr)
    | UnaryExpr(unaryOp: UnaryOperator, operand: Expr)
    | CastExpr(castType: Type, castExpr: Expr)
    | ClassExpr(classType: Type)
    | InstanceOfExpr(tested: Expr, testedType: Type)
    | ConditionalExpr(condition: Expr, thenExpr: Expr, elseExpr: Expr)
    | EnclosedExpr(inner: Option<Expr>)
    | ArrayAccessExpr(indexed: Expr, index: Expr)
    | ArrayInitializerExpr(values: seq<Expr>)
    | IntegerLiteralExpr(intValue: string)
    | LongLiteralExpr(longValue: string)
    | DoubleLiteralExpr(doubleValue: string)
    | IntegerLiteralMinValueExpr(minIntValue: string)
    | LongLiteralMinValueExpr(minLongValue: string)
    | CharLiteralExpr(charValue: string)
    | StringLiteralExpr(stringValue: string)
    | BooleanLiteralExpr(boolValue: bool)
    | NullLiteralExpr
    | ThisExpr(thisClass: Option<Expr>)
    | SuperExpr(superClass: Option<Expr>)
    | VariableDeclarationExpr(declaration: LocalDeclaration)

  /** The payload of a VariableDeclarationExpr; try resources are these. */
  datatype LocalDeclaration = LocalDeclaration(modifiers: Modifiers, declType: Type, vars: seq<VariableDeclarator>)

  datatype VariableDeclarator = VariableDeclarator(id: string, init: Option<Expr>)

  datatype Parameter = Parameter(modifiers: Modifiers, paramType: Type, isVarArgs: bool, id: string)

  datatype TypeParameter = TypeParameter(name: string, typeBound: seq<Type>)

  datatype Stmt =
    | BlockStmt(stmts: seq<Stmt>)
    | ExpressionStmt(expression: Expr)
    | IfStmt(ifCondition: Expr, thenStmt: Stmt, elseStmt: Option<Stmt>)
    | WhileStmt(whileCondition: Expr, whileBody: Stmt)
    | DoStmt(doBody: Stmt, doCondition: Expr)
    | ReturnStmt(returned: Option<Expr>)
    | BreakStmt(breakLabel: Option<string>)
    | ContinueStmt(continueLabel: Option<string>)
    | EmptyStmt
    | ThrowStmt(thrown: Expr)
    | SwitchStmt(selector: Expr, entries: seq<SwitchEntryStmt>)
    | TryStmt(resources: seq<LocalDeclaration>, tryBlock: Stmt, catchs: seq<CatchClause>, finallyBlock: Option<Stmt>)

  datatype SwitchEntryStmt = SwitchEntryStmt(caseLabel: Option<Expr>, entryStmts: seq<Stmt>)

  datatype CatchClause = CatchClause(param: Parameter, catchBlock: Stmt)

  /** The member kinds of a type body that the printer renders here. */
  datatype BodyDeclaration =
    | MethodDeclaration(
        annotations: seq<string>, methodModifiers: Modifiers, isDefault: bool,
        typeParameters: seq<TypeParameter>, returnType: Type, methodName: string,
        parameters: seq<Parameter>, arrayCount: nat, throws: seq<Type>, body: Option<Stmt>)
    | FieldDeclaration(fieldModifiers: Modifiers, fieldType: Type, variables: seq<VariableDeclarator>)
    | EnumDeclaration(
        enumModifiers: Modifiers, enumName: string, implements: seq<Type>,
        enumEntries: seq<EnumConstantDeclaration>, members: seq<BodyDeclaration>)
    | EmptyMemberDeclaration

  /** An enum constant; `hasArgs` is false when the parser left its argument
      list null. */
  datatype EnumConstantDeclaration = EnumConstantDeclaration(
    constantName: string, hasArgs: bool, constantArgs: seq<Expr>, classBody: seq<BodyDeclaration>)

  /** The three comment node kinds. */
  datatype Comment = LineComment(lineContent: string) | BlockComment(blockContent: string) | JavadocComment(docContent: string)
}
