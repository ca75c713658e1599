/** The layout the per-node rendering rules produce, stated on the text they
    append: the separator lists, the `::` or `.` of a field access, the
    lines and indentation of if, block, switch-entry, try and enum
    statements, and where a method's return type ends up. */
module Layout {
  import opened Wrappers
  import opened Text
  import opened Syntax
  import opened Names
  import opened Tables
  import opened EmitterSpec
  import opened Render

  // ----- separator lists ---------------------------------------------------

  /** On a line already indented, a print appends its text and nothing else. */
  lemma PrintOnLine(e: EmitterState, s: string)
    requires e.indented
    ensures Print(e, s) == e.(buf := e.buf + s)
  {
    assert IndentText(e) == "";
    assert e.buf + "" == e.buf;
  }

  lemma JoinStep(t: string, n: string, sep: string, rest: string)
    ensures t + n + sep + rest == t + (n + sep + rest)
  {
  }

  predicate AllNames(xs: seq<Expr>) {
    forall k :: 0 <= k < |xs| ==> xs[k].NameExpr? && |xs[k].name| > 0
  }

  /** The names from index `i` on, in snake case, separated by `, `. */
  function NamesJoined(xs: seq<Expr>, i: nat): string
    requires AllNames(xs) && i <= |xs|
    decreases |xs| - i
  {
    if i == |xs| then ""
    else ToSnakeIfNecessary(xs[i].name) + (if i + 1 < |xs| then ", " else "") + NamesJoined(xs, i + 1)
  }

  lemma {:induction false} ExprsJoinedOfNames(e: EmitterState, t: string, xs: seq<Expr>, i: nat)
    requires AllNames(xs) && i <= |xs|
    ensures RenderExprsJoined(Print(e, t), xs, i) == Success(Print(e, t + NamesJoined(xs, i)))
    decreases |xs| - i
  {
    if i < |xs| {
      var n := ToSnakeIfNecessary(xs[i].name);
      var sep := if i + 1 < |xs| then ", " else "";
      var p := Print(e, t);
      ExprKinds(p, xs[i]);
      var e1 := RenderExpr(p, xs[i]).value;
      assert e1 == Print(e, t + n) by { PrintIndentsOncePerLine(e, t, n); }
      var e2 := if i + 1 < |xs| then Print(e1, sep) else e1;
      assert e2 == Print(e, t + n + sep) by { PrintIndentsOncePerLine(e, t + n, sep); }
      assert RenderExprsJoined(p, xs, i) == RenderExprsJoined(e2, xs, i + 1);
      ExprsJoinedOfNames(e, t + n + sep, xs, i + 1);
      assert t + NamesJoined(xs, i) == t + n + sep + NamesJoined(xs, i + 1) by {
        assert NamesJoined(xs, i) == n + sep + NamesJoined(xs, i + 1);
        JoinStep(t, n, sep, NamesJoined(xs, i + 1));
      }
    } else {
      assert t + "" == t;
    }
  }

  /** printArguments over names: `(`, the names joined by `, `, `)`, written
      as one piece of text. */
  lemma ArgumentsOfNames(e: EmitterState, xs: seq<Expr>)
    requires AllNames(xs)
    ensures RenderArguments(e, xs) == Success(Print(e, "(" + NamesJoined(xs, 0) + ")"))
  {
    ExprsJoinedOfNames(e, "(", xs, 0);
    PrintIndentsOncePerLine(e, "(" + NamesJoined(xs, 0), ")");
  }

  /** ArrayInitializerExpr over names: `{}` when empty, else the names joined
      by `, ` between `{ ` and ` }`. */
  lemma ArrayInitializerOfNames(e: EmitterState, xs: seq<Expr>)
    requires AllNames(xs)
    ensures RenderArrayInitializer(e, ArrayInitializerExpr(xs))
         == Success(Print(e, if |xs| == 0 then "{}" else "{ " + NamesJoined(xs, 0) + " }"))
  {
    if |xs| == 0 {
      PrintIndentsOncePerLine(e, "{", "}");
      assert "{" + "}" == "{}";
    } else {
      var j := NamesJoined(xs, 0);
      PrintIndentsOncePerLine(e, "{", " ");
      assert "{" + " " == "{ ";
      ExprsJoinedOfNames(e, "{ ", xs, 0);
      var e2 := Print(e, "{ " + j);
      assert RenderExprsJoined(Print(Print(e, "{"), " "), xs, 0) == Success(e2);
      PrintIndentsOncePerLine(e, "{ " + j, " ");
      PrintIndentsOncePerLine(e, "{ " + j + " ", "}");
      assert Print(Print(e2, " "), "}") == Print(e, "{ " + j + " }");
    }
  }

  lemma PrimitiveTypeText(e: EmitterState, t: Type)
    requires t.PrimitiveType?
    ensures RenderType(e, t) == Print(e, PrimitiveTypeName(t.kind))
  {
  }

  predicate AllPrimitive(ts: seq<Type>) {
    forall k :: 0 <= k < |ts| ==> ts[k].PrimitiveType?
  }

  /** The Rust names of primitive types from index `i` on, `sep` between
      neighbours. */
  function PrimitivesJoined(ts: seq<Type>, sep: string, i: nat): string
    requires AllPrimitive(ts) && i <= |ts|
    decreases |ts| - i
  {
    if i == |ts| then ""
    else PrimitiveTypeName(ts[i].kind) + (if i + 1 < |ts| then sep else "") + PrimitivesJoined(ts, sep, i + 1)
  }

  lemma {:induction false} TypesJoinedOfPrimitives(e: EmitterState, t: string, ts: seq<Type>, sep: string, i: nat)
    requires AllPrimitive(ts) && i <= |ts|
    ensures RenderTypesJoined(Print(e, t), ts, sep, i) == Print(e, t + PrimitivesJoined(ts, sep, i))
    decreases |ts| - i
  {
    if i < |ts| {
      var n := PrimitiveTypeName(ts[i].kind);
      var s := if i + 1 < |ts| then sep else "";
      var p := Print(e, t);
      var e1 := RenderType(p, ts[i]);
      assert e1 == Print(e, t + n) by {
        PrimitiveTypeText(p, ts[i]);
        PrintIndentsOncePerLine(e, t, n);
      }
      var e2 := if i + 1 < |ts| then Print(e1, sep) else e1;
      assert e2 == Print(e, t + n + s) by { PrintIndentsOncePerLine(e, t + n, sep); }
      assert RenderTypesJoined(p, ts, sep, i) == RenderTypesJoined(e2, ts, sep, i + 1);
      TypesJoinedOfPrimitives(e, t + n + s, ts, sep, i + 1);
      assert t + PrimitivesJoined(ts, sep, i) == t + n + s + PrimitivesJoined(ts, sep, i + 1) by {
        assert PrimitivesJoined(ts, sep, i) == n + s + PrimitivesJoined(ts, sep, i + 1);
        JoinStep(t, n, s, PrimitivesJoined(ts, sep, i + 1));
      }
    } else {
      assert t + "" == t;
    }
  }

  /** printTypeArgs over primitive types: nothing for none, else `<`, the
      names joined by `, `, `>`. */
  lemma TypeArgsOfPrimitives(e: EmitterState, ts: seq<Type>)
    requires AllPrimitive(ts)
    ensures RenderTypeArgs(e, ts) == if |ts| == 0 then e else Print(e, "<" + PrimitivesJoined(ts, ", ", 0) + ">")
  {
    if |ts| > 0 {
      TypesJoinedOfPrimitives(e, "<", ts, ", ", 0);
      PrintIndentsOncePerLine(e, "<" + PrimitivesJoined(ts, ", ", 0), ">");
    }
  }

  /** The intersection and union loop over primitive types: every name but
      the first is followed by the separator. */
  function PrimitivesSeparatedAfterFirst(ts: seq<Type>, sep: string, i: nat): string
    requires AllPrimitive(ts) && i <= |ts|
    decreases |ts| - i
  {
    if i == |ts| then ""
    else if i == 0 then PrimitiveTypeName(ts[i].kind) + PrimitivesSeparatedAfterFirst(ts, sep, i + 1)
    else PrimitiveTypeName(ts[i].kind) + sep + PrimitivesSeparatedAfterFirst(ts, sep, i + 1)
  }

  /** After the first element, every name is followed by the separator. */
  lemma {:induction false} SeparatedAfterSecond(e: EmitterState, ts: seq<Type>, sep: string, i: nat)
    requires AllPrimitive(ts) && 0 < i <= |ts| && e.indented
    ensures RenderTypesSeparatedAfterFirst(e, ts, sep, i) == e.(buf := e.buf + PrimitivesSeparatedAfterFirst(ts, sep, i))
    decreases |ts| - i
  {
    if i < |ts| {
      var n := PrimitiveTypeName(ts[i].kind);
      PrimitiveTypeText(e, ts[i]);
      var e2 := Print(RenderType(e, ts[i]), sep);
      assert e2 == e.(buf := e.buf + n + sep);
      SeparatedAfterSecond(e2, ts, sep, i + 1);
      assert e.buf + n + sep + PrimitivesSeparatedAfterFirst(ts, sep, i + 1) == e.buf + PrimitivesSeparatedAfterFirst(ts, sep, i) by {
        assert PrimitivesSeparatedAfterFirst(ts, sep, i) == n + sep + PrimitivesSeparatedAfterFirst(ts, sep, i + 1);
        JoinStep(e.buf, n, sep, PrimitivesSeparatedAfterFirst(ts, sep, i + 1));
      }
    } else {
      assert PrimitivesSeparatedAfterFirst(ts, sep, i) == "";
      assert e.(buf := e.buf + "") == e by {
        assert e.buf + "" == e.buf;
      }
    }
  }

  /** On a line already indented, the intersection and union loop over
      primitive types appends exactly their names, every name but the first
      followed by the separator. */
  lemma SeparatedAfterFirstOfPrimitives(e: EmitterState, ts: seq<Type>, sep: string)
    requires AllPrimitive(ts) && e.indented
    ensures RenderTypesSeparatedAfterFirst(e, ts, sep, 0) == e.(buf := e.buf + PrimitivesSeparatedAfterFirst(ts, sep, 0))
  {
    if |ts| > 0 {
      var n := PrimitiveTypeName(ts[0].kind);
      var rest := PrimitivesSeparatedAfterFirst(ts, sep, 1);
      var e1 := e.(buf := e.buf + n);
      FirstTypeStep(e, ts, sep);
      SeparatedAfterSecond(e1, ts, sep, 1);
      assert e1.buf + rest == e.buf + PrimitivesSeparatedAfterFirst(ts, sep, 0) by {
        assert PrimitivesSeparatedAfterFirst(ts, sep, 0) == n + rest;
        assert e1.buf + rest == e.buf + (n + rest);
      }
    } else {
      assert PrimitivesSeparatedAfterFirst(ts, sep, 0) == "";
      assert e.(buf := e.buf + "") == e by {
        assert e.buf + "" == e.buf;
      }
    }
  }

  /** The first type is rendered with no separator after it. */
  lemma FirstTypeStep(e: EmitterState, ts: seq<Type>, sep: string)
    requires AllPrimitive(ts) && |ts| > 0 && e.indented
    ensures RenderTypesSeparatedAfterFirst(e, ts, sep, 0)
         == RenderTypesSeparatedAfterFirst(e.(buf := e.buf + PrimitiveTypeName(ts[0].kind)), ts, sep, 1)
  {
    PrimitiveTypeText(e, ts[0]);
    PrintOnLine(e, PrimitiveTypeName(ts[0].kind));
  }

  /** Two types: no separator between the two names, one after the last. */
  lemma TwoTypesLayout(e: EmitterState, a: Type, b: Type, sep: string)
    requires a.PrimitiveType? && b.PrimitiveType? && e.indented
    ensures RenderTypesSeparatedAfterFirst(e, [a, b], sep, 0).buf
         == e.buf + (PrimitiveTypeName(a.kind) + (PrimitiveTypeName(b.kind) + sep))
  {
    var ts := [a, b];
    SeparatedAfterFirstOfPrimitives(e, ts, sep);
    assert PrimitivesSeparatedAfterFirst(ts, sep, 2) == "";
    assert PrimitivesSeparatedAfterFirst(ts, sep, 1) == PrimitiveTypeName(b.kind) + sep + "";
    assert PrimitiveTypeName(b.kind) + sep + "" == PrimitiveTypeName(b.kind) + sep;
  }

  // ----- FieldAccessExpr ---------------------------------------------------

  /** FieldAccessExpr: with the scope rendered after the push, the access
      fails exactly when the inspected segment is empty; otherwise the scope's
      text stays once, right where it was written, the mark stack is back at
      its entry depth, and `::` follows when the segment starts with an
      upper-case letter, `.` otherwise, then the field name as written. */
  lemma FieldAccessLayout(e: EmitterState, x: Expr)
    requires x.FieldAccessExpr? && RenderExpr(Push(e), x.scope).Success?
    ensures var e1 := RenderExpr(Push(e), x.scope).value;
            var scope := e1.buf[|e.buf|..];
            var seg := AccessedSegment(scope);
            && e1.buf == e.buf + scope
            && (RenderFieldAccess(e, x).Success? <==> |seg| > 0)
            && (RenderFieldAccess(e, x).Failure? ==> RenderFieldAccess(e, x).error == StringIndexOutOfBounds)
            && (|seg| > 0 ==>
                  && RenderFieldAccess(e, x).value.marks == e.marks
                  && RenderFieldAccess(e, x).value.buf
                     == e.buf + scope + IndentText(e1) + (if IsUpper(seg[0]) then "::" else ".") + x.field)
  {
    var e1 := RenderExpr(Push(e), x.scope).value;
    assert RenderFieldAccess(e, x) == AccessField(e, e1, x.field);
    AccessFieldLayout(e, e1, x.field);
  }

  /** The part after the scope: the read-back text decides the separator. */
  lemma AccessFieldLayout(e: EmitterState, e1: EmitterState, field: string)
    requires Continues(Push(e), e1) && Opens(Push(e), e1)
    ensures var scope := e1.buf[|e.buf|..];
            var seg := AccessedSegment(scope);
            var r := AccessField(e, e1, field);
            && e1.buf == e.buf + scope
            && (r.Success? <==> |seg| > 0)
            && (r.Failure? ==> r.error == StringIndexOutOfBounds)
            && (|seg| > 0 ==>
                  && r.value.marks == e.marks
                  && r.value.buf == e.buf + scope + IndentText(e1) + (if IsUpper(seg[0]) then "::" else ".") + field)
  {
    Speculation(e, e1);
    assert GetMark(e1, |e.marks| + 1) == e1.buf[|e.buf|..];
    var seg := AccessedSegment(e1.buf[|e.buf|..]);
    if |seg| > 0 {
      var d := Drop(e1);
      var sep := if IsUpper(seg[0]) then "::" else ".";
      assert AccessField(e, e1, field) == Success(Print(Print(d, sep), field));
      PrintOnLine(Print(d, sep), field);
    }
  }

  // ----- IfStmt ------------------------------------------------------------

  /** The then-branch: a block follows `) ` on the condition's line; any
      other statement goes on the next line, one level deeper. The level on
      exit is the level on entry. */
  lemma ThenBranchLayout(e: EmitterState, t: Stmt)
    requires RenderThenBranch(e, t).Success?
    ensures var r := RenderThenBranch(e, t).value;
            && r.level == e.level
            && (t.BlockStmt? ==> e.buf + IndentText(e) + ") {" + LineSeparator <= r.buf)
            && (!t.BlockStmt? ==> e.buf + IndentText(e) + ")" + LineSeparator + Repeat(e.indentation, e.level + 1) <= r.buf)
  {
    if t.BlockStmt? {
      StmtKinds(Print(e, ") "), t);
    }
  }

  /** The text before `else`: a space after a block then-branch, otherwise a
      line break and the indentation of the if statement's level. */
  function ElseLead(e: EmitterState, thenBlock: bool): string {
    if thenBlock then e.buf + IndentText(e) + " " else e.buf + LineSeparator + Repeat(e.indentation, e.level)
  }

  /** The else part: `else ` stays inline before an if or a block; any other
      statement goes on the line after `else`, one level deeper. The level
      on exit is the level on entry. */
  lemma ElseBranchLayout(e: EmitterState, el: Stmt, thenBlock: bool)
    requires RenderElseBranch(e, el, thenBlock).Success?
    ensures var r := RenderElseBranch(e, el, thenBlock).value;
            && r.level == e.level
            && (el.IfStmt? || el.BlockStmt? ==> ElseLead(e, thenBlock) + "else " <= r.buf)
            && (!(el.IfStmt? || el.BlockStmt?) ==> ElseLead(e, thenBlock) + "else" + LineSeparator + Repeat(e.indentation, e.level + 1) <= r.buf)
  {
    var e1 := if thenBlock then Print(e, " ") else NewLine(e);
    assert e1.buf + IndentText(e1) == ElseLead(e, thenBlock);
    if el.IfStmt? || el.BlockStmt? {
      assert Print(e1, "else ").buf == ElseLead(e, thenBlock) + "else ";
    } else {
      var e2 := Indent(PrintLn(e1, "else"));
      assert e2.buf + IndentText(e2) == ElseLead(e, thenBlock) + "else" + LineSeparator + Repeat(e.indentation, e.level + 1);
    }
  }

  // ----- BlockStmt and SwitchEntryStmt -------------------------------------

  predicate EndsWith(s: string, t: string) {
    |t| <= |s| && s[|s| - |t|..] == t
  }

  /** Right after a line break: the next print indents. */
  predicate AtLineStart(e: EmitterState) {
    !e.indented && EndsWith(e.buf, LineSeparator)
  }

  /** A statement list started at the beginning of a line ends at the
      beginning of a line. */
  lemma {:induction false} StmtLinesEndLines(e: EmitterState, ss: seq<Stmt>, i: nat)
    requires i <= |ss| && RenderStmtLines(e, ss, i).Success? && AtLineStart(e)
    ensures AtLineStart(RenderStmtLines(e, ss, i).value)
    decreases |ss| - i
  {
    if i < |ss| {
      var e1 := RenderStmt(e, ss[i]).value;
      StmtLinesEndLines(NewLine(e1), ss, i + 1);
    }
  }

  /** A non-empty statement list opens with the indentation of its level. */
  lemma StmtLinesOpen(e: EmitterState, ss: seq<Stmt>)
    requires |ss| > 0 && RenderStmtLines(e, ss, 0).Success?
    ensures e.buf + IndentText(e) <= RenderStmtLines(e, ss, 0).value.buf
  {
    var f := RenderStmt(e, ss[0]).value;
    assert RenderStmtLines(e, ss, 0) == RenderStmtLines(NewLine(f), ss, 1);
  }

  /** A print at the start of a line: its text ends a line that holds only
      the indentation of the current level and the text. */
  lemma CloseLine(x: EmitterState, s: string)
    requires AtLineStart(x)
    ensures EndsWith(Print(x, s).buf, LineSeparator + Repeat(x.indentation, x.level) + s)
  {
    var front := x.buf[..|x.buf| - |LineSeparator|];
    assert x.buf == front + LineSeparator;
    assert Print(x, s).buf == front + (LineSeparator + Repeat(x.indentation, x.level) + s);
  }

  /** BlockStmt: `{` ends its line, the statements start one level deeper,
      and `}` stands at the block's own level on a line of its own. */
  lemma BlockLayout(e: EmitterState, s: Stmt)
    requires s.BlockStmt? && RenderBlock(e, s).Success?
    ensures var r := RenderBlock(e, s).value;
            && r.level == e.level
            && e.buf + IndentText(e) + "{" + LineSeparator <= r.buf
            && (|s.stmts| > 0 ==> e.buf + IndentText(e) + "{" + LineSeparator + Repeat(e.indentation, e.level + 1) <= r.buf)
            && EndsWith(r.buf, LineSeparator + Repeat(e.indentation, e.level) + "}")
  {
    var e1 := Indent(PrintLn(e, "{"));
    assert e1.buf == e.buf + IndentText(e) + "{" + LineSeparator;
    assert AtLineStart(e1);
    BlockClose(e1, s.stmts);
  }

  /** The statements of a block, from the start of a line one level deeper,
      and the `}` on a line of its own one level out. */
  lemma BlockClose(e1: EmitterState, ss: seq<Stmt>)
    requires AtLineStart(e1) && RenderStmtLines(e1, ss, 0).Success?
    ensures var r := Print(Unindent(RenderStmtLines(e1, ss, 0).value), "}");
            && r.level == e1.level - 1
            && (|ss| > 0 ==> e1.buf + IndentText(e1) <= r.buf)
            && EndsWith(r.buf, LineSeparator + Repeat(e1.indentation, e1.level - 1) + "}")
  {
    var e2 := RenderStmtLines(e1, ss, 0).value;
    StmtLinesEndLines(e1, ss, 0);
    CloseLine(Unindent(e2), "}");
    if |ss| > 0 {
      StmtLinesOpen(e1, ss);
    }
  }

  /** SwitchEntryStmt: the label, a line break, the statements one level
      deeper each on its own line; it ends at the start of a line, back at
      the entry's level. */
  lemma SwitchEntryLayout(e: EmitterState, entry: SwitchEntryStmt)
    requires RenderSwitchEntry(e, entry).Success?
    ensures RenderCaseLabel(e, entry.caseLabel).Success?
    ensures var c := RenderCaseLabel(e, entry.caseLabel).value;
            var r := RenderSwitchEntry(e, entry).value;
            && e.buf + IndentText(e) + (if entry.caseLabel.None? then "default:" else "case ") <= c.buf
            && c.buf + LineSeparator <= r.buf
            && (|entry.entryStmts| > 0 ==> c.buf + LineSeparator + Repeat(e.indentation, e.level + 1) <= r.buf)
            && r.level == e.level
            && AtLineStart(r)
  {
    var c := RenderCaseLabel(e, entry.caseLabel).value;
    var e1 := Indent(NewLine(c));
    assert AtLineStart(e1);
    StmtLinesEndLines(e1, entry.entryStmts, 0);
    if |entry.entryStmts| > 0 {
      StmtLinesOpen(e1, entry.entryStmts);
    }
  }

  // ----- TryStmt -----------------------------------------------------------

  /** The resource list: a single resource is followed by `) ` on its line;
      with more, the first is followed by `;` and a line break and the next
      starts one level deeper; the list closes with `) ` and the level on
      exit is the level on entry. */
  lemma ResourcesLayout(e: EmitterState, rs: seq<LocalDeclaration>)
    requires |rs| > 0 && RenderResources(e, rs).Success?
    ensures RenderLocalDeclaration(Print(e, "("), rs[0]).Success?
    ensures var d := RenderLocalDeclaration(Print(e, "("), rs[0]).value;
            var r := RenderResources(e, rs).value;
            && e.buf + IndentText(e) + "(" <= d.buf
            && r.level == e.level
            && EndsWith(r.buf, ") ")
            && (|rs| == 1 ==> r.buf == d.buf + IndentText(d) + ") ")
            && (|rs| > 1 ==> d.buf + IndentText(d) + ";" + LineSeparator + Repeat(e.indentation, e.level + 1) <= r.buf)
  {
    var p := Print(e, "(");
    var d := RenderLocalDeclaration(p, rs[0]).value;
    var a := AfterResource(d, 0, |rs|);
    assert TryResources(p, rs, 0) == TryResources(a, rs, 1);
    var t := TryResources(a, rs, 1).value;
    if |rs| > 1 {
      assert a.buf + IndentText(a) == d.buf + IndentText(d) + ";" + LineSeparator + Repeat(e.indentation, e.level + 1);
      var f := RenderLocalDeclaration(a, rs[1]).value;
      assert TryResources(a, rs, 1) == TryResources(AfterResource(f, 1, |rs|), rs, 2);
      assert a.buf + IndentText(a) <= t.buf;
    }
    var r := Print(if |rs| > 1 then Unindent(t) else t, ") ");
    assert r.buf[|r.buf| - 2..] == ") ";
  }

  // ----- EnumDeclaration ---------------------------------------------------

  /** After the constants: with members, `;` ends the line before them;
      without, no `;` at all, only a line break when there are constants. */
  lemma EnumTailLayout(e: EmitterState, d: BodyDeclaration)
    requires d.EnumDeclaration? && EnumTail(e, d).Success?
    ensures var r := EnumTail(e, d).value;
            && (|d.members| > 0 ==> e.buf + IndentText(e) + ";" + LineSeparator <= r.buf)
            && (|d.members| == 0 ==> r.buf == e.buf + (if |d.enumEntries| > 0 then LineSeparator else ""))
  {
    if |d.members| == 0 && |d.enumEntries| == 0 {
      assert e.buf + "" == e.buf;
    }
  }

  // ----- MethodDeclaration -------------------------------------------------

  /** The number of annotations from index `i` on named Test. */
  function TestCount(annotations: seq<string>, i: nat): nat
    requires i <= |annotations|
    decreases |annotations| - i
  {
    if i == |annotations| then 0
    else (if annotations[i] == "Test" then 1 else 0) + TestCount(annotations, i + 1)
  }

  /** `k` lines holding `s`. */
  function PrintLines(e: EmitterState, s: string, k: nat): EmitterState
    decreases k
  {
    if k == 0 then e else PrintLines(PrintLn(e, s), s, k - 1)
  }

  /** One `#[test]` line per Test annotation, whatever the other
      annotations. */
  lemma {:induction false} TestAttributesLines(e: EmitterState, annotations: seq<string>, i: nat)
    requires i <= |annotations|
    ensures RenderTestAttributes(e, annotations, i) == PrintLines(e, "#[test]", TestCount(annotations, i))
    decreases |annotations| - i
  {
    if i < |annotations| {
      var e1 := if annotations[i] == "Test" then PrintLn(e, "#[test]") else e;
      TestAttributesLines(e1, annotations, i + 1);
    }
  }

  /** At the start of a line, each of those lines is the indentation, the
      text and the line separator. */
  lemma {:induction false} PrintLinesText(e: EmitterState, s: string, k: nat)
    requires !e.indented
    ensures PrintLines(e, s, k).buf == e.buf + Repeat(Repeat(e.indentation, e.level) + s + LineSeparator, k)
    ensures PrintLines(e, s, k).level == e.level && !PrintLines(e, s, k).indented
    decreases k
  {
    if k > 0 {
      var line := Repeat(e.indentation, e.level) + s + LineSeparator;
      var e1 := PrintLn(e, s);
      assert e1.buf == e.buf + line;
      PrintLinesText(e1, s, k - 1);
      assert e1.buf + Repeat(line, k - 1) == e.buf + Repeat(line, k) by {
        RepeatFront(line, k);
        JoinStep(e.buf, line, "", Repeat(line, k - 1));
      }
    }
  }

  /** The receiver: nothing for a static method, else `&self`, followed by
      `, ` when parameters follow. */
  function ReceiverText(isStatic: bool, hasParameters: bool): string {
    if isStatic then "" else if hasParameters then "&self, " else "&self"
  }

  /** The array brackets of the return type, in a comment. */
  function ArraysText(arrayCount: nat): string {
    if arrayCount == 0 then "" else "/* " + Repeat("[]", arrayCount) + " */"
  }

  lemma {:induction false} PrintTimesText(e: EmitterState, k: nat)
    requires e.indented
    ensures PrintTimes(e, "[]", k) == e.(buf := e.buf + Repeat("[]", k))
    decreases k
  {
    if k > 0 {
      PrintTimesText(Print(e, "[]"), k - 1);
      RepeatFront("[]", k);
      JoinStep(e.buf, "[]", "", Repeat("[]", k - 1));
    } else {
      assert Repeat("[]", k) == "";
      assert e.(buf := e.buf + "") == e by {
        assert e.buf + "" == e.buf;
      }
    }
  }

  lemma ArrayCommentText(a: EmitterState, k: nat)
    requires a.indented
    ensures ArrayComment(a, k) == a.(buf := a.buf + ArraysText(k))
  {
    if k > 0 {
      PrintTimesText(Print(a, "/* "), k);
    } else {
      assert ArraysText(k) == "";
      assert a.(buf := a.buf + "") == a by {
        assert a.buf + "" == a.buf;
      }
    }
  }

  /** The signature: the name, `(` and the receiver of an instance method
      first; `) -> ` and the array comment last. */
  lemma MethodSignatureLayout(e: EmitterState, m: BodyDeclaration)
    requires m.MethodDeclaration? && MethodSignature(e, m).Success?
    ensures PrintName(e, m.methodName).Success?
    ensures var n := PrintName(e, m.methodName).value;
            var s := MethodSignature(e, m).value;
            && n.buf + "(" + ReceiverText(m.methodModifiers.isStatic, |m.parameters| > 0) <= s.buf
            && s.indented
            && EndsWith(s.buf, ") -> " + ArraysText(m.arrayCount))
  {
    var n := PrintName(e, m.methodName).value;
    var e2 := PrintReceiver(Print(n, "("), m.methodModifiers.isStatic, |m.parameters| > 0);
    ReceiverLayout(n, m.methodModifiers.isStatic, |m.parameters| > 0);
    var e3 := RenderParameters(e2, m.parameters, 0).value;
    SignatureEnd(e3, m.arrayCount);
  }

  /** The name, `(` and the receiver, one after the other on the line. */
  lemma ReceiverLayout(n: EmitterState, isStatic: bool, hasParameters: bool)
    requires n.indented
    ensures PrintReceiver(Print(n, "("), isStatic, hasParameters).buf == n.buf + "(" + ReceiverText(isStatic, hasParameters)
  {
    var p := Print(n, "(");
    PrintOnLine(n, "(");
    if isStatic {
      assert p.buf + "" == p.buf;
    } else {
      PrintOnLine(p, "&self");
      if hasParameters {
        PrintOnLine(Print(p, "&self"), ", ");
        assert p.buf + "&self" + ", " == p.buf + "&self, ";
      }
    }
  }

  /** `) -> ` and the array comment close the signature, on the line. */
  lemma SignatureEnd(e3: EmitterState, arrayCount: nat)
    ensures var s := ArrayComment(Print(e3, ") -> "), arrayCount);
            s.indented && EndsWith(s.buf, ") -> " + ArraysText(arrayCount))
  {
    var a := Print(e3, ") -> ");
    ArrayCommentText(a, arrayCount);
    var s := ArrayComment(a, arrayCount);
    assert s.buf == (e3.buf + IndentText(e3)) + (") -> " + ArraysText(arrayCount)) by {
      JoinStep(e3.buf + IndentText(e3), ") -> ", "", ArraysText(arrayCount));
    }
  }

  /** The return section on an indented line: the type alone without a
      throws clause; with one, the exceptions in a comment and the type
      wrapped in `Result<...>`. */
  lemma ReturnSectionLayout(e: EmitterState, throws: seq<Type>, typeText: string)
    requires e.indented
    ensures |throws| == 0 ==> ReturnSection(e, throws, typeText).buf == e.buf + typeText
    ensures |throws| > 0 ==>
              var j := RenderTypesJoined(Print(Print(e, "/* "), " throws "), throws, ", ", 0);
              && e.buf + "/* " + " throws " <= j.buf
              && ReturnSection(e, throws, typeText).buf == j.buf + IndentText(j) + " */" + "Result<" + typeText + "> "
  {
    if |throws| > 0 {
      var o := Print(Print(e, "/* "), " throws ");
      assert o.buf == e.buf + "/* " + " throws " by {
        PrintOnLine(e, "/* ");
        PrintOnLine(Print(e, "/* "), " throws ");
      }
      var j := RenderTypesJoined(o, throws, ", ", 0);
      var c := Print(j, " */");
      var d := Print(c, "Result<");
      var f := Print(d, typeText);
      assert d.buf == j.buf + IndentText(j) + " */" + "Result<" by {
        PrintOnLine(c, "Result<");
      }
      assert f.buf == d.buf + typeText by {
        PrintOnLine(d, typeText);
      }
      PrintOnLine(f, "> ");
    } else {
      PrintOnLine(e, typeText);
    }
  }

  /** MethodDeclaration: the return type rendered between push and pop
      leaves no text before the signature, and its text comes back once,
      after the signature's `) -> `, bare or wrapped in `Result<...>`. */
  lemma MethodReturnLayout(e: EmitterState, m: BodyDeclaration)
    requires m.MethodDeclaration? && RenderMethod(e, m).Success?
    ensures var h := MethodHead(e, m);
            var typed := RenderType(Push(h), m.returnType);
            var t := typed.buf[|h.buf|..];
            var sig := MethodSignature(Print(Pop(typed), " "), m);
            && Pop(typed).buf == h.buf && Pop(typed).marks == h.marks
            && sig.Success? && EndsWith(sig.value.buf, ") -> " + ArraysText(m.arrayCount))
            && (|m.throws| == 0 ==> sig.value.buf + t + " " <= RenderMethod(e, m).value.buf)
            && (|m.throws| > 0 ==>
                  var j := RenderTypesJoined(Print(Print(sig.value, "/* "), " throws "), m.throws, ", ", 0);
                  && sig.value.buf + "/* " + " throws " <= j.buf
                  && j.buf + IndentText(j) + " */" + "Result<" + t + "> " <= RenderMethod(e, m).value.buf)
  {
    var h := MethodHead(e, m);
    var typed := RenderType(Push(h), m.returnType);
    var t := typed.buf[|h.buf|..];
    assert GetMark(typed, |h.marks| + 1) == t;
    var s := MethodSignature(Print(Pop(typed), " "), m).value;
    MethodSignatureLayout(Print(Pop(typed), " "), m);
    assert RenderMethod(e, m) == MethodTail(s, m, t);
    MethodTailLayout(s, m, t);
  }

  /** After the signature: the return section, then a space, before the
      `;` or the body. */
  lemma MethodTailLayout(s: EmitterState, m: BodyDeclaration, t: string)
    requires m.MethodDeclaration? && s.indented && MethodTail(s, m, t).Success?
    ensures |m.throws| == 0 ==> s.buf + t + " " <= MethodTail(s, m, t).value.buf
    ensures |m.throws| > 0 ==>
              var j := RenderTypesJoined(Print(Print(s, "/* "), " throws "), m.throws, ", ", 0);
              && s.buf + "/* " + " throws " <= j.buf
              && j.buf + IndentText(j) + " */" + "Result<" + t + "> " <= MethodTail(s, m, t).value.buf
  {
    var rs := ReturnSection(s, m.throws, t);
    ReturnSectionLayout(s, m.throws, t);
    assert rs.indented;
    PrintOnLine(rs, " ");
    assert rs.buf + " " <= MethodTail(s, m, t).value.buf;
  }
}
