/** The emitter as a value: the state of RustDumpVisitor.SourcePrinter (text
    buffer, indentation level, the `indented` flag and the stack of marks) and
    one function per operation. The class in module Printer is proved against
    these functions; the renderer in module Render composes them. */
module EmitterSpec {
  import opened Text

  /** System.getProperty("line.separator"), fixed. */
  const LineSeparator: string := "\n"

  datatype EmitterState = EmitterState(
    indentation: string,  // the indentation unit, one copy per level
    level: int,
    indented: bool,       // false right after a line break: the next print indents
    buf: string,
    marks: seq<nat>)      // buffer lengths recorded by push, the top last

  /** Every mark lies within the buffer and the marks never decrease from the
      bottom of the stack to its top. */
  ghost predicate Valid(e: EmitterState) {
    && (forall i :: 0 <= i < |e.marks| ==> e.marks[i] <= |e.buf|)
    && (forall i, j :: 0 <= i < j < |e.marks| ==> e.marks[i] <= e.marks[j])
  }

  function Initial(indentation: string): EmitterState {
    EmitterState(indentation, 0, false, "", [])
  }

  /** What a print writes before its text: the indentation for the current
      level when a line break (or nothing) came before. */
  function IndentText(e: EmitterState): string {
    if e.indented then "" else Repeat(e.indentation, e.level)
  }

  function Print(e: EmitterState, s: string): EmitterState {
    e.(buf := e.buf + IndentText(e) + s, indented := true)
  }

  /** Consecutive prints taken together: a print of `s` unless `s` is empty,
      in which case nothing happens (not even the indentation). */
  function Write(e: EmitterState, s: string): EmitterState {
    if s == "" then e else Print(e, s)
  }

  /** printLn(): the line separator, and the next print indents again. */
  function NewLine(e: EmitterState): EmitterState {
    e.(buf := e.buf + LineSeparator, indented := false)
  }

  /** printLn(arg). */
  function PrintLn(e: EmitterState, s: string): EmitterState {
    NewLine(Print(e, s))
  }

  function Indent(e: EmitterState): EmitterState {
    e.(level := e.level + 1)
  }

  function Unindent(e: EmitterState): EmitterState {
    e.(level := e.level - 1)
  }

  /** push(): records the buffer length; the handle push returns is the new
      stack size. */
  function Push(e: EmitterState): EmitterState {
    e.(marks := e.marks + [|e.buf|])
  }

  /** getMark(mark): the text written since mark `mark` (1-based). */
  function GetMark(e: EmitterState, mark: int): string
    requires 1 <= mark <= |e.marks| && e.marks[mark - 1] <= |e.buf|
  {
    e.buf[e.marks[mark - 1]..]
  }

  /** pop(): deletes the text written since the top mark and removes the mark. */
  function Pop(e: EmitterState): EmitterState
    requires |e.marks| > 0 && e.marks[|e.marks| - 1] <= |e.buf|
  {
    e.(buf := e.buf[..e.marks[|e.marks| - 1]], marks := e.marks[..|e.marks| - 1])
  }

  /** drop(): removes the top mark and keeps the text. */
  function Drop(e: EmitterState): EmitterState
    requires |e.marks| > 0
  {
    e.(marks := e.marks[..|e.marks| - 1])
  }

  /** `r` continues `e`: same indentation unit, level and marks, and text only
      appended. This is what every balanced rendering step guarantees. */
  ghost predicate Continues(e: EmitterState, r: EmitterState) {
    && r.indentation == e.indentation
    && r.level == e.level
    && r.marks == e.marks
    && e.buf <= r.buf
  }

  /** The output of `r` after `e` starts with the indentation `e` calls for. */
  ghost predicate Opens(e: EmitterState, r: EmitterState) {
    e.buf + IndentText(e) <= r.buf
  }

  /** After a line break, a print writes exactly max(level, 0) copies of the
      indentation unit and then its text; later prints on the same line write
      only their text; a printLn re-arms the indentation. */
  lemma PrintIndentsOncePerLine(e: EmitterState, a: string, b: string)
    ensures Print(NewLine(e), a).buf == e.buf + LineSeparator + Repeat(e.indentation, e.level) + a
    ensures |Repeat(e.indentation, e.level)| == Copies(e.level) * |e.indentation|
    ensures Print(Print(e, a), b) == Print(e, a + b)
    ensures !PrintLn(e, a).indented && Print(PrintLn(e, a), b).indented
  {
    RepeatShape(e.indentation, e.level);
  }

  /** A print after a write writes on: the two are one write. */
  lemma WriteThenPrint(e: EmitterState, t: string, w: string)
    requires w != ""
    ensures Print(Write(e, t), w) == Write(e, t + w)
  {
    if t == "" {
      assert t + w == w;
    }
  }

  lemma IndentThenUnindent(e: EmitterState)
    ensures Unindent(Indent(e)) == e && Indent(Unindent(e)) == e
  {
  }

  /** Appending text keeps every mark within the buffer. */
  lemma AppendKeepsValid(e: EmitterState, r: EmitterState)
    requires Valid(e) && r.marks == e.marks && |e.buf| <= |r.buf|
    ensures Valid(r)
  {
  }

  /** A push records the current length on top of marks no greater. */
  lemma PushKeepsValid(e: EmitterState)
    requires Valid(e)
    ensures Valid(Push(e))
  {
    var p := Push(e);
    forall i | 0 <= i < |p.marks|
      ensures p.marks[i] <= |p.buf|
    {
      if i < |e.marks| { assert p.marks[i] == e.marks[i]; }
    }
    forall i, j | 0 <= i < j < |p.marks|
      ensures p.marks[i] <= p.marks[j]
    {
      assert p.marks[i] == e.marks[i];
      if j < |e.marks| { assert p.marks[j] == e.marks[j]; }
    }
  }

  /** Pop and drop remove the top mark; pop cuts the buffer back to it, which
      the marks below do not exceed. */
  lemma ShrinkKeepsValid(e: EmitterState)
    requires Valid(e) && |e.marks| > 0
    ensures Valid(Pop(e)) && Valid(Drop(e))
  {
    var top := e.marks[|e.marks| - 1];
    var q := Pop(e);
    forall i | 0 <= i < |q.marks|
      ensures q.marks[i] <= |q.buf|
    {
      assert q.marks[i] == e.marks[i] <= top;
    }
    forall i, j | 0 <= i < j < |q.marks|
      ensures q.marks[i] <= q.marks[j]
    {
      assert q.marks[i] == e.marks[i] && q.marks[j] == e.marks[j];
    }
    AppendKeepsValid(q, Drop(e));
  }

  lemma OperationsKeepValid(e: EmitterState, s: string)
    requires Valid(e)
    ensures Valid(Print(e, s)) && Valid(NewLine(e)) && Valid(Push(e))
    ensures Valid(Indent(e)) && Valid(Unindent(e))
    ensures |e.marks| > 0 ==> Valid(Pop(e)) && Valid(Drop(e))
  {
    AppendKeepsValid(e, Print(e, s));
    AppendKeepsValid(e, NewLine(e));
    AppendKeepsValid(e, Indent(e));
    AppendKeepsValid(e, Unindent(e));
    PushKeepsValid(e);
    if |e.marks| > 0 {
      ShrinkKeepsValid(e);
    }
  }

  /** Speculative rendering. Whatever balanced rendering follows a push, the
      mark reads back exactly the text written since the push; pop restores the
      buffer and the mark stack of before the push, drop keeps the text and
      restores the mark stack; neither touches the lower marks. */
  lemma Speculation(e: EmitterState, r: EmitterState)
    requires Continues(Push(e), r)
    ensures 1 <= |e.marks| + 1 <= |r.marks| && r.marks[|e.marks|] <= |r.buf|
    ensures e.buf + GetMark(r, |e.marks| + 1) == r.buf
    ensures Pop(r) == e.(indented := r.indented)
    ensures Drop(r) == r.(marks := e.marks) && Continues(e, Drop(r))
  {
    assert r.buf[..|e.buf|] == e.buf;
    assert e.marks + [|e.buf|] == r.marks;
    assert r.marks[..|r.marks| - 1] == e.marks;
  }

  /** Opening is kept by whatever appends after it. */
  lemma OpensOnward(e: EmitterState, a: EmitterState, b: EmitterState)
    requires Opens(e, a) && a.buf <= b.buf
    ensures Opens(e, b)
  {
  }

  /** Continues is a preorder, and it keeps Valid. */
  lemma ContinuesTransitive(a: EmitterState, b: EmitterState, c: EmitterState)
    requires Continues(a, b) && Continues(b, c)
    ensures Continues(a, c)
    ensures Valid(a) ==> Valid(b)
  {
  }
}
