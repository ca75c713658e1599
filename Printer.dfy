/** RustDumpVisitor.SourcePrinter: the emitter as a class whose methods update
    its fields in place, each proved against the function of the same name in
    module EmitterSpec. */
module Printer {
  import opened Text
  import opened EmitterSpec

  class SourcePrinter {
    const indentation: string
    var level: int
    var indented: bool
    var buf: string
    var marks: seq<nat>

    function State(): EmitterState
      reads this
    {
      EmitterState(indentation, level, indented, buf, marks)
    }

    ghost predicate Valid()
      reads this
    {
      EmitterSpec.Valid(State())
    }

    constructor (indentation: string)
      ensures State() == Initial(indentation) && Valid()
    {
      this.indentation := indentation;
      level := 0;
      indented := false;
      buf := "";
      marks := [];
    }

    method Indent()
      modifies this
      ensures State() == EmitterSpec.Indent(old(State()))
      ensures old(Valid()) ==> Valid()
    {
      level := level + 1;
    }

    method Unindent()
      modifies this
      ensures State() == EmitterSpec.Unindent(old(State()))
      ensures old(Valid()) ==> Valid()
    {
      level := level - 1;
    }

    /** Appends one indentation unit per level. */
    method MakeIndent()
      modifies this`buf
      ensures buf == old(buf) + Repeat(indentation, level)
    {
      var i := 0;
      while i < level
        invariant 0 <= i <= Copies(level)
        invariant buf == old(buf) + Repeat(indentation, i)
      {
        buf := buf + indentation;
        i := i + 1;
      }
    }

    method Print(arg: string)
      modifies this
      ensures State() == EmitterSpec.Print(old(State()), arg)
      ensures old(Valid()) ==> Valid()
    {
      if !indented {
        MakeIndent();
        indented := true;
      }
      buf := buf + arg;
    }

    /** printLn(arg). */
    method PrintLn(arg: string)
      modifies this
      ensures State() == EmitterSpec.PrintLn(old(State()), arg)
      ensures old(Valid()) ==> Valid()
    {
      Print(arg);
      NewLine();
    }

    /** printLn(). */
    method NewLine()
      modifies this
      ensures State() == EmitterSpec.NewLine(old(State()))
      ensures old(Valid()) ==> Valid()
    {
      buf := buf + LineSeparator;
      indented := false;
    }

    method GetSource() returns (source: string)
      ensures source == buf
    {
      source := buf;
    }

    /** push(): the handle returned is the new stack size. */
    method Push() returns (mark: int)
      modifies this
      ensures State() == EmitterSpec.Push(old(State()))
      ensures mark == |marks| && marks[mark - 1] == |buf|
      ensures old(Valid()) ==> Valid()
    {
      marks := marks + [|buf|];
      mark := |marks|;
    }

    /** getMark(mark): reads the text since the mark and changes nothing. */
    method GetMark(mark: int) returns (s: string)
      requires 1 <= mark <= |marks| && marks[mark - 1] <= |buf|
      ensures s == EmitterSpec.GetMark(State(), mark)
      ensures buf == buf[..marks[mark - 1]] + s
    {
      s := buf[marks[mark - 1]..];
    }

    method Pop()
      requires |marks| > 0 && marks[|marks| - 1] <= |buf|
      modifies this
      ensures State() == EmitterSpec.Pop(old(State()))
      ensures old(Valid()) ==> Valid()
    {
      buf := buf[..marks[|marks| - 1]];
      marks := marks[..|marks| - 1];
    }

    method Drop()
      requires |marks| > 0
      modifies this
      ensures State() == EmitterSpec.Drop(old(State()))
      ensures old(Valid()) ==> Valid()
    {
      marks := marks[..|marks| - 1];
    }
  }
}
