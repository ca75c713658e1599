/** The fixed tables of the printer: primitive types, binary, assignment and
    unary operators, and the order in which modifiers are written. */
module Tables {
  import opened Syntax

  /** The primitive type visitor's switch. */
  function PrimitiveTypeName(k: PrimitiveKind): string {
    match k
    case Boolean => "bool"
    case Byte => "i8"
    case Char => "char"
    case Double => "f64"
    case Float => "f32"
    case Int => "i32"
    case Long => "i64"
    case Short => "i16"
  }

  /** The binary expression visitor's switch. */
  function BinaryOperatorText(op: BinaryOperator): string {
    match op
    case Or => "||"
    case And => "&&"
    case BinOr => "|"
    case BinAnd => "&"
    case Xor => "^"
    case Equals => "=="
    case NotEquals => "!="
    case Less => "<"
    case Greater => ">"
    case LessEquals => "<="
    case GreaterEquals => ">="
    case LShift => "<<"
    case RSignedShift => ">>"
    case RUnsignedShift => ">> /* >>> */"
    case Plus => "+"
    case Minus => "-"
    case Times => "*"
    case Divide => "/"
    case Remainder => "%"
  }

  /** The assignment expression visitor's switch. */
  function AssignOperatorText(op: AssignOperator): string {
    match op
    case Assign => "="
    case AndAssign => "&="
    case OrAssign => "|="
    case XorAssign => "^="
    case PlusAssign => "+="
    case MinusAssign => "-="
    case RemAssign => "%="
    case SlashAssign => "/="
    case StarAssign => "*="
    case LShiftAssign => "<<="
    case RSignedShiftAssign => ">>="
    case RUnsignedShiftAssign => ">>= /* >>>= */"
  }

  /** What the unary visitor prints before its operand. */
  function UnaryPrefixText(op: UnaryOperator): string {
    match op
    case Positive => "+"
    case Negative => "-"
    case Inverse => "~"
    case Not => "!"
    case PreIncrement => "++"
    case PreDecrement => "--"
    case _ => ""
  }

  /** What the unary visitor prints after its operand. */
  function UnaryPostfixText(op: UnaryOperator): string {
    match op
    case PosIncrement => "++"
    case PosDecrement => "--"
    case _ => ""
  }

  /** The words printModifiers may write, each with its trailing space. */
  const PrivateWord: string := "private "
  const ProtectedWord: string := "protected "
  const PublicWord: string := "public "
  const AbstractWord: string := "abstract "
  const StaticWord: string := "static "
  const FinalWord: string := "final "
  const NativeWord: string := "native "
  const StrictfpWord: string := "strictfp "
  const SynchronizedWord: string := "synchronized "
  const TransientWord: string := "transient "
  const VolatileWord: string := "volatile "

  /** The words in the order printModifiers tests the flags. */
  const ModifierWords: seq<string> := [PrivateWord, ProtectedWord, PublicWord, AbstractWord,
    StaticWord, FinalWord, NativeWord, StrictfpWord, SynchronizedWord, TransientWord, VolatileWord]

  /** The modifier flags in the same order as ModifierWords. */
  function ModifierFlags(m: Modifiers): (fs: seq<bool>)
    ensures |fs| == |ModifierWords|
  {
    [m.isPrivate, m.isProtected, m.isPublic, m.isAbstract, m.isStatic, m.isFinal,
     m.isNative, m.isStrictfp, m.isSynchronized, m.isTransient, m.isVolatile]
  }

  /** A word when its flag is set, nothing otherwise. */
  function WordIf(isSet: bool, word: string): string {
    if isSet then word else ""
  }

  /** The words from index i on whose flags are set, in order. */
  function WordsFrom(fs: seq<bool>, ws: seq<string>, i: nat): string
    requires |fs| == |ws| && i <= |ws|
    decreases |ws| - i
  {
    if i == |ws| then "" else WordIf(fs[i], ws[i]) + WordsFrom(fs, ws, i + 1)
  }

  /** The text printModifiers writes. */
  function ModifiersText(m: Modifiers): string {
    WordsFrom(ModifierFlags(m), ModifierWords, 0)
  }

  /** Only unset flags contribute nothing: the text from i on is empty exactly
      when no flag from i on is set (every word being non-empty). */
  lemma {:induction false} WordsFromEmpty(fs: seq<bool>, ws: seq<string>, i: nat)
    requires |fs| == |ws| && i <= |ws|
    requires forall k :: 0 <= k < |ws| ==> ws[k] != ""
    ensures WordsFrom(fs, ws, i) == "" <==> forall k :: i <= k < |fs| ==> !fs[k]
    decreases |ws| - i
  {
    if i < |ws| {
      WordsFromEmpty(fs, ws, i + 1);
      var rest := WordsFrom(fs, ws, i + 1);
      assert WordsFrom(fs, ws, i) == WordIf(fs[i], ws[i]) + rest;
      if fs[i] {
        assert |WordsFrom(fs, ws, i)| >= |ws[i]| > 0;
      } else {
        assert WordsFrom(fs, ws, i) == rest by {
          assert "" + rest == rest;
        }
        assert (forall k :: i <= k < |fs| ==> !fs[k]) <==> (forall k :: i + 1 <= k < |fs| ==> !fs[k]) by {
          if forall k :: i + 1 <= k < |fs| ==> !fs[k] {
            forall k | i <= k < |fs| ensures !fs[k] {
              if k > i { }
            }
          }
        }
      }
    }
  }

  /** No modifier set, no text; any modifier set, some text. */
  lemma ModifiersTextEmpty(m: Modifiers)
    ensures ModifiersText(m) == "" <==>
      !(m.isPrivate || m.isProtected || m.isPublic || m.isAbstract || m.isStatic || m.isFinal
        || m.isNative || m.isStrictfp || m.isSynchronized || m.isTransient || m.isVolatile)
  {
    var fs := ModifierFlags(m);
    WordsFromEmpty(fs, ModifierWords, 0);
    if ModifiersText(m) == "" {
      assert forall k :: 0 <= k < |fs| ==> !fs[k];
      assert !fs[0] && !fs[1] && !fs[2] && !fs[3] && !fs[4] && !fs[5];
      assert !fs[6] && !fs[7] && !fs[8] && !fs[9] && !fs[10];
    }
  }

  /** The unsigned shifts have no target spelling: the signed spelling is
      written, followed by a comment naming the original operator. */
  lemma UnsignedShiftIsLossy()
    ensures BinaryOperatorText(RUnsignedShift) == BinaryOperatorText(RSignedShift) + " /* >>> */"
    ensures AssignOperatorText(RUnsignedShiftAssign) == AssignOperatorText(RSignedShiftAssign) + " /* >>>= */"
  {
  }

  /** Each unary operator is written on exactly one side of its operand. */
  lemma UnaryOperatorSide(op: UnaryOperator)
    ensures (UnaryPrefixText(op) == "") != (UnaryPostfixText(op) == "")
    ensures UnaryPostfixText(op) != "" <==> op == PosIncrement || op == PosDecrement
  {
  }

  /** No two primitive types share a target name. */
  lemma PrimitiveTypeNamesDistinct(a: PrimitiveKind, b: PrimitiveKind)
    ensures PrimitiveTypeName(a) == PrimitiveTypeName(b) ==> a == b
  {
  }
}
