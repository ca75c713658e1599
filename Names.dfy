/** The identifier transformer: the special-name table and the conversion of
    lowerCamelCase names to snake_case (RustDumpVisitor.toSnakeIfNecessary). */
module Names {
  import opened Wrappers
  import opened Text

  /** What `charAt(0)` throws on an empty name. */
  const StringIndexOutOfBounds: string := "StringIndexOutOfBoundsException"

  /** namesMap: the five special names and their target spellings. */
  const NamesMap: map<string, string> := map[
    "NaN" := "NAN",
    "NEGATIVE_INFINITY" := "NEG_INFINITY",
    "POSITIVE_INFINITY" := "INFINITY",
    "MIN_VALUE" := "MIN",
    "MAX_VALUE" := "MAX"
  ]

  /** What the conversion loop appends for one character. */
  function SnakeChar(c: char): string {
    if IsUpper(c) then ['_', ToLower(c)] else [c]
  }

  /** The conversion loop over the whole name. */
  function ToSnake(s: string): string {
    if s == [] then [] else SnakeChar(s[0]) + ToSnake(s[1..])
  }

  /** The source's method; `charAt(0)` throws on an empty name, so the name
      must not be empty. */
  function ToSnakeIfNecessary(n: string): string
    requires |n| > 0
  {
    var name := if n in NamesMap then NamesMap[n] else n;
    assert |name| > 0;
    if IsLower(name[0]) then ToSnake(name) else name
  }

  /** toSnakeIfNecessary as the source runs it: the table lookup, then, for a
      name starting with a lower-case letter, the loop appending each
      character or `_` and its lower-case form. */
  method SnakeName(n: string) returns (r: Result<string>)
    ensures r == if |n| == 0 then Failure(StringIndexOutOfBounds) else Success(ToSnakeIfNecessary(n))
  {
    if |n| == 0 {
      return Failure(StringIndexOutOfBounds);
    }
    var name := if n in NamesMap then NamesMap[n] else n;
    assert |name| > 0;
    if !IsLower(name[0]) {
      return Success(name);
    }
    var sb := "";
    for i := 0 to |name|
      invariant sb == ToSnake(name[..i])
    {
      var c := name[i];
      if IsUpper(c) {
        sb := sb + ['_', ToLower(c)];
      } else {
        sb := sb + [c];
      }
      ToSnakeAppend(name[..i], [c]);
      assert name[..i + 1] == name[..i] + [c];
    }
    assert name[..|name|] == name;
    return Success(sb);
  }

  function CountUpper(s: string): nat {
    if s == [] then 0 else (if IsUpper(s[0]) then 1 else 0) + CountUpper(s[1..])
  }

  /** The inverse of ToSnake on names without underscores: `_x` becomes `X`. */
  function FromSnake(t: string): string {
    if |t| >= 2 && t[0] == '_' && IsLower(t[1]) then [ToUpper(t[1])] + FromSnake(t[2..])
    else if t == [] then []
    else [t[0]] + FromSnake(t[1..])
  }

  lemma {:induction false} ToSnakeLength(s: string)
    ensures |ToSnake(s)| == |s| + CountUpper(s)
  {
    if s != [] {
      ToSnakeLength(s[1..]);
    }
  }

  lemma {:induction false} ToSnakeHasNoUpper(s: string)
    ensures forall i :: 0 <= i < |ToSnake(s)| ==> !IsUpper(ToSnake(s)[i])
  {
    if s != [] {
      ToSnakeHasNoUpper(s[1..]);
      var r := ToSnake(s);
      assert r == SnakeChar(s[0]) + ToSnake(s[1..]);
      forall i | 0 <= i < |r| ensures !IsUpper(r[i]) {
        if i >= |SnakeChar(s[0])| {
          assert r[i] == ToSnake(s[1..])[i - |SnakeChar(s[0])|];
        }
      }
    }
  }

  lemma {:induction false} ToSnakeKeepsNamesWithoutUpper(s: string)
    requires forall i :: 0 <= i < |s| ==> !IsUpper(s[i])
    ensures ToSnake(s) == s
  {
    if s != [] {
      ToSnakeKeepsNamesWithoutUpper(s[1..]);
    }
  }

  /** Converting a name without underscores loses nothing: FromSnake undoes it. */
  lemma {:induction false} SnakeRoundTrip(s: string)
    requires forall i :: 0 <= i < |s| ==> s[i] != '_'
    ensures FromSnake(ToSnake(s)) == s
  {
    if s != [] {
      SnakeRoundTrip(s[1..]);
      var t := ToSnake(s);
      assert t == SnakeChar(s[0]) + ToSnake(s[1..]);
      if IsUpper(s[0]) {
        assert t[2..] == ToSnake(s[1..]);
      } else {
        assert t[1..] == ToSnake(s[1..]);
        if |t| >= 2 && t[0] == '_' {
          assert false;
        }
      }
    }
  }

  /** The table wins over the generic rule, every table result is returned as
      it stands, a lowerCamelCase name gets one underscore per capital and no
      capital survives, and any other name is returned unchanged. */
  lemma ToSnakeIfNecessaryShape(n: string)
    requires |n| > 0
    ensures n in NamesMap ==> ToSnakeIfNecessary(n) == NamesMap[n]
    ensures n !in NamesMap && !IsLower(n[0]) ==> ToSnakeIfNecessary(n) == n
    ensures n !in NamesMap && IsLower(n[0]) ==>
      var r := ToSnakeIfNecessary(n);
      && |r| == |n| + CountUpper(n)
      && (forall i :: 0 <= i < |r| ==> !IsUpper(r[i]))
      && ((forall i :: 0 <= i < |n| ==> n[i] != '_') ==> FromSnake(r) == n)
  {
    if n !in NamesMap && IsLower(n[0]) {
      ToSnakeLength(n);
      ToSnakeHasNoUpper(n);
      if forall i :: 0 <= i < |n| ==> n[i] != '_' {
        SnakeRoundTrip(n);
      }
    }
  }

  /** No table result is itself a table key, and every one starts with a capital. */
  lemma TableResultsAreFinal(n: string)
    requires n in NamesMap
    ensures NamesMap[n] !in NamesMap
    ensures |NamesMap[n]| > 0 && IsUpper(NamesMap[n][0])
  {
    assert NamesMap.Keys == {"NaN", "NEGATIVE_INFINITY", "POSITIVE_INFINITY", "MIN_VALUE", "MAX_VALUE"};
    assert n == "NaN" || n == "NEGATIVE_INFINITY" || n == "POSITIVE_INFINITY" || n == "MIN_VALUE" || n == "MAX_VALUE";
  }

  lemma NoKeyStartsLower(n: string)
    requires n in NamesMap
    ensures |n| > 0 && !IsLower(n[0])
  {
    assert NamesMap.Keys == {"NaN", "NEGATIVE_INFINITY", "POSITIVE_INFINITY", "MIN_VALUE", "MAX_VALUE"};
  }

  /** Applying the transformer twice gives what applying it once gives. */
  lemma ToSnakeIfNecessaryIdempotent(n: string)
    requires |n| > 0
    ensures |ToSnakeIfNecessary(n)| > 0
    ensures ToSnakeIfNecessary(ToSnakeIfNecessary(n)) == ToSnakeIfNecessary(n)
  {
    var r := ToSnakeIfNecessary(n);
    if n in NamesMap {
      TableResultsAreFinal(n);
    } else if IsLower(n[0]) {
      ToSnakeHasNoUpper(n);
      assert r == SnakeChar(n[0]) + ToSnake(n[1..]);
      assert r[0] == n[0];
      if r in NamesMap {
        NoKeyStartsLower(r);
      }
      ToSnakeKeepsNamesWithoutUpper(r);
    }
  }

  lemma {:induction false} ToSnakeAppend(a: string, b: string)
    ensures ToSnake(a + b) == ToSnake(a) + ToSnake(b)
  {
    if a != [] {
      ToSnakeAppend(a[1..], b);
      assert (a + b)[1..] == a[1..] + b;
    } else {
      assert a + b == b;
    }
  }

  lemma CamelExample()
    ensures ToSnakeIfNecessary("fooBar") == "foo_bar"
  {
    NotAKey("fooBar");
    assert ToSnake("ar") == "ar";
    assert ToSnake("Bar") == "_bar";
    assert ToSnake("oBar") == "o_bar";
    assert ToSnake("ooBar") == "oo_bar";
  }

  lemma NotAKey(n: string)
    requires n != "NaN" && n != "NEGATIVE_INFINITY" && n != "POSITIVE_INFINITY"
    requires n != "MIN_VALUE" && n != "MAX_VALUE"
    ensures n !in NamesMap
  {
    assert NamesMap.Keys == {"NaN", "NEGATIVE_INFINITY", "POSITIVE_INFINITY", "MIN_VALUE", "MAX_VALUE"};
  }

  lemma TableExample()
    ensures ToSnakeIfNecessary("MAX_VALUE") == "MAX"
  {
  }

  lemma CapitalizedExample()
    ensures ToSnakeIfNecessary("AlreadyCapitalized") == "AlreadyCapitalized"
  {
    NotAKey("AlreadyCapitalized");
  }
}
