/** Primitive types, their names, and the classification of literal values
    (the first half of src/transpiler/types.go).
 */
module Types {
  import opened Results
  import opened GoText

  /** The primitive types; `IO` is only a return type for `main`. */
  datatype PrimType = Int | Float | Bool | Byte | String | IO

  /** The name a type has in Stella source. */
  function TypeName(t: PrimType): string {
    match t
    case Int => "int"
    case Float => "float"
    case Bool => "bool"
    case Byte => "byte"
    case String => "string"
    case IO => "IO"
  }

  const TypeNames: set<string> := {"int", "float", "bool", "byte", "string", "IO"}

  /** Reads a type name; anything other than the six names is an error. */
  function ReadType(name: string, line: int): (r: Result<PrimType>)
    ensures r.Ok? <==> name in TypeNames
    ensures r.Ok? ==> TypeName(r.value) == name
    ensures r.Err? ==> r.line == line
  {
    if name == "int" then Ok(Int)
    else if name == "float" then Ok(Float)
    else if name == "bool" then Ok(Bool)
    else if name == "byte" then Ok(Byte)
    else if name == "string" then Ok(String)
    else if name == "IO" then Ok(IO)
    else Err(line, "data type " + name + " is invalid")
  }

  /** Naming a type and reading the name back gives the type again, and
      distinct types have distinct names. */
  lemma ReadTypeName(t: PrimType, line: int)
    ensures ReadType(TypeName(t), line) == Ok(t)
    ensures forall u: PrimType :: TypeName(u) == TypeName(t) ==> u == t
  {
  }

  predicate IsNumeric(t: PrimType) {
    t == Int || t == Float
  }

  /** The numeric types are the two whose names are `int` and `float`. */
  lemma NumericTypes(t: PrimType)
    ensures IsNumeric(t) <==> TypeName(t) in {"int", "float"}
  {
  }

  // ---------------------------------------------------------------------
  // Literal values

  /** A decimal integer literal: digits only, no leading zero unless the
      literal is exactly "0". */
  predicate IsIntLiteral(s: string) {
    |s| > 0 && AllDigits(s) && (s[0] == '0' ==> |s| == 1)
  }

  /** A decimal float literal: digits, one '.', digits, with a non-empty
      integral part that starts with 0 only when it is exactly "0". */
  predicate IsFloatLiteral(s: string) {
    exists k :: 0 < k < |s| && s[k] == '.' && AllDigits(s[..k]) && AllDigits(s[k + 1..])
      && (s[0] == '0' ==> k == 1)
  }

  predicate IsStringLiteral(s: string) {
    |s| > 0 && s[0] == '"' && s[|s| - 1] == '"'
  }

  predicate IsByteLiteral(s: string) {
    |s| == 3 && s[0] == '\'' && s[2] == '\''
  }

  predicate IsBoolLiteral(s: string) {
    s == "true" || s == "false"
  }

  predicate HasDigit(s: string) {
    exists i :: 0 <= i < |s| && IsDigit(s[i])
  }

  function DotCount(s: string): nat {
    if |s| == 0 then 0 else (if s[0] == '.' then 1 else 0) + DotCount(s[1..])
  }

  /** Integer literal check: a leading zero only alone, a first character
      from 1-9 otherwise, and digits throughout. */
  function CheckIntVal(value: string, line: int): (r: Result<()>)
    ensures r.Ok? <==> IsIntLiteral(value)
    ensures r.Err? ==> r.line == line
  {
    if |value| == 0 then Err(line, "index out of range")
    else if value[0] == '0' && |value| != 1 then Err(line, "Integers values cannot have leading zeros")
    else if !IsDigit(value[0]) then Err(line, "character cannot be part of an integer value")
    else if !AllDigits(value) then Err(line, "character cannot be part of an integer value")
    else Ok(())
  }

  /** The character loop of the float check from index `i`, with `dots`
      points counted before it: a non-digit passes only when it is the
      first '.'. */
  function ScanFloatChars(value: string, i: nat, dots: nat, line: int): (r: Result<()>)
    requires i <= |value| && dots <= 1
    ensures r.Ok? <==>
      (forall j :: i <= j < |value| ==> IsDigit(value[j]) || value[j] == '.')
      && dots + DotCount(value[i..]) <= 1
    ensures r.Err? ==> r.line == line
    decreases |value| - i
  {
    if i == |value| then Ok(())
    else
      var c := value[i];
      var dots' := if c == '.' then dots + 1 else dots;
      assert value[i..][1..] == value[i + 1..];
      if !IsDigit(c) && !(c == '.' && dots' == 1) then
        Err(line, "character cannot be part of a float value")
      else if dots' > 1 then
        // a digit never raises the count past one
        assert false; Err(line, "")
      else
        ScanFloatChars(value, i + 1, dots', line)
  }

  /** Float literal check: a leading zero must be followed by '.', any
      other first character must be 1-9, and at most one '.' appears. */
  function CheckFloatVal(value: string, line: int): (r: Result<()>)
    ensures r.Ok? <==>
      |value| > 0 && IsDigit(value[0]) && (value[0] == '0' ==> |value| > 1 && value[1] == '.')
      && (forall j :: 0 <= j < |value| ==> IsDigit(value[j]) || value[j] == '.')
      && DotCount(value) <= 1
    ensures r.Err? ==> r.line == line
  {
    if |value| == 0 then Err(line, "index out of range")
    else if value[0] == '0' && (|value| < 2 || value[1] != '.') then
      Err(line, "Leading zeros must be followed by decimal point")
    else if !IsDigit(value[0]) then Err(line, "character cannot be part of an float value")
    else
      assert value[0..] == value;
      ScanFloatChars(value, 0, 0, line)
  }

  /** Classifies a literal value.  Each accepted literal gets exactly one
      type, and the type is never `IO`. */
  function GetValType(value: string, line: int): (r: Result<PrimType>)
    ensures r == Ok(String) <==> IsStringLiteral(value)
    ensures r == Ok(Byte) <==> IsByteLiteral(value)
    ensures r == Ok(Bool) <==> IsBoolLiteral(value)
    ensures r == Ok(Float) <==> IsFloatLiteral(value)
    ensures r == Ok(Int) <==> IsIntLiteral(value)
    ensures r != Ok(IO)
    ensures r.Err? ==> r.line == line
  {
    if |value| == 0 then Err(line, "index out of range")
    else if value[0] == '"' && value[|value| - 1] == '"' then Ok(String)
    else if value[0] == '\'' && value[|value| - 1] == '\'' then
      if |value| != 3 then Err(line, "single quotes should enclose a single ASCII character")
      else Ok(Byte)
    else if value == "true" || value == "false" then Ok(Bool)
    else if !HasDigit(value) then Err(line, "unexpected token " + value)
    else if HasChar(value, '.') then
      FloatCheckMeansLiteral(value, line);
      match CheckFloatVal(value, line)
      case Ok(_) => Ok(Float)
      case Err(l, m) => Err(l, m)
    else
      NoDotIntLiteral(value);
      match CheckIntVal(value, line)
      case Ok(_) => Ok(Int)
      case Err(l, m) => Err(l, m)
  }

  lemma {:induction false} DotCountZero(s: string)
    requires !HasChar(s, '.')
    ensures DotCount(s) == 0
    decreases |s|
  {
    if |s| > 0 {
      assert !HasChar(s[1..], '.') by {
        forall i | 0 <= i < |s[1..]| ensures s[1..][i] != '.' {
          assert s[1..][i] == s[i + 1];
        }
      }
      DotCountZero(s[1..]);
    }
  }

  lemma {:induction false} DotCountAppend(a: string, b: string)
    ensures DotCount(a + b) == DotCount(a) + DotCount(b)
    decreases |a|
  {
    if |a| > 0 {
      assert (a + b)[1..] == a[1..] + b;
      DotCountAppend(a[1..], b);
    } else {
      assert a + b == b;
    }
  }

  lemma {:induction false} DotCountPositive(s: string, k: nat)
    requires k < |s| && s[k] == '.'
    ensures DotCount(s) >= 1
    decreases k
  {
    if k > 0 {
      assert s[1..][k - 1] == '.';
      DotCountPositive(s[1..], k - 1);
    }
  }

  /** Digits never contribute to the dot count. */
  lemma DigitsNoDots(s: string)
    requires AllDigits(s)
    ensures DotCount(s) == 0
  {
    assert !HasChar(s, '.') by {
      forall i | 0 <= i < |s| ensures s[i] != '.' {
        assert IsDigit(s[i]);
      }
    }
    DotCountZero(s);
  }

  /** For a value that contains '.', the float check accepts exactly the
      float literals. */
  lemma FloatCheckMeansLiteral(value: string, line: int)
    requires HasChar(value, '.')
    ensures CheckFloatVal(value, line).Ok? <==> IsFloatLiteral(value)
  {
    if CheckFloatVal(value, line).Ok? {
      FloatCheckedIsLiteral(value, line);
    }
    if IsFloatLiteral(value) {
      FloatLiteralIsChecked(value, line);
    }
  }

  lemma FloatCheckedIsLiteral(value: string, line: int)
    requires HasChar(value, '.') && CheckFloatVal(value, line).Ok?
    ensures IsFloatLiteral(value)
  {
    assert value[0..] == value;
    var f := FirstDot(value, 0);
    var tail := value[f + 1..];
    assert value == value[..f] + ([value[f]] + tail);
    DotCountAppend(value[..f], [value[f]] + tail);
    DotCountAppend([value[f]], tail);
    assert DotCount([value[f]]) == 1;
    assert DotCount(tail) == 0;
    forall j | 0 <= j < |tail| ensures IsDigit(tail[j]) {
      if tail[j] == '.' {
        DotCountPositive(tail, j);
      }
    }
    assert f > 0;
    assert AllDigits(value[..f]);
  }

  lemma FloatLiteralIsChecked(value: string, line: int)
    requires IsFloatLiteral(value)
    ensures CheckFloatVal(value, line).Ok?
  {
    var f :| 0 < f < |value| && value[f] == '.' && AllDigits(value[..f]) && AllDigits(value[f + 1..])
      && (value[0] == '0' ==> f == 1);
    var head, tail := value[..f], value[f + 1..];
    assert value[0] == head[0];
    DigitsNoDots(head);
    DigitsNoDots(tail);
    assert value == head + ([value[f]] + tail);
    DotCountAppend(head, [value[f]] + tail);
    DotCountAppend([value[f]], tail);
    assert DotCount([value[f]]) == 1;
    forall j | 0 <= j < |value| ensures IsDigit(value[j]) || value[j] == '.' {
      if j < f {
        assert value[j] == head[j];
      } else if j > f {
        assert value[j] == tail[j - f - 1];
      }
    }
  }

  /** The index of the first '.' at or after `i`. */
  function FirstDot(s: string, i: nat): (f: nat)
    requires i <= |s| && HasChar(s[i..], '.')
    ensures i <= f < |s| && s[f] == '.'
    ensures forall j :: i <= j < f ==> s[j] != '.'
    decreases |s| - i
  {
    if s[i] == '.' then i
    else
      assert HasChar(s[i + 1..], '.') by {
        var j :| 0 <= j < |s[i..]| && s[i..][j] == '.';
        assert j > 0;
        assert s[i + 1..][j - 1] == '.';
      }
      FirstDot(s, i + 1)
  }

  /** Without a '.', a value is never a float literal. */
  lemma NoDotIntLiteral(value: string)
    requires !HasChar(value, '.')
    ensures !IsFloatLiteral(value)
  {
  }
}
