/** The character loops that cut an expression's text into pieces before
    the pieces are parsed: the argument list of a call
    (src/transpiler/parser.go:1039-1066), the elements of an array literal
    (src/transpiler/collections.go:156-197), the elements of a tuple
    literal (src/transpiler/tuple.go:112-131), the index groups of an array
    access (src/transpiler/collections.go:384-419) and the first syntactic
    character of a value (src/transpiler/parser.go:413-430).
 */
module Scanners {
  import opened Results
  import opened GoText

  // ---------------------------------------------------------------------
  // Call arguments

  /** The arguments of a call, read from the text between its outer
      parentheses.  A ',' at depth zero ends an argument, a ',' inside a
      nested call is dropped, a space at the start of an argument is
      dropped, and the argument being read when the text ends is always
      kept, even when it is empty. */
  function SplitArgs(p: string): (r: seq<string>)
    ensures |p| > 0 ==> |r| > 0
    ensures |p| == 0 ==> r == []
  {
    ArgsFrom(p, 0, "")
  }

  function ArgsFrom(s: string, count: int, cur: string): (r: seq<string>)
    ensures |s| > 0 ==> |r| > 0
    ensures |s| == 0 ==> r == []
    decreases |s|
  {
    if |s| == 0 then []
    else
      var c := s[0];
      var count' := if c == '(' then count + 1 else if c == ')' then count - 1 else count;
      var push := c == ',' && count == 0;
      var cur' :=
        if push then ""
        else if c == ',' then cur
        else if c == ' ' && |cur| == 0 then cur
        else cur + [c];
      var pushed := if push then [cur] else [];
      if |s| == 1 then pushed + [cur'] else pushed + ArgsFrom(s[1..], count', cur')
  }

  /** Text that reads as a single argument: no commas and no parentheses,
      and it does not start with a space. */
  predicate PlainArg(w: string) {
    |w| > 0 && w[0] != ' ' && !HasChar(w, ',') && !HasChar(w, '(') && !HasChar(w, ')')
  }

  /** Arguments written with ", " between them are read back as written. */
  lemma {:induction false} SplitArgsJoin(args: seq<string>)
    requires |args| > 0
    requires forall i :: 0 <= i < |args| ==> PlainArg(args[i])
    ensures SplitArgs(Join(args, ", ")) == args
  {
    ArgsJoinFrom(args);
  }

  lemma {:induction false} ArgsJoinFrom(args: seq<string>)
    requires |args| > 0
    requires forall i :: 0 <= i < |args| ==> PlainArg(args[i])
    ensures ArgsFrom(Join(args, ", "), 0, "") == args
    decreases |args|
  {
    var w := args[0];
    if |args| == 1 {
      ArgWordLast(w, "");
      assert "" + w == w;
    } else {
      var rest := Join(args[1..], ", ");
      assert PlainArg(args[1]);
      assert |rest| > 0 by { JoinFirst(args[1..], ", "); }
      var tail := ", " + rest;
      assert Join(args, ", ") == w + tail;
      ArgWord(w, tail, "");
      assert "" + w == w;
      ArgSeparator(w, rest);
      ArgsJoinFrom(args[1..]);
      assert [w] + args[1..] == args;
    }
  }

  /** A joined list starts with its first element. */
  lemma JoinFirst(ws: seq<string>, sep: string)
    requires |ws| > 0
    ensures |Join(ws, sep)| >= |ws[0]|
    ensures Join(ws, sep)[..|ws[0]|] == ws[0]
  {
  }

  /** Reading a plain argument followed by more text appends it to the
      argument being read. */
  lemma {:induction false} ArgWord(w: string, tail: string, cur: string)
    requires |tail| > 0
    requires !HasChar(w, ',') && !HasChar(w, '(') && !HasChar(w, ')')
    requires |cur| > 0 || |w| == 0 || w[0] != ' '
    ensures ArgsFrom(w + tail, 0, cur) == ArgsFrom(tail, 0, cur + w)
    decreases |w|
  {
    if |w| == 0 {
      assert w + tail == tail;
      assert cur + w == cur;
    } else {
      var s := w + tail;
      assert s[0] == w[0];
      assert s[1..] == w[1..] + tail;
      assert w[0] != ',' && w[0] != '(' && w[0] != ')';
      HasCharTail(w, ',');
      HasCharTail(w, '(');
      HasCharTail(w, ')');
      ArgWord(w[1..], tail, cur + [w[0]]);
      assert cur + [w[0]] + w[1..] == cur + w;
    }
  }

  /** Reading a plain argument at the end of the text keeps it. */
  lemma {:induction false} ArgWordLast(w: string, cur: string)
    requires |w| > 0
    requires !HasChar(w, ',') && !HasChar(w, '(') && !HasChar(w, ')')
    requires |cur| > 0 || w[0] != ' '
    ensures ArgsFrom(w, 0, cur) == [cur + w]
    decreases |w|
  {
    assert w[0] != ',' && w[0] != '(' && w[0] != ')';
    if |w| > 1 {
      HasCharTail(w, ',');
      HasCharTail(w, '(');
      HasCharTail(w, ')');
      ArgWordLast(w[1..], cur + [w[0]]);
      assert cur + [w[0]] + w[1..] == cur + w;
    } else {
      assert w == [w[0]];
    }
  }

  /** ", " ends the argument being read, and the space is dropped. */
  lemma ArgSeparator(cur: string, rest: string)
    requires |rest| > 0 && rest[0] != ' '
    ensures ArgsFrom(", " + rest, 0, cur) == [cur] + ArgsFrom(rest, 0, "")
  {
    var s := ", " + rest;
    assert s[0] == ',' && s[1..] == " " + rest;
    assert ArgsFrom(s, 0, cur) == [cur] + ArgsFrom(" " + rest, 0, "");
    assert (" " + rest)[0] == ' ' && (" " + rest)[1..] == rest;
    assert ArgsFrom(" " + rest, 0, "") == ArgsFrom(rest, 0, "");
  }

  /** A call with nothing between its parentheses still yields one
      argument: the text `()` itself is not stripped, since only texts
      longer than two characters lose their outer characters. */
  lemma EmptyParenthesesArgument()
    ensures SplitArgs("()") == ["()"]
  {
    assert "()"[1..] == ")";
    assert "" + ['('] == "(";
    assert "(" + [')'] == "()";
  }

  // ---------------------------------------------------------------------
  // Array literal elements

  /** The elements of an array literal, read from the text after its `[`.
      Inside a string literal every character is kept.  Outside, ',' and
      ']' end an element and a space throws away what was read of the
      current element. */
  function ElementsFrom(s: string, inString: bool, cur: string): (r: seq<string>)
    decreases |s|
  {
    if |s| == 0 then []
    else
      var c := s[0];
      var inString' := if c == '"' then !inString else inString;
      if inString' then ElementsFrom(s[1..], inString', cur + [c])
      else if c == ',' || c == ']' then [cur] + ElementsFrom(s[1..], inString', "")
      else if c == ' ' then ElementsFrom(s[1..], inString', "")
      else ElementsFrom(s[1..], inString', cur + [c])
  }

  /** A word that is one array element: no separators and no quotes. */
  predicate PlainElement(w: string) {
    |w| > 0 && !HasChar(w, ',') && !HasChar(w, ']') && !HasChar(w, ' ') && !HasChar(w, '"')
  }

  /** Elements written with ", " between them and a closing `]` are read
      back as written. */
  lemma {:induction false} ElementsJoin(ws: seq<string>)
    requires |ws| > 0
    requires forall i :: 0 <= i < |ws| ==> PlainElement(ws[i])
    ensures ElementsFrom(Join(ws, ", ") + "]", false, "") == ws
    decreases |ws|
  {
    var w := ws[0];
    if |ws| == 1 {
      ElementWord(w, "]", "");
      assert "" + w == w;
      assert "]"[1..] == "";
    } else {
      var rest := Join(ws[1..], ", ") + "]";
      assert Join(ws, ", ") + "]" == w + (", " + rest);
      ElementWord(w, ", " + rest, "");
      assert "" + w == w;
      assert (", " + rest)[1..] == " " + rest;
      assert (" " + rest)[1..] == rest;
      ElementsJoin(ws[1..]);
      assert [w] + ws[1..] == ws;
    }
  }

  lemma {:induction false} ElementWord(w: string, tail: string, cur: string)
    requires !HasChar(w, ',') && !HasChar(w, ']') && !HasChar(w, ' ') && !HasChar(w, '"')
    ensures ElementsFrom(w + tail, false, cur) == ElementsFrom(tail, false, cur + w)
    decreases |w|
  {
    if |w| == 0 {
      assert w + tail == tail;
      assert cur + w == cur;
    } else {
      var s := w + tail;
      assert s[0] == w[0];
      assert s[1..] == w[1..] + tail;
      assert w[0] != ',' && w[0] != ']' && w[0] != ' ' && w[0] != '"';
      HasCharTail(w, ',');
      HasCharTail(w, ']');
      HasCharTail(w, ' ');
      HasCharTail(w, '"');
      ElementWord(w[1..], tail, cur + [w[0]]);
      assert cur + [w[0]] + w[1..] == cur + w;
    }
  }

  /** A space outside a string literal discards the start of an element:
      `[a b]` reads as the single element `b`. */
  lemma SpaceDiscards()
    ensures ElementsFrom("a b]", false, "") == ["b"]
  {
    assert "a b]"[1..] == " b]";
    assert ElementsFrom("a b]", false, "") == ElementsFrom(" b]", false, "a");
    assert " b]"[1..] == "b]";
    assert ElementsFrom(" b]", false, "a") == ElementsFrom("b]", false, "");
    assert "b]"[1..] == "]";
    assert "" + ['b'] == "b";
    assert ElementsFrom("b]", false, "") == ElementsFrom("]", false, "b");
    assert "]"[1..] == "";
    assert ElementsFrom("]", false, "b") == ["b"] + ElementsFrom("", false, "");
  }

  // ---------------------------------------------------------------------
  // Tuple literal elements

  /** The elements of a tuple literal, read from the text between its
      parentheses.  A ',' outside a string literal ends an element, a ','
      inside one is dropped, and the element being read when the text ends
      is kept only when it is not empty. */
  function TupleElementsFrom(s: string, inString: bool, cur: string): (r: seq<string>)
    decreases |s|
  {
    if |s| == 0 then []
    else
      var c := s[0];
      var inString' := if c == '"' then !inString else inString;
      var push := c == ',' && !inString';
      var cur' := if push then "" else if c == ',' then cur else cur + [c];
      var pushed := if push then [cur] else [];
      if |s| == 1 then pushed + (if |cur'| > 0 then [cur'] else [])
      else pushed + TupleElementsFrom(s[1..], inString', cur')
  }

  /** A tuple element written without commas or quotes. */
  predicate PlainTupleElement(w: string) {
    |w| > 0 && !HasChar(w, ',') && !HasChar(w, '"')
  }

  /** Elements written with "," between them are read back as written. */
  lemma {:induction false} TupleElementsJoin(ws: seq<string>)
    requires |ws| > 0
    requires forall i :: 0 <= i < |ws| ==> PlainTupleElement(ws[i])
    ensures TupleElementsFrom(Join(ws, ","), false, "") == ws
    decreases |ws|
  {
    var w := ws[0];
    if |ws| == 1 {
      TupleWordLast(w, "");
      assert "" + w == w;
    } else {
      var rest := Join(ws[1..], ",");
      assert PlainTupleElement(ws[1]);
      assert |rest| > 0 by { JoinFirst(ws[1..], ","); }
      assert Join(ws, ",") == w + ("," + rest);
      TupleWord(w, "," + rest, false, "");
      assert "" + w == w;
      assert ("," + rest)[1..] == rest;
      TupleElementsJoin(ws[1..]);
      assert [w] + ws[1..] == ws;
    }
  }

  lemma {:induction false} TupleWord(w: string, tail: string, inString: bool, cur: string)
    requires |tail| > 0
    requires !HasChar(w, ',') && !HasChar(w, '"')
    ensures TupleElementsFrom(w + tail, inString, cur) == TupleElementsFrom(tail, inString, cur + w)
    decreases |w|
  {
    if |w| == 0 {
      assert w + tail == tail;
      assert cur + w == cur;
    } else {
      var s := w + tail;
      assert s[0] == w[0];
      assert s[1..] == w[1..] + tail;
      assert w[0] != ',' && w[0] != '"';
      HasCharTail(w, ',');
      HasCharTail(w, '"');
      TupleWord(w[1..], tail, inString, cur + [w[0]]);
      assert cur + [w[0]] + w[1..] == cur + w;
    }
  }

  lemma {:induction false} TupleWordLast(w: string, cur: string)
    requires |w| > 0
    requires !HasChar(w, ',') && !HasChar(w, '"')
    ensures TupleElementsFrom(w, false, cur) == [cur + w]
    decreases |w|
  {
    assert w[0] != ',' && w[0] != '"';
    if |w| > 1 {
      HasCharTail(w, ',');
      HasCharTail(w, '"');
      TupleWordLast(w[1..], cur + [w[0]]);
      assert cur + [w[0]] + w[1..] == cur + w;
    } else {
      assert w == [w[0]];
    }
  }

  /** A comma inside a string literal does not split, and is dropped:
      `"a,b",c` reads as the two elements `"ab"` and `c`. */
  lemma QuotedCommaDropped(a: string, b: string, c: string)
    requires !HasChar(a, ',') && !HasChar(a, '"') && !HasChar(b, ',') && !HasChar(b, '"')
    requires PlainTupleElement(c)
    ensures TupleElementsFrom("\"" + a + "," + b + "\"," + c, false, "") == ["\"" + a + b + "\"", c]
  {
    var rest := b + "\"," + c;
    assert "\"" + a + "," + b + "\"," + c == "\"" + a + "," + rest;
    QuotedOpening(a, rest);
    QuotedClosing("\"" + a, b, c);
  }

  /** The opening quote, a word and a comma inside the literal. */
  lemma QuotedOpening(a: string, rest: string)
    requires !HasChar(a, ',') && !HasChar(a, '"') && |rest| > 0
    ensures TupleElementsFrom("\"" + a + "," + rest, false, "") == TupleElementsFrom(rest, true, "\"" + a)
  {
    var tail1 := "," + rest;
    assert "\"" + a + "," + rest == "\"" + (a + tail1);
    QuoteStep(a + tail1, false, "");
    assert "" + "\"" == "\"";
    WordThenComma(a, rest, "\"");
  }

  /** A word and a comma, both inside a literal. */
  lemma WordThenComma(a: string, rest: string, cur: string)
    requires !HasChar(a, ',') && !HasChar(a, '"') && |rest| > 0
    ensures TupleElementsFrom(a + ("," + rest), true, cur) == TupleElementsFrom(rest, true, cur + a)
  {
    TupleWord(a, "," + rest, true, cur);
    CommaStep(rest, true, cur + a);
  }

  /** The rest of the literal, its closing quote, the comma ending it and
      a last plain element. */
  lemma QuotedClosing(p: string, b: string, c: string)
    requires !HasChar(b, ',') && !HasChar(b, '"') && PlainTupleElement(c)
    ensures TupleElementsFrom(b + "\"," + c, true, p) == [p + b + "\"", c]
  {
    var tail3 := "\"" + ("," + c);
    assert b + "\"," + c == b + tail3;
    TupleWord(b, tail3, true, p);
    QuoteStep("," + c, true, p + b);
    LastAfterComma(c, p + b + "\"");
  }

  /** A comma outside a literal, then a last plain element. */
  lemma LastAfterComma(c: string, cur: string)
    requires PlainTupleElement(c)
    ensures TupleElementsFrom("," + c, false, cur) == [cur, c]
  {
    CommaStep(c, false, cur);
    TupleWordLast(c, "");
    assert "" + c == c;
    assert [cur] + [c] == [cur, c];
  }

  /** A quote toggles the literal state and is kept. */
  lemma QuoteStep(t: string, inString: bool, cur: string)
    requires |t| > 0
    ensures TupleElementsFrom("\"" + t, inString, cur) == TupleElementsFrom(t, !inString, cur + "\"")
  {
    assert ("\"" + t)[0] == '"' && ("\"" + t)[1..] == t;
  }

  /** A comma inside a literal is dropped; outside one it ends the
      element. */
  lemma CommaStep(t: string, inString: bool, cur: string)
    requires |t| > 0
    ensures inString ==> TupleElementsFrom("," + t, inString, cur) == TupleElementsFrom(t, inString, cur)
    ensures !inString ==> TupleElementsFrom("," + t, inString, cur) == [cur] + TupleElementsFrom(t, false, "")
  {
    assert ("," + t)[0] == ',' && ("," + t)[1..] == t;
  }

  // ---------------------------------------------------------------------
  // Array index groups

  /** The index texts of an array access, read from its first `[` on.  A
      `[` inside a group or a `]` outside one is an error; the text of a
      group that is still open at the end is dropped. */
  function IndexGroupsFrom(s: string, open: bool, cur: string, line: int): (r: Result<seq<string>>)
    ensures r.Err? ==> r.line == line
    decreases |s|
  {
    if |s| == 0 then Ok([])
    else if s[0] == '[' then
      if open then Err(line, "invalid square bracket opening in array indexing")
      else IndexGroupsFrom(s[1..], true, cur, line)
    else if s[0] == ']' then
      if !open then Err(line, "invalid square bracket closing in array indexing")
      else
        var rest :- IndexGroupsFrom(s[1..], false, "", line);
        Ok([cur] + rest)
    else IndexGroupsFrom(s[1..], open, cur + [s[0]], line)
  }

  /** One group `[w]` gives the single index text `w`. */
  lemma {:induction false} OneIndexGroup(w: string, line: int)
    requires !HasChar(w, '[') && !HasChar(w, ']')
    ensures IndexGroupsFrom("[" + w + "]", false, "", line) == Ok([w])
  {
    var s := "[" + w + "]";
    assert s[0] == '[' && s[1..] == w + "]";
    assert IndexGroupsFrom(s, false, "", line) == IndexGroupsFrom(w + "]", true, "", line);
    IndexWord(w, "]", "", line);
    assert "" + w == w;
    assert "]"[1..] == "";
    assert IndexGroupsFrom("", false, "", line) == Ok([]);
    assert "]"[0] == ']';
    assert [w] + [] == [w];
    assert IndexGroupsFrom("]", true, w, line) == Ok([w]);
  }

  lemma {:induction false} IndexWord(w: string, tail: string, cur: string, line: int)
    requires !HasChar(w, '[') && !HasChar(w, ']')
    ensures IndexGroupsFrom(w + tail, true, cur, line) == IndexGroupsFrom(tail, true, cur + w, line)
    decreases |w|
  {
    if |w| == 0 {
      assert w + tail == tail;
      assert cur + w == cur;
    } else {
      var s := w + tail;
      assert s[0] == w[0];
      assert s[1..] == w[1..] + tail;
      assert w[0] != '[' && w[0] != ']';
      HasCharTail(w, '[');
      HasCharTail(w, ']');
      IndexWord(w[1..], tail, cur + [w[0]], line);
      assert cur + [w[0]] + w[1..] == cur + w;
    }
  }

  // ---------------------------------------------------------------------
  // The first syntactic character of a value

  /** The first index at or after `i` holding '(', '[' or '.' outside a
      string literal, or `|v|` when there is none. */
  function SyntaxFrom(v: string, i: nat, inString: bool): (k: nat)
    requires i <= |v|
    ensures i <= k <= |v|
    ensures k < |v| ==> v[k] == '(' || v[k] == '[' || v[k] == '.'
    decreases |v| - i
  {
    if i == |v| then |v|
    else
      var inString' := if v[i] == '"' then !inString else inString;
      if !inString' && (v[i] == '(' || v[i] == '[' || v[i] == '.') then i
      else SyntaxFrom(v, i + 1, inString')
  }

  /** A value with none of '(', '[' and '.' has no syntactic character. */
  lemma {:induction false} NoSyntax(v: string, i: nat, inString: bool)
    requires i <= |v|
    requires forall k :: i <= k < |v| ==> v[k] != '(' && v[k] != '[' && v[k] != '.'
    ensures SyntaxFrom(v, i, inString) == |v|
    decreases |v| - i
  {
    if i < |v| {
      NoSyntax(v, i + 1, if v[i] == '"' then !inString else inString);
    }
  }
}
