/** The whole run over one program (src/transpiler/scoping.go:104-155):
    comments are stripped, the lines are read as the global scope, a
    program without `main` is refused, and the Go file is assembled from
    the package clause, one import line per library, one block of code per
    tuple arity, and the text of the global scope.  Reading the file is
    left to the caller, which passes its lines.
 */
module Target {
  import opened Results
  import opened GoText
  import opened Symbols
  import opened Items
  import Comments
  import Scopes
  import Render

  /** What the reading phase hands to the writer: the global scope, the
      libraries to import and the tuple arities in use. */
  datatype Program = Program(scope: Scope, imports: set<string>, arities: set<nat>)

  /** The lines with their comments removed. */
  function Stripped(lines: seq<string>): (r: seq<string>)
    ensures |r| == |lines|
    ensures forall k :: 0 <= k < |r| ==> r[k] == Comments.StripComment(lines[k])
  {
    seq(|lines|, k requires 0 <= k < |lines| => Comments.StripComment(lines[k]))
  }

  /** The global scope of the program, read from line 0 with no enclosing
      names. */
  function GlobalScope(lines: seq<string>, illegal: set<string>, depth: nat, fuel: nat): Result<Scopes.ParsedScope> {
    Scopes.ParseScope(Stripped(lines), 0, [Global], EmptyTables, illegal, depth, fuel)
  }

  /** Reads a program.  It fails when its global scope fails to parse, and
      when the global scope declares no function `main`; the source panics
      there without a line number, reported here as line 0. */
  method ReadProgram(lines: seq<string>, illegal: set<string>, depth: nat, fuel: nat) returns (r: Result<Program>)
    ensures r.Ok? <==> GlobalScope(lines, illegal, depth, fuel).Ok?
                       && "main" in GlobalScope(lines, illegal, depth, fuel).value.scope.tables.functions
    ensures r.Ok? ==> var g := GlobalScope(lines, illegal, depth, fuel).value;
      r.value == Program(g.scope, g.imports, g.arities)
    ensures r.Ok? ==> r.value.scope.scopeType == Global && |r.value.scope.items| > 0 && r.value.imports <= {"fmt"}
    ensures r.Err? && GlobalScope(lines, illegal, depth, fuel).Ok? ==> r.line == 0
  {
    var parsed := Comments.RemoveComments(lines);
    assert parsed == Stripped(lines);
    var g := Scopes.ParseScope(parsed, 0, [Global], EmptyTables, illegal, depth, fuel);
    if g.Err? {
      return Err(g.line, g.msg);
    }
    if "main" !in g.value.scope.tables.functions {
      return Err(0, "Cannot transpile source file with no main() function");
    }
    r := Ok(Program(g.value.scope, g.value.imports, g.value.arities));
  }

  // ---------------------------------------------------------------------
  // Assembly

  /** `order` lists every member of `s` once.  Go walks a map here, in an
      order it leaves unspecified, so the writer takes the order as given. */
  predicate IsListing<T>(order: seq<T>, s: set<T>) {
    (forall i, j :: 0 <= i < j < |order| ==> order[i] != order[j])
    && (forall x :: x in order ==> x in s) && (forall x :: x in s ==> x in order)
  }

  /** A listing has as many entries as the set has members. */
  lemma {:induction false} ListingSize<T>(order: seq<T>, s: set<T>)
    requires IsListing(order, s)
    ensures |order| == |s|
    decreases |order|
  {
    if |order| > 0 {
      var x := order[|order| - 1];
      var rest := order[..|order| - 1];
      assert forall i :: 0 <= i < |rest| ==> rest[i] == order[i];
      assert x !in rest;
      assert IsListing(rest, s - {x}) by {
        forall y ensures y in rest <==> y in s - {x} {
          if y in s - {x} {
            assert y in order;
            var i :| 0 <= i < |order| && order[i] == y;
            assert i < |rest|;
          }
        }
      }
      ListingSize(rest, s - {x});
    }
  }

  /** Each line followed by a newline. */
  function Lines(ls: seq<string>): string {
    if |ls| == 0 then "" else ls[0] + "\n" + Lines(ls[1..])
  }

  lemma {:induction false} LinesAreJoin(ls: seq<string>)
    ensures Lines(ls) == Join(ls + [""], "\n")
    decreases |ls|
  {
    if |ls| == 0 {
      assert ls + [""] == [""];
    } else {
      LinesAreJoin(ls[1..]);
      assert (ls + [""])[1..] == ls[1..] + [""];
      assert (ls + [""])[0] == ls[0];
    }
  }

  /** Splitting newline-terminated lines on newlines gives the lines back,
      and an empty last piece. */
  lemma LinesSplit(ls: seq<string>)
    requires forall i :: 0 <= i < |ls| ==> !HasChar(ls[i], '\n')
    ensures Split(Lines(ls), "\n") == ls + [""]
  {
    LinesAreJoin(ls);
    var ws := ls + [""];
    forall i | 0 <= i < |ws| ensures !HasChar(ws[i], "\n"[0]) {
      if i == |ws| - 1 {
        assert ws[i] == "";
      }
    }
    SplitJoin(ws, "\n");
  }

  /** `import "<lib>"`. */
  function ImportLine(lib: string): string {
    "import \"" + lib + "\""
  }

  /** Different libraries give different import lines. */
  lemma ImportLineInjective(a: string, b: string)
    ensures ImportLine(a) == ImportLine(b) <==> a == b
  {
    if ImportLine(a) == ImportLine(b) {
      assert |a| == |b|;
      assert a == ImportLine(a)[8..8 + |a|];
      assert b == ImportLine(b)[8..8 + |b|];
    }
  }

  function ImportLines(order: seq<string>): (r: seq<string>)
    ensures |r| == |order|
    ensures forall i :: 0 <= i < |r| ==> r[i] == ImportLine(order[i])
  {
    seq(|order|, i requires 0 <= i < |order| => ImportLine(order[i]))
  }

  /** Each tuple arity's code followed by a blank line. */
  function TupleBlocks(order: seq<nat>, tupleCode: nat -> string): string {
    if |order| == 0 then "" else tupleCode(order[0]) + "\n\n" + TupleBlocks(order[1..], tupleCode)
  }

  /** The Go file.  The code for a tuple arity and the text of items whose
      renderers are not part of this model are supplied by the caller. */
  function Assemble(p: Program, importOrder: seq<string>, arityOrder: seq<nat>, tupleCode: nat -> string,
                    other: Item -> string): (r: string)
    requires IsListing(importOrder, p.imports) && IsListing(arityOrder, p.arities)
    ensures "package main\n\n" <= r
    ensures "package main\n\n" + Lines(ImportLines(importOrder)) <= r
    ensures Render.EndsWith(r, "\n" + Render.RenderScope(p.scope, other))
    ensures var head := "package main\n\n" + Lines(ImportLines(importOrder));
      var tail := "\n" + Render.RenderScope(p.scope, other);
      |head| + |tail| <= |r| && r[|head|..|r| - |tail|] == TupleBlocks(arityOrder, tupleCode)
  {
    var head := "package main\n\n" + Lines(ImportLines(importOrder));
    var blocks := TupleBlocks(arityOrder, tupleCode);
    var tail := "\n" + Render.RenderScope(p.scope, other);
    var t := head + blocks + tail;
    assert t[|t| - |tail|..] == tail;
    assert t[..|head|] == head;
    assert t[|head|..|t| - |tail|] == blocks;
    assert "package main\n\n" <= head;
    t
  }

  /** The tuple section block by block: the code for each listed arity
      followed by a blank line. */
  function TupleBlockList(order: seq<nat>, tupleCode: nat -> string): (r: seq<string>)
    ensures |r| == |order|
    ensures forall i :: 0 <= i < |r| ==> r[i] == tupleCode(order[i]) + "\n\n"
  {
    seq(|order|, i requires 0 <= i < |order| => tupleCode(order[i]) + "\n\n")
  }

  lemma {:induction false} TupleBlocksConcat(order: seq<nat>, tupleCode: nat -> string)
    ensures TupleBlocks(order, tupleCode) == Concat(TupleBlockList(order, tupleCode))
    decreases |order|
  {
    if |order| > 0 {
      TupleBlocksConcat(order[1..], tupleCode);
      assert TupleBlockList(order, tupleCode)[1..] == TupleBlockList(order[1..], tupleCode);
    }
  }

  /** The tuple section holds one block per tuple arity in use: each
      arity's code, followed by a blank line, at exactly one place in the
      listing, and no block for any other arity. */
  lemma TuplesOnce(p: Program, arityOrder: seq<nat>, tupleCode: nat -> string)
    requires IsListing(arityOrder, p.arities)
    ensures var bs := TupleBlockList(arityOrder, tupleCode);
      TupleBlocks(arityOrder, tupleCode) == Concat(bs) && |bs| == |p.arities|
      && (forall k :: k in p.arities ==>
            exists i :: 0 <= i < |bs| && arityOrder[i] == k && bs[i] == tupleCode(k) + "\n\n")
      && (forall i, j :: 0 <= i < j < |bs| ==> arityOrder[i] != arityOrder[j])
      && (forall i :: 0 <= i < |bs| ==> arityOrder[i] in p.arities)
  {
    TupleBlocksConcat(arityOrder, tupleCode);
    ListingSize(arityOrder, p.arities);
    var bs := TupleBlockList(arityOrder, tupleCode);
    forall k | k in p.arities
      ensures exists i :: 0 <= i < |bs| && arityOrder[i] == k && bs[i] == tupleCode(k) + "\n\n"
    {
      assert k in arityOrder;
      var i :| 0 <= i < |arityOrder| && arityOrder[i] == k;
      assert bs[i] == tupleCode(k) + "\n\n";
    }
  }

  /** The import section has one line per library to import, each library
      once, and nothing else. */
  lemma ImportsOnce(p: Program, importOrder: seq<string>)
    requires IsListing(importOrder, p.imports)
    requires forall lib :: lib in p.imports ==> !HasChar(lib, '\n')
    ensures var ls := Split(Lines(ImportLines(importOrder)), "\n");
      |ls| == |p.imports| + 1 && ls[|ls| - 1] == ""
      && (forall lib :: ImportLine(lib) in ls[..|ls| - 1] <==> lib in p.imports)
      && (forall i, j :: 0 <= i < j < |ls| - 1 ==> ls[i] != ls[j])
  {
    var lines := ImportLines(importOrder);
    forall i | 0 <= i < |lines| ensures !HasChar(lines[i], '\n') {
      NoNewlineImport(importOrder[i]);
    }
    LinesSplit(lines);
    ListingSize(importOrder, p.imports);
    var ls := lines + [""];
    assert ls[..|ls| - 1] == lines;
    forall lib ensures ImportLine(lib) in lines <==> lib in p.imports {
      if ImportLine(lib) in lines {
        var i :| 0 <= i < |lines| && lines[i] == ImportLine(lib);
        ImportLineInjective(importOrder[i], lib);
      }
      if lib in p.imports {
        var i :| 0 <= i < |importOrder| && importOrder[i] == lib;
        assert lines[i] == ImportLine(lib);
      }
    }
    forall i, j | 0 <= i < j < |lines| ensures lines[i] != lines[j] {
      ImportLineInjective(importOrder[i], importOrder[j]);
    }
  }

  lemma NoNewlineImport(lib: string)
    requires !HasChar(lib, '\n')
    ensures !HasChar(ImportLine(lib), '\n')
  {
  }
}
