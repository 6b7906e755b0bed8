/** Comment stripping, run over the source lines before anything else. */
module Comments {

  /** A `//` starts at index `i` of `line`. */
  predicate CommentAt(line: string, i: int) {
    0 <= i < |line| - 1 && line[i] == '/' && line[i + 1] == '/'
  }

  /** Where the line is cut: the start of its LAST `//`, or -1 when it has
      none.  The scan keeps overwriting its candidate, so an earlier `//`
      stays in the output. */
  function CommentStart(line: string): (r: int)
    ensures r == -1 || CommentAt(line, r)
    ensures forall i :: r < i < |line| ==> !CommentAt(line, i)
  {
    LastCommentBefore(line, |line|)
  }

  /** The largest `i < n` with `CommentAt(line, i)`, or -1. */
  function LastCommentBefore(line: string, n: nat): (r: int)
    requires n <= |line|
    ensures r == -1 || (CommentAt(line, r) && r < n)
    ensures forall i :: r < i < n ==> !CommentAt(line, i)
  {
    if n == 0 then -1
    else if CommentAt(line, n - 1) then n - 1
    else LastCommentBefore(line, n - 1)
  }

  /** One line with its comment removed. */
  function StripComment(line: string): (r: string)
    ensures |r| <= |line| && r == line[..|r|]
    ensures (forall i :: 0 <= i < |line| ==> !CommentAt(line, i)) ==> r == line
    ensures r != line ==> CommentAt(line, |r|)
    ensures forall i :: |r| < i < |line| ==> !CommentAt(line, i)
  {
    var c := CommentStart(line);
    if c == -1 then line else line[..c]
  }

  /** Every line of the program, in order, with its comment removed. */
  method RemoveComments(lines: seq<string>) returns (parsed: seq<string>)
    ensures |parsed| == |lines|
    ensures forall k :: 0 <= k < |lines| ==> parsed[k] == StripComment(lines[k])
    ensures forall k :: 0 <= k < |lines| ==> |parsed[k]| <= |lines[k]| && parsed[k] == lines[k][..|parsed[k]|]
  {
    parsed := [];
    for k := 0 to |lines|
      invariant |parsed| == k
      invariant forall j :: 0 <= j < k ==> parsed[j] == StripComment(lines[j])
    {
      var line := lines[k];
      var commentStart := -1;
      var i := 0;
      while i < |line| - 1
        invariant 0 <= i <= |line|
        invariant commentStart == LastCommentBefore(line, i)
      {
        if line[i] == '/' && line[i + 1] == '/' {
          commentStart := i;
        }
        i := i + 1;
      }
      assert commentStart == CommentStart(line);
      if commentStart != -1 {
        parsed := parsed + [line[..commentStart]];
      } else {
        parsed := parsed + [line];
      }
    }
  }

  /** Only the last `//` cuts: text between two markers survives. */
  lemma EarlierMarkerSurvives()
    ensures StripComment("a//b//c") == "a//b"
  {
    assert CommentAt("a//b//c", 4);
    assert !CommentAt("a//b//c", 5);
    assert !CommentAt("a//b//c", 6);
  }
}
