/** The command-line front end's error-message filter: only the first line
    of a transpiler panic message is shown. */
module ErrorParser {
  import opened GoText

  /** The text before the first newline (all of `msg` when there is none).
      The source's panic for an empty piece list cannot happen, because
      splitting always yields at least one piece. */
  function ParseError(msg: string): (r: string)
    ensures !HasChar(r, '\n')
    ensures |r| <= |msg| && r == msg[..|r|]
    ensures !HasChar(msg, '\n') ==> r == msg
    ensures |r| < |msg| ==> msg[|r|] == '\n'
  {
    var parts := Split(msg, "\n");
    FirstPieceHasNoNewline(msg);
    parts[0]
  }

  lemma FirstPieceHasNoNewline(msg: string)
    ensures var k := FindFrom(msg, "\n", 0);
      !HasChar(msg[..k], '\n') && (k < |msg| ==> msg[k] == '\n')
  {
    var k := FindFrom(msg, "\n", 0);
    forall j | 0 <= j < k
      ensures msg[..k][j] != '\n'
    {
      assert !OccursAt(msg, "\n", j);
      assert msg[j..j + 1] == [msg[j]];
    }
    if k < |msg| {
      assert OccursAt(msg, "\n", k);
      assert msg[k..k + 1] == [msg[k]];
    }
  }
}
