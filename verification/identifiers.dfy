/** Names: the character classes of src/transpiler/parser.go and the check
    a `name:` annotation must pass before it can be declared.
 */
module Identifiers {
  import opened Results
  import opened Tokens

  datatype CharType = Letter | Number | Underscore | Other

  /** The class of one character: ASCII letters, ASCII digits, '_', and
      everything else. */
  function ParseCharType(c: char): (r: CharType)
    ensures r == Letter <==> ('A' <= c <= 'Z' || 'a' <= c <= 'z')
    ensures r == Number <==> '0' <= c <= '9'
    ensures r == Underscore <==> c == '_'
  {
    if 'A' <= c <= 'Z' || 'a' <= c <= 'z' then Letter
    else if '0' <= c <= '9' then Number
    else if c == '_' then Underscore
    else Other
  }

  predicate IsWordChar(c: char) {
    ParseCharType(c) != Other
  }

  /** A name as it may be declared: a letter, then letters, digits and
      underscores. */
  predicate IsName(w: string) {
    |w| > 0 && ParseCharType(w[0]) == Letter && forall i :: 0 <= i < |w| ==> IsWordChar(w[i])
  }

  /** The index of the first character in `id[i..n]` that is not a word
      character, or `n` when there is none. */
  function FirstBadChar(id: string, i: nat, n: nat): (k: nat)
    requires i <= n <= |id|
    ensures i <= k <= n
    ensures k < n ==> !IsWordChar(id[k])
    ensures forall j :: i <= j < k ==> IsWordChar(id[j])
    decreases n - i
  {
    if i == n then n
    else if !IsWordChar(id[i]) then i
    else FirstBadChar(id, i + 1, n)
  }

  /** Validates an annotated name `w:` and returns `w`.  The keyword check
      looks at the word with its colon, and `illegal` is the set of names
      reserved in Stella or Go, which the model takes as a parameter. */
  function ParseIdentifier(id: string, illegal: set<string>, line: int): (r: Result<string>)
    ensures r.Ok? <==> |id| > 0 && id[|id| - 1] == ':' && IsName(id[..|id| - 1])
                        && id[..|id| - 1] !in illegal && id !in AllKeywords
    ensures r.Ok? ==> r.value + ":" == id
    ensures r.Err? ==> r.line == line
  {
    if |id| == 0 then Err(line, "index out of range")
    else
      var last := |id| - 1;
      NameChars(id, last);
      if id[last] != ':' then
        Err(line, "the last character must be a colon for type annotation")
      else if ParseCharType(id[0]) != Letter then
        Err(line, "name does not begin with a letter")
      else if FirstBadChar(id, 0, last) < last then
        Err(line, "name contains an invalid character")
      else if id in AllKeywords then
        Err(line, "name is a keyword in Stella")
      else if id[..last] in illegal then
        Err(line, "identifier is a keyword in either Stella or Go")
      else
        assert id[..last] + ":" == id;
        Ok(id[..last])
  }

  /** The two character checks together say that the word before
      position `last` is a name. */
  lemma NameChars(id: string, last: nat)
    requires 0 <= last < |id|
    ensures (last > 0 && ParseCharType(id[0]) == Letter && FirstBadChar(id, 0, last) == last) <==> IsName(id[..last])
  {
  }

  /** The keyword check never rejects anything: it is applied to the word
      with its trailing colon, and no keyword ends in a colon.  A keyword
      such as `let` is therefore accepted as a name unless it is among the
      illegal names. */
  lemma KeywordCheckNeverFires(id: string)
    requires |id| > 0 && id[|id| - 1] == ':'
    ensures id !in AllKeywords
  {
    forall k | k in AllKeywords ensures |k| == 0 || k[|k| - 1] != ':' {
    }
  }

  /** A name followed by its colon comes back unchanged, and is accepted
      exactly when it is not an illegal name. */
  lemma ParseName(w: string, illegal: set<string>, line: int)
    requires IsName(w)
    ensures w !in illegal ==> ParseIdentifier(w + ":", illegal, line) == Ok(w)
    ensures w in illegal ==> ParseIdentifier(w + ":", illegal, line).Err?
  {
    var id := w + ":";
    assert id[..|id| - 1] == w;
    KeywordCheckNeverFires(id);
  }

  /** `let` is not rejected as a keyword. */
  lemma KeywordAccepted()
    ensures ParseIdentifier("let:", {}, 0) == Ok("let")
  {
    assert IsName("let") by {
      forall i | 0 <= i < 3 ensures IsWordChar("let"[i]) {
      }
    }
    assert "let" + ":" == "let:";
    ParseName("let", {}, 0);
  }
}
