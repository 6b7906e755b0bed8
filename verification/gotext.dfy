/** The few pieces of Go's `strings` and `strconv` packages the transpiler
    relies on, written out so that their edge cases are part of the model:
    `strings.Fields`, `strings.Trim(s, " ")`, `strings.Split`, `strings.Join`,
    `strconv.Atoi` and `strconv.Itoa`.
 */
module GoText {

  /** Go's `unicode.IsSpace`: the Latin-1 white space plus the Unicode
      White_Space code points above U+00FF. */
  predicate IsSpace(c: char) {
    c == ' ' || c == '\t' || c == '\n' || c == '\r' || c == '\U{0B}' || c == '\U{0C}'
    || c == '\U{85}' || c == '\U{A0}' || c == '\U{1680}'
    || ('\U{2000}' <= c <= '\U{200A}') || c == '\U{2028}' || c == '\U{2029}'
    || c == '\U{202F}' || c == '\U{205F}' || c == '\U{3000}'
  }

  predicate NoSpace(s: string) {
    forall i :: 0 <= i < |s| ==> !IsSpace(s[i])
  }

  predicate IsDigit(c: char) {
    '0' <= c <= '9'
  }

  predicate AllDigits(s: string) {
    forall i :: 0 <= i < |s| ==> IsDigit(s[i])
  }

  predicate HasChar(s: string, c: char) {
    exists i :: 0 <= i < |s| && s[i] == c
  }

  /** A character occurs in a non-empty text exactly when it is the first
      character or occurs in the rest. */
  lemma HasCharTail(w: string, c: char)
    requires |w| > 0
    ensures HasChar(w, c) <==> w[0] == c || HasChar(w[1..], c)
  {
    if HasChar(w[1..], c) {
      var i :| 0 <= i < |w[1..]| && w[1..][i] == c;
      assert w[i + 1] == c;
    }
    if HasChar(w, c) && w[0] != c {
      var i :| 0 <= i < |w| && w[i] == c;
      assert w[1..][i - 1] == c;
    }
  }

  /** The characters of `s` that are not white space, in order. */
  function RemoveSpaces(s: string): string {
    if |s| == 0 then ""
    else (if IsSpace(s[0]) then "" else [s[0]]) + RemoveSpaces(s[1..])
  }

  function Concat(ws: seq<string>): string {
    if |ws| == 0 then "" else ws[0] + Concat(ws[1..])
  }

  lemma {:induction false} ConcatSnoc(ws: seq<string>, w: string)
    ensures Concat(ws + [w]) == Concat(ws) + w
    decreases |ws|
  {
    if |ws| == 0 {
      assert [w][1..] == [];
      assert w + "" == w;
    } else {
      assert (ws + [w])[1..] == ws[1..] + [w];
      ConcatSnoc(ws[1..], w);
    }
  }

  /** `strings.Fields`: the maximal runs of non-space characters. */
  function Fields(s: string): (r: seq<string>)
    ensures forall i :: 0 <= i < |r| ==> |r[i]| > 0 && NoSpace(r[i])
    ensures Concat(r) == RemoveSpaces(s)
  {
    FieldsFrom(s, "")
  }

  /** Fields of `s` when `cur` is the word read so far. */
  function FieldsFrom(s: string, cur: string): (r: seq<string>)
    requires NoSpace(cur)
    ensures forall i :: 0 <= i < |r| ==> |r[i]| > 0 && NoSpace(r[i])
    ensures Concat(r) == cur + RemoveSpaces(s)
    decreases |s|
  {
    if |s| == 0 then
      if |cur| > 0 then [cur] else []
    else if IsSpace(s[0]) then
      var rest := FieldsFrom(s[1..], "");
      ConcatPrepend(cur, rest);
      assert RemoveSpaces(s) == RemoveSpaces(s[1..]);
      if |cur| > 0 then [cur] + rest
      else
        assert cur + RemoveSpaces(s) == RemoveSpaces(s);
        rest
    else
      NoSpaceSnoc(cur, s[0]);
      assert cur + RemoveSpaces(s) == (cur + [s[0]]) + RemoveSpaces(s[1..]);
      FieldsFrom(s[1..], cur + [s[0]])
  }

  lemma NoSpaceSnoc(cur: string, c: char)
    requires NoSpace(cur) && !IsSpace(c)
    ensures NoSpace(cur + [c])
  {
    assert forall i :: 0 <= i < |cur| ==> (cur + [c])[i] == cur[i];
  }

  lemma ConcatPrepend(w: string, ws: seq<string>)
    ensures Concat([w] + ws) == w + Concat(ws)
  {
    assert ([w] + ws)[1..] == ws;
  }

  /** A non-empty word without white space is its own single field. */
  lemma FieldsOfWord(w: string)
    requires |w| > 0 && NoSpace(w)
    ensures Fields(w) == [w]
  {
    FieldsOfWordFrom(w, "");
    assert "" + w == w;
  }

  lemma {:induction false} FieldsOfWordFrom(w: string, cur: string)
    requires NoSpace(w) && NoSpace(cur) && |cur + w| > 0
    ensures FieldsFrom(w, cur) == [cur + w]
    decreases |w|
  {
    if |w| == 0 {
      assert cur + w == cur;
    } else {
      assert !IsSpace(w[0]);
      FieldsOfWordFrom(w[1..], cur + [w[0]]);
      assert cur + [w[0]] + w[1..] == cur + w;
    }
  }

  /** Words written with single spaces between them are read back as the
      same words. */
  lemma {:induction false} FieldsJoin(ws: seq<string>)
    requires forall i :: 0 <= i < |ws| ==> |ws[i]| > 0 && NoSpace(ws[i])
    ensures Fields(Join(ws, " ")) == ws
    decreases |ws|
  {
    if |ws| == 1 {
      FieldsOfWord(ws[0]);
    } else if |ws| > 1 {
      var rest := Join(ws[1..], " ");
      assert Join(ws, " ") == ws[0] + (" " + rest);
      WordThen(ws[0], " " + rest, "");
      assert "" + ws[0] == ws[0];
      assert (" " + rest)[1..] == rest;
      FieldsJoin(ws[1..]);
      assert [ws[0]] + ws[1..] == ws;
    }
  }

  /** A space separates words: the fields of `x + " " + y` are those of
      `x` followed by those of `y`. */
  lemma FieldsSpace(x: string, y: string)
    ensures Fields(x + " " + y) == Fields(x) + Fields(y)
  {
    FieldsFromSpace(x, y, "");
  }

  lemma {:induction false} FieldsFromSpace(x: string, y: string, cur: string)
    requires NoSpace(cur)
    ensures FieldsFrom(x + " " + y, cur) == FieldsFrom(x, cur) + FieldsFrom(y, "")
    decreases |x|
  {
    var s := x + " " + y;
    if |x| == 0 {
      assert s == " " + y && s[1..] == y;
    } else if IsSpace(x[0]) {
      assert s[0] == x[0] && s[1..] == x[1..] + " " + y;
      FieldsFromSpace(x[1..], y, "");
    } else {
      assert s[0] == x[0] && s[1..] == x[1..] + " " + y;
      NoSpaceSnoc(cur, x[0]);
      FieldsFromSpace(x[1..], y, cur + [x[0]]);
    }
  }

  /** Reading a word without spaces only extends the current word. */
  lemma {:induction false} WordThen(w: string, tail: string, cur: string)
    requires NoSpace(w) && NoSpace(cur)
    ensures FieldsFrom(w + tail, cur) == FieldsFrom(tail, cur + w)
    decreases |w|
  {
    if |w| == 0 {
      assert w + tail == tail;
      assert cur + w == cur;
    } else {
      assert (w + tail)[0] == w[0] && !IsSpace(w[0]);
      assert (w + tail)[1..] == w[1..] + tail;
      assert NoSpace(cur + [w[0]]);
      WordThen(w[1..], tail, cur + [w[0]]);
      assert cur + [w[0]] + w[1..] == cur + w;
    }
  }

  /** `strings.Trim(s, " ")`: `s` without its leading and trailing spaces
      (only the space character, not other white space). */
  function Trim(s: string): (r: string)
    ensures |r| <= |s|
    ensures |r| > 0 ==> r[0] != ' ' && r[|r| - 1] != ' '
    ensures exists a, b :: (0 <= a <= b <= |s| && r == s[a..b]
      && (forall i :: 0 <= i < a ==> s[i] == ' ')
      && (forall i :: b <= i < |s| ==> s[i] == ' '))
  {
    var a := LeadingSpaces(s, 0);
    var b := TrailingEnd(s, |s|, a);
    assert s[a..b] == s[a..b];
    s[a..b]
  }

  /** A text that neither starts nor ends with a space is its own trim. */
  lemma TrimUnspaced(s: string)
    requires |s| > 0 && s[0] != ' ' && s[|s| - 1] != ' '
    ensures Trim(s) == s
  {
    assert LeadingSpaces(s, 0) == 0;
    assert TrailingEnd(s, |s|, 0) == |s|;
    assert s[0..|s|] == s;
  }

  /** The index of the first non-space character at or after `i`. */
  function LeadingSpaces(s: string, i: nat): (a: nat)
    requires i <= |s|
    requires forall k :: 0 <= k < i ==> s[k] == ' '
    ensures i <= a <= |s|
    ensures forall k :: 0 <= k < a ==> s[k] == ' '
    ensures a < |s| ==> s[a] != ' '
    decreases |s| - i
  {
    if i == |s| || s[i] != ' ' then i else LeadingSpaces(s, i + 1)
  }

  /** One past the last non-space character at or after `a`, scanning down from `j`. */
  function TrailingEnd(s: string, j: nat, a: nat): (b: nat)
    requires a <= j <= |s|
    requires forall k :: j <= k < |s| ==> s[k] == ' '
    ensures a <= b <= j
    ensures forall k :: b <= k < |s| ==> s[k] == ' '
    ensures b > a ==> s[b - 1] != ' '
    decreases j
  {
    if j == a || s[j - 1] != ' ' then j else TrailingEnd(s, j - 1, a)
  }

  /** `strings.Join`. */
  function Join(ws: seq<string>, sep: string): string {
    if |ws| == 0 then ""
    else if |ws| == 1 then ws[0]
    else ws[0] + sep + Join(ws[1..], sep)
  }

  /** True when `sep` occurs in `s` at position `i`. */
  predicate OccursAt(s: string, sep: string, i: nat) {
    i + |sep| <= |s| && s[i..i + |sep|] == sep
  }

  /** The first position at or after `i` where `sep` occurs, or `|s|` when
      there is none. */
  function FindFrom(s: string, sep: string, i: nat): (k: nat)
    requires i <= |s|
    ensures i <= k <= |s|
    ensures k < |s| ==> OccursAt(s, sep, k)
    ensures forall j :: i <= j < k ==> !OccursAt(s, sep, j)
    decreases |s| - i
  {
    if i == |s| then i
    else if OccursAt(s, sep, i) then i
    else FindFrom(s, sep, i + 1)
  }

  /** `strings.Split` for a non-empty separator: the pieces between the
      non-overlapping occurrences of `sep`, read left to right. */
  function Split(s: string, sep: string): (r: seq<string>)
    requires |sep| > 0
    ensures |r| > 0
    ensures Join(r, sep) == s
    ensures r[0] == s[..FindFrom(s, sep, 0)]
    decreases |s|
  {
    var k := FindFrom(s, sep, 0);
    if k == |s| then [s]
    else
      var rest := Split(s[k + |sep|..], sep);
      assert s == s[..k] + sep + s[k + |sep|..];
      [s[..k]] + rest
  }

  /** Splitting a joined list gives the list back, when no piece contains
      the first character of the separator. */
  lemma {:induction false} SplitJoin(ws: seq<string>, sep: string)
    requires |sep| > 0 && |ws| > 0
    requires forall i :: 0 <= i < |ws| ==> !HasChar(ws[i], sep[0])
    ensures Split(Join(ws, sep), sep) == ws
    decreases |ws|
  {
    var s := Join(ws, sep);
    if |ws| == 1 {
      FindFirst(s, sep, |s|, 0);
    } else {
      var rest := Join(ws[1..], sep);
      assert s == ws[0] + sep + rest;
      assert OccursAt(s, sep, |ws[0]|) by {
        assert s[|ws[0]|..|ws[0]| + |sep|] == sep;
      }
      FindFirst(s, sep, |ws[0]|, 0);
      assert s[|ws[0]| + |sep|..] == rest;
      assert s[..|ws[0]|] == ws[0];
      SplitJoin(ws[1..], sep);
      assert [ws[0]] + ws[1..] == ws;
    }
  }

  /** The search stops at `k` when `sep` occurs there and no earlier
      character starts it. */
  lemma {:induction false} FindFirst(s: string, sep: string, k: nat, i: nat)
    requires |sep| > 0 && i <= k <= |s|
    requires k < |s| ==> OccursAt(s, sep, k)
    requires forall j :: i <= j < k ==> s[j] != sep[0]
    ensures FindFrom(s, sep, i) == k
    decreases k - i
  {
    if i < k {
      assert s[i] != sep[0];
      assert !OccursAt(s, sep, i) by {
        if i + |sep| <= |s| {
          assert s[i..i + |sep|][0] == s[i];
        }
      }
      FindFirst(s, sep, k, i + 1);
    }
  }

  // ---------------------------------------------------------------------
  // strconv

  const MaxInt64: int := 0x7FFF_FFFF_FFFF_FFFF
  const MinInt64: int := -0x8000_0000_0000_0000
  const MaxUint64: int := 0xFFFF_FFFF_FFFF_FFFF

  /** What `strconv.Atoi` returns on a 64-bit platform: the value and whether
      the error was nil.  A syntax error yields 0; a range error yields the
      nearest bound. */
  datatype Parsed = Parsed(n: int, ok: bool)

  /** The outcome of the unsigned digit loop of `strconv.ParseUint`. */
  datatype UintScan = UintOk(n: nat) | UintSyntax | UintRange

  function DigitValue(c: char): nat
    requires IsDigit(c)
  {
    (c as int) - ('0' as int)
  }

  /** The value of a digit string read most significant digit first. */
  function DigitsValue(s: string): nat
    requires AllDigits(s)
  {
    if |s| == 0 then 0 else DigitsValue(s[..|s| - 1]) * 10 + DigitValue(s[|s| - 1])
  }

  function Pow10(k: nat): nat {
    if k == 0 then 1 else 10 * Pow10(k - 1)
  }

  /** The loop of `strconv.ParseUint(s, 10, 64)` from index `i` with the
      value `n` accumulated so far.  A non-digit is a syntax error; an
      accumulator that would leave 64 bits is a range error, reported at
      once even when a non-digit follows. */
  function ScanUint(s: string, i: nat, n: nat): (r: UintScan)
    requires i <= |s| && n <= MaxUint64
    ensures r.UintOk? ==> r.n <= MaxUint64 && AllDigits(s[i..])
    decreases |s| - i
  {
    if i == |s| then UintOk(n)
    else if !IsDigit(s[i]) then UintSyntax
    else if n >= MaxUint64 / 10 + 1 then UintRange
    else if n * 10 + DigitValue(s[i]) > MaxUint64 then UintRange
    else
      assert s[i..] == [s[i]] + s[i + 1..];
      ScanUint(s, i + 1, n * 10 + DigitValue(s[i]))
  }

  /** `strconv.Atoi`: an optional sign followed by decimal digits. */
  function Atoi(s: string): (r: Parsed)
    ensures r.ok ==> MinInt64 <= r.n <= MaxInt64
    ensures !r.ok ==> r.n in {0, MaxInt64, MinInt64}
    ensures r.ok ==> |s| > 0 && AllDigits(if s[0] == '+' || s[0] == '-' then s[1..] else s)
    ensures |s| > 0 && !IsDigit(s[0]) && s[0] != '+' && s[0] != '-' ==> r == Parsed(0, false)
    ensures r.ok && s[0] != '-' ==> r.n >= 0
  {
    if |s| == 0 then Parsed(0, false)
    else
      var neg := s[0] == '-';
      var digits := if s[0] == '+' || s[0] == '-' then s[1..] else s;
      if |digits| == 0 then Parsed(0, false)
      else
        match ScanUint(digits, 0, 0)
        case UintSyntax => Parsed(0, false)
        case UintRange => if neg then Parsed(MinInt64, false) else Parsed(MaxInt64, false)
        case UintOk(u) =>
          assert digits[0..] == digits;
          if !neg && u > MaxInt64 then Parsed(MaxInt64, false)
          else if neg && u > -MinInt64 then Parsed(MinInt64, false)
          else
            var v: int := if neg then -(u as int) else u;
            Parsed(v, true)
  }

  /** The digit loop computes the decimal value of what it reads, as long as
      that value fits in 64 bits. */
  lemma {:induction false} ScanUintValue(s: string, i: nat)
    requires i <= |s| && AllDigits(s) && DigitsValue(s) <= MaxUint64
    requires DigitsValue(s[..i]) <= DigitsValue(s)
    ensures ScanUint(s, i, DigitsValue(s[..i])) == UintOk(DigitsValue(s))
    decreases |s| - i
  {
    DigitsPrefixBound(s, i);
    if i < |s| {
      var n := DigitsValue(s[..i]);
      assert s[..i + 1][..i] == s[..i];
      assert DigitsValue(s[..i + 1]) == n * 10 + DigitValue(s[i]);
      DigitsPrefixBound(s, i + 1);
      ScanUintValue(s, i + 1);
    } else {
      assert s[..i] == s;
    }
  }

  /** A prefix of a digit string is worth no more than the whole string. */
  lemma {:induction false} DigitsPrefixBound(s: string, i: nat)
    requires i <= |s| && AllDigits(s)
    ensures DigitsValue(s[..i]) <= DigitsValue(s)
    decreases |s| - i
  {
    if i < |s| {
      DigitsPrefixBound(s, i + 1);
      assert s[..i + 1][..i] == s[..i];
    } else {
      assert s[..i] == s;
    }
  }

  /** A digit string whose value fits in an `int64` converts to that value. */
  lemma AtoiDigits(s: string)
    requires 0 < |s| && AllDigits(s) && DigitsValue(s) <= MaxInt64
    ensures Atoi(s) == Parsed(DigitsValue(s), true)
  {
    ScanUintValue(s, 0);
    assert s[..0] == [];
  }

  /** `strconv.Itoa` for a natural number. */
  function Itoa(n: nat): (r: string)
    ensures |r| > 0 && AllDigits(r)
    ensures DigitsValue(r) == n
    ensures r[0] == '0' ==> r == "0"
  {
    if n < 10 then [DigitChar(n)]
    else
      var r := Itoa(n / 10) + [DigitChar(n % 10)];
      assert r[..|r| - 1] == Itoa(n / 10);
      r
  }

  function DigitChar(d: nat): (c: char)
    requires d < 10
    ensures IsDigit(c) && DigitValue(c) == d
  {
    (('0' as int) + d) as char
  }
}
