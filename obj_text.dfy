/** Text primitives the OBJ reader and writer rely on: Go's strings.Fields,
    strings.Split, strings.HasPrefix, strconv.Atoi and the `%d` verb. */
module ObjText {

  datatype Option<T> = None | Some(value: T)

  /** The white space strings.Fields splits on (the ASCII part of unicode.IsSpace). */
  predicate IsSpace(c: char) {
    c == ' ' || c == '\t' || c == '\n' || c == '\r' || c == '\U{0B}' || c == '\U{0C}'
  }

  predicate NoSpace(s: string) {
    forall i :: 0 <= i < |s| ==> !IsSpace(s[i])
  }

  /** A non-empty run of non-space characters: what strings.Fields returns pieces of. */
  predicate IsToken(s: string) {
    s != [] && NoSpace(s)
  }

  predicate HasPrefix(s: string, p: string) {
    |p| <= |s| && s[..|p|] == p
  }

  // ---------------------------------------------------------------- Fields

  /** Length of the leading run of non-space characters of `s`. */
  function TokenLength(s: string): (n: nat)
    ensures n <= |s| && NoSpace(s[..n])
    ensures n < |s| ==> IsSpace(s[n])
  {
    if s == [] || IsSpace(s[0]) then 0
    else
      var n := 1 + TokenLength(s[1..]);
      assert s[..n] == [s[0]] + s[1..][..n - 1];
      n
  }

  /** strings.Fields: the maximal runs of non-space characters, in order. */
  function Fields(s: string): (r: seq<string>)
    ensures forall i :: 0 <= i < |r| ==> IsToken(r[i])
    decreases |s|
  {
    if s == [] then []
    else if IsSpace(s[0]) then Fields(s[1..])
    else
      var n := TokenLength(s);
      [s[..n]] + Fields(s[n..])
  }

  /** Tokens joined by single spaces. */
  function Unwords(ws: seq<string>): string {
    if ws == [] then []
    else if |ws| == 1 then ws[0]
    else ws[0] + " " + Unwords(ws[1..])
  }

  lemma {:induction false} TokenLengthOfWord(w: string, rest: string)
    requires NoSpace(w)
    ensures TokenLength(w + " " + rest) == |w|
    decreases |w|
  {
    var s := w + " " + rest;
    if w != [] {
      assert s[1..] == w[1..] + " " + rest;
      TokenLengthOfWord(w[1..], rest);
    }
  }

  /** A token followed by a space is the first field; the rest is split on its own. */
  lemma FieldsCons(w: string, rest: string)
    requires IsToken(w)
    ensures Fields(w + " " + rest) == [w] + Fields(rest)
  {
    var s := w + " " + rest;
    TokenLengthOfWord(w, rest);
    assert s[..|w|] == w;
    assert s[|w|..] == " " + rest;
    assert (" " + rest)[1..] == rest;
  }

  lemma FieldsOfToken(w: string)
    requires IsToken(w)
    ensures Fields(w) == [w]
  {
    TokenLengthOfToken(w);
    assert w[..|w|] == w && w[|w|..] == [];
  }

  lemma {:induction false} TokenLengthOfToken(w: string)
    requires NoSpace(w)
    ensures TokenLength(w) == |w|
    decreases |w|
  {
    if w != [] {
      TokenLengthOfToken(w[1..]);
    }
  }

  /** strings.Fields undoes joining tokens with single spaces. */
  lemma {:induction false} FieldsUnwords(ws: seq<string>)
    requires forall i :: 0 <= i < |ws| ==> IsToken(ws[i])
    ensures Fields(Unwords(ws)) == ws
  {
    if |ws| == 1 {
      FieldsOfToken(ws[0]);
    } else if |ws| > 1 {
      FieldsCons(ws[0], Unwords(ws[1..]));
      FieldsUnwords(ws[1..]);
    }
  }

  lemma {:induction false} UnwordsSnoc(ws: seq<string>, w: string)
    requires ws != []
    ensures Unwords(ws + [w]) == Unwords(ws) + " " + w
  {
    if |ws| == 1 {
      assert (ws + [w])[1..] == [w];
    } else {
      assert (ws + [w])[1..] == ws[1..] + [w];
      UnwordsSnoc(ws[1..], w);
    }
  }

  /** A line starting with a keyword token and a space has that keyword as its first field. */
  lemma FirstField(line: string, keyword: string)
    requires IsToken(keyword) && HasPrefix(line, keyword + " ")
    ensures Fields(line) != [] && Fields(line)[0] == keyword
  {
    var k := |keyword| + 1;
    assert line == keyword + " " + line[k..];
    FieldsCons(keyword, line[k..]);
  }

  // ---------------------------------------------------------------- Split

  /** strings.Split(s, sep) for a one-character separator: |sep occurrences| + 1 pieces. */
  function Split(s: string, sep: char): (r: seq<string>)
    ensures |r| >= 1
  {
    if s == [] then [[]]
    else
      var rest := Split(s[1..], sep);
      if s[0] == sep then [[]] + rest
      else [[s[0]] + rest[0]] + rest[1..]
  }

  /** Pieces joined by the separator (strings.Join). */
  function Join(ps: seq<string>, sep: char): string
    requires ps != []
  {
    if |ps| == 1 then ps[0] else ps[0] + [sep] + Join(ps[1..], sep)
  }

  lemma {:induction false} SplitCons(w: string, sep: char, rest: string)
    requires sep !in w
    ensures Split(w + [sep] + rest, sep) == [w] + Split(rest, sep)
    decreases |w|
  {
    var s := w + [sep] + rest;
    if w == [] {
      assert s[1..] == rest;
    } else {
      assert s[1..] == w[1..] + [sep] + rest;
      SplitCons(w[1..], sep, rest);
      assert [w[0]] + w[1..] == w;
    }
  }

  lemma {:induction false} SplitPiece(w: string, sep: char)
    requires sep !in w
    ensures Split(w, sep) == [w]
    decreases |w|
  {
    if w != [] {
      SplitPiece(w[1..], sep);
      assert [w[0]] + w[1..] == w;
    }
  }

  /** strings.Split undoes strings.Join when no piece holds the separator. */
  lemma {:induction false} SplitJoin(ps: seq<string>, sep: char)
    requires ps != [] && forall i :: 0 <= i < |ps| ==> sep !in ps[i]
    ensures Split(Join(ps, sep), sep) == ps
  {
    if |ps| == 1 {
      SplitPiece(ps[0], sep);
    } else {
      SplitCons(ps[0], sep, Join(ps[1..], sep));
      SplitJoin(ps[1..], sep);
    }
  }

  // ---------------------------------------------------------------- integers

  predicate IsDigit(c: char) {
    '0' <= c <= '9'
  }

  predicate AllDigits(s: string) {
    forall i :: 0 <= i < |s| ==> IsDigit(s[i])
  }

  function DigitValue(c: char): nat
    requires IsDigit(c)
  {
    (c as int) - ('0' as int)
  }

  function DigitChar(d: nat): (c: char)
    requires d < 10
    ensures IsDigit(c) && DigitValue(c) == d
  {
    (('0' as int) + d) as char
  }

  /** Value of a string of decimal digits, most significant first. */
  function DecimalValue(s: string): nat
    requires AllDigits(s)
  {
    if s == [] then 0 else 10 * DecimalValue(s[..|s| - 1]) + DigitValue(s[|s| - 1])
  }

  /** strconv.Atoi: an optional `+` or `-`, then one or more decimal digits; anything
      else is an error. Go's 64-bit range check is not modelled (integers are unbounded). */
  function Atoi(s: string): Option<int> {
    if s != [] && (s[0] == '+' || s[0] == '-') then
      var digits := s[1..];
      if digits != [] && AllDigits(digits) then
        var n: int := DecimalValue(digits);
        Some(if s[0] == '-' then -n else n)
      else None
    else if s != [] && AllDigits(s) then Some(DecimalValue(s))
    else None
  }

  /** The digits of a natural number, without leading zeros. */
  function NaturalText(n: nat): (s: string)
    ensures s != [] && AllDigits(s) && DecimalValue(s) == n
  {
    if n < 10 then [DigitChar(n)]
    else
      var s := NaturalText(n / 10) + [DigitChar(n % 10)];
      assert s[..|s| - 1] == NaturalText(n / 10);
      s
  }

  /** The `%d` verb: a minus sign for negative numbers, then the digits. */
  function Itoa(i: int): (s: string)
    ensures IsToken(s) && '/' !in s
  {
    var s := if i < 0 then "-" + NaturalText(-i) else NaturalText(i);
    assert forall k :: 0 <= k < |s| ==> s[k] == '-' || IsDigit(s[k]);
    s
  }

  /** Reading back what `%d` printed gives the number again. */
  lemma AtoiItoa(i: int)
    ensures Atoi(Itoa(i)) == Some(i)
  {
    if i < 0 {
      assert Itoa(i)[1..] == NaturalText(-i);
    }
  }
}
