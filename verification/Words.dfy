/** Lines of text: splitting at whitespace, joining with single spaces, and decimal numbers. */
module Words {
  import opened Bytes
  import opened Wrappers

  /** The characters Unicode calls white space. */
  predicate IsSpace(c: char) {
    || '\U{0009}' <= c <= '\U{000D}' || c == ' ' || c == '\U{0085}' || c == '\U{00A0}' || c == '\U{1680}'
    || '\U{2000}' <= c <= '\U{200A}' || c == '\U{2028}' || c == '\U{2029}' || c == '\U{202F}'
    || c == '\U{205F}' || c == '\U{3000}'
  }

  /** The twenty-five of them, one by one. */
  lemma WhiteSpaceIs(c: char)
    ensures IsSpace(c) <==> c in [
      '\t', '\n', '\U{0B}', '\U{0C}', '\r', '\U{20}', '\U{85}', '\U{A0}', '\U{1680}', '\U{2000}', '\U{2001}',
      '\U{2002}', '\U{2003}', '\U{2004}', '\U{2005}', '\U{2006}', '\U{2007}', '\U{2008}', '\U{2009}', '\U{200A}',
      '\U{2028}', '\U{2029}', '\U{202F}', '\U{205F}', '\U{3000}']
  {
  }

  /** A word: not empty, no whitespace in it. */
  ghost predicate IsWord(w: string) { w != "" && NoSpace(w) }

  ghost predicate NoSpace(w: string) { forall i | 0 <= i < |w| :: !IsSpace(w[i]) }

  ghost predicate AllWords(ws: seq<string>) { forall i | 0 <= i < |ws| :: IsWord(ws[i]) }

  /** The length of the word a text starts with. */
  function WordEnd(s: string): (n: nat)
    ensures n <= |s| && NoSpace(s[..n])
    ensures n < |s| ==> IsSpace(s[n])
  {
    if s == "" || IsSpace(s[0]) then 0
    else
      var n := 1 + WordEnd(s[1..]);
      assert forall i | 0 <= i < n :: s[..n][i] == if i == 0 then s[0] else s[1..][..n - 1][i - 1];
      n
  }

  /** The words of a text, without the whitespace between and around them. */
  function Split(s: string): (ws: seq<string>)
    ensures AllWords(ws)
    decreases |s|
  {
    if s == "" then []
    else if IsSpace(s[0]) then Split(s[1..])
    else var n := WordEnd(s); [s[..n]] + Split(s[n..])
  }

  function Join(ws: seq<string>): string {
    if |ws| == 0 then "" else if |ws| == 1 then ws[0] else ws[0] + " " + Join(ws[1..])
  }

  function Normalised(s: string): string { Join(Split(s)) }

  lemma {:induction false} WordEndOfWord(w: string, rest: string)
    requires NoSpace(w) && (rest == "" || IsSpace(rest[0]))
    ensures WordEnd(w + rest) == |w|
  {
    if w == "" {
      assert w + rest == rest;
    } else {
      assert (w + rest)[1..] == w[1..] + rest;
      WordEndOfWord(w[1..], rest);
    }
  }

  /** A word in front of the rest of a line comes out first. */
  lemma {:induction false} SplitWordFirst(w: string, rest: string)
    requires IsWord(w) && (rest == "" || IsSpace(rest[0]))
    ensures Split(w + rest) == [w] + Split(rest)
  {
    WordEndOfWord(w, rest);
    assert (w + rest)[..|w|] == w && (w + rest)[|w|..] == rest;
  }

  lemma {:induction false} SplitWordThen(w: string, rest: string)
    requires IsWord(w)
    ensures Split(w + " " + rest) == [w] + Split(rest)
  {
    SplitWordFirst(w, " " + rest);
    assert w + " " + rest == w + (" " + rest);
    assert (" " + rest)[1..] == rest;
  }

  lemma KeyedWord(key: string, v: string)
    requires NoSpace(key) && IsWord(v)
    ensures IsWord(key + v)
  {
    assert forall i | 0 <= i < |key + v| :: (key + v)[i] == if i < |key| then key[i] else v[i - |key|];
  }

  lemma {:induction false} SplitOneWord(w: string)
    requires IsWord(w)
    ensures Split(w) == [w]
  {
    SplitWordFirst(w, "");
    assert w + "" == w && [w] + [] == [w];
  }

  lemma Regrouped(a: string, b: string, c: string)
    ensures a + b + c == a + (b + c)
  {
  }

  /** Something put in front of a text without a gap sticks to its first word. */
  lemma {:induction false} KeySticksToFirstWord(key: string, s: string)
    requires NoSpace(key) && s != "" && !IsSpace(s[0])
    ensures Split(s) != [] && Split(key + s) == [key + Split(s)[0]] + Split(s)[1..]
  {
    var n := WordEnd(s);
    var first, rest := s[..n], s[n..];
    assert s == first + rest;
    KeyedWord(key, first);
    Regrouped(key, first, rest);
    SplitWordFirst(key + first, rest);
  }

  /** Wherever a list of words is cut, there is exactly one space between the joined halves. */
  lemma {:induction false} JoinsWithOneSpace(a: seq<string>, b: seq<string>)
    requires a != [] && b != []
    ensures Join(a + b) == Join(a) + " " + Join(b)
    ensures |a| == 1 ==> Join(a) == a[0]
  {
    assert (a + b)[1..] == a[1..] + b;
    if |a| > 1 { JoinsWithOneSpace(a[1..], b); }
  }

  /** Joined words come apart again as they were. */
  lemma {:induction false} JoinSplits(ws: seq<string>)
    requires AllWords(ws)
    ensures Split(Join(ws)) == ws
  {
    if |ws| == 1 {
      SplitOneWord(ws[0]);
    } else if |ws| > 1 {
      JoinSplits(ws[1..]);
      SplitWordThen(ws[0], Join(ws[1..]));
    }
  }

  /** Behind joined words the rest of a line is split as if it stood alone. */
  lemma {:induction false} JoinSplitsButLast(front: seq<string>, last: string)
    requires AllWords(front)
    ensures Split(Join(front + [last])) == front + Split(last)
  {
    if front != [] {
      var ws := front + [last];
      assert ws[1..] == front[1..] + [last];
      JoinSplitsButLast(front[1..], last);
      SplitWordThen(front[0], Join(ws[1..]));
      assert front == [front[0]] + front[1..];
    }
  }

  /** Normalising twice is normalising once, and does not change the words. */
  lemma {:induction false} NormalisingIsIdempotent(s: string)
    ensures Split(Normalised(s)) == Split(s) && Normalised(Normalised(s)) == Normalised(s)
  {
    JoinSplits(Split(s));
  }

  /** Replacing whitespace by other whitespace does not change the words. */
  ghost predicate SameButSpaces(a: string, b: string) {
    |a| == |b| && forall i | 0 <= i < |a| :: a[i] == b[i] || (IsSpace(a[i]) && IsSpace(b[i]))
  }

  lemma {:induction false} SameWordEnd(a: string, b: string)
    requires SameButSpaces(a, b)
    ensures WordEnd(a) == WordEnd(b) && a[..WordEnd(a)] == b[..WordEnd(a)]
  {
    if a != "" && !IsSpace(a[0]) {
      SameWordEnd(a[1..], b[1..]);
      var n := WordEnd(a);
      assert a[..n] == [a[0]] + a[1..][..n - 1] && b[..n] == [b[0]] + b[1..][..n - 1];
    }
  }

  lemma {:induction false} SameWords(a: string, b: string)
    requires SameButSpaces(a, b)
    ensures Split(a) == Split(b)
    decreases |a|
  {
    if a == "" {
    } else if IsSpace(a[0]) {
      SameWords(a[1..], b[1..]);
    } else {
      SameWordEnd(a, b);
      SameWords(a[WordEnd(a)..], b[WordEnd(a)..]);
    }
  }

  lemma {:induction false} NormalisedIsNoLonger(s: string)
    ensures |Normalised(s)| <= |s|
    decreases |s|
  {
    if s == "" {
    } else if IsSpace(s[0]) {
      NormalisedIsNoLonger(s[1..]);
    } else {
      var n := WordEnd(s);
      var rest := s[n..];
      NormalisedIsNoLonger(rest);
      assert Split(s)[1..] == Split(rest);
      if rest != "" {
        NormalisedIsNoLonger(rest[1..]);
      }
    }
  }

  /** Lines end at line feeds and carriage returns. */
  ghost predicate OneLine(s: string) { forall i | 0 <= i < |s| :: s[i] != '\n' && s[i] != '\r' }

  lemma {:induction false} JoinedWordsAreOneLine(ws: seq<string>)
    requires AllWords(ws)
    ensures OneLine(Join(ws))
  {
    if |ws| > 1 {
      JoinedWordsAreOneLine(ws[1..]);
    }
  }

  // ---------------------------------------------------------------------
  // Decimal numbers
  // ---------------------------------------------------------------------

  predicate IsDigit(c: char) { '0' <= c <= '9' }

  predicate AllDigits(s: string) { forall i | 0 <= i < |s| :: IsDigit(s[i]) }

  function Show(n: nat): (s: string)
    ensures s != "" && AllDigits(s)
    decreases n
  {
    var digit := [(n % 10) as char + '0'];
    if n < 10 then digit else Show(n / 10) + digit
  }

  function Value(digits: string): nat
    requires AllDigits(digits)
  {
    if digits == "" then 0 else 10 * Value(digits[..|digits| - 1]) + (digits[|digits| - 1] as nat - '0' as nat)
  }

  /** Reading a 64-bit number: digits, possibly after a plus sign, and not too large. */
  function ParseU64(s: string): Option<nat> {
    var digits := if s != "" && s[0] == '+' then s[1..] else s;
    if digits == "" || !AllDigits(digits) || TWO_64 <= Value(digits) then None else Some(Value(digits))
  }

  /** Each further digit makes ten times as much of those before it. */
  lemma {:induction false} DigitsWeighTen(digits: string, d: nat)
    requires AllDigits(digits) && d < 10
    ensures Value("") == 0 && AllDigits(digits + ["0123456789"[d]])
    ensures Value(digits + ["0123456789"[d]]) == 10 * Value(digits) + d
  {
    var more := digits + ["0123456789"[d]];
    assert more[..|digits|] == digits;
    assert "0123456789"[d] == '0' + d as char;
  }

  lemma {:induction false} ValueOfShow(n: nat)
    ensures Value(Show(n)) == n
    decreases n
  {
    var s := Show(n);
    if n >= 10 {
      ValueOfShow(n / 10);
      assert s[..|s| - 1] == Show(n / 10);
    }
  }

  /** Every 64-bit number survives being written out and read back. */
  lemma {:induction false} NumbersRoundTrip(n: nat)
    ensures n < TWO_64 ==> ParseU64(Show(n)) == Some(n)
    ensures IsWord(Show(n))
  {
    ValueOfShow(n);
    assert forall i | 0 <= i < |Show(n)| :: IsDigit(Show(n)[i]) ==> !IsSpace(Show(n)[i]);
  }
}
