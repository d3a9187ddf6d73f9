/** Tokenisation and number normalisation of text, over ASCII. */
module Tokens {
  import Decimal

  function Lower(c: char): char {
    if 'A' <= c <= 'Z' then (c as int + 32) as char else c
  }

  function LowerAll(s: string): (t: string)
    ensures |t| == |s| && forall i :: 0 <= i < |s| ==> t[i] == Lower(s[i])
  {
    seq(|s|, i requires 0 <= i < |s| => Lower(s[i]))
  }

  /** `[a-z0-9]`, the characters of a token. */
  predicate IsTok(c: char) { 'a' <= c <= 'z' || '0' <= c <= '9' }

  /** `\w`, the characters a word boundary looks at. */
  predicate IsWord(c: char) { IsTok(c) || 'A' <= c <= 'Z' || c == '_' }

  /** The length of the longest prefix of token characters. */
  function RunLength(s: string): (n: nat)
    ensures n <= |s|
    ensures forall i :: 0 <= i < n ==> IsTok(s[i])
    ensures n < |s| ==> !IsTok(s[n])
  {
    if s == "" || !IsTok(s[0]) then 0 else 1 + RunLength(s[1..])
  }

  /** All maximal runs of token characters, left to right. */
  function Runs(s: string): seq<string>
    decreases |s|
  {
    if s == "" then []
    else if RunLength(s) == 0 then Runs(s[1..])
    else [s[..RunLength(s)]] + Runs(s[RunLength(s)..])
  }

  function Tokenize(text: string): seq<string> { Runs(LowerAll(text)) }

  /** A table of number words: lower-case words that begin with a letter. */
  ghost predicate IsTable(words: seq<string>) {
    forall k :: 0 <= k < |words| ==>
      words[k] != "" && 'a' <= words[k][0] <= 'z' && forall i :: 0 <= i < |words[k]| ==> IsTok(words[k][i])
  }

  /** The word for a numeral of the table, otherwise the numeral itself. */
  function NumWord(words: seq<string>, digits: string): string
    requires Decimal.AllDigits(digits)
  {
    if Decimal.Value(digits) < |words| then words[Decimal.Value(digits)] else digits
  }

  /** `\b`: exactly one side of position `i` is a word character. */
  predicate Boundary(s: string, i: nat)
    requires i <= |s|
  {
    (i > 0 && IsWord(s[i - 1])) != (i < |s| && IsWord(s[i]))
  }

  /** The length of a match of `\b\d{1,2}\b` at `i`, longest first; 0 for none. */
  function MatchLength(s: string, i: nat): (m: nat)
    requires i < |s|
    ensures m <= 2 && i + m <= |s|
    ensures Decimal.AllDigits(s[i..i + m])
  {
    if !Boundary(s, i) || !Decimal.IsDigit(s[i]) then 0
    else if i + 2 <= |s| && Decimal.IsDigit(s[i + 1]) && Boundary(s, i + 2) then 2
    else if Boundary(s, i + 1) then 1
    else 0
  }

  /** The substitution from position `i` on; boundaries look at the original text. */
  function SubFrom(words: seq<string>, s: string, i: nat): string
    requires i <= |s|
    decreases |s| - i
  {
    if i == |s| then ""
    else if MatchLength(s, i) > 0
    then NumWord(words, s[i..i + MatchLength(s, i)]) + SubFrom(words, s, i + MatchLength(s, i))
    else [s[i]] + SubFrom(words, s, i + 1)
  }

  function NormalizeBy(words: seq<string>, text: string): string { SubFrom(words, LowerAll(text), 0) }

  // ------------------------------------------------------ normalising maps each token

  /** What normalisation does to one token. */
  function TokenWord(words: seq<string>, t: string): string {
    if 1 <= |t| <= 2 && Decimal.AllDigits(t) then NumWord(words, t) else t
  }

  function TokenWords(words: seq<string>, ts: seq<string>): (r: seq<string>)
    ensures |r| == |ts| && forall i :: 0 <= i < |ts| ==> r[i] == TokenWord(words, ts[i])
  {
    if ts == [] then [] else [TokenWord(words, ts[0])] + TokenWords(words, ts[1..])
  }

  lemma TokenWordShape(words: seq<string>, t: string)
    requires IsTable(words) && t != "" && forall i :: 0 <= i < |t| ==> IsTok(t[i])
    ensures TokenWord(words, t) != "" && forall i :: 0 <= i < |TokenWord(words, t)| ==> IsTok(TokenWord(words, t)[i])
  {
  }

  predicate Ascii(s: string) {
    forall i :: 0 <= i < |s| ==> s[i] as int < 128
  }

  /** No underscore and nothing outside ASCII: word characters are token characters. */
  predicate Plain(s: string) {
    Ascii(s) && '_' !in s
  }

  /** Text without upper-case letters: word characters are token characters and underscores. */
  predicate Lowered(s: string) {
    forall i :: 0 <= i < |s| ==> (IsWord(s[i]) <==> IsTok(s[i]) || s[i] == '_')
  }

  /** `s[i..j]` is a maximal run of token characters. */
  predicate IsRun(s: string, i: nat, j: nat) {
    && i < j <= |s|
    && (i > 0 ==> !IsTok(s[i - 1])) && (j < |s| ==> !IsTok(s[j]))
    && forall k :: i <= k < j ==> IsTok(s[k])
  }

  /** An underscore touches the run. */
  predicate Touched(s: string, i: nat, j: nat)
    requires i <= j <= |s|
  {
    (i > 0 && s[i - 1] == '_') || (j < |s| && s[j] == '_')
  }

  /** A run of token characters before a separator, or before the end, is one token. */
  lemma LeadingRun(run: string, rest: string)
    requires run != "" && forall i :: 0 <= i < |run| ==> IsTok(run[i])
    requires rest == "" || !IsTok(rest[0])
    ensures RunLength(run + rest) == |run|
    ensures Runs(run + rest) == [run] + Runs(rest)
  {
    var s, n := run + rest, RunLength(run + rest);
    assert forall k :: 0 <= k < |run| ==> s[k] == run[k];
    assert rest != "" ==> s[|run|] == rest[0];
    assert n == |run|;
    assert s[..n] == run && s[n..] == rest;
  }

  lemma InsideNoMatch(s: string, i: nat)
    requires 0 < i < |s| && IsTok(s[i - 1]) && IsTok(s[i])
    ensures MatchLength(s, i) == 0
  {
  }

  lemma FirstOfRun(s: string, i: nat, j: nat, rest: string)
    requires i < j <= |s|
    ensures [s[i]] + (s[i + 1..j] + rest) == s[i..j] + rest
  {
    assert s[i..j] == [s[i]] + s[i + 1..j];
  }

  /** Inside a run there is no boundary, so nothing there is replaced. */
  lemma {:induction false} InsideRun(words: seq<string>, s: string, i: nat, j: nat)
    requires 0 < i <= j <= |s|
    requires forall k :: i - 1 <= k < j ==> IsTok(s[k])
    ensures SubFrom(words, s, i) == s[i..j] + SubFrom(words, s, j)
    decreases j - i
  {
    if i < j {
      InsideNoMatch(s, i);
      SubUnmatched(words, s, i);
      InsideRun(words, s, i + 1, j);
      FirstOfRun(s, i, j, SubFrom(words, s, j));
    } else {
      assert s[i..j] + SubFrom(words, s, j) == SubFrom(words, s, j);
    }
  }

  /** The match at the start of a run is the whole run or nothing, and nothing when an
      underscore touches the run. */
  lemma MatchOfRun(s: string, i: nat, j: nat)
    requires Lowered(s) && IsRun(s, i, j)
    ensures MatchLength(s, i)
            == if !Touched(s, i, j) && j - i <= 2 && Decimal.AllDigits(s[i..j]) then j - i else 0
  {
    assert IsTok(s[i]) && IsTok(s[j - 1]);
    assert Boundary(s, i) <==> !(i > 0 && s[i - 1] == '_');
    assert Boundary(s, j) <==> !(j < |s| && s[j] == '_');
    forall k | i < k < j ensures !Boundary(s, k) {
      assert IsTok(s[k - 1]) && IsTok(s[k]);
    }
    var t := s[i..j];
    assert t[0] == s[i];
    if j - i == 2 {
      assert t[1] == s[i + 1];
      assert Decimal.AllDigits(t) <==> Decimal.IsDigit(t[0]) && Decimal.IsDigit(t[1]);
    } else if j - i == 1 {
      assert Decimal.AllDigits(t) <==> Decimal.IsDigit(t[0]);
      assert j < |s| ==> !Decimal.IsDigit(s[j]);
    }
  }

  lemma SubMatched(words: seq<string>, s: string, i: nat, j: nat)
    requires i < j <= |s| && MatchLength(s, i) == j - i
    ensures SubFrom(words, s, i) == NumWord(words, s[i..j]) + SubFrom(words, s, j)
  {
  }

  lemma SubUnmatched(words: seq<string>, s: string, i: nat)
    requires i < |s| && MatchLength(s, i) == 0
    ensures SubFrom(words, s, i) == [s[i]] + SubFrom(words, s, i + 1)
  {
  }

  lemma UnmatchedRun(words: seq<string>, s: string, i: nat, j: nat)
    requires IsRun(s, i, j) && MatchLength(s, i) == 0
    ensures SubFrom(words, s, i) == s[i..j] + SubFrom(words, s, j)
  {
    SubUnmatched(words, s, i);
    InsideRun(words, s, i + 1, j);
    FirstOfRun(s, i, j, SubFrom(words, s, j));
  }

  /** What becomes of a run: its token mapped, or the token itself under an underscore. */
  function Replaced(words: seq<string>, s: string, i: nat, j: nat): string
    requires i <= j <= |s|
  {
    if Touched(s, i, j) then s[i..j] else TokenWord(words, s[i..j])
  }

  lemma WholeRun(words: seq<string>, s: string, i: nat, j: nat)
    requires Lowered(s) && IsRun(s, i, j)
    ensures SubFrom(words, s, i) == Replaced(words, s, i, j) + SubFrom(words, s, j)
  {
    MatchOfRun(s, i, j);
    if MatchLength(s, i) > 0 {
      SubMatched(words, s, i, j);
    } else {
      UnmatchedRun(words, s, i, j);
    }
  }

  function RunEnd(s: string, i: nat): (j: nat)
    requires i < |s| && IsTok(s[i])
    ensures i < j <= |s| && (j < |s| ==> !IsTok(s[j]))
    ensures forall k :: i <= k < j ==> IsTok(s[k])
  {
    var n := RunLength(s[i..]);
    assert s[i..][0] == s[i];
    assert i + n < |s| ==> s[i..][n] == s[i + n];
    assert forall k :: i <= k < i + n ==> s[k] == s[i..][k - i];
    i + n
  }

  /** No run from `i` on that an underscore touches would be changed by the table. */
  predicate NothingHidden(words: seq<string>, s: string, i: nat) {
    forall a, b :: i <= a < b <= |s| && IsRun(s, a, b) && Touched(s, a, b) ==> TokenWord(words, s[a..b]) == s[a..b]
  }

  lemma HiddenFromRun(words: seq<string>, s: string, i: nat, j: nat)
    requires IsRun(s, i, j)
    ensures NothingHidden(words, s, i)
            <==> Replaced(words, s, i, j) == TokenWord(words, s[i..j]) && NothingHidden(words, s, j)
  {
    forall a, b | i <= a < b <= |s| && IsRun(s, a, b) ensures (a == i && b == j) || a >= j {
    }
  }

  /** The token of a run before the tokens of what follows. */
  lemma ReplacedRun(words: seq<string>, s: string, i: nat, j: nat, rest: string)
    requires IsTable(words) && IsRun(s, i, j) && (rest == "" || !IsTok(rest[0]))
    ensures Runs(Replaced(words, s, i, j) + rest) == [Replaced(words, s, i, j)] + Runs(rest)
  {
    TokenWordShape(words, s[i..j]);
    LeadingRun(Replaced(words, s, i, j), rest);
  }

  lemma MappedRun(words: seq<string>, s: string, i: nat, j: nat)
    requires IsRun(s, i, j)
    ensures TokenWords(words, Runs(s[i..])) == [TokenWord(words, s[i..j])] + TokenWords(words, Runs(s[j..]))
  {
    var run, q := s[i..j], Runs(s[j..]);
    assert s[i..] == run + s[j..];
    LeadingRun(run, s[j..]);
    assert ([run] + q)[1..] == q;
  }

  lemma SameHeads<T>(a: T, p: seq<T>, b: T, q: seq<T>)
    ensures [a] + p == [b] + q <==> a == b && p == q
  {
    assert ([a] + p)[0] == a && ([b] + q)[0] == b;
    assert ([a] + p)[1..] == p && ([b] + q)[1..] == q;
  }

  /** From the start of the text, or after a separator. */
  lemma {:induction false} RunsOfSub(words: seq<string>, s: string, i: nat)
    requires IsTable(words) && Lowered(s) && i <= |s|
    requires i > 0 ==> !IsTok(s[i - 1])
    ensures Runs(SubFrom(words, s, i)) == TokenWords(words, Runs(s[i..])) <==> NothingHidden(words, s, i)
    decreases |s| - i, 1
  {
    if i < |s| && IsTok(s[i]) {
      var j := RunEnd(s, i);
      var rest := SubFrom(words, s, j);
      WholeRun(words, s, i, j);
      RunsFromSeparator(words, s, j);
      ReplacedRun(words, s, i, j, rest);
      MappedRun(words, s, i, j);
      HiddenFromRun(words, s, i, j);
      SameHeads(Replaced(words, s, i, j), Runs(rest), TokenWord(words, s[i..j]), TokenWords(words, Runs(s[j..])));
    } else {
      RunsFromSeparator(words, s, i);
    }
  }

  /** From a separator, which is copied. */
  lemma {:induction false} RunsFromSeparator(words: seq<string>, s: string, j: nat)
    requires IsTable(words) && Lowered(s) && j <= |s|
    requires j < |s| ==> !IsTok(s[j])
    ensures SubFrom(words, s, j) == "" || !IsTok(SubFrom(words, s, j)[0])
    ensures Runs(SubFrom(words, s, j)) == TokenWords(words, Runs(s[j..])) <==> NothingHidden(words, s, j)
    decreases |s| - j, 0
  {
    if j < |s| {
      assert MatchLength(s, j) == 0;
      assert SubFrom(words, s, j)[1..] == SubFrom(words, s, j + 1);
      assert s[j..][1..] == s[j + 1..];
      RunsOfSub(words, s, j + 1);
      HiddenFromSeparator(words, s, j);
    } else {
      assert s[j..] == "";
    }
  }

  lemma HiddenFromSeparator(words: seq<string>, s: string, j: nat)
    requires j < |s| && !IsTok(s[j])
    ensures NothingHidden(words, s, j) <==> NothingHidden(words, s, j + 1)
  {
    forall a, b | j <= a < b <= |s| && IsRun(s, a, b) ensures a > j {
      assert IsTok(s[a]);
    }
  }

  /** Normalising leaves no upper-case letter behind. */
  lemma {:induction false} SubIsLower(words: seq<string>, s: string, i: nat)
    requires IsTable(words) && i <= |s| && forall k :: 0 <= k < |s| ==> Lower(s[k]) == s[k]
    ensures forall k :: 0 <= k < |SubFrom(words, s, i)| ==> Lower(SubFrom(words, s, i)[k]) == SubFrom(words, s, i)[k]
    decreases |s| - i
  {
    if i < |s| {
      var m := MatchLength(s, i);
      SubIsLower(words, s, i + if m > 0 then m else 1);
    }
  }

  /** Tokenising the normalised text is mapping every token by the number table exactly when
      no token that the table changes has an underscore right before or right after it. */
  lemma NormalizeIsTokenMapExactlyWhen(words: seq<string>, text: string)
    requires IsTable(words) && Ascii(text)
    ensures Tokenize(NormalizeBy(words, text)) == TokenWords(words, Tokenize(text))
            <==> NothingHidden(words, LowerAll(text), 0)
  {
    var s := LowerAll(text);
    assert Lowered(s);
    RunsOfSub(words, s, 0);
    assert s[0..] == s;
    SubIsLower(words, s, 0);
    assert LowerAll(SubFrom(words, s, 0)) == SubFrom(words, s, 0);
  }

  /** So always without underscores. */
  lemma NormalizeByIsTokenMap(words: seq<string>, text: string)
    requires IsTable(words) && Plain(text)
    ensures Tokenize(NormalizeBy(words, text)) == TokenWords(words, Tokenize(text))
  {
    NormalizeIsTokenMapExactlyWhen(words, text);
    var s := LowerAll(text);
    forall i | 0 <= i < |s| ensures s[i] != '_' {
      assert text[i] in text;
    }
  }

  /** Mapping twice is mapping once. */
  lemma TokenWordIdempotent(words: seq<string>, t: string)
    requires IsTable(words)
    ensures TokenWord(words, TokenWord(words, t)) == TokenWord(words, t)
  {
    if 1 <= |t| <= 2 && Decimal.AllDigits(t) && Decimal.Value(t) < |words| {
      assert !Decimal.IsDigit(TokenWord(words, t)[0]);
    }
  }

  lemma {:induction false} TokenWordsIdempotent(words: seq<string>, ts: seq<string>)
    requires IsTable(words)
    ensures TokenWords(words, TokenWords(words, ts)) == TokenWords(words, ts)
  {
    forall i | 0 <= i < |ts| ensures TokenWord(words, TokenWord(words, ts[i])) == TokenWord(words, ts[i]) {
      TokenWordIdempotent(words, ts[i]);
    }
  }

  // ------------------------------------------------------ the number words 0 to 20

  const UNITS := ["zero", "one", "two", "three", "four", "five", "six", "seven", "eight", "nine", "ten"]
  const TEENS := [
    "eleven", "twelve", "thirteen", "fourteen", "fifteen", "sixteen", "seventeen", "eighteen", "nineteen", "twenty"]
  const NUM_WORDS := UNITS + TEENS

  function NormalizeNumbers(text: string): string { NormalizeBy(NUM_WORDS, text) }

  lemma UnitsTable()
    ensures IsTable(UNITS) && |UNITS| == 11
  {
  }

  lemma TeensTable()
    ensures IsTable(TEENS) && |TEENS| == 10
  {
  }

  lemma NumWordsTable()
    ensures IsTable(NUM_WORDS) && |NUM_WORDS| == 21
  {
    UnitsTable();
    TeensTable();
  }

  /** ASCII text in which no numeral of the table is under an underscore. */
  predicate Clear(s: string) {
    Ascii(s) && NothingHidden(NUM_WORDS, LowerAll(s), 0)
  }

  /** Texts whose tokens differ only in the digit or word form of numbers up to twenty are
      tokenised alike once normalised, and no others are. */
  lemma NormalizeIsTokenMap(a: string, b: string)
    requires Clear(a) && Clear(b)
    ensures Tokenize(NormalizeNumbers(a)) == TokenWords(NUM_WORDS, Tokenize(a))
    ensures TokenWords(NUM_WORDS, Tokenize(a)) == TokenWords(NUM_WORDS, Tokenize(b)) <==>
              Tokenize(NormalizeNumbers(a)) == Tokenize(NormalizeNumbers(b))
  {
    NumWordsTable();
    NormalizeIsTokenMapExactlyWhen(NUM_WORDS, a);
    NormalizeIsTokenMapExactlyWhen(NUM_WORDS, b);
  }

  /** The numerals from 0 to 20 become their words, larger ones stay, and so do the words. */
  lemma {:induction false} NumeralsBecomeWords(n: nat)
    ensures |NUM_WORDS| == 21
    ensures TokenWord(NUM_WORDS, Decimal.Digits(n)) == if n <= 20 then NUM_WORDS[n] else Decimal.Digits(n)
    ensures n <= 20 ==> TokenWord(NUM_WORDS, NUM_WORDS[n]) == NUM_WORDS[n]
  {
    NumWordsTable();
    if n <= 20 {
      assert |Decimal.Digits(n)| <= 2;
      assert !Decimal.IsDigit(NUM_WORDS[n][0]);
    }
  }

  /** An underscore hides the numeral from normalisation but not from tokenisation. */
  lemma UnderscoreHidesNumbers(words: seq<string>)
    requires IsTable(words) && |words| > 2
    ensures NormalizeBy(words, "a_2") == "a_2"
    ensures Tokenize("a_2") == ["a", "2"]
    ensures TokenWord(words, "2") == words[2] != "2"
  {
    var s := LowerAll("a_2");
    assert s == "a_2";
    assert MatchLength(s, 0) == 0 && MatchLength(s, 1) == 0 && MatchLength(s, 2) == 0;
    SubUnmatched(words, s, 2);
    SubUnmatched(words, s, 1);
    SubUnmatched(words, s, 0);
    LeadingRun("a", "_2");
    assert s == "a" + "_2" && "_2"[1..] == "2";
    LeadingRun("2", "");
    assert "2" + "" == "2";
    assert Decimal.Value("2") == 2 by { assert "2"[..0] == ""; }
  }
}
