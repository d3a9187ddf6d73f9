/** Splitting text into words, and joining texts. */
module WordSplit {
  import opened Transcripts

  /** The characters `str.split()` splits on. */
  predicate IsSpace(c: char) {
    var n := c as int;
    9 <= n <= 13 || 28 <= n <= 32 || n == 133 || n == 160 || n == 5760 || 8192 <= n <= 8202
    || n == 8232 || n == 8233 || n == 8239 || n == 8287 || n == 12288
  }

  predicate IsWord(w: string) {
    w != "" && forall i :: 0 <= i < |w| ==> !IsSpace(w[i])
  }

  function WordLength(s: string): (n: nat)
    ensures n <= |s| && forall i :: 0 <= i < n ==> !IsSpace(s[i])
    ensures n < |s| ==> IsSpace(s[n])
  {
    if s == "" || IsSpace(s[0]) then 0 else 1 + WordLength(s[1..])
  }

  /** `s.split()` */
  function Words(s: string): seq<string>
    decreases |s|
  {
    if s == "" then []
    else if IsSpace(s[0]) then Words(s[1..])
    else [s[..WordLength(s)]] + Words(s[WordLength(s)..])
  }

  lemma {:induction false} WordEndsAt(s: string, n: nat)
    requires n <= |s| && (forall i :: 0 <= i < n ==> !IsSpace(s[i])) && (n == |s| || IsSpace(s[n]))
    ensures WordLength(s) == n
  {
    if n > 0 {
      WordEndsAt(s[1..], n - 1);
    }
  }

  lemma {:induction false} FirstWord(w: string, rest: string)
    requires IsWord(w) && (rest == "" || IsSpace(rest[0]))
    ensures Words(w + rest) == [w] + Words(rest)
  {
    var s := w + rest;
    WordEndsAt(s, |w|);
    assert s[0] == w[0] && s[..|w|] == w && s[|w|..] == rest;
  }

  /** Joining words with spaces and splitting again gives the words. */
  lemma {:induction false} WordsOfJoin(ws: seq<string>)
    requires AreWords(ws)
    ensures Words(Join(ws)) == ws
  {
    if |ws| == 1 {
      FirstWord(ws[0], "");
      assert ws[0] + "" == ws[0];
    } else if |ws| > 1 {
      WordsOfJoin(ws[1..]);
      var rest := " " + Join(ws[1..]);
      FirstWord(ws[0], rest);
      assert ws[0] + " " + Join(ws[1..]) == ws[0] + rest;
      assert rest[1..] == Join(ws[1..]) && IsSpace(rest[0]);
    }
  }

  function AllWords(segments: seq<Segment>): seq<string> {
    if segments == [] then [] else AllWords(segments[..|segments| - 1]) + Words(segments[|segments| - 1].text)
  }

  predicate AreWords(ws: seq<string>) {
    forall i :: 0 <= i < |ws| ==> IsWord(ws[i])
  }

  lemma {:induction false} WordsAreWords(s: string)
    ensures AreWords(Words(s))
    decreases |s|
  {
    if s != "" {
      if IsSpace(s[0]) {
        WordsAreWords(s[1..]);
      } else {
        WordsAreWords(s[WordLength(s)..]);
      }
    }
  }

  lemma {:induction false} AllWordsAreWords(segments: seq<Segment>)
    ensures AreWords(AllWords(segments))
  {
    if segments != [] {
      AllWordsAreWords(segments[..|segments| - 1]);
      WordsAreWords(segments[|segments| - 1].text);
    }
  }

  // ---------------------------------------------------------------- joined texts

  lemma {:induction false} AfterSpace(c: char, s: string)
    requires IsSpace(c)
    ensures Words([c] + s) == Words(s)
  {
    assert ([c] + s)[1..] == s;
  }

  /** A word in front of both sides. */
  lemma {:induction false} WordInFront(w: string, rest: string, both: string, b: seq<string>)
    requires IsWord(w) && (rest == "" || IsSpace(rest[0])) && (both == "" || IsSpace(both[0]))
    requires Words(both) == Words(rest) + b
    ensures Words(w + both) == Words(w + rest) + b
  {
    FirstWord(w, rest);
    FirstWord(w, both);
    assert [w] + (Words(rest) + b) == [w] + Words(rest) + b;
  }

  lemma {:induction false} SpaceFirst(c: char, a: string, b: string)
    requires IsSpace(c) && Words(a + " " + b) == Words(a) + Words(b)
    ensures Words([c] + a + " " + b) == Words([c] + a) + Words(b)
  {
    AfterSpace(c, a);
    AfterSpace(c, a + " " + b);
    assert [c] + a + " " + b == [c] + (a + " " + b);
  }

  lemma {:induction false} WordFirst(w: string, a: string, b: string)
    requires IsWord(w) && (a == "" || IsSpace(a[0])) && Words(a + " " + b) == Words(a) + Words(b)
    ensures Words(w + a + " " + b) == Words(w + a) + Words(b)
  {
    WordInFront(w, a, a + " " + b, Words(b));
    assert w + a + " " + b == w + (a + " " + b);
  }

  /** Joining two texts with a space keeps the words of both. */
  lemma {:induction false} WordsOfTwo(a: string, b: string)
    ensures Words(a + " " + b) == Words(a) + Words(b)
    decreases |a|
  {
    if a == "" {
      AfterSpace(' ', b);
      assert a + " " + b == [' '] + b;
    } else if IsSpace(a[0]) {
      WordsOfTwo(a[1..], b);
      SpaceFirst(a[0], a[1..], b);
      assert a == [a[0]] + a[1..];
    } else {
      var n := WordLength(a);
      WordsOfTwo(a[n..], b);
      WordFirst(a[..n], a[n..], b);
      assert a == a[..n] + a[n..];
    }
  }

  function TextsOf(segments: seq<Segment>): (texts: seq<string>)
    ensures |texts| == |segments|
  {
    seq(|segments|, i requires 0 <= i < |segments| => segments[i].text)
  }

  lemma {:induction false} AllWordsConcat(a: seq<Segment>, b: seq<Segment>)
    ensures AllWords(a + b) == AllWords(a) + AllWords(b)
  {
    if b == [] {
      assert a + b == a;
    } else {
      var n := |b| - 1;
      assert (a + b)[..|a + b| - 1] == a + b[..n];
      AllWordsConcat(a, b[..n]);
    }
  }

  lemma WordsOfOne(s: Segment)
    ensures AllWords([s]) == Words(s.text)
  {
    assert [s][..0] == [];
  }

  /** The joined text of segments has just the words of the segments, in order. */
  lemma {:induction false} WordsOfTexts(segments: seq<Segment>)
    ensures Words(Join(TextsOf(segments))) == AllWords(segments)
  {
    if segments == [] {
    } else {
      var first, rest := segments[0], segments[1..];
      WordsOfTexts(rest);
      WordsOfOne(first);
      AllWordsConcat([first], rest);
      assert segments == [first] + rest;
      assert TextsOf(segments)[1..] == TextsOf(rest);
      if rest != [] {
        WordsOfTwo(first.text, Join(TextsOf(rest)));
      } else {
        assert Join(TextsOf(segments)) == first.text;
      }
    }
  }

  lemma {:induction false} MiddleWords(a: seq<Segment>, x: Segment, b: seq<Segment>)
    ensures AllWords(a + [x] + b) == AllWords(a) + Words(x.text) + AllWords(b)
  {
    WordsOfOne(x);
    AllWordsConcat(a, [x]);
    AllWordsConcat(a + [x], b);
  }

  /** The words of one segment stand together among the words of any range that holds it. */
  lemma SegmentWords(segments: seq<Segment>, i: nat) returns (before: seq<string>, after: seq<string>)
    requires i < |segments|
    ensures AllWords(segments) == before + Words(segments[i].text) + after
  {
    before, after := AllWords(segments[..i]), AllWords(segments[i + 1..]);
    assert segments == segments[..i] + [segments[i]] + segments[i + 1..];
    MiddleWords(segments[..i], segments[i], segments[i + 1..]);
  }
}
