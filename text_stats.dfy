/** The word count both front-end components display:
    `text.trim().split(/\s+/).filter(word => word.length > 0).length`. The split is
    modelled literally and related to an independent definition of words as maximal
    runs of non-space characters. */
module TextStats {
  import opened JsText

  /** Length of the leading run of non-space characters. */
  function WordLength(s: string): (n: nat)
    ensures n <= |s|
    ensures forall k :: 0 <= k < n ==> !IsSpace(s[k])
    ensures n == |s| || IsSpace(s[n])
  {
    if |s| == 0 || IsSpace(s[0]) then 0 else 1 + WordLength(s[1..])
  }

  /** Length of the leading run of white space. */
  function SpaceLength(s: string): (n: nat)
    ensures n <= |s|
    ensures forall k :: 0 <= k < n ==> IsSpace(s[k])
    ensures n == |s| || !IsSpace(s[n])
  {
    if |s| == 0 || !IsSpace(s[0]) then 0 else 1 + SpaceLength(s[1..])
  }

  /** `s.split(/\s+/)`: the pieces between maximal white-space runs, with an empty
      first (last) piece when `s` starts (ends) with white space. */
  function SplitOnSpace(s: string): (r: seq<string>)
    ensures |r| >= 1
    decreases |s|
  {
    var n := WordLength(s);
    if n == |s| then [s]
    else
      var m := n + SpaceLength(s[n..]);
      [s[..n]] + SplitOnSpace(s[m..])
  }

  /** `.filter(word => word.length > 0)`. */
  function NonEmpty(xs: seq<string>): (r: seq<string>)
    ensures |r| <= |xs|
    ensures forall k :: 0 <= k < |r| ==> r[k] != ""
  {
    if |xs| == 0 then [] else (if xs[0] == "" then [] else [xs[0]]) + NonEmpty(xs[1..])
  }

  /** The words of `s`: its maximal runs of non-space characters, in order. */
  function Words(s: string): (r: seq<string>)
    ensures forall k :: 0 <= k < |r| ==> r[k] != "" && NoSpace(r[k])
    ensures r == [] <==> IsBlank(s)
    decreases |s|
  {
    if |s| == 0 then []
    else if IsSpace(s[0]) then Words(s[1..])
    else
      var n := WordLength(s);
      assert NoSpace(s[..n]);
      [s[..n]] + Words(s[n..])
  }

  /** Leading white space does not change the words. */
  lemma {:induction false} WordsSkipSpaces(s: string, m: nat)
    requires m <= |s|
    requires forall k :: 0 <= k < m ==> IsSpace(s[k])
    ensures Words(s) == Words(s[m..])
    decreases m
  {
    if m > 0 {
      assert s[1..][m - 1..] == s[m..];
      WordsSkipSpaces(s[1..], m - 1);
    }
  }

  /** Dropping the empty pieces of the split leaves exactly the words. */
  lemma {:induction false} SplitGivesWords(s: string)
    ensures NonEmpty(SplitOnSpace(s)) == Words(s)
    decreases |s|
  {
    var n := WordLength(s);
    if n == |s| {
      if s != "" {
        assert s[..n] == s && s[n..] == "";
      }
    } else {
      var t := s[n..];
      var m := n + SpaceLength(t);
      assert s[m..] == t[m - n..];
      SplitGivesWords(s[m..]);
      WordsSkipSpaces(t, m - n);
      var split := SplitOnSpace(s);
      assert split[0] == s[..n] && split[1..] == SplitOnSpace(s[m..]);
      if n == 0 {
        assert t == s;
      }
    }
  }

  /** The leading word is unaffected by anything appended after a white-space boundary. */
  lemma {:induction false} WordLengthAppend(a: string, b: string)
    requires |b| == 0 || IsSpace(b[0])
    ensures WordLength(a + b) == WordLength(a)
    decreases |a|
  {
    if |a| == 0 {
      assert a + b == b;
    } else {
      assert (a + b)[0] == a[0];
      assert (a + b)[1..] == a[1..] + b;
      WordLengthAppend(a[1..], b);
    }
  }

  /** Trailing white space does not change the words. */
  lemma {:induction false} WordsAppendBlank(a: string, b: string)
    requires IsBlank(b)
    ensures Words(a + b) == Words(a)
    decreases |a|
  {
    if |a| == 0 {
      assert a + b == b;
      WordsSkipSpaces(b, |b|);
      assert b[|b|..] == "";
    } else if IsSpace(a[0]) {
      assert (a + b)[0] == a[0];
      assert (a + b)[1..] == a[1..] + b;
      WordsAppendBlank(a[1..], b);
    } else {
      var n := WordLength(a);
      WordLengthAppend(a, b);
      assert (a + b)[0] == a[0];
      assert (a + b)[..n] == a[..n];
      assert (a + b)[n..] == a[n..] + b;
      WordsAppendBlank(a[n..], b);
    }
  }

  /** Removing leading white space does not change the words. */
  lemma WordsOfTrimStart(s: string)
    ensures Words(TrimStart(s)) == Words(s)
  {
    var d := |s| - |TrimStart(s)|;
    WordsSkipSpaces(s, d);
  }

  /** Removing trailing white space does not change the words. */
  lemma WordsOfTrimEnd(t: string)
    ensures Words(TrimEnd(t)) == Words(t)
  {
    var u := TrimEnd(t);
    var rest := t[|u|..];
    assert t == u + rest;
    assert forall k :: 0 <= k < |rest| ==> rest[k] == t[|u| + k];
    WordsAppendBlank(u, rest);
  }

  /** Trimming first does not change the words. */
  lemma WordsOfTrim(s: string)
    ensures Words(Trim(s)) == Words(s)
  {
    WordsOfTrimStart(s);
    WordsOfTrimEnd(TrimStart(s));
  }

  /** The displayed word count: the number of words of the text. */
  function WordCount(text: string): (r: nat)
    ensures r == |Words(text)|
    ensures r == 0 <==> IsBlank(text)
  {
    SplitGivesWords(Trim(text));
    WordsOfTrim(text);
    |NonEmpty(SplitOnSpace(Trim(text)))|
  }
}
