/**
 * The two java.lang.String operations the cell's text protocol relies on: `split(" ")`, which
 * cuts at every single space and drops trailing empty pieces, and `trim()`, which strips
 * leading and trailing characters up to U+0020.  `Join` is the inverse direction: words
 * glued with one space, as the command strings are built.
 */
module JavaStrings {

  predicate IsTrimmable(c: char) { c <= ' ' }

  /** The pieces between single spaces, empty ones included ("a  b" has three). */
  function Pieces(s: string): (r: seq<string>)
    ensures |r| >= 1
    ensures |r| == 1 <==> ' ' !in s
  {
    if |s| == 0 then [""]
    else
      var rest := Pieces(s[1..]);
      assert ' ' in s <==> s[0] == ' ' || ' ' in s[1..];
      if s[0] == ' ' then [""] + rest else [[s[0]] + rest[0]] + rest[1..]
  }

  function DropTrailingEmpty(p: seq<string>): seq<string> {
    if |p| == 0 then p
    else if p[|p| - 1] == "" then DropTrailingEmpty(p[..|p| - 1])
    else p
  }

  /** What is dropped is the run of empty pieces at the end, and only that. */
  lemma {:induction false} DropTrailingEmptySpec(p: seq<string>)
    ensures var r := DropTrailingEmpty(p); |r| <= |p| && r == p[..|r|]
    ensures var r := DropTrailingEmpty(p); |r| == 0 || r[|r| - 1] != ""
    ensures var r := DropTrailingEmpty(p); forall i :: |r| <= i < |p| ==> p[i] == ""
    decreases |p|
  {
    if |p| > 0 && p[|p| - 1] == "" {
      var q := p[..|p| - 1];
      DropTrailingEmptySpec(q);
      var r := DropTrailingEmpty(q);
      assert r == p[..|r|];
      forall i | |r| <= i < |p|
        ensures p[i] == ""
      {
        if i < |q| {
          assert p[i] == q[i];
        }
      }
    }
  }

  /**
   * String.split(" ") with limit 0: a string without a space is its own single piece (also
   * the empty string); otherwise the pieces between spaces, trailing empty ones removed.
   */
  function Split(s: string): seq<string> {
    if ' ' !in s then [s] else DropTrailingEmpty(Pieces(s))
  }

  /** Words glued with single spaces. */
  function Join(words: seq<string>): string {
    if |words| == 0 then ""
    else if |words| == 1 then words[0]
    else words[0] + " " + Join(words[1..])
  }

  predicate IsWord(w: string) { |w| > 0 && ' ' !in w }

  lemma {:induction false} PiecesWord(w: string)
    requires ' ' !in w
    ensures Pieces(w) == [w]
    decreases |w|
  {
    if |w| > 0 {
      assert ' ' !in w[1..] by {
        forall i | 0 <= i < |w[1..]|
          ensures w[1..][i] != ' '
        {
          assert w[1..][i] == w[i + 1];
        }
      }
      PiecesWord(w[1..]);
      assert [w[0]] + w[1..] == w;
    }
  }

  lemma {:induction false} PiecesPrefix(w: string, rest: string)
    requires ' ' !in w
    ensures Pieces(w + " " + rest) == [w] + Pieces(rest)
    decreases |w|
  {
    if |w| == 0 {
      assert w + " " + rest == [' '] + rest;
      assert (w + " " + rest)[1..] == rest;
    } else {
      assert (w + " " + rest)[1..] == w[1..] + " " + rest;
      assert ' ' !in w[1..] by {
        forall i | 0 <= i < |w[1..]|
          ensures w[1..][i] != ' '
        {
          assert w[1..][i] == w[i + 1];
        }
      }
      PiecesPrefix(w[1..], rest);
      assert [w[0]] + w[1..] == w;
    }
  }

  lemma {:induction false} PiecesJoin(words: seq<string>)
    requires |words| >= 1
    requires forall i :: 0 <= i < |words| ==> ' ' !in words[i]
    ensures Pieces(Join(words)) == words
    decreases |words|
  {
    if |words| == 1 {
      PiecesWord(words[0]);
    } else {
      PiecesPrefix(words[0], Join(words[1..]));
      PiecesJoin(words[1..]);
    }
  }

  /** Splitting words joined by spaces gives the words back. */
  lemma {:induction false} SplitJoin(words: seq<string>)
    requires |words| >= 1
    requires forall i :: 0 <= i < |words| ==> IsWord(words[i])
    ensures Split(Join(words)) == words
  {
    PiecesJoin(words);
    if ' ' in Join(words) {
      assert DropTrailingEmpty(words) == words;
    }
  }

  lemma {:induction false} JoinAppend(words: seq<string>, more: seq<string>)
    requires |words| >= 1 && |more| >= 1
    ensures Join(words + more) == Join(words) + " " + Join(more)
    decreases |words|
  {
    if |words| == 1 {
      assert (words + more)[1..] == more;
    } else {
      assert (words + more)[1..] == words[1..] + more;
      JoinAppend(words[1..], more);
    }
  }

  function TrimStart(s: string): (r: string)
    ensures |r| <= |s| && r == s[|s| - |r|..]
    ensures forall i :: 0 <= i < |s| - |r| ==> IsTrimmable(s[i])
    ensures |r| == 0 || !IsTrimmable(r[0])
  {
    if |s| > 0 && IsTrimmable(s[0]) then TrimStart(s[1..]) else s
  }

  function TrimEnd(s: string): (r: string)
    ensures |r| <= |s| && r == s[..|r|]
    ensures forall i :: |r| <= i < |s| ==> IsTrimmable(s[i])
    ensures |r| == 0 || !IsTrimmable(r[|r| - 1])
  {
    if |s| > 0 && IsTrimmable(s[|s| - 1]) then TrimEnd(s[..|s| - 1]) else s
  }

  /** String.trim(). */
  function Trim(s: string): string { TrimEnd(TrimStart(s)) }

  /**
   * Trim keeps a contiguous middle part of `s`: everything cut off is a control character or
   * a space, and the result neither starts nor ends with one.
   */
  lemma TrimSpec(s: string)
    ensures exists i, j :: (0 <= i <= j <= |s| && Trim(s) == s[i..j]
                            && (forall k :: 0 <= k < i ==> IsTrimmable(s[k]))
                            && (forall k :: j <= k < |s| ==> IsTrimmable(s[k])))
    ensures |Trim(s)| == 0 || (!IsTrimmable(Trim(s)[0]) && !IsTrimmable(Trim(s)[|Trim(s)| - 1]))
  {
    var a := TrimStart(s);
    var i := |s| - |a|;
    var j := i + |TrimEnd(a)|;
    assert Trim(s) == s[i..j];
    forall k | j <= k < |s|
      ensures IsTrimmable(s[k])
    {
      assert s[k] == a[k - i];
    }
    if |Trim(s)| > 0 {
      assert Trim(s)[0] == a[0];
    }
  }
}
