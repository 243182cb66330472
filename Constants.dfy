/**
 * Constants.convertPoseDataToDoubleArray: a robot's pose reply ("r00 r01 ... r23", twelve
 * numbers row by row) read into twelve doubles, starting at a given token.
 */
module Constants {
  import opened Wrappers
  import opened JavaStrings

  /** Length of the returned array: a 3x4 pose, row by row. */
  const PoseEntries: int := 12

  /** Double.parseDouble on one token; None stands for a NumberFormatException. */
  type Parser = string -> Option<real>

  /** The parse of token j, as a value independent of the heap. */
  function ParseAt(tokens: seq<string>, j: int, parse: Parser): Option<real>
    requires 0 <= j < |tokens|
  {
    parse(tokens[j])
  }

  /** Puts `prefix` in front of the values of an Ok result; errors pass through. */
  function Prepend(prefix: seq<real>, r: Result<seq<real>>): Result<seq<real>> {
    match r
    case Ok(v) => Ok(prefix + v)
    case Err(e) => Err(e)
  }

  /**
   * The values read for counters k, k + 1, ... below PoseEntries.  Reading stops quietly at the
   * first token that does not parse (the exception is caught); asking for a token that does not
   * exist is an index error, which is not caught.
   */
  function ReadFrom(tokens: seq<string>, k: int, parse: Parser): (r: Result<seq<real>>)
    ensures r.Ok? ==> 0 <= k && (if k >= PoseEntries then r.value == [] else |r.value| <= PoseEntries - k)
    decreases PoseEntries - k
  {
    if k >= PoseEntries then Ok([])
    else if k < 0 || k >= |tokens| then Err(IndexOutOfBounds(k))
    else
      match parse(tokens[k])
      case None => Ok([])
      case Some(v) => Prepend([v], ReadFrom(tokens, k + 1, parse))
  }

  /**
   * What ReadFrom means: every value read is its token's parse; reading ends at the last
   * entry or at the first token that does not parse; an index error names the first missing
   * token, and every token before it parses.
   */
  lemma {:induction false} ReadFromSpec(tokens: seq<string>, k: int, parse: Parser)
    ensures var r := ReadFrom(tokens, k, parse);
      r.Ok? && r.value != [] ==> k + |r.value| <= |tokens|
    ensures var r := ReadFrom(tokens, k, parse);
      r.Ok? ==> forall j :: 0 <= j < |r.value| ==> parse(tokens[k + j]) == Some(r.value[j])
    ensures var r := ReadFrom(tokens, k, parse);
      r.Ok? && k + |r.value| < PoseEntries ==> k + |r.value| < |tokens| && parse(tokens[k + |r.value|]).None?
    ensures var r := ReadFrom(tokens, k, parse);
      r.Err? ==> (r.error.IndexOutOfBounds? && k <= r.error.index < PoseEntries
                  && (r.error.index < 0 || r.error.index >= |tokens|))
    ensures var r := ReadFrom(tokens, k, parse);
      r.Err? && k < r.error.index ==> 0 <= k && r.error.index == |tokens|
    ensures var r := ReadFrom(tokens, k, parse);
      r.Err? ==> forall j :: k <= j < r.error.index ==> parse(tokens[j]).Some?
    decreases PoseEntries - k
  {
    if 0 <= k < PoseEntries && k < |tokens| && parse(tokens[k]).Some? {
      ReadFromSpec(tokens, k + 1, parse);
      var v := parse(tokens[k]).value;
      var rest := ReadFrom(tokens, k + 1, parse);
      if rest.Ok? {
        var r := [v] + rest.value;
        assert ReadFrom(tokens, k, parse) == Ok(r);
        forall j | 0 <= j < |r|
          ensures parse(tokens[k + j]) == Some(r[j])
        {
          if j > 0 {
            assert r[j] == rest.value[j - 1];
            assert k + j == (k + 1) + (j - 1);
          }
        }
      }
    }
  }

  lemma PrependStep(read: seq<real>, v: real, r: Result<seq<real>>)
    ensures Prepend(read, Prepend([v], r)) == Prepend(read + [v], r)
  {
    if r.Ok? {
      assert read + ([v] + r.value) == read + [v] + r.value;
    }
  }

  lemma PrependNothing(r: Result<seq<real>>)
    ensures Prepend([], r) == r
  {
    if r.Ok? {
      assert [] + r.value == r.value;
    }
  }

  lemma PrependEmpty(read: seq<real>)
    ensures Prepend(read, Ok([])) == Ok(read)
  {
    assert read + [] == read;
  }

  lemma PaddedStep(read: seq<real>, v: real)
    requires |read| < PoseEntries
    ensures Padded(read)[|read| := v] == Padded(read + [v])
  {
  }

  /** The values read, followed by the zeros the fresh array still holds. */
  function Padded(vals: seq<real>): (r: seq<real>)
    requires |vals| <= PoseEntries
    ensures |r| == PoseEntries
  {
    vals + seq(PoseEntries - |vals|, _ => 0.0)
  }

  /** The values come first, then only zeros. */
  lemma PaddedSpec(vals: seq<real>)
    requires |vals| <= PoseEntries
    ensures Padded(vals)[..|vals|] == vals
    ensures forall j :: |vals| <= j < PoseEntries ==> Padded(vals)[j] == 0.0
  {
  }

  /** What convertPoseDataToDoubleArray(data, index) returns or throws. */
  function PoseData(data: string, index: int, parse: Parser): (r: Result<seq<real>>)
    ensures r.Ok? ==> |r.value| == PoseEntries
  {
    match ReadFrom(Split(data), index, parse)
    case Ok(v) => Ok(Padded(v))
    case Err(e) => Err(e)
  }

  /** A negative index fails on its first token; an index past the pose returns only zeros. */
  lemma PoseDataEdges(data: string, index: int, parse: Parser)
    ensures index < 0 ==> PoseData(data, index, parse) == Err(IndexOutOfBounds(index))
    ensures index >= PoseEntries ==> PoseData(data, index, parse) == Ok(seq(PoseEntries, _ => 0.0))
  {
    if index >= PoseEntries {
      assert Padded([]) == seq(PoseEntries, _ => 0.0);
    }
  }

  /**
   * Entry j of the array is token index + j, as long as every token up to it parses; the
   * remaining entries are zero.  A negative index, or too few tokens, fails on the first
   * missing token.
   */
  method ConvertPoseDataToDoubleArray(data: string, index: int, parse: Parser)
    returns (r: Result<seq<real>>)
    ensures r == PoseData(data, index, parse)
  {
    var tokens := Split(data);
    var values := new real[PoseEntries](_ => 0.0);
    var counter := index;
    ghost var read: seq<real> := [];
    assert values[..] == Padded(read);
    while counter < PoseEntries
      invariant index <= counter && |read| == counter - index <= PoseEntries
      invariant counter > index ==> 0 <= index && counter <= PoseEntries && counter <= |tokens|
      invariant values[..] == Padded(read)
      invariant forall j :: 0 <= j < |read| ==> ParseAt(tokens, index + j, parse) == Some(read[j])
      decreases PoseEntries - counter
    {
      if counter < 0 || counter >= |tokens| {
        ReadMissing(data, tokens, index, read, parse);
        return Err(IndexOutOfBounds(counter));
      }
      var parsed := ParseAt(tokens, counter, parse);
      if parsed.None? {
        ReadStops(data, tokens, index, read, parse);
        return Ok(values[..]);
      }
      PaddedStep(read, parsed.value);
      Store(values, counter - index, parsed.value);
      read := read + [parsed.value];
      counter := counter + 1;
    }
    ReadStops(data, tokens, index, read, parse);
    r := Ok(values[..]);
  }

  method Store(values: array<real>, k: nat, v: real)
    requires k < values.Length
    modifies values
    ensures values[..] == old(values[..])[k := v]
  {
    values[k] := v;
  }

  /** Tokens that all parse are read in order, and reading goes on after them. */
  lemma {:induction false} ParsedPrefix(tokens: seq<string>, start: nat, read: seq<real>, parse: Parser)
    requires start + |read| <= |tokens| && start + |read| <= PoseEntries
    requires forall j :: 0 <= j < |read| ==> ParseAt(tokens, start + j, parse) == Some(read[j])
    ensures ReadFrom(tokens, start, parse) == Prepend(read, ReadFrom(tokens, start + |read|, parse))
    decreases |read|
  {
    if |read| == 0 {
      PrependNothing(ReadFrom(tokens, start, parse));
    } else {
      assert ParseAt(tokens, start + 0, parse) == Some(read[0]);
      forall j | 0 <= j < |read| - 1
        ensures ParseAt(tokens, start + 1 + j, parse) == Some(read[1..][j])
      {
        assert ParseAt(tokens, start + (j + 1), parse) == Some(read[j + 1]);
      }
      ParsedPrefix(tokens, start + 1, read[1..], parse);
      PrependStep([], read[0], ReadFrom(tokens, start + 1, parse));
      var rest := ReadFrom(tokens, start + 1 + |read[1..]|, parse);
      if rest.Ok? {
        assert read == [read[0]] + read[1..];
        assert [read[0]] + (read[1..] + rest.value) == read + rest.value;
      }
    }
  }

  /** Reading that stops at the last entry or at a token that is not a number returns what was read. */
  lemma ReadStops(data: string, tokens: seq<string>, index: int, read: seq<real>, parse: Parser)
    requires tokens == Split(data) && |read| <= PoseEntries
    requires |read| > 0 ==> 0 <= index && index + |read| <= PoseEntries && index + |read| <= |tokens|
    requires forall j :: 0 <= j < |read| ==> ParseAt(tokens, index + j, parse) == Some(read[j])
    requires index + |read| >= PoseEntries
      || (0 <= index + |read| < |tokens| && ParseAt(tokens, index + |read|, parse).None?)
    ensures PoseData(data, index, parse) == Ok(Padded(read))
  {
    if |read| > 0 {
      ParsedPrefix(tokens, index, read, parse);
    } else {
      PrependNothing(ReadFrom(tokens, index, parse));
    }
    assert ReadFrom(tokens, index + |read|, parse) == Ok([]);
    PrependEmpty(read);
  }

  /** Asking for a token that does not exist fails with its index. */
  lemma ReadMissing(data: string, tokens: seq<string>, index: int, read: seq<real>, parse: Parser)
    requires tokens == Split(data) && index + |read| < PoseEntries
    requires index + |read| < 0 || index + |read| >= |tokens|
    requires |read| > 0 ==> 0 <= index && index + |read| <= |tokens|
    requires forall j :: 0 <= j < |read| ==> ParseAt(tokens, index + j, parse) == Some(read[j])
    ensures PoseData(data, index, parse) == Err(IndexOutOfBounds(index + |read|))
  {
    if |read| > 0 {
      ParsedPrefix(tokens, index, read, parse);
    } else {
      PrependNothing(ReadFrom(tokens, index, parse));
    }
    assert ReadFrom(tokens, index + |read|, parse) == Err(IndexOutOfBounds(index + |read|));
  }

  /**
   * A reply of twelve space-free tokens that parse to `entries` is read back entry for entry
   * from index 0.
   */
  lemma {:induction false} ReadJoined(words: seq<string>, entries: seq<real>, parse: Parser)
    requires |words| == |entries| == PoseEntries
    requires forall i :: 0 <= i < PoseEntries ==> IsWord(words[i])
    requires forall i :: 0 <= i < PoseEntries ==> parse(words[i]) == Some(entries[i])
    ensures PoseData(Join(words), 0, parse) == Ok(entries)
  {
    SplitJoin(words);
    ReadAll(words, 0, entries, parse);
    assert entries[0..] == entries;
    assert Padded(entries) == entries;
  }

  lemma {:induction false} ReadAll(tokens: seq<string>, k: nat, entries: seq<real>, parse: Parser)
    requires k <= PoseEntries == |entries| <= |tokens|
    requires forall i :: k <= i < PoseEntries ==> parse(tokens[i]) == Some(entries[i])
    ensures ReadFrom(tokens, k, parse) == Ok(entries[k..])
    decreases PoseEntries - k
  {
    if k < PoseEntries {
      ReadAll(tokens, k + 1, entries, parse);
      assert entries[k..] == [entries[k]] + entries[k + 1..];
    }
  }
}
