/**
 * Comma-separated query values: `value.split(',')` as the handlers apply it
 * to the `ids` and `dates` parameters.
 */
module QueryList {

  const Comma := ','

  /** `s.split(',')`: never empty; the empty string splits into one empty part. */
  function Split(s: string): (parts: seq<string>)
    ensures |parts| >= 1
    decreases |s|
  {
    if s == [] then [""]
    else
      var init := Split(s[..|s| - 1]);
      var c := s[|s| - 1];
      if c == Comma then init + [""]
      else init[..|init| - 1] + [init[|init| - 1] + [c]]
  }

  /** `parts.join(',')`. */
  function Join(parts: seq<string>): string
    requires |parts| >= 1
    decreases |parts|
  {
    if |parts| == 1 then parts[0]
    else Join(parts[..|parts| - 1]) + [Comma] + parts[|parts| - 1]
  }

  /** No part holds a comma. */
  lemma {:induction false} SplitPartsHaveNoComma(s: string)
    ensures forall k, j :: 0 <= k < |Split(s)| && 0 <= j < |Split(s)[k]| ==> Split(s)[k][j] != Comma
    decreases |s|
  {
    if s != [] {
      SplitPartsHaveNoComma(s[..|s| - 1]);
    }
  }

  lemma {:induction false} JoinExtendLast(parts: seq<string>, c: char)
    requires |parts| >= 1
    ensures Join(parts[..|parts| - 1] + [parts[|parts| - 1] + [c]]) == Join(parts) + [c]
  {
    var init := parts[..|parts| - 1];
    var extended := init + [parts[|parts| - 1] + [c]];
    assert extended[..|extended| - 1] == init;
  }

  /** Joining the parts with commas gives back the original text. */
  lemma {:induction false} JoinSplit(s: string)
    ensures Join(Split(s)) == s
    decreases |s|
  {
    if s != [] {
      var init, c := s[..|s| - 1], s[|s| - 1];
      JoinSplit(init);
      var parts := Split(init);
      if c == Comma {
        var next := parts + [""];
        assert next[..|next| - 1] == parts;
        assert Join(next) == Join(parts) + [Comma] + "";
      } else {
        JoinExtendLast(parts, c);
      }
      assert s == init + [c];
    }
  }

  /** There is one part more than there are commas. */
  lemma {:induction false} SplitCount(s: string)
    ensures |Split(s)| == multiset(s)[Comma] + 1
    decreases |s|
  {
    if s != [] {
      SplitCount(s[..|s| - 1]);
      assert s == s[..|s| - 1] + [s[|s| - 1]];
    }
  }
}
