/** `Utils::incr`: the end of the key range that a prefix scan covers. */
module KeyRange {
  import opened Bytes

  /** Adds one to the last byte that is not 0xFF and drops everything after it. */
  method Incr(input: seq<byte>) returns (str: seq<byte>, overflow: bool)
    ensures overflow <==> forall i :: 0 <= i < |input| ==> input[i] == 255
    ensures overflow ==> str == []
    ensures !overflow ==> forall t :: LexLeq(input, t) && LexLess(t, str) <==> input <= t
    ensures overflow ==> forall t :: LexLeq(input, t) <==> input <= t
  {
    str := input;
    var i := |str| - 1;
    while i >= 0
      invariant -1 <= i < |str| == |input|
      invariant str[..i + 1] == input[..i + 1]
      invariant forall j :: i < j < |input| ==> input[j] == 255
    {
      var was: int := str[i];
      str := str[i := (was + 1) % 256];
      if str[i] != 0 {
        break;
      }
      i := i - 1;
    }
    str := str[..i + 1];
    overflow := i < 0;
    if overflow {
      forall t ensures LexLeq(input, t) <==> input <= t {
        AllOnes(input, t);
      }
    } else {
      assert str[..i] == input[..i] && input[i] == input[..i + 1][i];
      forall t ensures LexLeq(input, t) && LexLess(t, str) <==> input <= t {
        Range(input, str, i, t);
      }
    }
  }

  /** `s` up to its last byte below 0xFF, with that byte raised, ends the range of strings that begin
      with `s`. */
  lemma Range(s: seq<byte>, end: seq<byte>, n: nat, t: seq<byte>)
    requires n < |s| && s[n] < 255 && forall j :: n < j < |s| ==> s[j] == 255
    requires |end| == n + 1 && end[..n] == s[..n] && end[n] == s[n] + 1
    ensures LexLeq(s, t) && LexLess(t, end) <==> s <= t
  {
    var i := FirstDifference(s, t);
    if i == |s| {
      assert s == t[..i];
      LexPrefix(s, t);
      assert t[n] == s[n] && t[..n] == s[..n];
      LexAt(t, end, n);
    } else if i == |t| {
      assert t == s[..i];
      LexPrefix(t, s);
    } else {
      LexAt(s, t, i);
      if t[i] > s[i] {
        assert i <= n;
        assert t[..i] == s[..i] == end[..i] by { assert end[..n][..i] == end[..i] && s[..n][..i] == s[..i]; }
        if i < n {
          assert end[i] == end[..n][i] && s[i] == s[..n][i];
          LexAt(t, end, i);
        } else if t[n] == end[n] {
          assert end == end[..n] + [end[n]] && end <= t;
          LexPrefix(end, t);
        } else {
          LexAt(t, end, n);
        }
      }
    }
  }

  /** Nothing but 0xFF: the range has no end, and starts with the prefix itself. */
  lemma AllOnes(s: seq<byte>, t: seq<byte>)
    requires forall j :: 0 <= j < |s| ==> s[j] == 255
    ensures LexLeq(s, t) <==> s <= t
  {
    var i := FirstDifference(s, t);
    if i == |s| {
      assert s == t[..i];
      LexPrefix(s, t);
    } else if i == |t| {
      assert t == s[..i];
      LexPrefix(t, s);
    } else {
      LexAt(s, t, i);
    }
  }
}
