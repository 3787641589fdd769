/** Facts about strings built by concatenation around a delimiter. */
module Text {

  /** A string `a + [d] + rest` splits uniquely at its first `d`
      when the part before it never contains `d`. */
  lemma {:induction false} SplitAtDelimiter(a1: string, r1: string, a2: string, r2: string, d: char)
    requires d !in a1 && d !in a2
    requires a1 + [d] + r1 == a2 + [d] + r2
    ensures a1 == a2 && r1 == r2
  {
    var s := a1 + [d] + r1;
    assert forall i :: 0 <= i < |a1| ==> s[i] == a1[i];
    assert forall i :: 0 <= i < |a2| ==> s[i] == a2[i];
    assert s[|a1|] == d && s[|a2|] == d;
    assert |a1| == |a2|;
    assert a1 == s[..|a1|] == a2;
    assert r1 == s[|a1| + 1..] == r2;
  }

  /** A string `pre + a + mid + b` determines `a` and `b` when neither
      `pre` nor `a` contains the first character of the separator `mid`. */
  lemma {:induction false} SplitAtSeparator(pre: string, mid: string, a1: string, b1: string, a2: string, b2: string)
    requires |mid| > 0 && mid[0] !in pre && mid[0] !in a1 && mid[0] !in a2
    requires pre + a1 + mid + b1 == pre + a2 + mid + b2
    ensures a1 == a2 && b1 == b2
  {
    var d := mid[0];
    var t1, t2 := mid[1..] + b1, mid[1..] + b2;
    assert pre + a1 + mid + b1 == (pre + a1) + [d] + t1 by {
      assert mid == [d] + mid[1..];
    }
    assert pre + a2 + mid + b2 == (pre + a2) + [d] + t2 by {
      assert mid == [d] + mid[1..];
    }
    SplitAtDelimiter(pre + a1, t1, pre + a2, t2, d);
    assert a1 == (pre + a1)[|pre|..] == (pre + a2)[|pre|..] == a2;
    assert b1 == t1[|mid| - 1..] == t2[|mid| - 1..] == b2;
  }
}
