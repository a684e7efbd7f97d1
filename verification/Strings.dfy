/** Searching in strings. */
module Strings {
  import opened Options

  // `std::string::find`: the first occurrence.
  function Find(s: string, pat: string): Option<nat> {
    if |s| < |pat| then None
    else if s[..|pat|] == pat then Some(0)
    else if s == "" then None
    else match Find(s[1..], pat) case None => None case Some(i) => Some(i + 1)
  }

  predicate At(s: string, pat: string, i: nat) {
    i + |pat| <= |s| && s[i..i + |pat|] == pat
  }

  lemma AtFits(s: string, pat: string, i: nat)
    ensures At(s, pat, i) ==> i + |pat| <= |s|
  {
  }

  lemma AtTail(s: string, pat: string, j: nat)
    requires s != "" && j > 0
    ensures At(s, pat, j) <==> At(s[1..], pat, j - 1)
  {
    if j + |pat| <= |s| {
      assert s[j..j + |pat|] == s[1..][j - 1..j - 1 + |pat|];
    }
  }

  lemma {:induction false} FindSpec(s: string, pat: string)
    requires pat != ""
    ensures var f := Find(s, pat);
            && (f.Some? ==> At(s, pat, f.value))
            && (forall j :: 0 <= j && (f.Some? ==> j < f.value) ==> !At(s, pat, j))
    decreases |s|
  {
    if |s| >= |pat| && s[..|pat|] != pat {
      FindSpec(s[1..], pat);
      var f := Find(s, pat);
      if f.Some? {
        AtTail(s, pat, f.value);
      }
      forall j | 0 <= j && (f.Some? ==> j < f.value)
        ensures !At(s, pat, j)
      {
        if j > 0 {
          AtTail(s, pat, j);
        }
      }
    }
  }

  lemma FindIs(s: string, pat: string, i: nat)
    requires pat != "" && At(s, pat, i) && forall j :: 0 <= j < i ==> !At(s, pat, j)
    ensures Find(s, pat) == Some(i)
  {
    FindSpec(s, pat);
  }

  // What is found stays found when more arrives.
  lemma FindExtends(s: string, t: string, pat: string)
    requires pat != "" && Find(s, pat).Some?
    ensures Find(s + t, pat) == Find(s, pat)
  {
    FindSpec(s, pat);
    var i := Find(s, pat).value;
    assert (s + t)[i..i + |pat|] == s[i..i + |pat|];
    forall j | 0 <= j < i
      ensures !At(s + t, pat, j)
    {
      assert (s + t)[j..j + |pat|] == s[j..j + |pat|];
      assert !At(s, pat, j);
    }
    FindIs(s + t, pat, i);
  }

  // A search from a later place that does not skip the find.
  lemma FindDrop(s: string, pat: string, m: nat)
    requires pat != "" && Find(s, pat).Some? && m <= Find(s, pat).value
    ensures m <= |s| && Find(s[m..], pat) == Some(Find(s, pat).value - m)
  {
    hide Find;
    FindSpec(s, pat);
    var i := Find(s, pat).value;
    assert s[m..][i - m..i - m + |pat|] == s[i..i + |pat|];
    forall j | 0 <= j < i - m
      ensures !At(s[m..], pat, j)
    {
      assert s[m..][j..j + |pat|] == s[m + j..m + j + |pat|];
      assert !At(s, pat, m + j);
    }
    FindIs(s[m..], pat, i - m);
  }
}
