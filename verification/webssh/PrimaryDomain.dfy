// is_same_primary_domain in utils.py: a scan from the right end of both names,
// and what it decides in terms of their dot-separated labels.
module PrimaryDomain {
  import opened Strings

  /** The labels of a name, left to right. */
  function Labels(s: string): (labels: seq<string>)
    ensures labels != []
  {
    Split(s, '.')
  }

  function LastTwo(labels: seq<string>): seq<string>
    requires |labels| >= 2
  {
    labels[|labels| - 2..]
  }

  /** The names are equal, or both have at least two labels and the last two agree. */
  predicate SamePrimary(a: string, b: string) {
    a == b || (|Labels(a)| >= 2 && |Labels(b)| >= 2 && LastTwo(Labels(a)) == LastTwo(Labels(b)))
  }

  function Joined(labels: seq<string>): string
    requires |labels| >= 2
  {
    LastTwo(labels)[0] + "." + LastTwo(labels)[1]
  }

  lemma JoinedExtend(c: char, labels: seq<string>)
    requires labels != [] && |Extend(c, '.', labels)| >= 2
    ensures |labels| == 1 ==> c == '.' && Joined(Extend(c, '.', labels)) == "." + labels[0]
    ensures |labels| == 2 && c != '.' ==> Joined(Extend(c, '.', labels)) == [c] + Joined(labels)
    ensures |labels| > 2 || (|labels| == 2 && c == '.') ==> Joined(Extend(c, '.', labels)) == Joined(labels)
  {
  }

  /** `before` is what `s` has in front of its last two labels: nothing, or text that ends in a dot. */
  ghost predicate Precedes(before: string, s: string, labels: seq<string>)
    requires |labels| >= 2
  {
    && s == before + Joined(labels)
    && (before == "" <==> |labels| == 2)
    && (before != "" ==> before[|before| - 1] == '.')
  }

  lemma PrecedesCons(c: char, t: string, rest: seq<string>, shorter: string) returns (before: string)
    requires rest != [] && |Extend(c, '.', rest)| >= 2
    requires if |rest| == 1 then rest == [t] else Precedes(shorter, t, rest)
    ensures Precedes(before, [c] + t, Extend(c, '.', rest))
  {
    JoinedExtend(c, rest);
    var labels := Extend(c, '.', rest);
    if |rest| == 1 {
      before := "";
      assert [c] + t == Joined(labels);
    } else if |rest| == 2 && c != '.' {
      before := "";
      assert shorter == "" && t == Joined(rest);
    } else {
      before := [c] + shorter;
      assert [c] + t == before + Joined(rest);
      assert |labels| > 2;
      assert shorter == "" ==> c == '.';
    }
  }

  /** A name ends in its last two labels; what comes before them is nothing or ends in a dot. */
  lemma {:induction false} EndsInLastTwo(s: string) returns (before: string)
    requires |Labels(s)| >= 2
    ensures Precedes(before, s, Labels(s))
  {
    var c, t := s[0], s[1..];
    var rest, shorter := Labels(t), "";
    if |rest| == 1 {
      SinglePart(t, '.');
    } else {
      shorter := EndsInLastTwo(t);
    }
    before := PrecedesCons(c, t, rest, shorter);
    assert s == [c] + t;
  }

  // ----- what each exit of the scan establishes

  /** The scan has met its second dot. */
  lemma SecondDot(a: string, b: string, p: string, q: string, common: string)
    requires a == p + "." + common && b == q + "." + common && |Labels(common)| == 2
    ensures SamePrimary(a, b)
  {
    SplitAround(p, common, '.');
    SplitAround(q, common, '.');
    assert LastTwo(Labels(a)) == Labels(common) == LastTwo(Labels(b));
  }

  /** The scan has met two different characters before its second dot. */
  lemma Mismatch(a: string, b: string, p: string, q: string, c: char, d: char, common: string)
    requires a == p + [c] + common && b == q + [d] + common && c != d && |Labels(common)| <= 2
    ensures !SamePrimary(a, b)
  {
    var k := |common|;
    assert a[|a| - k - 1] == c && b[|b| - k - 1] == d;
    assert a[|a| - k..] == common == b[|b| - k..];
    if SamePrimary(a, b) {
      var x := EndsInLastTwo(a);
      var y := EndsInLastTwo(b);
      var tail := Joined(Labels(a));
      assert tail == Joined(Labels(b));
      if k > |tail| {
        MoreLabels(common, tail);
      }
    }
  }

  /** Text that ends in a dot and a two-label tail has three labels or more. */
  lemma MoreLabels(s: string, tail: string)
    requires |s| > |tail| && s[|s| - |tail|..] == tail && s[|s| - |tail| - 1] == '.' && '.' in tail
    ensures |Labels(s)| > 2
  {
    var p := s[..|s| - |tail| - 1];
    assert s == p + "." + tail;
    SplitAround(p, tail, '.');
    if |Labels(tail)| == 1 {
      SinglePart(tail, '.');
    }
  }

  lemma DotBeforeTail(long: string, p: string, c: char, tail: string)
    requires long == p + [c] + tail && |Labels(long)| >= 2 && Joined(Labels(long)) == tail
    ensures c == '.'
  {
    var before := EndsInLastTwo(long);
    assert long[|p|] == before[|before| - 1];
  }

  /** The scan has used up the shorter name, and the longer one goes on with `c`. */
  lemma ShorterIsSuffix(short: string, long: string, p: string, c: char)
    requires long == p + [c] + short && |Labels(short)| <= 2
    ensures SamePrimary(short, long) <==> |Labels(short)| == 2 && c == '.'
  {
    if |Labels(short)| == 2 {
      var none := EndsInLastTwo(short);
      if c == '.' {
        SplitAround(p, short, '.');
        assert LastTwo(Labels(long)) == Labels(short) == LastTwo(Labels(short));
      } else if SamePrimary(short, long) {
        DotBeforeTail(long, p, c, short);
      }
    }
  }

  // ----- the scan

  /** The last `k` characters of both names agree, and `dots` of them are dots. */
  ghost predicate Scanned(a: string, b: string, k: nat, dots: nat)
    requires k <= |a| && k <= |b|
  {
    if k == 0 then dots == 0
    else
      && a[|a| - k] == b[|b| - k]
      && if a[|a| - k] == '.' then dots > 0 && Scanned(a, b, k - 1, dots - 1) else Scanned(a, b, k - 1, dots)
  }

  lemma {:induction false} ScannedIsCommonSuffix(a: string, b: string, k: nat, dots: nat)
    requires k <= |a| && k <= |b| && Scanned(a, b, k, dots)
    ensures a[|a| - k..] == b[|b| - k..] && |Labels(a[|a| - k..])| == dots + 1
  {
    if k > 0 {
      var c := a[|a| - k];
      ScannedIsCommonSuffix(a, b, k - 1, if c == '.' then dots - 1 else dots);
      assert a[|a| - k..] == [c] + a[|a| - (k - 1)..] && b[|b| - k..] == [c] + b[|b| - (k - 1)..];
      SplitCons(c, a[|a| - (k - 1)..], '.');
    }
  }

  lemma Around(s: string, k: nat)
    requires k < |s|
    ensures s == s[..|s| - k - 1] + [s[|s| - k - 1]] + s[|s| - k..]
  {
  }

  /** What reading the next character of both names settles. */
  lemma ReadBoth(a: string, b: string, k: nat, dots: nat)
    requires k < |a| && k < |b| && Scanned(a, b, k, dots) && dots <= 1
    ensures a[|a| - k - 1] != b[|b| - k - 1] ==> !SamePrimary(a, b)
    ensures a[|a| - k - 1] == b[|b| - k - 1] == '.' && dots == 1 ==> SamePrimary(a, b)
  {
    var common := a[|a| - k..];
    ScannedIsCommonSuffix(a, b, k, dots);
    Around(a, k);
    Around(b, k);
    var p, q, c, d := a[..|a| - k - 1], b[..|b| - k - 1], a[|a| - k - 1], b[|b| - k - 1];
    if c != d {
      Mismatch(a, b, p, q, c, d, common);
    } else if c == '.' && dots == 1 {
      SecondDot(a, b, p, q, common);
    }
  }

  /** What is left to decide when the scan has used up a name. */
  lemma ScanUsedUp(a: string, b: string, k: nat, dots: nat)
    requires k == (if |a| < |b| then |a| else |b|) && Scanned(a, b, k, dots) && dots <= 1
    ensures SamePrimary(a, b) <==>
      |a| == |b| || (dots == 1 && (if |a| > k then a[|a| - k - 1] else b[|b| - k - 1]) == '.')
  {
    ScannedIsCommonSuffix(a, b, k, dots);
    if |a| > k {
      assert b[|b| - k..] == b;
      Around(a, k);
      ShorterIsSuffix(b, a, a[..|a| - k - 1], a[|a| - k - 1]);
    } else if |b| > k {
      assert a[|a| - k..] == a;
      Around(b, k);
      ShorterIsSuffix(a, b, b[..|b| - k - 1], b[|b| - k - 1]);
    } else {
      assert a[|a| - k..] == a && b[|b| - k..] == b;
    }
  }

  /** The scan decides exactly whether the two names share their last two labels. */
  method IsSamePrimaryDomain(domain1: string, domain2: string) returns (same: bool)
    ensures same == SamePrimary(domain1, domain2)
  {
    var i, dots := -1, 0;
    var l1, l2 := |domain1|, |domain2|;
    var m := if l1 < l2 then l1 else l2;
    while i >= -m
      invariant -m - 1 <= i <= -1 && 0 <= dots <= 1
      invariant Scanned(domain1, domain2, -i - 1, dots)
      decreases i + m
    {
      var c1, c2 := domain1[l1 + i], domain2[l2 + i];
      ReadBoth(domain1, domain2, -i - 1, dots);
      if c1 == c2 {
        if c1 == '.' {
          dots := dots + 1;
          if dots == 2 {
            return true;
          }
        }
      } else {
        return false;
      }
      i := i - 1;
    }
    ScanUsedUp(domain1, domain2, m, dots);
    if l1 == l2 {
      return true;
    }
    if dots == 0 {
      return false;
    }
    var c := if l1 > m then domain1[l1 + i] else domain2[l2 + i];
    return c == '.';
  }

  /** Sharing a primary domain is an equivalence, so the policy `primary` splits the origins into classes. */
  lemma SamePrimaryIsEquivalence(a: string, b: string, c: string)
    ensures SamePrimary(a, a)
    ensures SamePrimary(a, b) == SamePrimary(b, a)
    ensures SamePrimary(a, b) && SamePrimary(b, c) ==> SamePrimary(a, c)
  {
  }
}
