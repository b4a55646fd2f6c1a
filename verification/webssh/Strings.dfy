// Python's str.split with a one-character separator.
module Strings {

  /** What a character in front does to the parts. */
  function Extend(c: char, sep: char, parts: seq<string>): seq<string>
    requires parts != []
  {
    if c == sep then [""] + parts else [[c] + parts[0]] + parts[1..]
  }

  function Split(s: string, sep: char): (parts: seq<string>)
    ensures parts != []
  {
    if s == "" then [""] else Extend(s[0], sep, Split(s[1..], sep))
  }

  lemma SplitCons(c: char, s: string, sep: char)
    ensures Split([c] + s, sep) == Extend(c, sep, Split(s, sep))
  {
    assert ([c] + s)[1..] == s;
  }

  lemma ExtendConcat(c: char, sep: char, p: seq<string>, q: seq<string>)
    requires p != []
    ensures Extend(c, sep, p + q) == Extend(c, sep, p) + q
  {
  }

  /** A separator divides the parts before it from those after it. */
  lemma {:induction false} SplitAround(a: string, b: string, sep: char)
    ensures Split(a + [sep] + b, sep) == Split(a, sep) + Split(b, sep)
  {
    if a == "" {
      assert "" + [sep] + b == [sep] + b;
      SplitCons(sep, b, sep);
    } else {
      var t := a[1..] + [sep] + b;
      assert a + [sep] + b == [a[0]] + t && a == [a[0]] + a[1..];
      SplitCons(a[0], t, sep);
      SplitCons(a[0], a[1..], sep);
      SplitAround(a[1..], b, sep);
      ExtendConcat(a[0], sep, Split(a[1..], sep), Split(b, sep));
    }
  }

  /** One part is the whole text, and that means there is no separator in it. */
  lemma {:induction false} SinglePart(s: string, sep: char)
    ensures |Split(s, sep)| == 1 <==> sep !in s
    ensures |Split(s, sep)| == 1 ==> Split(s, sep) == [s]
  {
    if s != "" {
      SinglePart(s[1..], sep);
      assert s == [s[0]] + s[1..];
    }
  }
}
