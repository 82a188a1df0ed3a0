/** Reading a text file turns every line ending into a single newline. */
module Newlines {
  import Text

  function OneNewline(c: char): char {
    if c == '\r' then '\n' else c
  }

  /** Universal newlines: CR LF and a lone CR both read back as LF. */
  function Normalize(s: string): string {
    if s == "" then ""
    else if |s| > 1 && s[0] == '\r' && s[1] == '\n' then Normalize(s[1..])
    else [OneNewline(s[0])] + Normalize(s[1..])
  }

  predicate NoReturns(texts: seq<string>) {
    forall t :: t in texts ==> '\r' !in t
  }

  lemma {:induction false} NormalizedHasNoReturn(s: string)
    ensures '\r' !in Normalize(s)
  {
    if s != "" { NormalizedHasNoReturn(s[1..]); }
  }

  lemma {:induction false} NormalizePrefix(a: string, b: string)
    requires '\r' !in a
    ensures Normalize(a + b) == a + Normalize(b)
  {
    if a == "" {
      assert a + b == b;
    } else {
      NormalizePrefix(a[1..], b);
      assert (a + b)[1..] == a[1..] + b;
    }
  }

  /** Unless a line ending is cut in two, texts are normalised part by part. */
  lemma {:induction false} NormalizeConcat(a: string, b: string)
    requires b == "" || b[0] != '\n'
    ensures Normalize(a + b) == Normalize(a) + Normalize(b)
  {
    if a == "" {
      assert a + b == b;
    } else {
      NormalizeConcat(a[1..], b);
      assert (a + b)[1..] == a[1..] + b;
    }
  }

  /** Text survives being written and read exactly when it holds no carriage return. */
  lemma NormalizeFixes(s: string)
    ensures Normalize(s) == s <==> '\r' !in s
  {
    NormalizedHasNoReturn(s);
    if '\r' !in s {
      NormalizePrefix(s, "");
      assert s + "" == s;
    }
  }

  lemma {:induction false} NormalizeSnoc(a: string, c: char)
    ensures Normalize(a + [c]) ==
            if c == '\n' && a != "" && a[|a| - 1] == '\r' then Normalize(a)
            else Normalize(a) + [OneNewline(c)]
  {
    var s := a + [c];
    if a == "" {
      assert s[1..] == "";
    } else {
      assert s[1..] == a[1..] + [c];
      NormalizeSnoc(a[1..], c);
    }
  }

  lemma StripLeftCons(c: char, s: string)
    ensures Text.StripLeft([c] + s) == if Text.IsSpace(c) then Text.StripLeft(s) else [c] + s
  {
    assert ([c] + s)[1..] == s;
  }

  lemma {:induction false} StripLeftNormalize(s: string)
    ensures Text.StripLeft(Normalize(s)) == Normalize(Text.StripLeft(s))
  {
    if s != "" && Text.IsSpace(s[0]) {
      StripLeftNormalize(s[1..]);
      StripLeftCons(OneNewline(s[0]), Normalize(s[1..]));
      assert Text.StripLeft(s) == Text.StripLeft(s[1..]);
    } else if s != "" {
      StripLeftCons(s[0], Normalize(s[1..]));
    }
  }

  lemma {:induction false} StripRightNormalize(s: string)
    ensures Text.StripRight(Normalize(s)) == Normalize(Text.StripRight(s))
    decreases |s|
  {
    if s != "" {
      var a, c := s[..|s| - 1], s[|s| - 1];
      assert s == a + [c];
      NormalizeSnoc(a, c);
      if Text.IsSpace(c) {
        StripRightNormalize(a);
        if !(c == '\n' && a != "" && a[|a| - 1] == '\r') {
          assert (Normalize(a) + [OneNewline(c)])[..|Normalize(a)|] == Normalize(a);
        }
      }
    }
  }

  lemma StripNormalize(s: string)
    ensures Text.Strip(Normalize(s)) == Normalize(Text.Strip(s))
  {
    StripLeftNormalize(s);
    StripRightNormalize(Text.StripLeft(s));
  }
}
