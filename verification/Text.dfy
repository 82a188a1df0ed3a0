/** String primitives the modelled code relies on: number printing, splitting, stripping, ordering. */
module Text {

  // ---------------------------------------------------------------- decimal printing

  predicate IsDigits(s: string) {
    forall i :: 0 <= i < |s| ==> '0' <= s[i] <= '9'
  }

  function Digit(d: nat): (c: char)
    requires d < 10
    ensures '0' <= c <= '9' && c as int - '0' as int == d
  {
    '0' + d as char
  }

  /** `n` in decimal, padded with leading zeros to at least `width` characters (`f"{n:0{width}d}"`). */
  function Padded(n: nat, width: nat): (s: string)
    ensures IsDigits(s) && 0 < |s| && width <= |s|
    decreases n, width
  {
    if n < 10 && width <= 1 then [Digit(n)]
    else Padded(n / 10, if width == 0 then 0 else width - 1) + [Digit(n % 10)]
  }

  /** `n` in decimal (`str(n)`). */
  function Decimal(n: nat): string {
    Padded(n, 1)
  }

  /** The number a digit string denotes; leading zeros do not matter. */
  function Value(s: string): nat
    requires IsDigits(s)
  {
    if s == "" then 0 else 10 * Value(s[..|s| - 1]) + (s[|s| - 1] as int - '0' as int)
  }

  /** Printing is undone by reading, whatever the width: no two numbers share a printed form. */
  lemma {:induction false} ValueOfPadded(n: nat, width: nat)
    ensures Value(Padded(n, width)) == n
    decreases n, width
  {
    if !(n < 10 && width <= 1) {
      var w := if width == 0 then 0 else width - 1;
      var front := Padded(n / 10, w);
      ValueOfPadded(n / 10, w);
      assert (front + [Digit(n % 10)])[..|front|] == front;
    } else {
      assert Padded(n, width)[..0] == "";
    }
  }

  // ---------------------------------------------------------------- prefixes and splitting

  predicate StartsWith(s: string, prefix: string) {
    prefix <= s
  }

  predicate EndsWith(s: string, suffix: string) {
    |suffix| <= |s| && s[|s| - |suffix|..] == suffix
  }

  /** What precedes the last occurrence of `c`, or all of `s` without one (`s.rsplit(c, 1)[0]`). */
  function BeforeLast(s: string, c: char): string {
    if s == "" then ""
    else if s[|s| - 1] == c then s[..|s| - 1]
    else if c in s then BeforeLast(s[..|s| - 1], c)
    else s
  }

  /** What follows the last occurrence of `c`, or all of `s` without one. */
  function AfterLast(s: string, c: char): string {
    if s == "" || s[|s| - 1] == c then "" else AfterLast(s[..|s| - 1], c) + [s[|s| - 1]]
  }

  lemma {:induction false} SplitLast(head: string, c: char, tail: string)
    requires c !in tail
    ensures BeforeLast(head + [c] + tail, c) == head
    ensures AfterLast(head + [c] + tail, c) == tail
  {
    var s := head + [c] + tail;
    if tail == "" {
      assert s == head + [c];
    } else {
      var shorter := tail[..|tail| - 1];
      assert s[..|s| - 1] == head + [c] + shorter;
      assert s[|s| - 1] == tail[|tail| - 1] && s[|head|] == c;
      SplitLast(head, c, shorter);
    }
  }

  /** The parts of `s` between the occurrences of `c` (`s.split(c)`). */
  function Split(s: string, c: char): (r: seq<string>)
    ensures r != []
  {
    if s == "" then [""]
    else if s[0] == c then [""] + Split(s[1..], c)
    else
      var rest := Split(s[1..], c);
      [[s[0]] + rest[0]] + rest[1..]
  }

  lemma {:induction false} SplitNone(s: string, c: char)
    requires c !in s
    ensures Split(s, c) == [s]
  {
    if s != "" {
      SplitNone(s[1..], c);
      assert s == [s[0]] + s[1..];
    }
  }

  lemma {:induction false} SplitFirst(head: string, c: char, tail: string)
    requires c !in head
    ensures Split(head + [c] + tail, c) == [head] + Split(tail, c)
  {
    var s := head + [c] + tail;
    if head == "" {
      assert s[1..] == tail;
    } else {
      assert s[1..] == head[1..] + [c] + tail;
      SplitFirst(head[1..], c, tail);
      assert [head[0]] + head[1..] == head;
    }
  }

  /** The index of the first occurrence of `sep`, or `|s|` without one. */
  function Find(s: string, sep: string): (i: nat)
    ensures i == |s| || i + |sep| <= |s|
  {
    if s == "" || sep <= s then 0 else 1 + Find(s[1..], sep)
  }

  lemma {:induction false} FindIs(s: string, sep: string, i: nat)
    requires i <= |s| && (i == |s| || sep <= s[i..])
    requires forall j :: 0 <= j < i ==> !(sep <= s[j..])
    ensures Find(s, sep) == i
  {
    if i > 0 {
      assert !(sep <= s[0..]);
      assert s[0..] == s;
      assert s[1..][i - 1..] == s[i..];
      forall j | 0 <= j < i - 1 ensures !(sep <= s[1..][j..]) {
        assert s[1..][j..] == s[j + 1..];
      }
      FindIs(s[1..], sep, i - 1);
    }
  }

  lemma {:induction false} FindFirst(s: string, sep: string)
    requires sep != ""
    ensures Find(s, sep) < |s| ==> sep <= s[Find(s, sep)..]
    ensures forall j :: 0 <= j < Find(s, sep) ==> !(sep <= s[j..])
    ensures Find(s, sep) < |s| <==> Contains(s, sep)
  {
    if s != "" && !(sep <= s) {
      FindFirst(s[1..], sep);
      forall j | 0 <= j < Find(s, sep) ensures !(sep <= s[j..]) {
        if j > 0 { assert s[1..][j - 1..] == s[j..]; } else { assert s[0..] == s; }
      }
      if Find(s, sep) < |s| { assert s[1..][Find(s, sep) - 1..] == s[Find(s, sep)..]; }
    } else if s != "" {
      assert s[0..] == s;
    }
  }

  lemma {:induction false} FindAtMost(s: string, sep: string, i: nat)
    requires i < |s| && sep <= s[i..]
    ensures Find(s, sep) <= i
  {
    if i > 0 {
      assert s[1..][i - 1..] == s[i..];
      FindAtMost(s[1..], sep, i - 1);
    } else {
      assert s[0..] == s;
    }
  }

  predicate Contains(s: string, sep: string) {
    exists i :: 0 <= i <= |s| && sep <= s[i..]
  }

  // ---------------------------------------------------------------- stripping

  /** The white space that `str.strip` removes, restricted to the ASCII characters. */
  predicate IsSpace(c: char) {
    9 <= c as int <= 13 || 28 <= c as int <= 32
  }

  function StripLeft(s: string): (r: string)
    ensures r == "" || !IsSpace(r[0])
  {
    if s == "" || !IsSpace(s[0]) then s else StripLeft(s[1..])
  }

  function StripRight(s: string): (r: string)
    ensures r <= s
    ensures r == "" || !IsSpace(r[|r| - 1])
  {
    if s == "" || !IsSpace(s[|s| - 1]) then s else StripRight(s[..|s| - 1])
  }

  function Strip(s: string): string {
    StripRight(StripLeft(s))
  }

  /** Stripping only removes characters. */
  lemma StripWithin(s: string)
    ensures forall c :: c in Strip(s) ==> c in s
  {
    StripLeftWithin(s);
    var t := StripLeft(s);
    forall k | 0 <= k < |Strip(s)| ensures Strip(s)[k] in s {
      assert Strip(s)[k] == t[k] == s[|s| - |t|..][k];
    }
  }

  lemma {:induction false} StripLeftWithin(s: string)
    ensures |StripLeft(s)| <= |s| && s[|s| - |StripLeft(s)|..] == StripLeft(s)
  {
    if s != "" && IsSpace(s[0]) { StripLeftWithin(s[1..]); }
  }

  lemma {:induction false} StripLeftPrefix(a: string, b: string, i: nat)
    requires i < |a| && !IsSpace(a[i])
    ensures StripLeft(a) != "" && StripLeft(a + b) == StripLeft(a) + b
  {
    if IsSpace(a[0]) {
      assert (a + b)[1..] == a[1..] + b;
      StripLeftPrefix(a[1..], b, i - 1);
    }
  }

  lemma {:induction false} StripRightSuffix(a: string, b: string)
    requires a == "" || b == "" || StripRight(b) != ""
    ensures StripRight(b) != "" ==> StripRight(a + b) == a + StripRight(b)
    decreases |b|
  {
    if b != "" && IsSpace(b[|b| - 1]) && StripRight(b) != "" {
      StripRightSuffix(a, b[..|b| - 1]);
      assert (a + b)[..|a + b| - 1] == a + b[..|b| - 1];
    }
  }

  /** Text behind a word is never what stripping both leaves. */
  lemma StripAfterWord(a: string, b: string, i: nat)
    requires i < |a| && !IsSpace(a[i])
    ensures Strip(a + b) != "" && Strip(a + b) != Strip(b)
  {
    StripLeftPrefix(a, b, i);
    StripLeftWithin(b);
    var t := StripLeft(b);
    var u := StripLeft(a) + b[..|b| - |t|];
    assert StripLeft(a) + b == u + t;
    if Strip(b) != "" {
      StripRightSuffix(u, t);
    } else {
      StripRightKeeps(StripLeft(a + b));
    }
  }

  /** Before a text that does not start with white space, only leading white space is lost. */
  lemma StripBefore(a: string, b: string)
    requires b != "" && !IsSpace(b[0])
    ensures Strip(a + b) == StripLeft(a) + StripRight(b)
  {
    StripLeftBefore(a, b);
    StripRightKeeps(b);
    StripRightSuffix(StripLeft(a), b);
  }

  lemma SameFront(a: string, b: string, c: string)
    requires a + c == b + c
    ensures a == b
  {
    assert |a| == |b|;
    assert (a + c)[..|a|] == a && (b + c)[..|b|] == b;
  }

  lemma {:induction false} StripLeftBefore(a: string, b: string)
    requires b != "" && !IsSpace(b[0])
    ensures StripLeft(a + b) == StripLeft(a) + b
  {
    if a == "" {
      assert a + b == b;
    } else if IsSpace(a[0]) {
      assert (a + b)[1..] == a[1..] + b;
      StripLeftBefore(a[1..], b);
    }
  }

  lemma {:induction false} StripRightKeeps(s: string)
    requires s != "" && !IsSpace(s[0])
    ensures StripRight(s) != ""
    decreases |s|
  {
    if IsSpace(s[|s| - 1]) { StripRightKeeps(s[..|s| - 1]); }
  }

  // ---------------------------------------------------------------- ordering

  /** Lexicographic order by character code. */
  predicate Less(a: string, b: string) {
    if b == "" then false
    else if a == "" then true
    else if a[0] == b[0] then Less(a[1..], b[1..])
    else a[0] < b[0]
  }

  lemma {:induction false} LessIrreflexive(a: string)
    ensures !Less(a, a)
  {
    if a != "" { LessIrreflexive(a[1..]); }
  }

  lemma {:induction false} LessTransitive(a: string, b: string, c: string)
    requires Less(a, b) && Less(b, c)
    ensures Less(a, c)
  {
    if a != "" && a[0] == b[0] == c[0] { LessTransitive(a[1..], b[1..], c[1..]); }
  }

  lemma {:induction false} LessConnected(a: string, b: string)
    requires a != b
    ensures Less(a, b) || Less(b, a)
  {
    if a != "" && b != "" && a[0] == b[0] {
      assert a == [a[0]] + a[1..] && b == [b[0]] + b[1..];
      LessConnected(a[1..], b[1..]);
    }
  }

  /** The first difference decides, and a text comes before its continuations. */
  lemma {:induction false} LessMeans(a: string, b: string) returns (i: nat)
    requires Less(a, b)
    ensures i <= |a| && i < |b| && a[..i] == b[..i] && (i == |a| || a[i] < b[i])
  {
    i := 0;
    if a != "" && a[0] == b[0] {
      var k := LessMeans(a[1..], b[1..]);
      i := k + 1;
      assert a[..i] == [a[0]] + a[1..][..k] && b[..i] == [b[0]] + b[1..][..k];
    }
  }
}
