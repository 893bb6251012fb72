/** The few operations of Go's `strings` package that the operator relies on. */
module Text {
  import opened Wrappers

  /** `strings.Split(s, sep)` for a separator of one character. */
  function Split(s: string, sep: char): (parts: seq<string>)
    ensures |parts| > 0
    ensures forall i :: 0 <= i < |parts| ==> sep !in parts[i]
  {
    if s == "" then
      [""]
    else
      Prepend(s[0], sep, Split(s[1..], sep))
  }

  /** What one more character in front makes of the parts. */
  function Prepend(c: char, sep: char, parts: seq<string>): (r: seq<string>)
    requires |parts| > 0
  {
    if c == sep then [""] + parts else [[c] + parts[0]] + parts[1..]
  }

  /** `strings.Replace(s, c, sub, -1)` for a pattern of one character. */
  function ReplaceAll(s: string, c: char, sub: string): string {
    if s == "" then "" else (if s[0] == c then sub else [s[0]]) + ReplaceAll(s[1..], c, sub)
  }

  predicate OccursAt(s: string, pattern: string, at: int) {
    0 <= at <= |s| && pattern <= s[at..]
  }

  /** `strings.Index(s, pattern)` */
  function Index(s: string, pattern: string): (r: Option<nat>)
    ensures r.Some? ==> OccursAt(s, pattern, r.value) && forall j | 0 <= j < r.value :: !OccursAt(s, pattern, j)
    ensures r.None? ==> forall j :: !OccursAt(s, pattern, j)
  {
    if pattern <= s then
      assert s[0..] == s;
      Some(0)
    else if s == "" then
      None
    else
      assert forall j | 0 < j <= |s| :: s[j..] == s[1..][j - 1..];
      var r := Index(s[1..], pattern);
      assert forall j | OccursAt(s, pattern, j) :: s[0..] == s && OccursAt(s[1..], pattern, j - 1);
      if r.None? then None else Some(r.value + 1)
  }

  /** `strings.Replace(s, pattern, sub, 1)` */
  function ReplaceFirst(s: string, pattern: string, sub: string): string {
    var at := Index(s, pattern);
    if at.None? then s else s[..at.value] + sub + s[at.value + |pattern|..]
  }

  lemma {:induction false} SplitConcat(a: string, b: string, sep: char)
    ensures Split(a + [sep] + b, sep) == Split(a, sep) + Split(b, sep)
  {
    var s := a + [sep] + b;
    if a == "" {
      assert s[1..] == b;
    } else {
      assert s[0] == a[0] && s[1..] == a[1..] + [sep] + b;
      SplitConcat(a[1..], b, sep);
      PrependConcat(a[0], sep, Split(a[1..], sep), Split(b, sep));
    }
  }

  lemma PrependConcat(c: char, sep: char, parts: seq<string>, more: seq<string>)
    requires |parts| > 0
    ensures Prepend(c, sep, parts + more) == Prepend(c, sep, parts) + more
  {
    assert (parts + more)[1..] == parts[1..] + more;
  }

  lemma {:induction false} SplitWhole(s: string, sep: char)
    ensures sep !in s <==> |Split(s, sep)| == 1
    ensures sep !in s ==> Split(s, sep) == [s]
  {
    if s != "" {
      SplitWhole(s[1..], sep);
      assert s == [s[0]] + s[1..];
    }
  }

  lemma {:induction false} ReplaceAllConcat(a: string, b: string, c: char, sub: string)
    ensures ReplaceAll(a + b, c, sub) == ReplaceAll(a, c, sub) + ReplaceAll(b, c, sub)
  {
    if a == "" {
      assert a + b == b;
    } else {
      assert (a + b)[1..] == a[1..] + b;
      ReplaceAllConcat(a[1..], b, c, sub);
    }
  }
}
